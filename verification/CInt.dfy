/** C's integer division, which truncates toward zero, and 64-bit words. */
module CInt {
  const Word64: int := 0x1_0000_0000_0000_0000
  const Half64: int := 0x8000_0000_0000_0000

  predicate Int64(x: int) { -Half64 <= x < Half64 }

  function Abs(x: int): nat { if x < 0 then -x else x }

  function Quot(a: int, b: int): int
    requires b > 0
  {
    if a >= 0 then a / b else -(-a / b)
  }

  function Rem(a: int, b: int): int
    requires b > 0
  {
    a - b * Quot(a, b)
  }

  /** A 64-bit difference read as a signed number. */
  function Signed64(x: int): (r: int)
    ensures Int64(r)
  {
    var u := x % Word64;
    if u < Half64 then u else u - Word64
  }

  /** `/` is the floor. */
  lemma FloorIs(a: int, b: int, q: int)
    requires b > 0 && b * q <= a < b * q + b
    ensures a / b == q
  {
    var r := a - b * q;
    assert a == b * q + r && a == b * (a / b) + a % b;
    var d := a / b - q;
    assert b * (a / b) - b * q == b * d;
    if d >= 1 { MulMono(b, 1, d); }
    if d <= -1 { MulMono(b, d, -1); }
  }

  lemma MulMono(b: int, x: int, y: int)
    requires b >= 0 && x <= y
    ensures b * x <= b * y
  {
    assert b * y - b * x == b * (y - x);
  }

  lemma FloorBounds(a: int, b: int)
    requires b > 0
    ensures b * (a / b) <= a < b * (a / b) + b
  {
    assert a == b * (a / b) + a % b;
  }

  /** Quotient and remainder have the sign of the dividend. */
  lemma QuotBounds(a: int, b: int)
    requires b > 0
    ensures a >= 0 ==> 0 <= b * Quot(a, b) <= a < b * Quot(a, b) + b && Quot(a, b) >= 0
    ensures a <= 0 ==> b * Quot(a, b) - b < a <= b * Quot(a, b) <= 0 && Quot(a, b) <= 0
  {
    FloorBounds(a, b);
    FloorBounds(-a, b);
    if a >= 0 && a / b < 0 { MulMono(b, a / b, -1); }
    if a <= 0 && -a / b < 0 { MulMono(b, -a / b, -1); }
    assert b * -(-a / b) == -(b * (-a / b));
  }

  /** A whole part can be split off when the rest has its sign. */
  lemma QuotSplit(w: int, x: int, b: int)
    requires b > 0 && ((w >= 0 && x >= 0) || (w <= 0 && x <= 0))
    ensures Quot(w * b + x, b) == w + Quot(x, b)
  {
    QuotBounds(x, b);
    var q := Quot(x, b);
    if w >= 0 && x >= 0 {
      MulMono(b, 0, w);
      assert b * (w + q) == w * b + b * q;
      FloorIs(w * b + x, b, w + q);
    } else {
      MulMono(b, w, 0);
      assert b * -(w + q) == -(w * b) - b * q;
      FloorIs(-(w * b + x), b, -(w + q));
    }
  }

  /** Counter readings less than half a wrap apart. */
  lemma SignedDifference(a: nat, b: nat)
    requires -Half64 <= b - a < Half64
    ensures Signed64(b % Word64 - a % Word64) == b - a
  {
    var x, y := a / Word64, b / Word64;
    assert b % Word64 - a % Word64 == (b - a) + Word64 * (x - y);
    var u := (b % Word64 - a % Word64) % Word64;
    var v := if b >= a then b - a else b - a + Word64;
    assert 0 <= v < Word64;
    assert v == u by {
      var t := (b % Word64 - a % Word64) / Word64;
      assert b % Word64 - a % Word64 == Word64 * t + u;
      assert v - u == Word64 * ((v - (b - a)) / Word64 - (x - y) + t);
    }
  }
}
