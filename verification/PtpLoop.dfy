/** The closed loop of servo and clock once the servo is locked: an oscillator of
    constant drift (ppb), a sync interval of T nanoseconds, and the offset that the
    next measurement sees. */
module PtpLoop {
  import opened CInt
  import opened PtpClock
  import opened PtpServo

  const Giga: real := 1000000000.0

  /** True offset of the slave, and the servo's estimate of the drift. */
  datatype Loop = Loop(offset: real, estimate: real) {
    /** The frequency error, as nanoseconds gained in one interval. */
    ghost function Error(drift: real, T: real): real {
      T * (drift - estimate) / Giga
    }
  }

  /** The estimate moves by i, the clock is slowed by the estimate and by p, and runs
      like that for one interval. */
  ghost function Moved(l: Loop, i: real, p: real, drift: real, T: real): Loop {
    Loop(l.offset + T * (drift - (l.estimate + i + p)) / Giga, l.estimate + i)
  }

  ghost function ExactProportional(o: real, T: real): real
    requires T > 0.0
  {
    o * 3.0 * Giga / (10.0 * T)
  }

  ghost function ExactIntegral(o: real, T: real): real
    requires T > 0.0
  {
    o * Giga / (20.0 * T)
  }

  /** One locked sample in exact arithmetic, with gains of 3/10 and 1/20. */
  ghost function Exact(l: Loop, drift: real, T: real): Loop
    requires T > 0.0
  {
    Moved(l, ExactIntegral(l.offset, T), ExactProportional(l.offset, T), drift, T)
  }

  /** The energy of a loop with offset o and frequency error e. */
  ghost function Energy(o: real, e: real): real {
    o * o / 20.0 - 7.0 * o * e / 20.0 + e * e
  }

  ghost function EnergyOf(l: Loop, drift: real, T: real): real {
    Energy(l.offset, l.Error(drift, T))
  }

  lemma EnergyIsPositive(o: real, e: real)
    ensures Energy(o, e) >= 31.0 / 1600.0 * (o * o) >= 0.0
  {
    var d := e - 7.0 * o / 40.0;
    assert Energy(o, e) == d * d + 31.0 / 1600.0 * (o * o);
    assert d * d >= 0.0 && o * o >= 0.0;
  }

  lemma PositiveProduct(x: real, y: real, product: real)
    requires product == x * y && x > 0.0 && y > 0.0
    ensures product > 0.0
  {
  }

  lemma SquarePositive(x: real, square: real)
    requires square == x * x && x != 0.0
    ensures square > 0.0
  {
    if x > 0.0 {
      PositiveProduct(x, x, square);
    } else {
      PositiveProduct(-x, -x, square);
    }
  }

  lemma EnergyIsDefinite(o: real, e: real)
    ensures Energy(o, e) == 0.0 <==> o == 0.0 && e == 0.0
  {
    EnergyIsPositive(o, e);
    var x, y := o * o, e * e;
    if o != 0.0 {
      SquarePositive(o, x);
    } else {
      assert x == 0.0 && o * e == 0.0 && Energy(o, e) == y;
      if e != 0.0 { SquarePositive(e, y); }
    }
  }

  lemma ExactMoves(l: Loop, drift: real, T: real)
    requires T > 0.0
    ensures Exact(l, drift, T).offset == 65.0 / 100.0 * l.offset + l.Error(drift, T)
    ensures Exact(l, drift, T).Error(drift, T) == l.Error(drift, T) - l.offset / 20.0
  {
    var p := l.offset * 3.0 * Giga / (10.0 * T);
    var i := l.offset * Giga / (20.0 * T);
    assert T * p == 3.0 / 10.0 * l.offset * Giga by { Divides(l.offset * 3.0 * Giga, 10.0, T, p); }
    assert T * i == l.offset / 20.0 * Giga by { Divides(l.offset * Giga, 20.0, T, i); }
    assert T * (drift - (l.estimate + i + p)) == T * (drift - l.estimate) - T * i - T * p;
    assert T * (drift - (l.estimate + i)) == T * (drift - l.estimate) - T * i;
  }

  lemma Divides(x: real, k: real, T: real, q: real)
    requires T > 0.0 && k > 0.0 && k * T != 0.0 && q == x / (k * T)
    ensures T * q == x / k
  {
    assert q * (k * T) == x;
    assert k * (T * q) == x;
  }

  /** Every locked sample multiplies the energy by exactly 7/10. */
  lemma ExactContracts(l: Loop, drift: real, T: real)
    requires T > 0.0
    ensures EnergyOf(Exact(l, drift, T), drift, T) == 7.0 / 10.0 * EnergyOf(l, drift, T)
  {
    ExactMoves(l, drift, T);
    EnergyMoves(l.offset, l.Error(drift, T));
  }

  lemma EnergyMoves(o: real, e: real)
    ensures Energy(65.0 / 100.0 * o + e, e - o / 20.0) == 7.0 / 10.0 * Energy(o, e)
  {
  }

  ghost function ExactRun(l: Loop, drift: real, T: real, n: nat): Loop
    requires T > 0.0
  {
    if n == 0 then l else Exact(ExactRun(l, drift, T, n - 1), drift, T)
  }

  ghost function Pow(b: real, n: nat): real {
    if n == 0 then 1.0 else b * Pow(b, n - 1)
  }

  lemma {:induction false} ExactRunContracts(l: Loop, drift: real, T: real, n: nat)
    requires T > 0.0
    ensures EnergyOf(ExactRun(l, drift, T, n), drift, T) == Pow(7.0 / 10.0, n) * EnergyOf(l, drift, T)
  {
    if n > 0 {
      ExactRunContracts(l, drift, T, n - 1);
      ExactContracts(ExactRun(l, drift, T, n - 1), drift, T);
    }
  }

  /** A factor below one brings everything below any bound. */
  lemma {:induction false} PowVanishes(n: nat)
    ensures 0.0 < Pow(7.0 / 10.0, n) && Pow(7.0 / 10.0, n) * (1.0 + 3.0 / 7.0 * n as real) <= 1.0
  {
    if n > 0 {
      PowVanishes(n - 1);
      var p, m := Pow(7.0 / 10.0, n - 1), (n - 1) as real;
      assert 7.0 / 10.0 * (1.0 + 3.0 / 7.0 * (m + 1.0)) <= 1.0 + 3.0 / 7.0 * m;
      Scale(p, 7.0 / 10.0 * (1.0 + 3.0 / 7.0 * (m + 1.0)), 1.0 + 3.0 / 7.0 * m);
      assert n as real == m + 1.0;
      assert p * (7.0 / 10.0 * (1.0 + 3.0 / 7.0 * n as real)) == Pow(7.0 / 10.0, n) * (1.0 + 3.0 / 7.0 * n as real);
    }
  }

  lemma Scale(p: real, x: real, y: real)
    requires p >= 0.0 && x <= y
    ensures p * x <= p * y
  {
    assert p * (y - x) >= 0.0;
  }

  /** Samples enough for the square of the offset to fall below `square`. */
  ghost predicate Settles(v: real, square: real, n: nat) {
    31.0 / 1600.0 * square * (1.0 + 3.0 / 7.0 * n as real) > v
  }

  ghost predicate SquareLess(x: real, square: real) {
    x * x < square
  }

  /** From every start the offset converges to zero: for each bound eps there is
      a sample after which it stays below it. */
  lemma ExactConverges(l: Loop, drift: real, T: real, eps: real) returns (start: nat)
    requires T > 0.0 && eps > 0.0
    ensures forall n: nat :: n >= start ==> -eps < ExactRun(l, drift, T, n).offset < eps
  {
    var square := eps * eps;
    SquarePositive(eps, square);
    start := ExactSettles(l, drift, T, eps, square);
  }

  lemma ExactSettles(l: Loop, drift: real, T: real, eps: real, square: real) returns (start: nat)
    requires T > 0.0 && eps > 0.0 && square > 0.0 && square == eps * eps
    ensures forall n: nat :: n >= start ==> -eps < ExactRun(l, drift, T, n).offset < eps
  {
    EnergyOfIsPositive(l, drift, T);
    start := Enough(EnergyOf(l, drift, T), square);
    forall n: nat | n >= start ensures -eps < ExactRun(l, drift, T, n).offset < eps {
      SettledAt(l, drift, T, n, start, square);
      SquareBelow(ExactRun(l, drift, T, n).offset, eps, square);
    }
  }

  lemma EnergyOfIsPositive(l: Loop, drift: real, T: real)
    ensures EnergyOf(l, drift, T) >= 0.0
  {
    EnergyIsPositive(l.offset, l.Error(drift, T));
  }

  lemma SettledAt(l: Loop, drift: real, T: real, n: nat, start: nat, square: real)
    requires T > 0.0 && square > 0.0 && n >= start && Settles(EnergyOf(l, drift, T), square, start)
    ensures SquareLess(ExactRun(l, drift, T, n).offset, square)
  {
    hide *;
    EnergyOfIsPositive(l, drift, T);
    PowBelow(n, start, EnergyOf(l, drift, T), square);
    ExactRunContracts(l, drift, T, n);
    OffsetBelow(ExactRun(l, drift, T, n), drift, T, square);
  }

  lemma OffsetBelow(l: Loop, drift: real, T: real, square: real)
    requires EnergyOf(l, drift, T) < 31.0 / 1600.0 * square
    ensures SquareLess(l.offset, square)
  {
    EnergyIsPositive(l.offset, l.Error(drift, T));
  }

  lemma SquareBelow(x: real, y: real, square: real)
    requires y > 0.0 && SquareLess(x, square) && square == y * y
    ensures -y < x < y
  {
    if x >= y { Scale(y, y, x); Scale(x, y, x); }
    if x <= -y { Scale(y, y, -x); Scale(-x, y, -x); }
  }

  lemma Enough(v: real, square: real) returns (n: nat)
    requires v >= 0.0 && square > 0.0
    ensures Settles(v, square, n)
  {
    var goal := 31.0 / 1600.0 * square;
    var ratio := v / goal;
    assert ratio >= 0.0 && goal * ratio == v;
    n := (7.0 / 3.0 * ratio).Floor + 1;
    Exceeds(goal, v, ratio, 3.0 / 7.0 * n as real);
  }

  lemma Exceeds(goal: real, v: real, ratio: real, y: real)
    requires goal > 0.0 && goal * ratio == v && ratio <= y
    ensures goal * (1.0 + y) > v
  {
    Scale(goal, ratio, y);
    assert goal * (1.0 + y) == goal + goal * y;
  }

  lemma PowBelow(n: nat, start: nat, v: real, square: real)
    requires n >= start && v >= 0.0 && square > 0.0 && Settles(v, square, start)
    ensures Pow(7.0 / 10.0, n) * v < 31.0 / 1600.0 * square
  {
    PowVanishes(n);
    var p, c, goal := Pow(7.0 / 10.0, n), 1.0 + 3.0 / 7.0 * n as real, 31.0 / 1600.0 * square;
    Scale(goal, 1.0 + 3.0 / 7.0 * start as real, c);
    Shrinks(p, c, goal, v);
  }

  lemma Shrinks(p: real, c: real, goal: real, v: real)
    requires p > 0.0 && goal > 0.0 && goal * c > v && p * c <= 1.0
    ensures p * v < goal
  {
    assert p * (goal * c - v) > 0.0;
    assert p * (goal * c) == goal * (p * c);
    Scale(goal, p * c, 1.0);
  }

  // ----- The integer servo with noisy measurements --------------------------

  /** What rounding and noise may add to the energy of one sample: `noise` bounds
      the error of the measured offset, and the two truncated gains lose up to
      q = T / 10^9 nanoseconds each over the interval. */
  ghost function Disturbance(noise: real, q: real): real {
    var o, e := 35.0 / 100.0 * noise + 2.0 * q, noise / 20.0 + q;
    o * o / 20.0 + 7.0 * o * e / 20.0 + e * e
  }

  /** What rounding and noise may add to the offset and to the frequency error. */
  ghost predicate Small(x: real, y: real, noise: real, q: real) {
    && -(35.0 / 100.0 * noise + 2.0 * q) <= x <= 35.0 / 100.0 * noise + 2.0 * q
    && -(noise / 20.0 + q) <= y <= noise / 20.0 + q
  }

  /** One locked sample of the integer servo that is neither outlying nor clamped:
      it measures the offset within `noise`, and the clock runs for T nanoseconds at
      the rate the servo set. */
  ghost predicate Sampled(l: Loop, s: State, f: nat, m: Measurement, drift: real, T: int, noise: real, l': Loop,
                          s': State) {
    && s.phase == Locked && !Outlying(m) && T == Interval(SpanNs(s.lastCnt, m.rx, f))
    && -noise <= Offset(m) as real - l.offset <= noise
    && Abs(s.drift + Integral(Offset(m), T)) <= MaxPpb
    && Abs(s.drift + Integral(Offset(m), T) + Proportional(Offset(m), T)) <= MaxPpb
    && l.estimate == s.drift as real && l'.estimate == s'.drift as real
    && s' == Next(s, 0, f, m).0
    && l'.offset == l.offset + T as real * (drift + Next(s, 0, f, m).1[0].ppb as real) / Giga
  }

  /** Adding a disturbance to a loop state. */
  lemma EnergyAdds(o: real, e: real, x: real, y: real)
    ensures Energy(o + x, e + y) <= 8.0 / 7.0 * Energy(o, e) + 8.0 * Energy(x, y)
  {
    EnergyIsPositive(o - 7.0 * x, e - 7.0 * y);
    assert 7.0 * (8.0 / 7.0 * Energy(o, e) + 8.0 * Energy(x, y) - Energy(o + x, e + y))
             == Energy(o - 7.0 * x, e - 7.0 * y);
  }

  lemma EnergyBound(x: real, y: real, X: real, Y: real)
    requires -X <= x <= X && -Y <= y <= Y
    ensures Energy(x, y) <= X * X / 20.0 + 7.0 * X * Y / 20.0 + Y * Y
  {
    Square(x, X);
    Square(y, Y);
    assert (X - x) * (Y + y) >= 0.0 && (X + x) * (Y - y) >= 0.0;
    assert (X - x) * (Y + y) + (X + x) * (Y - y) == 2.0 * (X * Y) - 2.0 * (x * y);
    assert (X + x) * (Y + y) >= 0.0 && (X - x) * (Y - y) >= 0.0;
    assert (X + x) * (Y + y) + (X - x) * (Y - y) == 2.0 * (X * Y) + 2.0 * (x * y);
  }

  lemma Square(x: real, X: real)
    requires -X <= x <= X
    ensures x * x <= X * X
  {
    assert (X - x) * (X + x) >= 0.0;
    assert (X - x) * (X + x) == X * X - x * x;
  }

  /** T times a truncated gain is within T of the exact product. */
  lemma GainClose(n: int, k: int, T: int, t: real)
    requires k > 0 && T > 0 && t == T as real
    ensures -t <= t * Quot(n, k * T) as real - n as real / k as real <= t
  {
    var d, q := k * T, Quot(n, k * T);
    QuotBounds(n, d);
    assert d * q == k * (T * q);
    var x := T * q;
    assert -T * k <= k * x - n <= T * k;
    assert x as real == t * q as real;
    Divided(n, k, x, T);
  }

  lemma Divided(n: int, k: int, x: int, T: int)
    requires k > 0 && -T * k <= k * x - n <= T * k
    ensures -(T as real) <= x as real - n as real / k as real <= T as real
  {
    var r, z := k as real, n as real / k as real;
    assert z * r == n as real;
    assert (k * x) as real == x as real * r && (T * k) as real == T as real * r;
    RealMono(T as real, x as real - z, r);
    RealMono(x as real - z, -(T as real), r);
  }

  /** Over an interval T, `gain` is within `bound` and T of the exact gain. */
  ghost predicate Loses(T: real, exact: real, gain: real, bound: real) {
    -(bound + T) <= T * (exact - gain) <= bound + T
  }

  lemma LosesFrom(T: real, exact: real, gain: real, bound: real, e: real, g: real)
    requires e == T * exact && g == T * gain && -(bound + T) <= e - g <= bound + T
    ensures Loses(T, exact, gain, bound)
  {
    assert T * (exact - gain) == e - g;
  }

  lemma IntegralClose(o: real, M: int, T: int, noise: real)
    requires T > 0 && -noise <= M as real - o <= noise
    ensures Loses(T as real, ExactIntegral(o, T as real), Integral(M, T) as real, noise / 20.0 * Giga)
  {
    var t := T as real;
    Divides(o * Giga, 20.0, t, ExactIntegral(o, t));
    GainClose(M * NsPerSec, 20, T, t);
    hide ExactIntegral, Loses, Quot;
    assert (M * NsPerSec) as real == M as real * Giga;
    LosesFrom(t, ExactIntegral(o, t), Integral(M, T) as real, noise / 20.0 * Giga, o * Giga / 20.0,
              t * Integral(M, T) as real);
  }

  lemma ProportionalClose(o: real, M: int, T: int, noise: real)
    requires T > 0 && -noise <= M as real - o <= noise
    ensures Loses(T as real, ExactProportional(o, T as real), Proportional(M, T) as real, 3.0 / 10.0 * noise * Giga)
  {
    var t := T as real;
    Divides(o * 3.0 * Giga, 10.0, t, ExactProportional(o, t));
    GainClose(M * 3 * NsPerSec, 10, T, t);
    hide ExactProportional, Loses, Quot;
    assert (M * 3 * NsPerSec) as real == M as real * 3.0 * Giga;
    LosesFrom(t, ExactProportional(o, t), Proportional(M, T) as real, 3.0 / 10.0 * noise * Giga,
              o * 3.0 * Giga / 10.0, t * Proportional(M, T) as real);
  }

  /** The rate and the estimate of an unclamped sample. */
  lemma SampledIs(l: Loop, s: State, f: nat, m: Measurement, drift: real, T: int, noise: real, l': Loop, s': State)
    requires Sampled(l, s, f, m, drift, T, noise, l', s')
    ensures var I, P := Integral(Offset(m), T) as real, Proportional(Offset(m), T) as real;
            && T > 0 && -noise <= Offset(m) as real - l.offset <= noise
            && l' == Moved(l, I, P, drift, T as real)
  {
    hide Quot, SpanNs, Interval;
  }

  /** How far the integer servo's sample is from the exact one. */
  lemma SampledMoves(l: Loop, s: State, f: nat, m: Measurement, drift: real, T: int, noise: real, l': Loop, s': State)
    returns (x: real, y: real)
    requires Sampled(l, s, f, m, drift, T, noise, l', s')
    ensures var exact, t, q := Exact(l, drift, T as real), T as real, T as real / Giga;
            && l'.offset == exact.offset + x && l'.Error(drift, t) == exact.Error(drift, t) + y
            && Small(x, y, noise, q)
  {
    hide Sampled, Integral, Proportional, Offset, Small, Moved, Loses, ExactIntegral, ExactProportional;
    var t := T as real;
    SampledIs(l, s, f, m, drift, T, noise, l', s');
    IntegralClose(l.offset, Offset(m), T, noise);
    ProportionalClose(l.offset, Offset(m), T, noise);
    x, y := MovedApart(l, drift, t, ExactIntegral(l.offset, t), ExactProportional(l.offset, t),
                       Integral(Offset(m), T) as real, Proportional(Offset(m), T) as real, noise);
  }

  lemma MovedApart(l: Loop, drift: real, t: real, i: real, p: real, I: real, P: real, noise: real)
    returns (x: real, y: real)
    requires Loses(t, i, I, noise / 20.0 * Giga) && Loses(t, p, P, 3.0 / 10.0 * noise * Giga)
    ensures Moved(l, I, P, drift, t).offset == Moved(l, i, p, drift, t).offset + x
    ensures Moved(l, I, P, drift, t).Error(drift, t) == Moved(l, i, p, drift, t).Error(drift, t) + y
    ensures Small(x, y, noise, t / Giga)
  {
    var a, b := t * (i - I), t * (p - P);
    x, y := (a + b) / Giga, a / Giga;
    assert t * (drift - (l.estimate + I)) == t * (drift - (l.estimate + i)) + a;
    assert t * (drift - (l.estimate + I + P)) == t * (drift - (l.estimate + i + p)) + a + b;
  }

  /** A sample of the integer servo leaves at most 8/10 of the energy, and eight
      times what rounding and noise can add. */
  lemma SampledContracts(l: Loop, s: State, f: nat, m: Measurement, drift: real, T: int, noise: real, l': Loop,
                         s': State)
    requires Sampled(l, s, f, m, drift, T, noise, l', s')
    ensures EnergyOf(l', drift, T as real)
            <= 8.0 / 10.0 * EnergyOf(l, drift, T as real) + 8.0 * Disturbance(noise, T as real / Giga)
  {
    var x, y := SampledMoves(l, s, f, m, drift, T, noise, l', s');
    var t, q := T as real, T as real / Giga;
    hide Sampled, Exact, Energy, Disturbance, Loop.Error, Small;
    var exact := Exact(l, drift, t);
    ExactContracts(l, drift, t);
    EnergyAdds(exact.offset, exact.Error(drift, t), x, y);
    DisturbanceBounds(x, y, noise, q);
  }

  lemma DisturbanceBounds(x: real, y: real, noise: real, q: real)
    requires Small(x, y, noise, q)
    ensures Energy(x, y) <= Disturbance(noise, q)
  {
    hide Energy;
    EnergyBound(x, y, 35.0 / 100.0 * noise + 2.0 * q, noise / 20.0 + q);
  }

  /** A run of locked, unclamped samples. */
  ghost predicate SampledRun(ls: seq<Loop>, ss: seq<State>, f: nat, ms: seq<Measurement>, drift: real, T: int,
                             noise: real) {
    && |ls| == |ss| == |ms| + 1
    && forall i {:trigger ms[i]} :: 0 <= i < |ms| ==>
      Sampled(ls[i], ss[i], f, ms[i], drift, T, noise, ls[i + 1], ss[i + 1])
  }

  /** What is left after n samples of an energy v, and of a disturbance w in each. */
  ghost function Left(v: real, w: real, n: nat): real {
    Pow(8.0 / 10.0, n) * v + 40.0 * w
  }

  lemma LeftAfter(v: real, w: real, n: nat)
    ensures Left(v, w, 0) == v + 40.0 * w
    ensures n > 0 ==> 8.0 / 10.0 * Left(v, w, n - 1) + 8.0 * w == Left(v, w, n)
  {
    if n > 0 { assert 8.0 / 10.0 * (Pow(8.0 / 10.0, n - 1) * v) == Pow(8.0 / 10.0, n) * v; }
  }

  /** Whatever the start, the integer servo brings the energy down geometrically to
      a floor set by the noise of the measurements and the rounding of the gains. */
  lemma {:induction false} NoisyRunConverges(ls: seq<Loop>, ss: seq<State>, f: nat, ms: seq<Measurement>, drift: real,
                                             T: int, noise: real, n: nat)
    requires SampledRun(ls, ss, f, ms, drift, T, noise) && n <= |ms| && T > 0 && noise >= 0.0
    ensures EnergyOf(ls[n], drift, T as real)
            <= Left(EnergyOf(ls[0], drift, T as real), Disturbance(noise, T as real / Giga), n)
  {
    hide EnergyOf, Disturbance, Left, Sampled;
    LeftAfter(EnergyOf(ls[0], drift, T as real), Disturbance(noise, T as real / Giga), n);
    if n > 0 {
      NoisyRunConverges(ls, ss, f, ms, drift, T, noise, n - 1);
      assert ms[n - 1] == ms[n - 1];
      SampledContracts(ls[n - 1], ss[n - 1], f, ms[n - 1], drift, T, noise, ls[n], ss[n]);
    } else {
      DisturbancePositive(noise, T as real / Giga);
    }
  }

  /** ... and with it the offset. */
  lemma NoisyOffsetIsBounded(ls: seq<Loop>, ss: seq<State>, f: nat, ms: seq<Measurement>, drift: real, T: int,
                             noise: real, n: nat)
    requires SampledRun(ls, ss, f, ms, drift, T, noise) && n <= |ms| && T > 0 && noise >= 0.0
    ensures 31.0 / 1600.0 * (ls[n].offset * ls[n].offset)
            <= Left(EnergyOf(ls[0], drift, T as real), Disturbance(noise, T as real / Giga), n)
  {
    NoisyRunConverges(ls, ss, f, ms, drift, T, noise, n);
    hide Left, Disturbance, SampledRun;
    EnergyIsPositive(ls[n].offset, ls[n].Error(drift, T as real));
  }

  lemma DisturbancePositive(noise: real, q: real)
    requires noise >= 0.0 && q >= 0.0
    ensures Disturbance(noise, q) >= 0.0
  {
    EnergyIsPositive(35.0 / 100.0 * noise + 2.0 * q, -(noise / 20.0 + q));
  }

  // ----- Where nothing is clamped and nothing outlying --------------------------------

  ghost function Size(x: real): real {
    if x < 0.0 then -x else x
  }

  /** Room for offsets up to O and frequency errors up to E: the measured offset
      stays below the outlier threshold, and estimate and rate within the clock's
      range. */
  ghost predicate Margins(drift: real, T: int, noise: real, O: real, E: real) {
    && T > 0 && noise >= 0.0 && O >= 0.0 && E >= 0.0
    && O + noise <= StepNs as real
    && T as real * Size(drift) + Giga * (E + 7.0 / 20.0 * (O + noise)) <= T as real * MaxPpb as real
  }

  /** An energy of v or less keeps the offset within O and the error within E, and
      is more than rounding and noise can build up. */
  ghost predicate Level(v: real, O: real, E: real, w: real) {
    v <= 31.0 / 1600.0 * (O * O) && v <= 31.0 / 80.0 * (E * E) && 40.0 * w <= v
  }

  /** One sample of the servo, whatever it decides: it measures the offset within
      `noise`, and if it sets a rate the clock runs at it for T nanoseconds. */
  ghost predicate Measured(l: Loop, s: State, f: nat, m: Measurement, drift: real, T: int, noise: real, l': Loop,
                           s': State) {
    && T == Interval(SpanNs(s.lastCnt, m.rx, f)) && -noise <= Offset(m) as real - l.offset <= noise
    && l.estimate == s.drift as real && l'.estimate == s'.drift as real
    && s' == Next(s, 0, f, m).0
    && forall r {:trigger Rate(r)} :: Next(s, 0, f, m).1 == [Rate(r)] ==>
         l'.offset == l.offset + T as real * (drift + r as real) / Giga
  }

  lemma EnergyHoldsError(o: real, e: real)
    ensures Energy(o, e) >= 31.0 / 80.0 * (e * e) >= 0.0
  {
    var d := o - 7.0 * e / 2.0;
    assert Energy(o, e) == d * d / 20.0 + 31.0 / 80.0 * (e * e);
    assert d * d >= 0.0 && e * e >= 0.0;
  }

  lemma Root(x: real, X: real, square: real)
    requires X >= 0.0 && square == x * x && square <= X * X
    ensures -X <= x <= X
  {
    if x > X { Grows(X, x, square); }
    if x < -X { Grows(X, -x, square); }
  }

  lemma Grows(X: real, x: real, square: real)
    requires 0.0 <= X && square == x * x
    ensures X < x ==> square > X * X
  {
    if X < x {
      assert x * x - X * X == (x - X) * (x + X);
      PositiveProduct(x - X, x + X, (x - X) * (x + X));
    }
  }

  /** The energy bounds offset and error. */
  lemma LevelBounds(o: real, e: real, v: real, O: real, E: real, w: real)
    requires Energy(o, e) <= v && Level(v, O, E, w) && O >= 0.0 && E >= 0.0
    ensures -O <= o <= O && -E <= e <= E
  {
    EnergyIsPositive(o, e);
    EnergyHoldsError(o, e);
    hide Energy;
    Root(o, O, o * o);
    Root(e, E, e * e);
  }

  /** A truncated gain is no larger than the exact one. */
  lemma GainBelow(n: int, k: int, T: int, q: int)
    requires k > 0 && T > 0 && q == Quot(n, k * T)
    ensures k * (T * Abs(q)) <= Abs(n)
  {
    QuotBounds(n, k * T);
    hide Quot;
    Regroup(k, T, q);
    Regroup(k, T, -q);
  }

  lemma Regroup(k: int, T: int, q: int)
    ensures k * (T * q) == (k * T) * q && (k * T) * -q == -((k * T) * q)
  {
  }

  lemma ProductReal(T: int, q: int, x: int)
    requires x == T * Abs(q)
    ensures x as real == T as real * Size(q as real)
  {
  }

  lemma Twentieth(M: int, x: int, bound: real)
    requires 20 * x <= Abs(M * NsPerSec) && -bound <= M as real <= bound
    ensures x as real <= Giga * (bound / 20.0)
  {
  }

  lemma ThreeTenths(M: int, x: int, bound: real)
    requires 10 * x <= Abs(M * 3 * NsPerSec) && -bound <= M as real <= bound
    ensures x as real <= Giga * (3.0 * bound / 10.0)
  {
  }

  /** Over an interval the integral gain moves the clock by at most a twentieth of
      the measured offset, the proportional one by three tenths. */
  lemma GainsBelow(M: int, T: int, bound: real)
    requires T > 0 && -bound <= M as real <= bound
    ensures T as real * Size(Integral(M, T) as real) <= Giga * (bound / 20.0)
    ensures T as real * Size(Proportional(M, T) as real) <= Giga * (3.0 * bound / 10.0)
  {
    var i, p := Integral(M, T), Proportional(M, T);
    GainBelow(M * NsPerSec, 20, T, i);
    GainBelow(M * 3 * NsPerSec, 10, T, p);
    hide Size, Integral, Proportional, Quot, Abs;
    ProductReal(T, i, T * Abs(i));
    ProductReal(T, p, T * Abs(p));
    Twentieth(M, T * Abs(i), bound);
    ThreeTenths(M, T * Abs(p), bound);
  }

  /** The estimate is the drift but for the error. */
  lemma EstimateBelow(l: Loop, drift: real, T: real, E: real)
    requires T > 0.0 && -E <= l.Error(drift, T) <= E
    ensures T * Size(l.estimate) <= T * Size(drift) + Giga * E
  {
    assert T * (drift - l.estimate) == Giga * l.Error(drift, T);
    assert T * (drift - l.estimate) == T * drift - T * l.estimate;
    assert T * Size(drift) == Size(T * drift) && T * Size(l.estimate) == Size(T * l.estimate);
  }

  lemma SumBelow(t: real, a: real, b: real, c: real, max: real)
    requires t > 0.0 && t * Size(a) + t * Size(b) + t * Size(c) <= t * max
    ensures Size(a + b) <= max && Size(a + b + c) <= max
  {
    assert t * (Size(a) + Size(b) + Size(c)) <= t * max;
    if Size(a) + Size(b) + Size(c) > max {
      PositiveProduct(t, Size(a) + Size(b) + Size(c) - max, t * (Size(a) + Size(b) + Size(c) - max));
    }
  }

  /** With margins, the measured offset, the new estimate and the new rate are
      within their ranges. */
  lemma QuietBounds(l: Loop, drift: real, T: int, noise: real, M: int, O: real, E: real)
    requires Margins(drift, T, noise, O, E) && -O <= l.offset <= O && -E <= l.Error(drift, T as real) <= E
    requires -noise <= M as real - l.offset <= noise
    ensures Abs(M) <= StepNs
    ensures var I, P := Integral(M, T) as real, Proportional(M, T) as real;
            Size(l.estimate + I) <= MaxPpb as real && Size(l.estimate + I + P) <= MaxPpb as real
  {
    hide *;
    var max := MaxPpb as real;
    MarginFacts(drift, T, noise, O, E, max);
    WithinStep(M, l.offset, O, noise);
    GainsBelow(M, T, O + noise);
    EstimateBelow(l, drift, T as real, E);
    RangesAre(T as real, l.estimate, Integral(M, T) as real, Proportional(M, T) as real, drift, E, O + noise, max);
  }

  lemma MarginFacts(drift: real, T: int, noise: real, O: real, E: real, max: real)
    requires Margins(drift, T, noise, O, E) && max == MaxPpb as real
    ensures T > 0 && O + noise <= StepNs as real
    ensures T as real * Size(drift) + Giga * (E + 7.0 / 20.0 * (O + noise)) <= T as real * max
  {
  }

  lemma RangesAre(t: real, a: real, i: real, p: real, drift: real, E: real, bound: real, max: real)
    requires t > 0.0 && t * Size(a) <= t * Size(drift) + Giga * E
    requires t * Size(i) <= Giga * (bound / 20.0) && t * Size(p) <= Giga * (3.0 * bound / 10.0)
    requires t * Size(drift) + Giga * (E + 7.0 / 20.0 * bound) <= t * max
    ensures Size(a + i) <= max && Size(a + i + p) <= max
  {
    hide Size;
    Totals(t * Size(a), t * Size(i), t * Size(p), t * Size(drift), E, bound, t * max);
    SumBelow(t, a, i, p, max);
  }

  lemma WithinStep(M: int, o: real, O: real, noise: real)
    requires -noise <= M as real - o <= noise && -O <= o <= O && O + noise <= StepNs as real
    ensures -(O + noise) <= M as real <= O + noise && Abs(M) <= StepNs
  {
  }

  lemma Totals(estimate: real, i: real, p: real, drift: real, E: real, bound: real, max: real)
    requires estimate <= drift + Giga * E && i <= Giga * (bound / 20.0) && p <= Giga * (3.0 * bound / 10.0)
    requires drift + Giga * (E + 7.0 / 20.0 * bound) <= max
    ensures estimate + i + p <= max
  {
  }

  /** A sample within the ranges is followed without clamping. */
  lemma NotClamped(s: State, f: nat, m: Measurement, T: int)
    requires s.phase == Locked && T == Interval(SpanNs(s.lastCnt, m.rx, f)) && !Outlying(m)
    requires Abs(s.drift + Integral(Offset(m), T)) <= MaxPpb
    requires Abs(s.drift + Integral(Offset(m), T) + Proportional(Offset(m), T)) <= MaxPpb
    ensures Next(s, 0, f, m).0.phase == Locked
    ensures Next(s, 0, f, m).1 == [Rate(-(s.drift + Integral(Offset(m), T) + Proportional(Offset(m), T)))]
  {
    hide Integral, Proportional, Offset, SpanNs, Interval;
  }

  /** Below the level no sample is outlying and nothing is clamped. */
  lemma QuietSample(l: Loop, s: State, f: nat, m: Measurement, drift: real, T: int, noise: real, l': Loop, s': State,
                    v: real, O: real, E: real, w: real)
    requires Measured(l, s, f, m, drift, T, noise, l', s') && s.phase == Locked
    requires Margins(drift, T, noise, O, E) && Level(v, O, E, w) && EnergyOf(l, drift, T as real) <= v
    ensures Sampled(l, s, f, m, drift, T, noise, l', s') && s'.phase == Locked
  {
    hide *;
    MarginsPositive(drift, T, noise, O, E);
    EnergyIs(l, drift, T as real);
    LevelBounds(l.offset, l.Error(drift, T as real), v, O, E, w);
    MeasuredFacts(l, s, f, m, drift, T, noise, l', s');
    QuietBounds(l, drift, T, noise, Offset(m), O, E);
    InRange(s.drift, Integral(Offset(m), T), Proportional(Offset(m), T), l.estimate);
    FollowedAsSampled(l, s, f, m, drift, T, noise, l', s');
  }

  lemma EnergyIs(l: Loop, drift: real, t: real)
    ensures EnergyOf(l, drift, t) == Energy(l.offset, l.Error(drift, t))
  {
  }

  lemma MeasuredFacts(l: Loop, s: State, f: nat, m: Measurement, drift: real, T: int, noise: real, l': Loop, s': State)
    requires Measured(l, s, f, m, drift, T, noise, l', s')
    ensures -noise <= Offset(m) as real - l.offset <= noise && l.estimate == s.drift as real
  {
  }

  lemma InRange(d: int, i: int, p: int, estimate: real)
    requires estimate == d as real
    requires Size(estimate + i as real) <= MaxPpb as real && Size(estimate + i as real + p as real) <= MaxPpb as real
    ensures Abs(d + i) <= MaxPpb && Abs(d + i + p) <= MaxPpb
  {
    assert (d + i) as real == d as real + i as real && (d + i + p) as real == d as real + i as real + p as real;
  }

  lemma FollowedAsSampled(l: Loop, s: State, f: nat, m: Measurement, drift: real, T: int, noise: real, l': Loop,
                          s': State)
    requires Measured(l, s, f, m, drift, T, noise, l', s') && s.phase == Locked && T > 0 && Abs(Offset(m)) <= StepNs
    requires Abs(s.drift + Integral(Offset(m), T)) <= MaxPpb
    requires Abs(s.drift + Integral(Offset(m), T) + Proportional(Offset(m), T)) <= MaxPpb
    ensures Sampled(l, s, f, m, drift, T, noise, l', s') && s'.phase == Locked
  {
    hide Integral, Proportional, Offset, SpanNs, Interval, Next;
    NotClamped(s, f, m, T);
  }

  /** A run of samples, whatever the servo decides. */
  ghost predicate MeasuredRun(ls: seq<Loop>, ss: seq<State>, f: nat, ms: seq<Measurement>, drift: real, T: int,
                              noise: real) {
    && |ls| == |ss| == |ms| + 1 && ss[0].phase == Locked
    && forall i {:trigger ms[i]} :: 0 <= i < |ms| ==>
      Measured(ls[i], ss[i], f, ms[i], drift, T, noise, ls[i + 1], ss[i + 1])
  }

  /** From a locked start below the level the servo stays locked, no sample is ever
      outlying and nothing is ever clamped, so that the energy stays below the level
      and comes down to the floor of noise and rounding. */
  lemma {:induction false} QuietRun(ls: seq<Loop>, ss: seq<State>, f: nat, ms: seq<Measurement>, drift: real, T: int,
                                    noise: real, v: real, O: real, E: real, n: nat)
    requires MeasuredRun(ls, ss, f, ms, drift, T, noise) && n <= |ms| && Margins(drift, T, noise, O, E)
    requires Level(v, O, E, Disturbance(noise, T as real / Giga)) && EnergyOf(ls[0], drift, T as real) <= v
    ensures ss[n].phase == Locked && EnergyOf(ls[n], drift, T as real) <= v
    ensures SampledRun(ls[..n + 1], ss[..n + 1], f, ms[..n], drift, T, noise)
    ensures EnergyOf(ls[n], drift, T as real)
              <= Left(EnergyOf(ls[0], drift, T as real), Disturbance(noise, T as real / Giga), n)
  {
    var t, w := T as real, Disturbance(noise, T as real / Giga);
    hide Margins, EnergyOf, Disturbance, Measured, Sampled, Left;
    if n > 0 {
      QuietRun(ls, ss, f, ms, drift, T, noise, v, O, E, n - 1);
      assert ms[n - 1] == ms[n - 1];
      QuietSample(ls[n - 1], ss[n - 1], f, ms[n - 1], drift, T, noise, ls[n], ss[n], v, O, E, w);
      SampledContracts(ls[n - 1], ss[n - 1], f, ms[n - 1], drift, T, noise, ls[n], ss[n]);
    }
    MarginsPositive(drift, T, noise, O, E);
    NoisyRunConverges(ls[..n + 1], ss[..n + 1], f, ms[..n], drift, T, noise, n);
  }

  lemma MarginsPositive(drift: real, T: int, noise: real, O: real, E: real)
    requires Margins(drift, T, noise, O, E)
    ensures T > 0 && noise >= 0.0 && O >= 0.0 && E >= 0.0
  {
  }

  /** Ordinary conditions are below a level: one Sync a second, time stamps within
      20 microseconds, a crystal within 50 ppm, and a start within 100 microseconds
      and 20 ppm. */
  lemma OrdinaryStart(l: Loop, drift: real)
    requires Size(drift) <= 50_000.0 && Size(l.offset) <= 100_000.0 && Size(drift - l.estimate) <= 20_000.0
    ensures var v, O, E := 3_000_000_000.0, 900_000.0, 100_000.0;
            && Margins(drift, NsPerSec, 20_000.0, O, E)
            && Level(v, O, E, Disturbance(20_000.0, NsPerSec as real / Giga))
            && EnergyOf(l, drift, NsPerSec as real) <= v
  {
    var e := l.Error(drift, NsPerSec as real);
    assert e == drift - l.estimate;
    EnergyBound(l.offset, e, 100_000.0, 20_000.0);
  }
}
