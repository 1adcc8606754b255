/** The disciplined PTP clock of port/ptp/ptp_clock.c: a line over a free-running
    counter, re-anchored by every phase step and frequency change. The counter
    reading of a call is a parameter. */
module PtpClock {
  import opened CInt

  const NsPerSec: int := 1_000_000_000
  const MaxPpb: int := 500_000

  function ClampPpb(v: int): (r: int)
    ensures -MaxPpb <= r <= MaxPpb && (-MaxPpb <= v <= MaxPpb ==> r == v)
  {
    if v > MaxPpb then MaxPpb else if v < -MaxPpb then -MaxPpb else v
  }

  function TicksToNs(dt: int, f: int): int {
    if f <= 0 then 0 else Quot(dt, f) * NsPerSec + Quot(Rem(dt, f) * NsPerSec, f)
  }

  function ScalePpb(d: int, ppb: int): int {
    Quot(d, NsPerSec) * ppb + Quot(Rem(d, NsPerSec) * ppb, NsPerSec)
  }

  // ----- The split forms are exact -----------------------------------------

  lemma ProductSign(x: int, y: int)
    ensures (x >= 0 && y >= 0) || (x <= 0 && y <= 0) ==> x * y >= 0
    ensures (x >= 0 && y <= 0) || (x <= 0 && y >= 0) ==> x * y <= 0
  {
  }

  lemma TicksToNsExact(dt: int, f: int)
    requires f > 0
    ensures TicksToNs(dt, f) == Quot(dt * NsPerSec, f)
  {
    var w, r := Quot(dt, f), Rem(dt, f);
    QuotBounds(dt, f);
    assert dt * NsPerSec == (w * NsPerSec) * f + r * NsPerSec by {
      assert dt == w * f + r;
      assert (w * NsPerSec) * f == (w * f) * NsPerSec;
    }
    QuotSplit(w * NsPerSec, r * NsPerSec, f);
  }

  lemma ScalePpbExact(d: int, ppb: int)
    ensures ScalePpb(d, ppb) == Quot(d * ppb, NsPerSec)
  {
    var w, r := Quot(d, NsPerSec), Rem(d, NsPerSec);
    QuotBounds(d, NsPerSec);
    ProductSign(w, ppb);
    ProductSign(r, ppb);
    assert d * ppb == (w * ppb) * NsPerSec + r * ppb by {
      hide *;
      assert d == w * NsPerSec + r;
    }
    QuotSplit(w * ppb, r * ppb, NsPerSec);
  }

  lemma ProductBounds(x: int, y: int, m: nat, n: nat)
    requires Abs(x) <= m && Abs(y) <= n
    ensures Abs(x * y) <= m * n
  {
    assert Abs(x * y) == Abs(x) * Abs(y);
    MulMono(Abs(x), Abs(y), n);
    assert n * Abs(x) <= n * m by { MulMono(n, Abs(x), m); }
  }

  /** No 64-bit product of the frequency scaling overflows, whatever the span. */
  lemma ScalePpbFits(d: int, ppb: int)
    requires Int64(d) && Abs(ppb) <= MaxPpb
    ensures Int64(Quot(d, NsPerSec) * ppb) && Int64(Rem(d, NsPerSec) * ppb) && Int64(ScalePpb(d, ppb))
  {
    QuotBounds(d, NsPerSec);
    ProductBounds(Quot(d, NsPerSec), ppb, 9_223_372_037, MaxPpb);
    ProductBounds(Rem(d, NsPerSec), ppb, NsPerSec, MaxPpb);
    QuotBounds(Rem(d, NsPerSec) * ppb, NsPerSec);
  }

  /** Nor does any of the tick conversion, for counters up to 9.2 GHz and spans
      up to 292 years. */
  lemma TicksToNsFits(dt: int, f: int)
    requires 0 < f <= 9_223_372_036 && Abs(Quot(dt, f)) < 9_223_372_036
    ensures Int64(Quot(dt, f) * NsPerSec) && Int64(Rem(dt, f) * NsPerSec) && Int64(TicksToNs(dt, f))
  {
    QuotBounds(dt, f);
    var r := Rem(dt, f);
    QuotBounds(r * NsPerSec, f);
    var q := Quot(r * NsPerSec, f);
    if q > NsPerSec { MulMono(f, NsPerSec, q); }
    if q < -NsPerSec { MulMono(f, q, -NsPerSec); }
  }

  // ----- The clock ---------------------------------------------------------

  datatype Line = Line(baseCnt: nat, baseNs: int, ppb: int) {
    function At(f: nat, cnt: nat): int {
      var d := TicksToNs(Signed64(cnt - baseCnt), f);
      baseNs + d + ScalePpb(d, ppb)
    }

    function Rebased(f: nat, now: nat): Line {
      Line(now, At(f, now), ppb)
    }
  }

  class Clock {
    const freq: nat
    var line: Line
    var epoch: nat

    constructor (f: nat)
      ensures freq == f && line == Line(0, 0, 0) && epoch == 0
    {
      freq, line, epoch := f, Line(0, 0, 0), 0;
    }

    method Rebase(now: nat)
      requires now < Word64
      modifies `line
      ensures line == old(line).Rebased(freq, now)
      ensures line.At(freq, now) == old(line).At(freq, now)
    {
      line := Line(now, line.At(freq, now), line.ppb);
      ReadAtAnchor(line, freq);
    }

    /** A step moves the time by exactly delta and starts a new epoch. */
    method Step(now: nat, delta: int)
      requires now < Word64
      modifies this
      ensures line == Apply(old(line), freq, Change.Step(now, delta))
      ensures line.At(freq, now) == old(line).At(freq, now) + delta && line.ppb == old(line).ppb
      ensures epoch == (old(epoch) + 1) % 0x1_0000_0000
    {
      hide Line.At;
      Rebase(now);
      line := line.(baseNs := line.baseNs + delta);
      epoch := (epoch + 1) % 0x1_0000_0000;
      ReadAtAnchor(line, freq);
      ReadAtAnchor(old(line).Rebased(freq, now), freq);
    }

    /** A frequency change leaves the time at the moment of the change alone. */
    method AdjFreq(now: nat, ppb: int)
      requires now < Word64
      modifies `line
      ensures line == Apply(old(line), freq, Change.Frequency(now, ppb))
      ensures line.At(freq, now) == old(line).At(freq, now)
      ensures line.ppb == if ppb > 500_000 then 500_000 else if ppb < -500_000 then -500_000 else ppb
      ensures line == Line(now, old(line).At(freq, now), line.ppb)
    {
      var p := ppb;
      if p > MaxPpb { p := MaxPpb; }
      if p < -MaxPpb { p := -MaxPpb; }
      hide Line.At;
      Rebase(now);
      line := line.(ppb := p);
      ReadAtAnchor(line, freq);
    }
  }

  lemma ReadAtAnchor(l: Line, f: nat)
    ensures l.At(f, l.baseCnt) == l.baseNs
  {
    if f > 0 { assert Quot(0, f) == 0 by { QuotBounds(0, f); FloorIs(0, f, 0); } }
  }

  // ----- Runs --------------------------------------------------------------

  datatype Change = Step(at: nat, delta: int) | Frequency(at: nat, ppb: int)

  function Apply(l: Line, f: nat, c: Change): Line {
    var r := l.Rebased(f, c.at % Word64);
    match c
    case Step(_, delta) => r.(baseNs := r.baseNs + delta)
    case Frequency(_, ppb) => r.(ppb := ClampPpb(ppb))
  }

  function After(l: Line, f: nat, changes: seq<Change>): Line
    decreases |changes|
  {
    if changes == [] then l else After(Apply(l, f, changes[0]), f, changes[1..])
  }

  /** What the steps of a run add up to. */
  function Jumps(changes: seq<Change>): int {
    if changes == [] then 0
    else (if changes[0].Step? then changes[0].delta else 0) + Jumps(changes[1..])
  }

  /** The changes come in order between the readings a and b, and the counter goes
      less than half way round from one anchor to the next reading. Times here
      are true counts; the hardware register holds them modulo 2^64. */
  ghost predicate Timed(anchor: nat, changes: seq<Change>, a: nat, b: nat)
    decreases |changes|
  {
    if changes == [] then anchor <= a <= b < anchor + Half64
    else anchor <= a <= changes[0].at < anchor + Half64 && Timed(changes[0].at, changes[1..], changes[0].at, b)
  }

  /** The exact length of dt ticks in nanoseconds. */
  ghost function TrueNs(dt: nat, f: nat): real
    requires f > 0
  {
    (dt * NsPerSec) as real / f as real
  }

  /** Within 500 ppm of x, and r nanoseconds of rounding. */
  ghost predicate Near(e: int, x: real, r: real) {
    -(x / 2000.0) - r <= e as real - x <= x / 2000.0 + r
  }

  function Ns(dt: nat, f: nat): nat
    requires f > 0
  {
    dt * NsPerSec / f
  }

  function Slewed(d: nat, ppb: int): int {
    d + Quot(d * ppb, NsPerSec)
  }

  lemma AtTrue(l: Line, f: nat, anchor: nat, t: nat)
    requires f > 0 && l.baseCnt == anchor % Word64 && anchor <= t < anchor + Half64
    ensures l.At(f, t % Word64) == l.baseNs + Slewed(Ns(t - anchor, f), l.ppb)
  {
    SignedDifference(anchor, t);
    TicksToNsExact(t - anchor, f);
    QuotBounds((t - anchor) * NsPerSec, f);
    ScalePpbExact(Ns(t - anchor, f), l.ppb);
  }

  /** From a frequency change on the clock gains the true time, in whole nanoseconds, and
      ppb billionths of it. */
  lemma RateApplies(l: Line, f: nat, at: nat, t: nat, ppb: int)
    requires f > 0 && -500_000 <= ppb <= 500_000 && at <= t < at + 0x8000_0000_0000_0000
    ensures var ns := (t - at) * 1_000_000_000 / f;
            Apply(l, f, Change.Frequency(at, ppb)).At(f, t % 0x1_0000_0000_0000_0000)
            == l.At(f, at % 0x1_0000_0000_0000_0000) + ns + Quot(ns * ppb, 1_000_000_000)
  {
    AtTrue(Apply(l, f, Change.Frequency(at, ppb)), f, at, t);
  }

  lemma SlewedBounds(d: nat, d': nat, ppb: int)
    requires d <= d' && Abs(ppb) <= MaxPpb
    ensures var e := Slewed(d', ppb) - Slewed(d, ppb);
            && e >= 0
            && -((d' - d) * MaxPpb) - NsPerSec <= (e - (d' - d)) * NsPerSec <= (d' - d) * MaxPpb + NsPerSec
  {
    var x, y := d * ppb, d' * ppb;
    QuotBounds(x, NsPerSec);
    QuotBounds(y, NsPerSec);
    ProductSign(d, ppb);
    ProductSign(d', ppb);
    assert y - x == (d' - d) * ppb;
    ProductBounds(d' - d, ppb, d' - d, MaxPpb);
  }

  lemma NsReal(dt: nat, f: nat)
    requires f > 0
    ensures Ns(dt, f) as real <= TrueNs(dt, f) < Ns(dt, f) as real + 1.0
  {
    var n, q := dt * NsPerSec, Ns(dt, f);
    FloorBounds(n, f);
    assert f * q <= n < f * (q + 1);
    RealQuotient(n, f, q);
  }

  lemma RealQuotient(n: nat, f: nat, q: nat)
    requires f > 0 && f * q <= n < f * (q + 1)
    ensures q as real <= n as real / f as real < q as real + 1.0
  {
    var x, r := n as real / f as real, f as real;
    assert x * r == n as real;
    assert r * q as real == (f * q) as real && r * (q + 1) as real == (f * (q + 1)) as real;
    RealMono(x, q as real, r);
    RealMono(x, (q + 1) as real, r);
  }

  lemma RealMono(x: real, y: real, r: real)
    requires r > 0.0
    ensures x < y <==> x * r < y * r
  {
    assert (y - x) * r == y * r - x * r;
  }

  lemma TrueNsAdds(x: nat, y: nat, f: nat)
    requires f > 0
    ensures TrueNs(x, f) + TrueNs(y, f) == TrueNs(x + y, f) && TrueNs(x, f) >= 0.0
  {
    var a, b, r := (x * NsPerSec) as real, (y * NsPerSec) as real, f as real;
    assert ((x + y) * NsPerSec) as real == a + b;
    assert (a + b) / r == a / r + b / r;
  }

  lemma NsMonotone(x: nat, y: nat, f: nat)
    requires f > 0 && x <= y
    ensures Ns(x, f) <= Ns(y, f)
  {
    NsReal(x, f);
    NsReal(y, f);
    TrueNsAdds(x, y - x, f);
    TrueNsAdds(y - x, 0, f);
  }

  /** Between two changes the clock never goes backwards and keeps the rate. */
  lemma Segment(l: Line, f: nat, anchor: nat, a: nat, b: nat)
    requires f > 0 && Abs(l.ppb) <= MaxPpb && l.baseCnt == anchor % Word64
    requires anchor <= a <= b < anchor + Half64
    ensures l.At(f, a % Word64) <= l.At(f, b % Word64)
    ensures Near(l.At(f, b % Word64) - l.At(f, a % Word64), TrueNs(b - a, f), 3.0)
  {
    AtTrue(l, f, anchor, a);
    AtTrue(l, f, anchor, b);
    var x, y := a - anchor, b - anchor;
    NsMonotone(x, y, f);
    SlewedBounds(Ns(x, f), Ns(y, f), l.ppb);
    NsReal(x, f);
    NsReal(y, f);
    TrueNsAdds(x, y - x, f);
    TrueNsAdds(y - x, 0, f);
    SegmentArithmetic(Slewed(Ns(y, f), l.ppb) - Slewed(Ns(x, f), l.ppb), Ns(y, f) - Ns(x, f), TrueNs(y - x, f));
  }

  lemma SegmentArithmetic(e: int, n: nat, x: real)
    requires -(n * MaxPpb) - NsPerSec <= (e - n) * NsPerSec <= n * MaxPpb + NsPerSec
    requires x - 1.0 <= n as real <= x + 1.0 && x >= 0.0
    ensures Near(e, x, 3.0)
  {
    assert -2000 - n <= (e - n) * 2000 <= n + 2000;
    assert -(n as real) - 2000.0 <= (e - n) as real * 2000.0 <= n as real + 2000.0;
  }

  /** Over any run of k phase steps and frequency changes the clock gains, beyond
      the sum of the steps, a time that is never negative and that is within
      500 ppm of the true time, with at most 3 ns of rounding for each line. */
  lemma {:induction false} RunStaysClose(l: Line, f: nat, anchor: nat, changes: seq<Change>, a: nat, b: nat)
    requires f > 0 && Abs(l.ppb) <= MaxPpb && l.baseCnt == anchor % Word64
    requires Timed(anchor, changes, a, b)
    ensures a <= b
    ensures var gained := After(l, f, changes).At(f, b % Word64) - l.At(f, a % Word64) - Jumps(changes);
            gained >= 0 && Near(gained, TrueNs(b - a, f), 3.0 * (|changes| + 1) as real)
    decreases |changes|
  {
    if changes == [] {
      Segment(l, f, anchor, a, b);
    } else {
      var c := changes[0];
      var l' := Apply(l, f, c);
      ReadAtAnchor(l.Rebased(f, c.at % Word64), f);
      ReadAtAnchor(l', f);
      Segment(l, f, anchor, a, c.at);
      RunStaysClose(l', f, c.at, changes[1..], c.at, b);
      TrueNsAdds(c.at - a, b - c.at, f);
    }
  }
}
