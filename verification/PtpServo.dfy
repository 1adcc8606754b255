/** The clock servo of port/ptp/ptp_servo.c: it steps the clock onto the master,
    measures the oscillator, and then follows the master with an integer PI
    controller. */
module PtpServo {
  import opened CInt
  import opened PtpClock

  const StepNs: int := 1_000_000
  const Outliers: nat := 3

  datatype Phase = Unlocked | Stepped | Locked

  datatype State = State(phase: Phase, drift: int, refCnt: nat, refRaw: int, lastCnt: nat, outliers: nat)

  /** One Sync measurement: slave minus master with the path delay in it, the
      filtered path delay (negative when unknown), and its counter reading. */
  datatype Measurement = Measurement(raw: int, delay: int, rx: nat)

  /** What the servo tells the clock. */
  datatype Command = Jump(delta: int) | Rate(ppb: int)

  const Initial := State(Unlocked, 0, 0, 0, 0, 0)

  function Offset(m: Measurement): int {
    m.raw - if m.delay >= 0 then m.delay else 0
  }

  predicate Outlying(m: Measurement) {
    Abs(Offset(m)) > StepNs
  }

  /** Counter span in nanoseconds, in unsigned 64-bit arithmetic. */
  function SpanNs(from: nat, to: nat, f: nat): int {
    if f == 0 then 0
    else var dt := (to - from) % Word64;
         Signed64((dt / f) * NsPerSec + (dt % f) * NsPerSec % Word64 / f)
  }

  /** The interval the gains are scaled with. */
  function Interval(span: int): (T: int)
    ensures 0 < T <= 8 * NsPerSec
  {
    if span <= 0 || span > 8 * NsPerSec then NsPerSec else span
  }

  function Proportional(offset: int, T: int): int
    requires T > 0
  {
    Quot(offset * 3 * NsPerSec, 10 * T)
  }

  function Integral(offset: int, T: int): int
    requires T > 0
  {
    Quot(offset * NsPerSec, 20 * T)
  }

  function Follow(s: State, f: nat, m: Measurement): (r: (State, seq<Command>))
    ensures |r.1| == 1 && r.1[0].Rate?
  {
    var T := Interval(SpanNs(s.lastCnt, m.rx, f));
    var drift := ClampPpb(s.drift + Integral(Offset(m), T));
    (s.(outliers := 0, lastCnt := m.rx, drift := drift),
     [Rate(ClampPpb(-(drift + Proportional(Offset(m), T))))])
  }

  function Estimate(s: State, ppb: int, span: int, raw: int): int
    requires span > 0
  {
    ClampPpb(Quot((raw - s.refRaw) * NsPerSec, span) - ppb)
  }

  function Next(s: State, ppb: int, f: nat, m: Measurement): (State, seq<Command>) {
    match s.phase
    case Unlocked => (s.(phase := Stepped, refCnt := m.rx, refRaw := m.raw - Offset(m)), [Jump(-Offset(m))])
    case Stepped =>
      var span := SpanNs(s.refCnt, m.rx, f);
      if span < NsPerSec / 8 then (s, [])
      else
        var drift := Estimate(s, ppb, span, m.raw);
        if m.delay >= 0 then
          (s.(drift := drift, refCnt := m.rx, refRaw := m.delay, phase := Locked, lastCnt := m.rx),
           [Rate(-drift), Jump(-Offset(m))])
        else (s.(drift := drift, refCnt := m.rx, refRaw := m.raw), [Rate(-drift)])
    case Locked =>
      if !Outlying(m) then Follow(s, f, m)
      else if s.outliers + 1 < Outliers then (s.(outliers := s.outliers + 1), [])
      else (s.(outliers := 0, phase := Stepped, refCnt := m.rx, refRaw := m.raw - Offset(m)), [Jump(-Offset(m))])
  }

  /** The commands as changes of the clock: the first at one counter reading, the
      second at a later one. */
  function Changes(commands: seq<Command>, now: nat, later: nat): (r: seq<Change>)
    ensures |r| == |commands|
  {
    seq(|commands|, i requires 0 <= i < |commands| =>
      var at := if i == 0 then now else later;
      match commands[i]
      case Jump(delta) => Change.Step(at, delta)
      case Rate(ppb) => Change.Frequency(at, ppb))
  }

  function Jumped(commands: seq<Command>): bool {
    exists i :: 0 <= i < |commands| && commands[i].Jump?
  }

  predicate Bounded(s: State) {
    Abs(s.drift) <= MaxPpb && s.outliers < Outliers && (s.phase != Locked ==> s.outliers == 0)
  }

  class Servo {
    var phase: Phase
    var drift: int
    var refCnt: nat
    var refRaw: int
    var lastCnt: nat
    var outliers: nat
    const clock: Clock

    function View(): State
      reads this
    {
      State(phase, drift, refCnt, refRaw, lastCnt, outliers)
    }

    constructor (c: Clock)
      ensures View() == Initial && clock == c
    {
      phase, drift, refCnt, refRaw, lastCnt, outliers, clock := Unlocked, 0, 0, 0, 0, 0, c;
    }

    method Init()
      modifies this
      ensures View() == Initial
    {
      phase, drift, refCnt, refRaw, lastCnt, outliers := Unlocked, 0, 0, 0, 0, 0;
    }

    /** The clock reads -offset later, and the raw offset then is the delay. */
    method DoStep(raw: int, d: int, rx: nat, now: nat)
      requires now < Word64
      modifies `refCnt, `refRaw, clock
      ensures refCnt == rx && refRaw == d
      ensures clock.line == Apply(old(clock.line), clock.freq, Change.Step(now, -(raw - d)))
      ensures clock.line.At(clock.freq, now) == old(clock.line).At(clock.freq, now) - (raw - d)
      ensures clock.line.ppb == old(clock.line).ppb && clock.epoch == (old(clock.epoch) + 1) % 0x1_0000_0000
    {
      clock.Step(now, -(raw - d));
      refCnt := rx;
      refRaw := d;
    }

    method Sample(raw: int, delay: int, rx: nat, now: nat, later: nat) returns (offset: int)
      requires now < Word64 && later < Word64 && Bounded(View())
      modifies this, clock
      ensures offset == Offset(Measurement(raw, delay, rx)) && Bounded(View())
      ensures var next := Next(old(View()), old(clock.line.ppb), clock.freq, Measurement(raw, delay, rx));
              && View() == next.0
              && clock.line == After(old(clock.line), clock.freq, Changes(next.1, now, later))
              && clock.epoch == if Jumped(next.1) then (old(clock.epoch) + 1) % 0x1_0000_0000 else old(clock.epoch)
      ensures old(phase) == Unlocked ==>
                && phase == Stepped && refCnt == rx && refRaw == (if delay >= 0 then delay else 0)
                && clock.line.At(clock.freq, now) == old(clock.line).At(clock.freq, now) - (raw - refRaw)
                && clock.line.ppb == old(clock.line).ppb && clock.epoch == (old(clock.epoch) + 1) % 0x1_0000_0000
      ensures old(phase) == Stepped && SpanNs(old(refCnt), rx, clock.freq) < 125_000_000 ==>
                View() == old(View()) && clock.line == old(clock.line) && clock.epoch == old(clock.epoch)
      ensures old(phase) == Stepped && SpanNs(old(refCnt), rx, clock.freq) >= 125_000_000 ==>
                && refCnt == rx && clock.line.ppb == -drift
                && if delay < 0
                   then phase == Stepped && refRaw == raw && clock.epoch == old(clock.epoch)
                        && clock.line.At(clock.freq, now) == old(clock.line).At(clock.freq, now)
                   else phase == Locked && refRaw == delay && lastCnt == rx
                        && clock.epoch == (old(clock.epoch) + 1) % 0x1_0000_0000
                        && clock.line.At(clock.freq, later)
                           == Line(now, old(clock.line).At(clock.freq, now), -drift).At(clock.freq, later)
                              - (raw - delay)
    {
      var d := if delay >= 0 then delay else 0;
      offset := raw - d;
      ghost var m := Measurement(raw, delay, rx);
      hide Line.At, Apply, Quot, SpanNs, Follow, After, Jumped, Estimate;
      match phase {
        case Unlocked =>
          DoStep(raw, d, rx, now);
          phase := Stepped;
          OneChange(old(clock.line), clock.freq, Jump(-offset), now, later);
        case Stepped =>
          Measure(raw, delay, rx, now, later);
        case Locked =>
          Track(raw, delay, rx, now, later);
      }
    }

    /** A locked servo follows the master, ignores an outlier, or starts again. */
    method Track(raw: int, delay: int, rx: nat, now: nat, later: nat)
      requires now < Word64 && later < Word64 && phase == Locked && Bounded(View())
      modifies this, clock
      ensures Bounded(View())
      ensures var next := Next(old(View()), old(clock.line.ppb), clock.freq, Measurement(raw, delay, rx));
              && View() == next.0
              && clock.line == After(old(clock.line), clock.freq, Changes(next.1, now, later))
              && clock.epoch == if Jumped(next.1) then (old(clock.epoch) + 1) % 0x1_0000_0000 else old(clock.epoch)
    {
      hide Line.At, Apply, Quot, SpanNs;
      var d := if delay >= 0 then delay else 0;
      var offset := raw - d;
      ghost var m := Measurement(raw, delay, rx);
      ghost var next := Next(View(), clock.line.ppb, clock.freq, m);
      if Abs(offset) > StepNs {
        outliers := outliers + 1;
        if outliers >= Outliers {
          outliers := 0;
          DoStep(raw, d, rx, now);
          phase := Stepped;
          OneChange(old(clock.line), clock.freq, Jump(-offset), now, later);
        }
        return;
      }
      FollowMaster(offset, rx, now, m);
      OneChange(old(clock.line), clock.freq, next.1[0], now, later);
    }

    /** Estimate the oscillator's drift from how far the raw offset moved. */
    method Measure(raw: int, delay: int, rx: nat, now: nat, later: nat)
      requires now < Word64 && later < Word64 && phase == Stepped && Bounded(View())
      modifies this, clock
      ensures Bounded(View())
      ensures var next := Next(old(View()), old(clock.line.ppb), clock.freq, Measurement(raw, delay, rx));
              && View() == next.0
              && clock.line == After(old(clock.line), clock.freq, Changes(next.1, now, later))
              && clock.epoch == if Jumped(next.1) then (old(clock.epoch) + 1) % 0x1_0000_0000 else old(clock.epoch)
      ensures SpanNs(old(refCnt), rx, clock.freq) < 125_000_000 ==>
                View() == old(View()) && clock.line == old(clock.line) && clock.epoch == old(clock.epoch)
      ensures SpanNs(old(refCnt), rx, clock.freq) >= 125_000_000 ==>
                && clock.line.ppb == -drift
                && clock.epoch == (if delay < 0 then old(clock.epoch) else (old(clock.epoch) + 1) % 0x1_0000_0000)
                && clock.line.At(clock.freq, if delay < 0 then now else later)
                   == if delay < 0 then old(clock.line).At(clock.freq, now)
                      else Line(now, old(clock.line).At(clock.freq, now), -drift).At(clock.freq, later) - (raw - delay)
    {
      hide Line.At, Apply, Quot, SpanNs;
      var span := SpanNs(refCnt, rx, clock.freq);
      if span < NsPerSec / 8 {
        return;
      }
      var slope := Quot((raw - refRaw) * NsPerSec, span);
      drift := ClampPpb(slope - clock.line.ppb);
      clock.AdjFreq(now, ClampPpb(-drift));
      if delay >= 0 {
        DoStep(raw, delay, rx, later);
        phase := Locked;
        lastCnt := rx;
        TwoChanges(old(clock.line), clock.freq, Rate(-drift), Jump(-(raw - delay)), now, later);
      } else {
        refCnt := rx;
        refRaw := raw;
        OneChange(old(clock.line), clock.freq, Rate(-drift), now, later);
      }
    }

    /** The PI controller: gains of 3/10 and 1/20 per second of sync interval. */
    method FollowMaster(offset: int, rx: nat, now: nat, ghost m: Measurement)
      requires now < Word64 && m.rx == rx && offset == Offset(m)
      modifies `outliers, `lastCnt, `drift, clock`line
      ensures View() == Follow(old(View()), clock.freq, m).0
      ensures clock.line
                == Apply(old(clock.line), clock.freq,
                         Change.Frequency(now, Follow(old(View()), clock.freq, m).1[0].ppb))
    {
      hide Line.At, Apply, Quot, SpanNs;
      outliers := 0;
      var T := SpanNs(lastCnt, rx, clock.freq);
      lastCnt := rx;
      if T <= 0 || T > 8 * NsPerSec {
        T := NsPerSec;
      }
      var p := Quot(offset * 3 * NsPerSec, 10 * T);
      var i := Quot(offset * NsPerSec, 20 * T);
      drift := ClampPpb(drift + i);
      clock.AdjFreq(now, ClampPpb(-(drift + p)));
    }
  }

  lemma OneChange(l: Line, f: nat, c: Command, now: nat, later: nat)
    ensures var ch := Changes([c], now, later)[0]; After(l, f, Changes([c], now, later)) == Apply(l, f, ch)
    ensures Jumped([c]) == c.Jump?
  {
    hide Apply;
    assert Changes([c], now, later)[1..] == [];
    assert [c][0] == c;
  }

  lemma TwoChanges(l: Line, f: nat, c: Command, d: Command, now: nat, later: nat)
    ensures var ch := Changes([c, d], now, later);
            After(l, f, ch) == Apply(Apply(l, f, ch[0]), f, ch[1])
    ensures Jumped([c, d]) == (c.Jump? || d.Jump?)
  {
    hide Apply;
    var ch := Changes([c, d], now, later);
    assert ch[1..] == [ch[1]] && ch[1..][1..] == [];
    assert After(l, f, ch) == After(Apply(l, f, ch[0]), f, ch[1..]);
    assert After(Apply(l, f, ch[0]), f, [ch[1]]) == Apply(Apply(l, f, ch[0]), f, ch[1]);
    assert [c, d][0] == c && [c, d][1] == d;
  }

  // ----- Losing the lock ---------------------------------------------------

  /** The states of a run of measurements; the clock's rate at each is free. */
  ghost predicate IsRun(states: seq<State>, ppbs: seq<int>, f: nat, ms: seq<Measurement>) {
    && |states| == |ms| + 1 && |ppbs| == |ms|
    && forall i :: 0 <= i < |ms| ==> states[i + 1] == Next(states[i], ppbs[i], f, ms[i]).0
  }

  /** The measured offset, less the path delay if that is known, is beyond 1 ms. */
  predicate Far(m: Measurement) {
    var offset := if m.delay >= 0 then m.raw - m.delay else m.raw;
    offset > 1_000_000 || offset < -1_000_000
  }

  /** Three measurements in a row, the last of them at i, were beyond the limit. */
  ghost predicate ThreeOutlying(ms: seq<Measurement>, i: int) {
    2 <= i < |ms| && Far(ms[i - 2]) && Far(ms[i - 1]) && Far(ms[i])
  }

  /** The number of outlying measurements just before n, up to 3. */
  ghost function Trailing(ms: seq<Measurement>, n: nat): nat
    requires n <= |ms|
  {
    if n == 0 || !Far(ms[n - 1]) then 0
    else if n == 1 || !Far(ms[n - 2]) then 1
    else if n == 2 || !Far(ms[n - 3]) then 2 else 3
  }

  lemma {:induction false} TrailingCounted(states: seq<State>, ppbs: seq<int>, f: nat, ms: seq<Measurement>, n: nat)
    requires IsRun(states, ppbs, f, ms) && states[0].phase == Locked && states[0].outliers == 0 && n <= |ms|
    requires forall i :: 0 <= i < n ==> !ThreeOutlying(ms, i)
    ensures states[n].phase == Locked && states[n].outliers == Trailing(ms, n) < 3
  {
    hide SpanNs, Quot;
    if n > 0 {
      TrailingCounted(states, ppbs, f, ms, n - 1);
      assert !ThreeOutlying(ms, n - 1);
      assert states[n - 1 + 1] == Next(states[n - 1], ppbs[n - 1], f, ms[n - 1]).0;
    }
  }

  /** From a fresh lock the servo stays locked, and so never jumps the clock,
      exactly as long as no three measurements in a row are outlying. */
  lemma LockIsKeptIff(states: seq<State>, ppbs: seq<int>, f: nat, ms: seq<Measurement>)
    requires IsRun(states, ppbs, f, ms) && states[0].phase == Locked && states[0].outliers == 0
    ensures (forall i :: 0 <= i < |states| ==> states[i].phase == Locked)
            <==> (forall i :: 0 <= i < |ms| ==> !ThreeOutlying(ms, i))
  {
    if forall i :: 0 <= i < |ms| ==> !ThreeOutlying(ms, i) {
      forall i | 0 <= i < |states| ensures states[i].phase == Locked {
        TrailingCounted(states, ppbs, f, ms, i);
      }
    } else {
      var i :| 0 <= i < |ms| && ThreeOutlying(ms, i);
      var j := FirstThree(ms, i);
      TrailingCounted(states, ppbs, f, ms, j);
      hide SpanNs, Quot, IsRun;
      assert states[j + 1] == Next(states[j], ppbs[j], f, ms[j]).0;
      assert states[j + 1].phase == Stepped;
    }
  }

  lemma FirstThree(ms: seq<Measurement>, i: nat) returns (j: nat)
    requires ThreeOutlying(ms, i)
    ensures j <= i && ThreeOutlying(ms, j) && forall k :: 0 <= k < j ==> !ThreeOutlying(ms, k)
  {
    j := 0;
    while !ThreeOutlying(ms, j)
      invariant j <= i && forall k :: 0 <= k < j ==> !ThreeOutlying(ms, k)
      decreases i - j
    {
      j := j + 1;
    }
  }

  /** A locked servo jumps the clock on the third outlying measurement in a row and
      on no other; the jump removes the whole measured offset. */
  lemma LockedJumps(s: State, ppb: int, f: nat, m: Measurement)
    requires Bounded(s) && s.phase == Locked
    ensures Jumped(Next(s, ppb, f, m).1) <==> Far(m) && s.outliers == 2
    ensures Jumped(Next(s, ppb, f, m).1) ==> Next(s, ppb, f, m).1 == [Jump(-Offset(m))]
  {
    hide SpanNs, Quot;
    assert Far(m) && s.outliers == 2 ==> [Jump(-Offset(m))][0].Jump?;
  }

  /** p is the part num / den per second of the offset, for a time of T, rounded toward
      zero. */
  ghost predicate IsPart(p: int, offset: int, num: int, den: int, T: int) {
    var x := offset * num * 1_000_000_000;
    if x >= 0 then p * (den * T) <= x < (p + 1) * (den * T) else (p - 1) * (den * T) < x <= p * (den * T)
  }

  ghost predicate IsClamped(y: int, x: int) {
    y == if x > 500_000 then 500_000 else if x < -500_000 then -500_000 else x
  }

  /** A locked servo follows every measurement within 1 ms: the drift moves by 1/20 of the
      offset per second, the rate is against the drift and 3/10 of the offset per second,
      and a second counts for every interval that is not between 0 and 8 s. */
  lemma LockedFollows(s: State, ppb: int, f: nat, m: Measurement) returns (p: int, i: int)
    requires s.phase == Locked && !Far(m)
    ensures var span, next := SpanNs(s.lastCnt, m.rx, f), Next(s, ppb, f, m);
            var T := if 0 < span <= 8_000_000_000 then span else 1_000_000_000;
            && IsPart(p, Offset(m), 3, 10, T) && IsPart(i, Offset(m), 1, 20, T)
            && IsClamped(next.0.drift, s.drift + i)
            && next.0 == s.(outliers := 0, lastCnt := m.rx, drift := next.0.drift)
            && |next.1| == 1 && next.1[0].Rate? && IsClamped(next.1[0].ppb, -(next.0.drift + p))
  {
    hide SpanNs, Quot;
    var T := Interval(SpanNs(s.lastCnt, m.rx, f));
    p, i := Proportional(Offset(m), T), Integral(Offset(m), T);
    Truncated(Offset(m) * 3 * NsPerSec, 10 * T);
    Truncated(Offset(m) * NsPerSec, 20 * T);
  }

  lemma Truncated(x: int, b: int)
    requires b > 0
    ensures var q := Quot(x, b); if x >= 0 then q * b <= x < (q + 1) * b else (q - 1) * b < x <= q * b
  {
    QuotBounds(x, b);
    assert (Quot(x, b) + 1) * b == Quot(x, b) * b + b && (Quot(x, b) - 1) * b == Quot(x, b) * b - b;
  }

  // ----- The frequency estimate --------------------------------------------

  /** If the raw offset has moved at the oscillator's true drift plus the applied
      rate, up to `noise` nanoseconds, the estimate is within 1 + 8 * noise ppb of
      the drift. */
  lemma EstimateIsClose(s: State, ppb: int, span: int, raw: int, drift: real, noise: real)
    requires span >= NsPerSec / 8 && -500000.0 <= drift <= 500000.0
    requires var moved := (raw - s.refRaw) as real;
             -noise <= moved - span as real * (drift + ppb as real) / 1000000000.0 <= noise
    ensures var e := Estimate(s, ppb, span, raw) as real;
            -(1.0 + 8.0 * noise) <= e - drift <= 1.0 + 8.0 * noise
  {
    var moved := raw - s.refRaw;
    var q := Quot(moved * NsPerSec, span);
    QuotNear(moved, span, q);
    CloseQuotient(span as real, q as real, drift + ppb as real, moved as real, noise);
  }

  lemma QuotNear(moved: int, span: int, q: int)
    requires span > 0 && q == Quot(moved * NsPerSec, span)
    ensures -(span as real) <= q as real * span as real - moved as real * 1000000000.0 <= span as real
  {
    QuotBounds(moved * NsPerSec, span);
    assert -span <= q * span - moved * NsPerSec <= span;
    assert (q * span) as real == q as real * span as real;
    assert (moved * NsPerSec) as real == moved as real * 1000000000.0;
  }

  lemma CloseQuotient(T: real, q: real, x: real, moved: real, noise: real)
    requires T >= 125000000.0
    requires -T <= q * T - moved * 1000000000.0 <= T
    requires -noise <= moved - T * x / 1000000000.0 <= noise
    ensures -(1.0 + 8.0 * noise) <= q - x <= 1.0 + 8.0 * noise
  {
    var r := 1.0 + 8.0 * noise;
    RealMul(noise, 125000000.0, T);
    CloseArithmetic(q * T, T * x, noise * T, T, moved, noise);
    Within(q, x, r, T, T + 8.0 * (noise * T), q * T - T * x);
  }

  lemma Within(q: real, x: real, r: real, T: real, rT: real, dT: real)
    requires T > 0.0 && rT == r * T && dT == q * T - T * x && -rT <= dT <= rT
    ensures -r <= q - x <= r
  {
    var d := q - x;
    assert d * T == q * T - T * x;
    RealMono(r, d, T);
    RealMono(d, -r, T);
    assert -r * T == -(r * T);
  }

  lemma CloseArithmetic(qT: real, xT: real, noiseT: real, T: real, moved: real, noise: real)
    requires -T <= qT - moved * 1000000000.0 <= T
    requires -noise <= moved - xT / 1000000000.0 <= noise && noise * 125000000.0 <= noiseT
    ensures -(T + 8.0 * noiseT) <= qT - xT <= T + 8.0 * noiseT
  {
  }

  lemma RealMul(x: real, y: real, z: real)
    requires x >= 0.0 && y <= z
    ensures x * y <= x * z
  {
    assert x * (z - y) >= 0.0;
  }

  // ----- Acquisition -------------------------------------------------------

  /** Whenever the servo jumps the clock it removes exactly the measured offset, and
      remembers the raw offset that is left: the path delay. */
  lemma JumpLeavesDelay(s: State, ppb: int, f: nat, m: Measurement)
    requires Bounded(s) && Jumped(Next(s, ppb, f, m).1)
    ensures var next := Next(s, ppb, f, m);
            && next.0.refRaw == m.raw - Offset(m) && next.0.refCnt == m.rx
            && exists i :: 0 <= i < |next.1| && next.1[i] == Jump(next.0.refRaw - m.raw)
  {
    hide SpanNs, Quot;
    var next := Next(s, ppb, f, m);
    var i :| 0 <= i < |next.1| && next.1[i].Jump?;
    assert next.1[i] == Jump(next.0.refRaw - m.raw);
  }

  /** A stepped servo locks exactly when the span is long enough for a slope and the
      path delay is known; without a delay it never jumps, so that the exchange
      that measures the delay stays valid. */
  lemma StepsLockExactlyWhen(s: State, ppb: int, f: nat, m: Measurement)
    requires Bounded(s) && s.phase == Stepped
    ensures var next := Next(s, ppb, f, m);
            && (next.0.phase == Locked <==> SpanNs(s.refCnt, m.rx, f) >= NsPerSec / 8 && m.delay >= 0)
            && (Jumped(next.1) <==> next.0.phase == Locked)
            && (next.0.phase != Locked ==> next.0.phase == Stepped)
  {
    hide SpanNs, Quot;
    var next := Next(s, ppb, f, m);
    if next.0.phase == Locked { assert next.1[1].Jump?; }
  }

  /** The unsigned span is exact for counters up to 18 GHz and up to 292 years,
      across a wrap of the counter. */
  lemma SpanIsExact(from: nat, to: nat, f: nat)
    requires 0 < f <= 18_446_744_073 && from <= to < from + Word64 && (to - from) / f < 9_223_372_035
    ensures SpanNs(from % Word64, to % Word64, f) == (to - from) * NsPerSec / f
  {
    var dt := to - from;
    Wrapped(from, to);
    TicksToNsExact(dt, f);
    SpanParts(dt, f);
    hide Quot, Rem;
  }

  lemma SpanParts(dt: nat, f: nat)
    requires 0 < f <= 18_446_744_073 && dt < Word64 && dt / f < 9_223_372_035
    ensures Signed64((dt / f) * NsPerSec + (dt % f) * NsPerSec % Word64 / f) == TicksToNs(dt, f)
    ensures Quot(dt * NsPerSec, f) == dt * NsPerSec / f
  {
    var w, r := dt / f, dt % f;
    SmallRest(r, f);
    Forward(dt, f);
    Forward(dt * NsPerSec, f);
    Forward(r * NsPerSec, f);
    SmallMod(r * NsPerSec);
    hide Quot, Rem, Signed64;
    SignedSmall(w * NsPerSec + r * NsPerSec / f);
  }

  /** C's division of what is not negative. */
  lemma Forward(a: int, b: int)
    requires a >= 0 && b > 0
    ensures Quot(a, b) == a / b && Rem(a, b) == a % b && a / b >= 0
  {
    QuotBounds(a, b);
  }

  lemma SmallMod(x: int)
    requires 0 <= x < Word64
    ensures x % Word64 == x
  {
  }

  lemma SignedSmall(v: int)
    requires 0 <= v < Half64
    ensures Signed64(v) == v
  {
  }

  lemma SmallRest(r: nat, f: nat)
    requires r < f <= 18_446_744_073
    ensures 0 <= r * NsPerSec / f < NsPerSec && r * NsPerSec < Word64
  {
    FloorBounds(r * NsPerSec, f);
    var q := r * NsPerSec / f;
    if q >= NsPerSec { MulMono(f, NsPerSec, q); }
    if q < 0 { MulMono(f, q, -1); }
  }

  lemma Wrapped(from: nat, to: nat)
    requires from <= to < from + Word64
    ensures (to % Word64 - from % Word64) % Word64 == to - from
  {
    var x, y := from / Word64, to / Word64;
    var u := to % Word64 - from % Word64;
    assert u == (to - from) + Word64 * (x - y);
    assert to - from == u - Word64 * (x - y);
    var t := u / Word64;
    assert u == Word64 * t + u % Word64;
    assert (to - from) - u % Word64 == Word64 * (t - (x - y));
  }

  /** No 64-bit product of a sample overflows: the slope while the raw offset has
      moved by less than 9.2 s, and the gains always. */
  lemma SampleFits(moved: int, m: Measurement)
    ensures Abs(moved) <= 9_223_372_036 ==> Int64(moved * NsPerSec)
    ensures !Outlying(m) ==> Int64(Offset(m) * 3 * NsPerSec) && Int64(Offset(m) * NsPerSec)
  {
  }
}
