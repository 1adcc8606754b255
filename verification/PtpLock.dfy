/** From acquisition to a lock that lasts: the sample that locks the servo leaves the
    loop so close to the master that no later sample takes the lock away. */
module PtpLock {
  import opened CInt
  import opened PtpClock
  import opened PtpServo
  import opened PtpLoop

  /** A stepped servo takes the sample that locks it: the path delay is known, the
      raw offset has moved since the last reference by the oscillator's drift and the
      applied rate, and the true offset o is measured, both within `noise`. */
  ghost predicate Locking(s: State, ppb: int, f: nat, m: Measurement, drift: real, noise: real, o: real) {
    && Bounded(s) && s.phase == Stepped && m.delay >= 0 && noise >= 0.0 && -500000.0 <= drift <= 500000.0
    && -noise <= Offset(m) as real - o <= noise
    && var span := SpanNs(s.refCnt, m.rx, f);
       && span >= NsPerSec / 8
       && -noise <= (m.raw - s.refRaw) as real - span as real * (drift + ppb as real) / Giga <= noise
  }

  /** What the clock has done when the next sample comes T nanoseconds later: it was
      stepped by what the servo said and has run at the rate the servo set. */
  ghost predicate Released(next: (State, seq<Command>), o: real, drift: real, T: int, l: Loop) {
    && l.estimate == next.0.drift as real && |next.1| == 2 && next.1[0].Rate? && next.1[1].Jump?
    && l.offset == o + next.1[1].delta as real + T as real * (drift + next.1[0].ppb as real) / Giga
  }

  /** How far the frequency can be off after the lock, in nanoseconds per interval. */
  ghost function Slack(noise: real, T: int): real {
    T as real * (1.0 + 8.0 * noise) / Giga
  }

  /** The sample locks the servo, and takes out the measured offset and the estimated
      drift. */
  lemma LockingIs(s: State, ppb: int, f: nat, m: Measurement, drift: real, noise: real, o: real)
    requires Locking(s, ppb, f, m, drift, noise, o)
    ensures var next := Next(s, ppb, f, m);
            && next.0.phase == Locked && next.0.outliers == 0
            && next.1 == [Rate(-next.0.drift), Jump(-Offset(m))]
            && -(1.0 + 8.0 * noise) <= next.0.drift as real - drift <= 1.0 + 8.0 * noise
  {
    var span := SpanNs(s.refCnt, m.rx, f);
    StepsLockExactlyWhen(s, ppb, f, m);
    EstimateIsClose(s, ppb, span, m.raw, drift, noise);
    hide SpanNs, Quot, Estimate;
  }

  /** After the lock the offset is within the noise and one interval of the slack. */
  lemma LockLeaves(s: State, ppb: int, f: nat, m: Measurement, drift: real, noise: real, o: real, T: int, l: Loop)
    requires Locking(s, ppb, f, m, drift, noise, o) && Released(Next(s, ppb, f, m), o, drift, T, l) && T > 0
    ensures -(noise + Slack(noise, T)) <= l.offset <= noise + Slack(noise, T)
    ensures -Slack(noise, T) <= l.Error(drift, T as real) <= Slack(noise, T)
  {
    hide *;
    LockingIs(s, ppb, f, m, drift, noise, o);
    LockingFacts(s, ppb, f, m, drift, noise, o);
    ReleasedIs(Next(s, ppb, f, m), o, drift, T, l, Offset(m), l.Error(drift, T as real));
    ErrorWithin(l, drift, T, noise);
  }

  lemma ErrorWithin(l: Loop, drift: real, T: int, noise: real)
    requires T > 0 && -(1.0 + 8.0 * noise) <= l.estimate - drift <= 1.0 + 8.0 * noise
    ensures -Slack(noise, T) <= l.Error(drift, T as real) <= Slack(noise, T)
  {
    Gained(T as real, drift, l.estimate, 1.0 + 8.0 * noise);
  }

  lemma ReleasedIs(next: (State, seq<Command>), o: real, drift: real, T: int, l: Loop, offset: int, gained: real)
    requires Released(next, o, drift, T, l) && next.1 == [Rate(-next.0.drift), Jump(-offset)]
    requires gained == l.Error(drift, T as real)
    ensures l.estimate == next.0.drift as real && l.offset == o - offset as real + gained
  {
    assert next.1[0] == Rate(-next.0.drift) && next.1[1] == Jump(-offset);
    assert (-next.0.drift) as real == -l.estimate && (-offset) as real == -(offset as real);
  }

  lemma LockingFacts(s: State, ppb: int, f: nat, m: Measurement, drift: real, noise: real, o: real)
    requires Locking(s, ppb, f, m, drift, noise, o)
    ensures -noise <= Offset(m) as real - o <= noise
  {
  }

  lemma Gained(t: real, drift: real, estimate: real, r: real)
    requires t > 0.0 && -r <= estimate - drift <= r
    ensures -(t * r / Giga) <= t * (drift - estimate) / Giga <= t * r / Giga
  {
    Scale(t, drift - estimate, r);
    Scale(t, -r, drift - estimate);
    assert t * -r == -(t * r);
  }

  /** The energy after the lock is below the level. */
  ghost predicate LockFits(noise: real, T: int, v: real) {
    var x, y := noise + Slack(noise, T), Slack(noise, T);
    x * x / 20.0 + 7.0 * x * y / 20.0 + y * y <= v
  }

  /** From the sample that locks the servo on, whatever is measured within the noise,
      the servo stays locked, never steps the clock again and is never clamped; the
      energy stays below the level and comes down to the floor of noise and rounding. */
  lemma LockLasts(s: State, ppb: int, m: Measurement, o: real, ls: seq<Loop>, ss: seq<State>, f: nat,
                  ms: seq<Measurement>, drift: real, T: int, noise: real, v: real, O: real, E: real, n: nat)
    requires Locking(s, ppb, f, m, drift, noise, o)
    requires MeasuredRun(ls, ss, f, ms, drift, T, noise) && n <= |ms|
    requires ss[0] == Next(s, ppb, f, m).0 && Released(Next(s, ppb, f, m), o, drift, T, ls[0])
    requires Margins(drift, T, noise, O, E) && Level(v, O, E, Disturbance(noise, T as real / Giga))
             && LockFits(noise, T, v)
    ensures ss[n].phase == Locked && EnergyOf(ls[n], drift, T as real) <= v
    ensures SampledRun(ls[..n + 1], ss[..n + 1], f, ms[..n], drift, T, noise)
    ensures n < |ms| ==> !Outlying(ms[n]) && !Jumped(Next(ss[n], 0, f, ms[n]).1)
    ensures EnergyOf(ls[n], drift, T as real)
              <= Left(EnergyOf(ls[0], drift, T as real), Disturbance(noise, T as real / Giga), n)
  {
    hide *;
    MarginsPositive(drift, T, noise, O, E);
    RunSizes(ls, ss, f, ms, drift, T, noise);
    LockLeaves(s, ppb, f, m, drift, noise, o, T, ls[0]);
    BelowLevel(ls[0], drift, T, noise, v);
    QuietRun(ls, ss, f, ms, drift, T, noise, v, O, E, n);
    if n < |ms| { NoJump(ls, ss, f, ms, drift, T, noise, v, O, E, n); }
  }

  lemma RunSizes(ls: seq<Loop>, ss: seq<State>, f: nat, ms: seq<Measurement>, drift: real, T: int, noise: real)
    requires MeasuredRun(ls, ss, f, ms, drift, T, noise)
    ensures |ls| == |ss| == |ms| + 1
  {
  }

  lemma BelowLevel(l: Loop, drift: real, T: int, noise: real, v: real)
    requires -(noise + Slack(noise, T)) <= l.offset <= noise + Slack(noise, T)
    requires -Slack(noise, T) <= l.Error(drift, T as real) <= Slack(noise, T) && LockFits(noise, T, v)
    ensures EnergyOf(l, drift, T as real) <= v
  {
    hide Slack, Loop.Error, Energy;
    EnergyBound(l.offset, l.Error(drift, T as real), noise + Slack(noise, T), Slack(noise, T));
  }

  lemma NoJump(ls: seq<Loop>, ss: seq<State>, f: nat, ms: seq<Measurement>, drift: real, T: int, noise: real,
               v: real, O: real, E: real, n: nat)
    requires MeasuredRun(ls, ss, f, ms, drift, T, noise) && n < |ms| && Margins(drift, T, noise, O, E)
    requires Level(v, O, E, Disturbance(noise, T as real / Giga)) && ss[n].phase == Locked
    requires EnergyOf(ls[n], drift, T as real) <= v
    ensures !Outlying(ms[n]) && !Jumped(Next(ss[n], 0, f, ms[n]).1)
  {
    assert ms[n] == ms[n];
    hide Margins, Level, EnergyOf, Disturbance, Measured;
    QuietSample(ls[n], ss[n], f, ms[n], drift, T, noise, ls[n + 1], ss[n + 1], v, O, E,
                Disturbance(noise, T as real / Giga));
    QuietIsNoJump(ls[n], ss[n], f, ms[n], drift, T, noise, ls[n + 1], ss[n + 1]);
  }

  lemma QuietIsNoJump(l: Loop, s: State, f: nat, m: Measurement, drift: real, T: int, noise: real, l': Loop, s': State)
    requires Sampled(l, s, f, m, drift, T, noise, l', s')
    ensures !Outlying(m) && !Jumped(Next(s, 0, f, m).1)
  {
    hide SpanNs, Quot, Interval;
  }

  /** Ordinary conditions are such: one Sync a second, time stamps within 5 microseconds
      and a crystal within 50 ppm. */
  lemma OrdinaryLock(drift: real, noise: real)
    requires Size(drift) <= 50_000.0 && 0.0 <= noise <= 5_000.0
    ensures var v, O, E := 3_000_000_000.0, 900_000.0, 100_000.0;
            && Margins(drift, NsPerSec, noise, O, E) && Level(v, O, E, Disturbance(noise, NsPerSec as real / Giga))
            && LockFits(noise, NsPerSec, v)
  {
    LockArithmetic(noise, 1.0 + 8.0 * noise);
    NoiseArithmetic(noise);
  }

  lemma LockArithmetic(noise: real, y: real)
    requires 0.0 <= noise <= 5_000.0 && y == 1.0 + 8.0 * noise
    ensures var x := noise + y; x * x / 20.0 + 7.0 * x * y / 20.0 + y * y <= 3_000_000_000.0
  {
    var x := noise + y;
    Square(x, 45_001.0);
    Square(y, 40_001.0);
    Scale(x, y, 40_001.0);
  }

  lemma NoiseArithmetic(noise: real)
    requires 0.0 <= noise <= 5_000.0
    ensures 40.0 * Disturbance(noise, 1.0) <= 3_000_000_000.0
  {
    var o, e := 35.0 / 100.0 * noise + 2.0, noise / 20.0 + 1.0;
    Square(o, 1_752.0);
    Square(e, 251.0);
    Scale(o, e, 251.0);
  }
}
