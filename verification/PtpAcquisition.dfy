/** From power-up to the first lock: what the servo does with every measurement until
    then, and which measurement locks it. */
module PtpAcquisition {
  import opened CInt
  import opened PtpClock
  import opened PtpServo
  import opened PtpLoop
  import opened PtpLock

  /** The time between two measurements that is long enough to see a drift. */
  const Baseline: int := 125_000_000

  ghost predicate Apart(ms: seq<Measurement>, f: nat, i: nat, j: nat) {
    i < |ms| && j < |ms| && SpanNs(ms[i].rx, ms[j].rx, f) >= Baseline
  }

  /** The measurement that the servo compares the next one with when it has had n of
      them and is not locked: the first, or the last that was far enough from the
      reference before it. */
  ghost function Reference(ms: seq<Measurement>, f: nat, n: nat): (r: nat)
    requires 0 < n <= |ms|
    ensures r < n
  {
    if n == 1 || Apart(ms, f, Reference(ms, f, n - 1), n - 1) then n - 1 else Reference(ms, f, n - 1)
  }

  /** Measurement i has a path delay and is far enough from the reference. */
  ghost predicate Locks(ms: seq<Measurement>, f: nat, i: nat) {
    0 < i < |ms| && ms[i].delay >= 0 && Apart(ms, f, Reference(ms, f, i), i)
  }

  function Known(delay: int): int {
    if delay >= 0 then delay else 0
  }

  /** The raw offset right after measurement r: a path delay after the first one,
      which steps the clock, and what was measured after the others, which do not. */
  ghost function RawAfter(ms: seq<Measurement>, r: nat): int
    requires r < |ms|
  {
    if r == 0 then Known(ms[0].delay) else ms[r].raw
  }

  /** The state after n measurements none of which locks. */
  ghost predicate Acquiring(s: State, ms: seq<Measurement>, f: nat, n: nat)
    requires n <= |ms|
  {
    if n == 0 then s == Initial
    else
      && s.phase == Stepped && Bounded(s)
      && var r := Reference(ms, f, n); s.refCnt == ms[r].rx && s.refRaw == RawAfter(ms, r)
  }

  /** Until one locks, the servo is stepped and refers to the reference. */
  lemma {:induction false} Acquires(states: seq<State>, ppbs: seq<int>, f: nat, ms: seq<Measurement>, n: nat)
    requires IsRun(states, ppbs, f, ms) && states[0] == Initial && n <= |ms|
    requires forall i :: 0 <= i < n ==> !Locks(ms, f, i)
    ensures Acquiring(states[n], ms, f, n)
  {
    hide SpanNs, Quot;
    if n > 0 {
      Acquires(states, ppbs, f, ms, n - 1);
      assert !Locks(ms, f, n - 1);
      assert states[n - 1 + 1] == Next(states[n - 1], ppbs[n - 1], f, ms[n - 1]).0;
    }
  }

  /** From power-up on, the servo is locked after the first measurement that has a path
      delay and lies 125 ms behind the current reference, and not before. */
  lemma FirstLock(states: seq<State>, ppbs: seq<int>, f: nat, ms: seq<Measurement>, n: nat)
    requires IsRun(states, ppbs, f, ms) && states[0] == Initial && n < |ms|
    requires forall i :: 0 <= i < n ==> !Locks(ms, f, i)
    ensures forall i :: 0 <= i <= n ==> states[i].phase == if i == 0 then Unlocked else Stepped
    ensures states[n + 1].phase == if Locks(ms, f, n) then Locked else Stepped
  {
    hide SpanNs, Quot;
    forall i | 0 <= i <= n ensures states[i].phase == if i == 0 then Unlocked else Stepped {
      Acquires(states, ppbs, f, ms, i);
    }
    Acquires(states, ppbs, f, ms, n);
    assert states[n + 1] == Next(states[n], ppbs[n], f, ms[n]).0;
  }

  /** The frequency error of the oscillator, from how far the raw offset has moved in
      the given time beside what the applied rate accounts for. */
  ghost predicate Estimated(drift: int, moved: int, span: int, ppb: int)
    requires span > 0
  {
    var slope := Quot(moved * 1_000_000_000, span) - ppb;
    drift == if slope > 500_000 then 500_000 else if slope < -500_000 then -500_000 else slope
  }

  /** What the clock is told meanwhile: to jump by the whole offset at the first
      measurement and at the one that locks, to run against the drift at every one
      that is far enough from the reference, and nothing at the others. */
  lemma Commands(states: seq<State>, ppbs: seq<int>, f: nat, ms: seq<Measurement>, n: nat)
    requires IsRun(states, ppbs, f, ms) && states[0] == Initial && n < |ms|
    requires forall i :: 0 <= i < n ==> !Locks(ms, f, i)
    ensures var m, drift, told := ms[n], states[n + 1].drift, Next(states[n], ppbs[n], f, ms[n]).1;
            var jump := Jump(-(m.raw - Known(m.delay)));
            if n == 0 then told == [jump] && drift == 0
            else
              var r := Reference(ms, f, n);
              if !Apart(ms, f, r, n) then told == [] && states[n + 1] == states[n]
              else
                && Estimated(drift, m.raw - RawAfter(ms, r), SpanNs(ms[r].rx, m.rx, f), ppbs[n])
                && told == if m.delay >= 0 then [Rate(-drift), jump] else [Rate(-drift)]
  {
    hide SpanNs, Quot;
    Acquires(states, ppbs, f, ms, n);
    assert states[n + 1] == Next(states[n], ppbs[n], f, ms[n]).0;
  }

  /** The oscillator runs at the given drift, and what is measured at n is right, both
      within the noise: the raw offset moved since the reference by what drift and
      applied rate account for, and o is the true offset. */
  ghost predicate Plausible(ms: seq<Measurement>, f: nat, n: nat, ppb: int, drift: real, noise: real, o: real)
    requires 0 < n < |ms|
  {
    var r := Reference(ms, f, n);
    var moved := (ms[n].raw - RawAfter(ms, r)) as real;
    && -noise <= moved - SpanNs(ms[r].rx, ms[n].rx, f) as real * (drift + ppb as real) / Giga <= noise
    && -noise <= (ms[n].raw - Known(ms[n].delay)) as real - o <= noise
  }

  /** From power-up to a lock for good: whatever was measured before, once a measurement
      locks the servo and is right within the noise, the servo stays locked on all that
      follow and never steps the clock again. */
  lemma LockedForGood(states: seq<State>, ppbs: seq<int>, f: nat, ms: seq<Measurement>, n: nat, o: real,
                      ls: seq<Loop>, ss: seq<State>, later: seq<Measurement>, drift: real, T: int, noise: real,
                      v: real, O: real, E: real, i: nat)
    requires IsRun(states, ppbs, f, ms) && states[0] == Initial && Locks(ms, f, n)
    requires forall j :: 0 <= j < n ==> !Locks(ms, f, j)
    requires -500000.0 <= drift <= 500000.0 && noise >= 0.0 && Plausible(ms, f, n, ppbs[n], drift, noise, o)
    requires MeasuredRun(ls, ss, f, later, drift, T, noise) && i <= |later|
    requires ss[0] == states[n + 1] && Released(Next(states[n], ppbs[n], f, ms[n]), o, drift, T, ls[0])
    requires Margins(drift, T, noise, O, E) && Level(v, O, E, Disturbance(noise, T as real / Giga))
             && LockFits(noise, T, v)
    ensures ss[i].phase == Locked && EnergyOf(ls[i], drift, T as real) <= v
    ensures i < |later| ==> !Outlying(later[i]) && !Jumped(Next(ss[i], 0, f, later[i]).1)
  {
    Acquires(states, ppbs, f, ms, n);
    assert states[n + 1] == Next(states[n], ppbs[n], f, ms[n]).0;
    LocksNow(states[n], ppbs[n], f, ms, n, drift, noise, o);
    hide *;
    LockLasts(states[n], ppbs[n], ms[n], o, ls, ss, f, later, drift, T, noise, v, O, E, i);
  }

  lemma LocksNow(s: State, ppb: int, f: nat, ms: seq<Measurement>, n: nat, drift: real, noise: real, o: real)
    requires 0 < n < |ms| && Acquiring(s, ms, f, n) && Locks(ms, f, n) && Plausible(ms, f, n, ppb, drift, noise, o)
    requires -500000.0 <= drift <= 500000.0 && noise >= 0.0
    ensures Locking(s, ppb, f, ms[n], drift, noise, o)
  {
    hide SpanNs;
  }
}
