/** What every run of the slave engine keeps. */
module PtpRuns {
  import opened CInt
  import opened PtpClock
  import opened PtpMaster
  import opened PtpCore
  import PtpServo
  import PtpDelay

  // ----- Delay samples -----------------------------------------------------

  /** The true state of the network: for each master its path delay (the same in
      both directions) and its time at each counter value; and by how much the
      offset of the slave's clock moves at most between the two halves of an
      exchange, if the clock is not stepped in between. */
  datatype World = World(delay: PortId -> int, time: (PortId, nat) -> int, drift: nat)

  /** What an observer notes of a run: how often the clock has been stepped, now
      and when t2, the master-to-slave leg and t3 were stored; the true offset of the
      clock from the selected master when each of them was read; and when the last
      request left. */
  datatype History = History(steps: nat, t2Steps: nat, t2Offset: int, msSteps: nat, msOffset: int,
                             t3Steps: nat, t3Offset: int, sentAt: nat)

  /** The event is a message of the selected master. */
  predicate Heard(s: State, e: Event) {
    e.Receive? && e.eventPort == e.m.Sync? && FromMaster(s, e.m.Source()) && e.m.Source() != s.self
  }

  /** The event completes a Sync, and its leg is stored. */
  predicate Measures(s: State, e: Event) {
    Heard(s, e) && (if e.m.Sync? then !e.m.twoStep else Completes(s, e.m) && s.t2Epoch == s.epoch)
  }

  predicate Asks(s: State, e: Event) {
    e.Poll? && Requests(s, e.ms) && e.sent
  }

  function Observe(h: History, s: State, e: Event, w: World): History
    requires Ok(s) && EventOk(e)
  {
    var synced := Heard(s, e) && e.m.Sync?;
    var t2Steps := if synced then h.steps else h.t2Steps;
    var t2Offset := if synced then TrueOffset(s, w, e.cnt) else h.t2Offset;
    History(if Handle(s, e).epoch != s.epoch then h.steps + 1 else h.steps,
            t2Steps, t2Offset,
            if Measures(s, e) then t2Steps else h.msSteps,
            if Measures(s, e) then t2Offset else h.msOffset,
            if Asks(s, e) then h.steps else h.t3Steps,
            if Asks(s, e) then TrueOffset(s, w, e.tx) else h.t3Offset,
            if Asks(s, e) then e.tx else h.sentAt)
  }

  /** How far the slave's clock is ahead of the selected master. */
  function TrueOffset(s: State, w: World, cnt: nat): int {
    s.line.At(s.freq, cnt) - w.time(s.master.portId, cnt)
  }

  /** A Sync sent at t1 and held back for corr in the network arrives one path
      delay later. */
  ghost predicate Arrives(s: State, w: World, t1: int, corr: int, cnt: nat) {
    t1 + corr + w.delay(s.master.portId) == w.time(s.master.portId, cnt)
  }

  /** The time stamps of this event are true; and the halves of an exchange that it
      completes lie fewer than 2^32 clock steps apart, with the offset moving by no
      more than the drift if there was no step. Nothing is asked of messages that are
      not the selected master's or answer nothing. */
  ghost predicate Honest(s: State, h: History, e: Event, w: World) {
    match e
    case Receive(m, _, cnt, _, _) =>
      Heard(s, e) ==>
        && (m.Sync? && !m.twoStep ==> Arrives(s, w, m.origin, m.corr, cnt))
        && (Completes(s, m) ==> Arrives(s, w, m.origin, s.syncCorr + m.corr, s.t2Cnt) && h.steps < h.t2Steps + Word32)
        && (Answers(s, m) ==>
              && m.received - m.corr == w.time(s.master.portId, h.sentAt) + w.delay(s.master.portId)
              && h.steps < h.t3Steps + Word32 && h.steps < h.msSteps + Word32
              && (h.msSteps == h.t3Steps ==> Abs(h.msOffset - h.t3Offset) <= w.drift))
    case Poll(_, _, _) => true
  }

  /** `stored` is a step count of the past and `epoch` the engine's image of it. */
  ghost predicate Dated(epoch: nat, stored: nat, steps: nat) {
    stored <= steps && epoch == stored % Word32
  }

  lemma SameEpoch(epoch: nat, stored: nat, steps: nat)
    requires Dated(epoch, stored, steps) && epoch == steps % Word32 && steps < stored + Word32
    ensures stored == steps
  {
    var d := steps - stored;
    assert steps == Word32 * (steps / Word32) + epoch && stored == Word32 * (stored / Word32) + epoch;
    assert d == Word32 * (steps / Word32 - stored / Word32);
  }

  /** How far a delay sample can be off: half the drift, rounded up. */
  function Tolerance(w: World): nat {
    (w.drift + 1) / 2
  }

  /** Everything the engine has stored is true of the selected master. */
  ghost predicate Consistent(s: State, h: History, w: World) {
    var p := s.master.portId;
    && Ok(s) && s.epoch == h.steps % Word32
    && (s.waiting || s.msValid || s.reqDue || s.reqOut || s.delay.n > 0 ==> s.haveMaster)
    && (s.waiting ==> Dated(s.t2Epoch, h.t2Steps, h.steps) && s.t2 == w.time(p, s.t2Cnt) + h.t2Offset)
    && (s.msValid ==> Dated(s.msEpoch, h.msSteps, h.steps) && s.msLeg == w.delay(p) + h.msOffset)
    && (s.reqOut ==> Dated(s.t3Epoch, h.t3Steps, h.steps) && s.t3 == w.time(p, h.sentAt) + h.t3Offset)
    && DelaysAre(s.delay, w.delay(p), Tolerance(w))
  }

  /** Every sample, and their median, is within tol of the delay. */
  ghost predicate DelaysAre(d: PtpDelay.Window, delay: int, tol: nat)
    requires d.Valid()
  {
    && (forall i :: 0 <= i < d.n ==> delay - tol <= d.win[i] <= delay + tol)
    && (if d.n > 0 then delay - tol <= d.ns <= delay + tol else d.ns == -1)
  }

  lemma {:induction false} CountAll(s: seq<int>, lo: int, hi: int)
    requires forall i :: 0 <= i < |s| ==> lo <= s[i] <= hi
    ensures PtpDelay.CountIn(s, lo, hi) == |s|
  {
    if s != [] { CountAll(s[..|s| - 1], lo, hi); }
  }

  lemma AddDelay(w: PtpDelay.Window, d: int, tol: nat, x: int)
    requires w.Valid() && DelaysAre(w, d, tol) && d - tol <= x <= d + tol
    ensures w.Add(x).Valid() && w.Add(x).n > 0 && DelaysAre(w.Add(x), d, tol)
  {
    hide PtpDelay.Median, PtpDelay.CountIn;
    var w' := w.Add(x);
    CountAll(w'.win[..w'.n], d - tol, d + tol);
    PtpDelay.MedianIsRobust(w'.win[..w'.n], d - tol, d + tol);
  }

  /** The sample of an honest response is the true delay to the selected master, but
      for half the drift: exactly the delay when the offset did not move. */
  lemma SampleIsDelay(s: State, h: History, m: Message, w: World)
    requires Consistent(s, h, w) && Samples(s, m) && Heard(s, Receive(m, false, 0, 0, 0))
    requires Honest(s, h, Receive(m, false, 0, 0, 0), w)
    ensures Abs(DelaySample(s, m) - w.delay(s.master.portId)) <= Tolerance(w)
    ensures h.msOffset == h.t3Offset ==> DelaySample(s, m) == w.delay(s.master.portId)
  {
    SameEpoch(s.t3Epoch, h.t3Steps, h.steps);
    SameEpoch(s.msEpoch, h.msSteps, h.steps);
    var d := w.delay(s.master.portId);
    assert s.msLeg + (m.received - m.corr - s.t3) == 2 * d + (h.msOffset - h.t3Offset);
    HalfOf(d, h.msOffset - h.t3Offset, w.drift);
  }

  lemma HalfOf(d: int, e: int, drift: nat)
    requires Abs(e) <= drift
    ensures Abs(Quot(2 * d + e, 2) - d) <= (drift + 1) / 2
    ensures e == 0 ==> Quot(2 * d + e, 2) == d
  {
    QuotBounds(2 * d + e, 2);
  }

  /** The history after a Sync was completed. */
  function Noted(h: History, before: State, after: State): History {
    h.(steps := if after.epoch != before.epoch then h.steps + 1 else h.steps,
       msSteps := if before.t2Epoch == before.epoch then h.t2Steps else h.msSteps,
       msOffset := if before.t2Epoch == before.epoch then h.t2Offset else h.msOffset)
  }

  lemma SyncCompleteKeeps(s: State, h: History, w: World, t1: int, corr: int, now: nat, later: nat)
    requires Consistent(s, h, w) && s.haveMaster && !s.waiting && Arrives(s, w, t1, corr, s.t2Cnt)
    requires Dated(s.t2Epoch, h.t2Steps, h.steps) && h.steps < h.t2Steps + Word32
    requires s.t2 == w.time(s.master.portId, s.t2Cnt) + h.t2Offset
    ensures var s' := SyncComplete(s, t1, corr, now, later); Consistent(s', Noted(h, s, s'), w)
  {
    hide After, PtpServo.Changes, PtpServo.Next, DelaysAre;
    if s.t2Epoch == s.epoch { SameEpoch(s.t2Epoch, h.t2Steps, h.steps); }
    NextEpoch(h.steps);
  }

  lemma NextEpoch(steps: nat)
    ensures (steps % Word32 + 1) % Word32 == (steps + 1) % Word32 != steps % Word32
  {
  }

  lemma SyncKeeps(s: State, h: History, w: World, m: Message, cnt: nat, now: nat, later: nat)
    requires Consistent(s, h, w) && m.Sync? && Heard(s, Receive(m, true, cnt, now, later))
    requires Honest(s, h, Receive(m, true, cnt, now, later), w)
    ensures Consistent(HandleSync(s, m, cnt, now, later), Observe(h, s, Receive(m, true, cnt, now, later), w), w)
  {
    hide Line.At, DelaysAre, SyncComplete;
    var s1 := s.(syncSeq := m.seqNo, t2Cnt := cnt, t2 := s.line.At(s.freq, cnt), t2Epoch := s.epoch,
                 syncCorr := m.corr, waiting := m.twoStep);
    if !m.twoStep {
      SyncCompleteKeeps(s1, h.(t2Steps := h.steps, t2Offset := TrueOffset(s, w, cnt)), w, m.origin, m.corr, now, later);
    }
  }

  lemma FollowUpKeeps(s: State, h: History, w: World, m: Message, cnt: nat, now: nat, later: nat)
    requires Consistent(s, h, w) && m.FollowUp? && Heard(s, Receive(m, false, cnt, now, later))
    requires Honest(s, h, Receive(m, false, cnt, now, later), w)
    ensures Consistent(HandleFollowUp(s, m, now, later), Observe(h, s, Receive(m, false, cnt, now, later), w), w)
  {
    hide DelaysAre, SyncComplete;
    if Completes(s, m) { SyncCompleteKeeps(s.(waiting := false), h, w, m.origin, s.syncCorr + m.corr, now, later); }
  }

  lemma DelayRespKeeps(s: State, h: History, w: World, m: Message)
    requires Consistent(s, h, w) && m.DelayResp? && Heard(s, Receive(m, false, 0, 0, 0))
    requires Honest(s, h, Receive(m, false, 0, 0, 0), w)
    ensures Consistent(HandleDelayResp(s, m), h, w)
  {
    if Samples(s, m) {
      SampleIsDelay(s, h, m, w);
      AddDelay(s.delay, w.delay(s.master.portId), Tolerance(w), DelaySample(s, m));
    }
    hide DelaysAre, PtpDelay.Window.Add;
  }

  lemma PollKeeps(s: State, h: History, w: World, ms: nat, sent: bool, tx: nat)
    requires Consistent(s, h, w) && Honest(s, h, Poll(ms, sent, tx), w)
    ensures Consistent(PollAt(s, ms, sent, tx), Observe(h, s, Poll(ms, sent, tx), w), w)
  {
    PollObserved(s, h, w, ms, sent, tx);
    ResetDelays(s, w.delay(s.master.portId), Tolerance(w));
    hide Line.At, DelaysAre, Observe, Requests, TimesOut, Handle;
  }

  /** A poll notes nothing but a request that leaves. */
  lemma PollObserved(s: State, h: History, w: World, ms: nat, sent: bool, tx: nat)
    requires Ok(s)
    ensures Observe(h, s, Poll(ms, sent, tx), w)
            == if Requests(s, ms) && sent
               then h.(t3Steps := h.steps, t3Offset := TrueOffset(s, w, tx), sentAt := tx)
               else h
  {
    hide Line.At, Requests, TimesOut, TrueOffset;
  }

  lemma ResetDelays(s: State, d: int, tol: nat)
    requires Ok(s)
    ensures Ok(Reset(s)) && DelaysAre(Reset(s).delay, d, tol)
  {
  }

  lemma AnnounceKeeps(s: State, h: History, w: World, m: Message)
    requires Consistent(s, h, w) && m.Announce? && m.ds.Valid()
    ensures Consistent(HandleAnnounce(s, m), h, w)
  {
    hide LogIntervalMs, Compare;
  }

  lemma StepKeeps(s: State, h: History, e: Event, w: World)
    requires Consistent(s, h, w) && EventOk(e) && Honest(s, h, e, w)
    ensures Consistent(Handle(s, e), Observe(h, s, e, w), w)
  {
    match e
    case Poll(ms, sent, tx) => PollKeeps(s, h, w, ms, sent, tx);
    case Receive(m, eventPort, cnt, now, later) => ReceiveKeeps(s, h, m, eventPort, cnt, now, later, w);
  }

  lemma ReceiveKeeps(s: State, h: History, m: Message, eventPort: bool, cnt: nat, now: nat, later: nat, w: World)
    requires Consistent(s, h, w) && EventOk(Receive(m, eventPort, cnt, now, later))
             && Honest(s, h, Receive(m, eventPort, cnt, now, later), w)
    ensures Consistent(Deliver(s, m, eventPort, cnt, now, later),
                       Observe(h, s, Receive(m, eventPort, cnt, now, later), w), w)
  {
    if m.Announce? {
      AnnounceKeeps(s, h, w, m);
      AnnounceEpoch(s, m);
    } else if eventPort == m.Sync? && FromMaster(s, m.from) && m.from != s.self {
      match m {
        case Sync(_, _, _, _, _) => SyncKeeps(s, h, w, m, cnt, now, later);
        case FollowUp(_, _, _, _) => FollowUpKeeps(s, h, w, m, cnt, now, later);
        case _ => DelayRespKeeps(s, h, w, m);
      }
    }
    hide Consistent, HandleSync, SyncComplete, HandleAnnounce, HandleFollowUp;
  }

  lemma AnnounceEpoch(s: State, m: Message)
    requires Ok(s) && m.Announce? && m.ds.Valid()
    ensures HandleAnnounce(s, m).epoch == s.epoch
  {
  }

  ghost predicate IsRun(states: seq<State>, events: seq<Event>) {
    && |states| == |events| + 1 && IsInitial(states[0])
    && forall i {:trigger events[i]} :: 0 <= i < |events| ==>
         Ok(states[i]) && EventOk(events[i]) && states[i + 1] == Handle(states[i], events[i])
  }

  ghost predicate Observed(states: seq<State>, hist: seq<History>, events: seq<Event>, w: World)
    requires IsRun(states, events)
  {
    && |hist| == |states| && hist[0].steps == 0 && states[0].epoch == 0
    && forall i {:trigger events[i]} :: 0 <= i < |events| ==>
         Honest(states[i], hist[i], events[i], w) && hist[i + 1] == Observe(hist[i], states[i], events[i], w)
  }

  /** In every run of true time stamps, whatever is received and however often the
      clock is stepped, everything stored belongs to the selected master, and every
      delay sample and their median is the true path delay to it, but for half of what
      the clock drifts within an exchange. */
  lemma {:induction false} DelaysAreTrue(states: seq<State>, hist: seq<History>, events: seq<Event>, w: World, n: nat)
    requires IsRun(states, events) && Observed(states, hist, events, w) && n < |states|
    ensures Consistent(states[n], hist[n], w)
    ensures states[n].delay.n > 0 ==> Abs(states[n].delay.ns - w.delay(states[n].master.portId)) <= Tolerance(w)
  {
    if n > 0 {
      DelaysAreTrue(states, hist, events, w, n - 1);
      assert events[n - 1] == events[n - 1];
      hide Consistent, Honest;
      StepKeeps(states[n - 1], hist[n - 1], events[n - 1], w);
    }
  }

  /** Along every such run, once a delay has been measured, the offset that a
      completed Sync gives to the servo is the true offset of the clock when the Sync
      arrived, within the tolerance of the delay. A negative median, which the servo
      takes for an unknown delay, leaves the whole path delay in the offset. */
  lemma OffsetIsTrue(states: seq<State>, hist: seq<History>, events: seq<Event>, w: World, n: nat)
    requires IsRun(states, events) && Observed(states, hist, events, w) && n < |events|
    requires Measures(states[n], events[n]) && states[n].delay.n > 0 && w.delay(states[n].master.portId) >= 0
    ensures Abs(states[n + 1].lastOffset - hist[n + 1].t2Offset) <= Tolerance(w)
    ensures states[n].delay.ns < 0 ==>
              states[n + 1].lastOffset == hist[n + 1].t2Offset + w.delay(states[n].master.portId)
  {
    DelaysAreTrue(states, hist, events, w, n);
    assert events[n] == events[n];
    hide IsRun, Observed, Consistent;
    OffsetAfter(states[n], hist[n], events[n], w);
  }

  lemma OffsetAfter(s: State, h: History, e: Event, w: World)
    requires Consistent(s, h, w) && EventOk(e) && Honest(s, h, e, w) && Measures(s, e)
    requires s.delay.n > 0 && w.delay(s.master.portId) >= 0
    ensures Abs(Handle(s, e).lastOffset - Observe(h, s, e, w).t2Offset) <= Tolerance(w)
    ensures s.delay.ns < 0 ==> Handle(s, e).lastOffset == Observe(h, s, e, w).t2Offset + w.delay(s.master.portId)
  {
    hide After, PtpServo.Changes, PtpServo.Next, Line.At;
  }

  // ----- Requests ----------------------------------------------------------

  /** The event is a poll that sends a Delay_Req. */
  predicate Polls(s: State, e: Event) {
    e.Poll? && Requests(s, e.ms)
  }

  lemma RequestStep(s: State, e: Event)
    requires Ok(s) && EventOk(e)
    ensures var s' := Handle(s, e);
            && (Polls(s, e) ==> !s'.reqDue && s'.lastReq == e.ms)
            && (!Polls(s, e) ==> s'.lastReq == s.lastReq && (s'.reqDue ==> s.reqDue || Measures(s, e)))
  {
    hide After, Line.At, PtpServo.Next, PtpServo.Changes, PtpDelay.Median, Compare, LogIntervalMs;
  }

  /** Between two requests a Sync has been completed, and 900 ms have passed on the
      32-bit millisecond count. */
  lemma RequestsAreSpaced(states: seq<State>, events: seq<Event>, i: nat, j: nat)
    requires IsRun(states, events) && i < j < |events| && Polls(states[i], events[i]) && Polls(states[j], events[j])
    requires forall n {:trigger events[n]} :: i < n < j ==> !Polls(states[n], events[n])
    ensures (events[j].ms - events[i].ms) % Word32 >= 900
    ensures exists n {:trigger events[n]} :: i < n < j && Measures(states[n], events[n])
  {
    var n := i + 1;
    RequestStep(states[i], events[i]);
    while n < j
      invariant i < n <= j && states[n].lastReq == events[i].ms
      invariant states[n].reqDue ==> exists m {:trigger events[m]} :: i < m < n && Measures(states[m], events[m])
    {
      hide Polls, Measures;
      assert events[n] == events[n];
      RequestStep(states[n], events[n]);
      n := n + 1;
    }
  }

  /** No sample beyond the limit is ever kept. */
  ghost predicate Within(w: PtpDelay.Window) {
    w.Valid() && forall i :: 0 <= i < w.n ==> Abs(w.win[i]) <= DelayMaxNs
  }

  lemma StepKeepsWithin(s: State, e: Event)
    requires Ok(s) && EventOk(e) && Within(s.delay)
    ensures Within(Handle(s, e).delay)
  {
    if e.Receive? && e.m.DelayResp? {
      DelayRespKeepsWithin(s, e.m);
    } else {
      OthersKeepWithin(s, e);
    }
    hide Within, HandleDelayResp, Requests;
  }

  lemma DelayRespKeepsWithin(s: State, m: Message)
    requires Ok(s) && Within(s.delay) && m.DelayResp?
    ensures Within(HandleDelayResp(s, m).delay)
  {
    hide PtpDelay.Median, DelaySample;
  }

  lemma OthersKeepWithin(s: State, e: Event)
    requires Ok(s) && EventOk(e) && !(e.Receive? && e.m.DelayResp?)
    ensures var d := Handle(s, e).delay; d == s.delay || d == s.delay.(n := 0, idx := 0, ns := -1)
  {
    hide After, Line.At, PtpServo.Next, PtpServo.Changes, Compare, LogIntervalMs, Requests, TimesOut;
  }

  lemma {:induction false} SamplesStayWithin(states: seq<State>, events: seq<Event>, n: nat)
    requires IsRun(states, events) && n < |states|
    ensures Within(states[n].delay)
  {
    if n > 0 {
      SamplesStayWithin(states, events, n - 1);
      assert events[n - 1] == events[n - 1];
      StepKeepsWithin(states[n - 1], events[n - 1]);
    }
  }
}
