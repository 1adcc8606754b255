/** The engine remembers exactly what its events say: everything it has stored is
    worked out here from the list of events, the readings of the clock and the moments
    at which the clock was stepped. */
module PtpHistory {
  import opened CInt
  import opened Common
  import opened PtpClock
  import opened PtpMaster
  import opened PtpCore
  import opened PtpRuns
  import PtpServo
  import PtpDelay

  // ----- The record ------------------------------------------------------------------------

  /** A completed Sync: when the Sync came, and when it was complete. */
  datatype Leg = Leg(sync: nat, done: nat)

  /** What is to be remembered of the events so far, by their numbers: the time of the
      last poll; the last Announce taken, ever and of the present master; the Sync that
      waits for its Follow_Up; the last completed Sync that did not step the clock;
      whether a Delay_Req is due; the last one sent and not answered; how many were made
      and when the last was; and the delay samples since the measurements started. */
  datatype Record = Record(polled: nat, told: Option<nat>, master: Option<nat>, waiting: Option<nat>, leg: Option<Leg>,
                           due: bool, asked: Option<nat>, requests: nat, lastReq: nat, samples: seq<int>)

  const Nothing := Record(0, None, None, None, None, false, None, 0, 0, [])

  /** The measurements start anew. */
  ghost function Forget(r: Record): Record {
    r.(waiting := None, leg := None, due := false, asked := None, samples := [])
  }

  /** The announce interval in milliseconds: 2^l seconds, rounded down, l within -7 to 6. */
  function Interval(l: int): nat {
    if l >= 6 then 64_000 else if l == 5 then 32_000 else if l == 4 then 16_000 else if l == 3 then 8_000
    else if l == 2 then 4_000 else if l == 1 then 2_000 else if l == 0 then 1_000 else if l == -1 then 500
    else if l == -2 then 250 else if l == -3 then 125 else if l == -4 then 62 else if l == -5 then 31
    else if l == -6 then 15 else 7
  }

  lemma IntervalIs(l: int)
    ensures LogIntervalMs(l) == Interval(l)
  {
    LogIntervalIs(l);
    assert Shift(1) == 2 && Shift(2) == 4 && Shift(3) == 8;
    assert Shift(4) == 2 * Shift(3) && Shift(5) == 2 * Shift(4) && Shift(6) == 2 * Shift(5) && Shift(7) == 2 * Shift(6);
  }

  /** The time of the last poll before event i, or 0. */
  ghost function LastPoll(events: seq<Event>, i: nat): nat
    requires i <= |events|
  {
    if i == 0 then 0 else if events[i - 1].Poll? then events[i - 1].ms else LastPoll(events, i - 1)
  }

  ghost predicate Sound(events: seq<Event>) {
    forall i :: 0 <= i < |events| ==> EventOk(events[i])
  }

  ghost predicate Announced(events: seq<Event>, i: nat) {
    i < |events| && events[i].Receive? && events[i].m.Announce?
  }

  ghost predicate Arrived(events: seq<Event>, i: nat) {
    i < |events| && events[i].Receive? && events[i].m.Sync?
  }

  /** At ms, nothing has been heard of the master of Announce i for three intervals and
      half a second, on the 32-bit count of milliseconds. */
  ghost predicate Silent(events: seq<Event>, i: nat, ms: nat)
    requires Announced(events, i)
  {
    (ms - LastPoll(events, i)) % 0x1_0000_0000 > 3 * Interval(events[i].m.logInterval) + 500
  }

  /** The numbers in the record are those of events of the right kind before n. */
  ghost predicate Known(r: Record, events: seq<Event>, n: nat) {
    && Sound(events)
    && (r.told.Some? ==> r.told.value < n && Announced(events, r.told.value))
    && (r.master.Some? ==> r.master.value < n && Announced(events, r.master.value))
    && (r.waiting.Some? ==> r.waiting.value < n && Arrived(events, r.waiting.value))
    && (r.leg.Some? ==>
          && r.leg.value.sync <= r.leg.value.done < n && Arrived(events, r.leg.value.sync)
          && r.leg.value.done < |events| && events[r.leg.value.done].Receive?
          && (r.leg.value.sync < r.leg.value.done ==> events[r.leg.value.done].m.FollowUp?))
    && (r.asked.Some? ==> r.asked.value < n <= |events| && events[r.asked.value].Poll?)
  }

  /** When the master sent the Sync, as corrected on the way. */
  ghost function SentAt(events: seq<Event>, sync: nat, done: nat): int
    requires Arrived(events, sync) && sync <= done < |events| && events[done].Receive?
    requires sync < done ==> events[done].m.FollowUp?
  {
    if sync == done then events[sync].m.origin + events[sync].m.corr
    else events[done].m.origin + (events[sync].m.corr + events[done].m.corr)
  }

  /** By how much the slave's clock was ahead when the Sync arrived, the path delay
      included. */
  ghost function RawAt(states: seq<State>, events: seq<Event>, sync: nat, done: nat): int
    requires |states| == |events| + 1 && Arrived(events, sync) && sync <= done < |events| && events[done].Receive?
    requires sync < done ==> events[done].m.FollowUp?
  {
    states[sync].line.At(states[0].freq, events[sync].cnt) - SentAt(events, sync, done)
  }

  /** The delay sample that the answer, event n, gives: half the sum of both ways, if the
      clock was not stepped between the Sync, the request and the answer, and if it is
      at most 10 ms. */
  ghost function Sample(states: seq<State>, events: seq<Event>, r: Record, n: nat): seq<int>
    requires |states| == |events| + 1 && n < |events| && Known(r, events, n)
    requires r.asked.Some? && events[n].Receive? && events[n].m.DelayResp?
  {
    var q, m := r.asked.value, events[n].m;
    if r.leg == None || states[q].epoch != states[n].epoch || states[r.leg.value.sync].epoch != states[q].epoch then []
    else
      var there := RawAt(states, events, r.leg.value.sync, r.leg.value.done);
      var back := m.received - m.corr - states[q].line.At(states[0].freq, events[q].tx);
      var x := Quot(there + back, 2);
      if -10_000_000 <= x <= 10_000_000 then [x] else []
  }

  /** The Sync of event i is completed by event n. */
  ghost function Done(states: seq<State>, r: Record, i: nat, n: nat): Record
    requires n + 1 < |states|
  {
    r.(waiting := None, due := true, leg := if states[n + 1].epoch != states[n].epoch then None else Some(Leg(i, n)))
  }

  ghost function Polled(r: Record, events: seq<Event>, n: nat): (r': Record)
    requires n < |events| && Known(r, events, n) && events[n].Poll?
    ensures Known(r', events, n + 1)
  {
    var ms := events[n].ms;
    if r.master.Some? && Silent(events, r.master.value, ms) then Forget(r.(polled := ms, master := None))
    else if r.due && (ms - r.lastReq) % 0x1_0000_0000 >= 900 then
      r.(polled := ms, due := false, requests := r.requests + 1, lastReq := ms,
         asked := if events[n].sent then Some(n) else r.asked)
    else r.(polled := ms)
  }

  ghost function Chosen(r: Record, events: seq<Event>, n: nat): (r': Record)
    requires n < |events| && Known(r, events, n) && Announced(events, n)
    ensures Known(r', events, n + 1)
  {
    var ds := events[n].m.ds;
    if r.master.Some? && ds.portId == events[r.master.value].m.ds.portId then r.(told := Some(n), master := Some(n))
    else if r.master == None || Better(ds, events[r.master.value].m.ds) then
      Forget(r.(told := Some(n), master := Some(n)))
    else r
  }

  /** Event n is a message of the master. */
  ghost predicate Masters(r: Record, events: seq<Event>, n: nat) {
    && Known(r, events, n) && n < |events| && events[n].Receive? && !events[n].m.Announce?
    && r.master.Some? && events[n].m.from == events[r.master.value].m.ds.portId
  }

  ghost function Told(states: seq<State>, r: Record, events: seq<Event>, n: nat): (r': Record)
    requires |states| == |events| + 1 && Masters(r, events, n)
    ensures Known(r', events, n + 1)
  {
    var m := events[n].m;
    match m
    case Sync(_, _, twoStep, _, _) => if twoStep then r.(waiting := Some(n)) else Done(states, r, n, n)
    case FollowUp(_, seqNo, _, _) =>
      if r.waiting.Some? && seqNo == events[r.waiting.value].m.seqNo then Done(states, r, r.waiting.value, n) else r
    case DelayResp(_, seqNo, requester, _, _) =>
      if r.asked.Some? && seqNo == r.requests % 0x1_0000 && requester == states[0].self
      then r.(asked := None, samples := r.samples + Sample(states, events, r, n))
      else r
    case _ => r
  }

  /** The record with event n. */
  ghost function Entered(states: seq<State>, r: Record, events: seq<Event>, n: nat): (r': Record)
    requires |states| == |events| + 1 && n < |events| && Known(r, events, n)
    ensures Known(r', events, n + 1)
  {
    var e := events[n];
    if e.Poll? then Polled(r, events, n)
    else if e.m.Source() == states[0].self || e.eventPort != e.m.Sync? then r
    else if e.m.Announce? then Chosen(r, events, n)
    else if !Masters(r, events, n) then r
    else Told(states, r, events, n)
  }

  /** The record after the first n events. */
  ghost function RecordAt(states: seq<State>, events: seq<Event>, n: nat): (r: Record)
    requires |states| == |events| + 1 && Sound(events) && n <= |events|
    ensures Known(r, events, n)
  {
    if n == 0 then Nothing else Entered(states, RecordAt(states, events, n - 1), events, n - 1)
  }

  // ----- What the engine has stored -----------------------------------------------------------

  ghost predicate MasterIs(s: State, events: seq<Event>, r: Record, n: nat)
    requires Known(r, events, n)
  {
    && (s.haveMaster <==> r.master.Some?)
    && (r.master.Some? ==>
          && s.master == events[r.master.value].m.ds && s.lastAnnounce == LastPoll(events, r.master.value)
          && s.timeout == 3 * Interval(events[r.master.value].m.logInterval) + 500)
    && s.utcOffset == (if r.told.Some? then events[r.told.value].m.utcOffset else 0)
    && s.flags == (if r.told.Some? then events[r.told.value].m.flags else 0)
  }

  ghost predicate SyncIs(s: State, states: seq<State>, events: seq<Event>, r: Record, n: nat)
    requires |states| == |events| + 1 && n <= |events| && Known(r, events, n)
  {
    && (s.waiting <==> r.waiting.Some?)
    && (r.waiting.Some? ==>
          var i := r.waiting.value;
          && s.syncSeq == events[i].m.seqNo && s.t2Cnt == events[i].cnt && s.syncCorr == events[i].m.corr
          && s.t2 == states[i].line.At(states[0].freq, events[i].cnt) && s.t2Epoch == states[i].epoch == s.epoch)
  }

  ghost predicate LegIs(s: State, states: seq<State>, events: seq<Event>, r: Record, n: nat)
    requires |states| == |events| + 1 && n <= |events| && Known(r, events, n)
  {
    && (s.msValid <==> r.leg.Some?)
    && (r.leg.Some? ==>
          && s.msLeg == RawAt(states, events, r.leg.value.sync, r.leg.value.done)
          && s.msEpoch == states[r.leg.value.sync].epoch)
  }

  ghost predicate RequestIs(s: State, states: seq<State>, events: seq<Event>, r: Record, n: nat)
    requires |states| == |events| + 1 && n <= |events| && Known(r, events, n)
  {
    && (s.reqDue <==> r.due) && (r.due ==> s.servo.phase != PtpServo.Unlocked)
    && s.reqSeq == r.requests % 0x1_0000 && s.lastReq == r.lastReq
    && (s.reqOut <==> r.asked.Some?)
    && (r.asked.Some? ==>
          && s.t3 == states[r.asked.value].line.At(states[0].freq, events[r.asked.value].tx)
          && s.t3Epoch == states[r.asked.value].epoch)
  }

  ghost predicate Empty(w: PtpDelay.Window) {
    w.Valid() && w.n == 0 && w.idx == 0 && w.ns == -1
  }

  /** The window holds the samples, put in one after the other. */
  ghost predicate DelayIs(d: PtpDelay.Window, samples: seq<int>) {
    exists w :: Empty(w) && d == PtpDelay.AddAll(w, samples)
  }

  /** The state is what the record says. */
  ghost predicate Matches(s: State, states: seq<State>, events: seq<Event>, r: Record, n: nat)
    requires |states| == |events| + 1 && n <= |events| && Known(r, events, n)
  {
    && Ok(s) && s.self == states[0].self && s.freq == states[0].freq && s.nowMs == r.polled == LastPoll(events, n)
    && MasterIs(s, events, r, n) && SyncIs(s, states, events, r, n) && LegIs(s, states, events, r, n)
    && RequestIs(s, states, events, r, n) && DelayIs(s.delay, r.samples)
  }

  lemma DelayBegins(d: PtpDelay.Window)
    requires Empty(d)
    ensures DelayIs(d, [])
  {
    assert d == PtpDelay.AddAll(d, []);
  }

  lemma DelayGrows(d: PtpDelay.Window, samples: seq<int>, x: int)
    requires DelayIs(d, samples) && d.Valid()
    ensures DelayIs(d.Add(x), samples + [x])
  {
    hide PtpDelay.Median, PtpDelay.Window.Add;
    var w :| Empty(w) && d == PtpDelay.AddAll(w, samples);
    assert (samples + [x])[..|samples|] == samples;
    assert d.Add(x) == PtpDelay.AddAll(w, samples + [x]);
  }

  lemma ResetMatches(s: State, states: seq<State>, events: seq<Event>, r: Record, n: nat)
    requires |states| == |events| + 1 && n <= |events| && Known(r, events, n)
    requires Ok(s) && s.self == states[0].self && s.freq == states[0].freq && s.nowMs == r.polled == LastPoll(events, n)
    requires MasterIs(s, events, r, n) && s.reqSeq == r.requests % 0x1_0000 && s.lastReq == r.lastReq
    ensures Known(Forget(r), events, n) && Matches(Reset(s), states, events, Forget(r), n)
  {
    DelayBegins(Reset(s).delay);
  }

  // ----- What a step leaves alone ----------------------------------------------------------------

  lemma KeepMaster(s: State, s': State, events: seq<Event>, r: Record, r': Record, n: nat, n': nat)
    requires Known(r, events, n) && Known(r', events, n') && MasterIs(s, events, r, n)
    requires r'.master == r.master && r'.told == r.told
    requires s'.haveMaster == s.haveMaster && s'.master == s.master && s'.lastAnnounce == s.lastAnnounce
    requires s'.timeout == s.timeout && s'.utcOffset == s.utcOffset && s'.flags == s.flags
    ensures MasterIs(s', events, r', n')
  {
    hide LastPoll, Interval, Sound;
  }

  lemma KeepSync(s: State, s': State, states: seq<State>, events: seq<Event>, r: Record, r': Record, n: nat, n': nat)
    requires |states| == |events| + 1 && n <= |events| && n' <= |events| && Known(r, events, n) && Known(r', events, n')
    requires SyncIs(s, states, events, r, n) && r'.waiting == r.waiting && s'.epoch == s.epoch
    requires s'.waiting == s.waiting && s'.syncSeq == s.syncSeq && s'.t2Cnt == s.t2Cnt && s'.syncCorr == s.syncCorr
    requires s'.t2 == s.t2 && s'.t2Epoch == s.t2Epoch
    ensures SyncIs(s', states, events, r', n')
  {
    hide Sound, Line.At;
  }

  lemma KeepLeg(s: State, s': State, states: seq<State>, events: seq<Event>, r: Record, r': Record, n: nat, n': nat)
    requires |states| == |events| + 1 && n <= |events| && n' <= |events| && Known(r, events, n) && Known(r', events, n')
    requires LegIs(s, states, events, r, n) && r'.leg == r.leg
    requires s'.msValid == s.msValid && s'.msLeg == s.msLeg && s'.msEpoch == s.msEpoch
    ensures LegIs(s', states, events, r', n')
  {
    hide Sound, RawAt;
  }

  lemma KeepRequest(s: State, s': State, states: seq<State>, events: seq<Event>, r: Record, r': Record, n: nat, n': nat)
    requires |states| == |events| + 1 && n <= |events| && n' <= |events| && Known(r, events, n) && Known(r', events, n')
    requires RequestIs(s, states, events, r, n) && r'.due == r.due && r'.requests == r.requests
    requires r'.lastReq == r.lastReq
    requires r'.asked == r.asked && s'.servo == s.servo && s'.reqDue == s.reqDue && s'.reqSeq == s.reqSeq
    requires s'.lastReq == s.lastReq && s'.reqOut == s.reqOut && s'.t3 == s.t3 && s'.t3Epoch == s.t3Epoch
    ensures RequestIs(s', states, events, r', n')
  {
    hide Sound, Line.At;
  }

  lemma KnownLater(r: Record, events: seq<Event>, n: nat)
    requires Known(r, events, n) && n < |events|
    ensures Known(r, events, n + 1)
  {
  }

  // ----- Polls --------------------------------------------------------------------------------------

  /** The engine takes its master for silent when the record says so. */
  lemma TimesOutIs(s: State, events: seq<Event>, r: Record, n: nat, ms: nat)
    requires Known(r, events, n) && MasterIs(s, events, r, n)
    ensures TimesOut(s, ms) <==> r.master.Some? && Silent(events, r.master.value, ms)
  {
    hide LastPoll, Interval, Sound;
  }

  lemma PollMatches(s: State, states: seq<State>, events: seq<Event>, r: Record, n: nat)
    requires |states| == |events| + 1 && n < |events| && Known(r, events, n) && events[n].Poll? && s == states[n]
    requires Matches(s, states, events, r, n)
    ensures Matches(Handle(s, events[n]), states, events, Polled(r, events, n), n + 1)
  {
    var ms, s', r' := events[n].ms, Handle(s, events[n]), Polled(r, events, n);
    TimesOutIs(s, events, r, n, ms);
    PolledAt(events, n);
    if TimesOut(s, ms) {
      MasterGone(s, events, r, n, ms);
      ResetMatches(s.(nowMs := ms, haveMaster := false), states, events, r.(polled := ms, master := None), n + 1);
    } else if r.due && (ms - r.lastReq) % 0x1_0000_0000 >= 900 {
      RequestMade(s, states, events, r, n);
    } else {
      PollIdle(s, states, events, r, n);
    }
    hide Known, MasterIs, SyncIs, LegIs, RequestIs, DelayIs, TimesOut, Silent, Line.At, Ok;
  }

  lemma PolledAt(events: seq<Event>, n: nat)
    requires n < |events| && events[n].Poll?
    ensures LastPoll(events, n + 1) == events[n].ms
  {
  }

  lemma MasterGone(s: State, events: seq<Event>, r: Record, n: nat, ms: nat)
    requires Known(r, events, n) && MasterIs(s, events, r, n) && n < |events|
    ensures var r' := r.(polled := ms, master := None);
            Known(r', events, n + 1) && MasterIs(s.(nowMs := ms, haveMaster := false), events, r', n + 1)
  {
    hide LastPoll, Interval, Sound;
  }

  lemma PollIdle(s: State, states: seq<State>, events: seq<Event>, r: Record, n: nat)
    requires |states| == |events| + 1 && n < |events| && Known(r, events, n) && events[n].Poll?
    requires Matches(s, states, events, r, n) && !TimesOut(s, events[n].ms)
    requires !(r.master.Some? && Silent(events, r.master.value, events[n].ms))
    requires !(r.due && (events[n].ms - r.lastReq) % 0x1_0000_0000 >= 900)
    ensures Matches(Handle(s, events[n]), states, events, Polled(r, events, n), n + 1)
  {
    hide MasterIs, SyncIs, LegIs, RequestIs, DelayIs, TimesOut, Silent, Line.At, LastPoll, PtpDelay.Window.Valid;
    hide Requests, Dataset.Valid, Sound;
    var ms := events[n].ms;
    var s', r' := s.(nowMs := ms), r.(polled := ms);
    NotAsked(s, states, events, r, n, ms);
    PolledAt(events, n);
    KnownLater(r', events, n);
    KeepAll(s, s', states, events, r, r', n);
  }

  lemma NotAsked(s: State, states: seq<State>, events: seq<Event>, r: Record, n: nat, ms: nat)
    requires |states| == |events| + 1 && n <= |events| && Known(r, events, n) && RequestIs(s, states, events, r, n)
    requires !TimesOut(s, ms)
    ensures Requests(s, ms) <==> r.due && (ms - r.lastReq) % 0x1_0000_0000 >= 900
  {
    hide Line.At, Known;
  }

  /** Nothing but times has changed. */
  lemma KeepAll(s: State, s': State, states: seq<State>, events: seq<Event>, r: Record, r': Record, n: nat)
    requires |states| == |events| + 1 && n < |events| && Known(r, events, n) && Known(r', events, n + 1)
    requires Matches(s, states, events, r, n) && s' == s.(nowMs := s'.nowMs) && r' == r.(polled := r'.polled)
    requires s'.nowMs == r'.polled == LastPoll(events, n + 1)
    ensures Matches(s', states, events, r', n + 1)
  {
    hide MasterIs, SyncIs, LegIs, RequestIs, DelayIs, Line.At, Known, LastPoll, PtpDelay.Window.Valid;
    KeepMaster(s, s', events, r, r', n, n + 1);
    KeepSync(s, s', states, events, r, r', n, n + 1);
    KeepLeg(s, s', states, events, r, r', n, n + 1);
    KeepRequest(s, s', states, events, r, r', n, n + 1);
  }

  lemma RequestMade(s: State, states: seq<State>, events: seq<Event>, r: Record, n: nat)
    requires |states| == |events| + 1 && n < |events| && Known(r, events, n) && events[n].Poll? && s == states[n]
    requires Matches(s, states, events, r, n) && !TimesOut(s, events[n].ms)
    requires !(r.master.Some? && Silent(events, r.master.value, events[n].ms))
    requires r.due && (events[n].ms - r.lastReq) % 0x1_0000_0000 >= 900
    ensures Matches(Handle(s, events[n]), states, events, Polled(r, events, n), n + 1)
  {
    hide MasterIs, SyncIs, LegIs, RequestIs, DelayIs, TimesOut, Silent, Line.At, Known, LastPoll, PtpDelay.Window.Valid;
    hide Handle, Requests, PollAt;
    NotAsked(s, states, events, r, n, events[n].ms);
    PolledAt(events, n);
    NewRequest(s, states, events, r, n);
    RequestSent(s, events[n]);
    var s', r' := Handle(s, events[n]), Polled(r, events, n);
    KeepMaster(s, s', events, r, r', n, n + 1);
    KeepSync(s, s', states, events, r, r', n, n + 1);
    KeepLeg(s, s', states, events, r, r', n, n + 1);
  }

  lemma RequestSent(s: State, e: Event)
    requires Ok(s) && e.Poll? && Requests(s, e.ms)
    ensures Handle(s, e) == SendDelayReq(s.(nowMs := e.ms, reqDue := false), e.sent, e.tx)
  {
    hide SendDelayReq;
  }

  lemma NewRequest(s: State, states: seq<State>, events: seq<Event>, r: Record, n: nat)
    requires |states| == |events| + 1 && n < |events| && Known(r, events, n) && events[n].Poll? && s == states[n]
    requires RequestIs(s, states, events, r, n) && s.freq == states[0].freq
    requires r.due && (events[n].ms - r.lastReq) % 0x1_0000_0000 >= 900
    requires !(r.master.Some? && Silent(events, r.master.value, events[n].ms))
    ensures var e := events[n];
            var s1 := SendDelayReq(s.(nowMs := e.ms, reqDue := false), e.sent, e.tx);
            RequestIs(s1, states, events, Polled(r, events, n), n + 1)
  {
    hide Line.At, Silent;
    assert (r.requests % 0x1_0000 + 1) % 0x1_0000 == (r.requests + 1) % 0x1_0000;
  }

  // ----- Announces ----------------------------------------------------------------------------------

  lemma AnnounceMatches(s: State, states: seq<State>, events: seq<Event>, r: Record, n: nat)
    requires |states| == |events| + 1 && n < |events| && Known(r, events, n) && Announced(events, n) && s == states[n]
    requires Matches(s, states, events, r, n)
    ensures Matches(HandleAnnounce(s, events[n].m), states, events, Chosen(r, events, n), n + 1)
  {
    hide MasterIs, SyncIs, LegIs, RequestIs, DelayIs, Line.At, LastPoll, PtpDelay.Window.Valid, Compare, LogIntervalMs;
    hide Better, Dataset.Valid;
    var m := events[n].m;
    var s1 := s.(master := m.ds, haveMaster := true, lastAnnounce := s.nowMs,
                 timeout := 3 * LogIntervalMs(m.logInterval) + 500, utcOffset := m.utcOffset, flags := m.flags);
    var r1 := r.(told := Some(n), master := Some(n));
    NewMaster(s, events, r, n);
    KnownLater(r, events, n);
    ChoiceIs(s, events, r, n);
    NoPoll(events, n);
    Counted(s, states, events, r, n);
    hide Matches;
    if Refreshes(s, m.ds) {
      RefreshMatches(s, s1, states, events, r, r1, n);
    } else if Selects(s, m.ds) {
      ResetMatches(s1, states, events, r1, n + 1);
    } else {
      KeepAll(s, s, states, events, r, r, n);
    }
  }

  lemma Counted(s: State, states: seq<State>, events: seq<Event>, r: Record, n: nat)
    requires |states| == |events| + 1 && n <= |events| && Known(r, events, n) && RequestIs(s, states, events, r, n)
    ensures s.reqSeq == r.requests % 0x1_0000 && s.lastReq == r.lastReq
  {
    hide Line.At, Known;
  }

  lemma RefreshMatches(s: State, s1: State, states: seq<State>, events: seq<Event>, r: Record, r1: Record, n: nat)
    requires |states| == |events| + 1 && n < |events| && Known(r, events, n) && Known(r1, events, n + 1)
    requires Matches(s, states, events, r, n) && MasterIs(s1, events, r1, n + 1) && s1.master.Valid()
    requires s1 == s.(master := s1.master, haveMaster := s1.haveMaster, lastAnnounce := s1.lastAnnounce,
                      timeout := s1.timeout, utcOffset := s1.utcOffset, flags := s1.flags)
    requires r1 == r.(told := r1.told, master := r1.master) && LastPoll(events, n + 1) == LastPoll(events, n)
    ensures Matches(s1, states, events, r1, n + 1)
  {
    hide MasterIs, SyncIs, LegIs, RequestIs, DelayIs, Line.At, LastPoll, Known, PtpDelay.Window.Valid, Dataset.Valid;
    KeepSync(s, s1, states, events, r, r1, n, n + 1);
    KeepLeg(s, s1, states, events, r, r1, n, n + 1);
    KeepRequest(s, s1, states, events, r, r1, n, n + 1);
  }

  lemma NoPoll(events: seq<Event>, n: nat)
    requires n < |events| && !events[n].Poll?
    ensures LastPoll(events, n + 1) == LastPoll(events, n)
  {
  }

  lemma NewMaster(s: State, events: seq<Event>, r: Record, n: nat)
    requires n < |events| && Known(r, events, n) && Announced(events, n) && s.nowMs == LastPoll(events, n)
    ensures var m := events[n].m;
            var s1 := s.(master := m.ds, haveMaster := true, lastAnnounce := s.nowMs,
                         timeout := 3 * LogIntervalMs(m.logInterval) + 500, utcOffset := m.utcOffset, flags := m.flags);
            var r1 := r.(told := Some(n), master := Some(n));
            Known(r1, events, n + 1) && MasterIs(s1, events, r1, n + 1)
  {
    IntervalIs(events[n].m.logInterval);
    hide LastPoll, Interval, LogIntervalMs, Sound;
  }

  lemma ChoiceIs(s: State, events: seq<Event>, r: Record, n: nat)
    requires n < |events| && Known(r, events, n) && Announced(events, n) && MasterIs(s, events, r, n) && Ok(s)
    ensures var ds := events[n].m.ds;
            && (Refreshes(s, ds) <==> r.master.Some? && ds.portId == events[r.master.value].m.ds.portId)
            && (Selects(s, ds) <==> !Refreshes(s, ds) && (r.master == None || Better(ds, events[r.master.value].m.ds)))
  {
    hide LastPoll, Interval, Compare;
  }

  // ----- Messages of the master -----------------------------------------------------------------------

  lemma MastersIs(s: State, events: seq<Event>, r: Record, n: nat)
    requires n < |events| && Known(r, events, n) && events[n].Receive? && !events[n].m.Announce?
    requires MasterIs(s, events, r, n)
    ensures FromMaster(s, events[n].m.from) <==> Masters(r, events, n)
  {
    hide LastPoll, Interval;
  }

  /** What a completed Sync leaves alone, and what it stores. */
  lemma CompleteIs(s: State, t1: int, corr: int, now: nat, later: nat)
    requires s.t2Epoch == s.epoch
    ensures var s' := SyncComplete(s, t1, corr, now, later);
            && s' == s.(servo := s'.servo, lastOffset := s'.lastOffset, syncs := s'.syncs, line := s'.line,
                        epoch := s'.epoch, reqDue := true, msValid := s'.msValid, msLeg := s'.msLeg,
                        msEpoch := s'.msEpoch)
            && s'.servo.phase != PtpServo.Unlocked && (s'.msValid <==> s'.epoch == s.epoch)
            && (s'.msValid ==> s'.msLeg == s.t2 - (t1 + corr) && s'.msEpoch == s.epoch)
  {
    hide PtpServo.Changes, PtpClock.After, PtpServo.SpanNs, PtpServo.Estimate, PtpServo.Follow, PtpServo.Outlying;
    NeverUnlocked(s.servo, s.line.ppb, s.freq, PtpServo.Measurement(s.t2 - (t1 + corr), s.delay.ns, s.t2Cnt));
    hide PtpServo.Next;
  }

  lemma NeverUnlocked(s: PtpServo.State, ppb: int, f: nat, m: PtpServo.Measurement)
    ensures PtpServo.Next(s, ppb, f, m).0.phase != PtpServo.Unlocked
  {
    hide PtpServo.SpanNs, PtpServo.Estimate;
  }

  /** A Sync stored before, at event i, is completed by event n. */
  lemma DoneMatches(s: State, s1: State, states: seq<State>, events: seq<Event>, r: Record, i: nat, n: nat, corr: int)
    requires |states| == |events| + 1 && n < |events| && Known(r, events, n) && Masters(r, events, n)
    requires Matches(s, states, events, r, n) && Arrived(events, i) && i <= n && (i < n ==> events[n].m.FollowUp?)
    requires s == states[n] && s1 == s.(waiting := false, syncSeq := s1.syncSeq, t2Cnt := s1.t2Cnt, t2 := s1.t2,
                                        t2Epoch := s1.t2Epoch, syncCorr := s1.syncCorr)
    requires s1.t2 == states[i].line.At(states[0].freq, events[i].cnt) && s1.t2Epoch == states[i].epoch == s.epoch
    requires events[n].m.Sync? || events[n].m.FollowUp?
    requires SentAt(events, i, n) == events[n].m.origin + corr
    requires states[n + 1] == SyncComplete(s1, events[n].m.origin, corr, events[n].now, events[n].later)
    ensures Known(Done(states, r, i, n), events, n + 1)
    ensures Matches(states[n + 1], states, events, Done(states, r, i, n), n + 1)
  {
    hide MasterIs, SyncIs, LegIs, RequestIs, DelayIs, Line.At, LastPoll, PtpDelay.Window.Valid, Dataset.Valid, SentAt;
    var s', r' := states[n + 1], Done(states, r, i, n);
    CompleteIs(s1, events[n].m.origin, corr, events[n].now, events[n].later);
    hide SyncComplete;
    NoPoll(events, n);
    KeepMaster(s, s', events, r, r', n, n + 1);
    NoneWaits(s', states, events, r', n + 1);
    NewLeg(s', states, events, r', n + 1);
    NowDue(s, s', states, events, r, r', n);
  }

  lemma NoneWaits(s: State, states: seq<State>, events: seq<Event>, r: Record, n: nat)
    requires |states| == |events| + 1 && n <= |events| && Known(r, events, n) && r.waiting == None && !s.waiting
    ensures SyncIs(s, states, events, r, n)
  {
  }

  lemma NewLeg(s: State, states: seq<State>, events: seq<Event>, r: Record, n: nat)
    requires |states| == |events| + 1 && n <= |events| && Known(r, events, n) && (s.msValid <==> r.leg.Some?)
    requires r.leg.Some? ==> s.msLeg == RawAt(states, events, r.leg.value.sync, r.leg.value.done)
    requires r.leg.Some? ==> s.msEpoch == states[r.leg.value.sync].epoch
    ensures LegIs(s, states, events, r, n)
  {
    hide RawAt, Known;
  }

  lemma NowDue(s: State, s': State, states: seq<State>, events: seq<Event>, r: Record, r': Record, n: nat)
    requires |states| == |events| + 1 && n < |events| && Known(r, events, n) && Known(r', events, n + 1)
    requires RequestIs(s, states, events, r, n) && r'.due && r'.requests == r.requests && r'.lastReq == r.lastReq
    requires r'.asked == r.asked && s'.servo.phase != PtpServo.Unlocked && s'.reqDue && s'.reqSeq == s.reqSeq
    requires s'.lastReq == s.lastReq && s'.reqOut == s.reqOut && s'.t3 == s.t3 && s'.t3Epoch == s.t3Epoch
    ensures RequestIs(s', states, events, r', n + 1)
  {
    hide Sound, Line.At;
  }

  lemma SyncMatches(s: State, states: seq<State>, events: seq<Event>, r: Record, n: nat)
    requires |states| == |events| + 1 && n < |events| && Masters(r, events, n) && events[n].m.Sync? && s == states[n]
    requires Matches(s, states, events, r, n)
    requires states[n + 1] == HandleSync(s, events[n].m, events[n].cnt, events[n].now, events[n].later)
    ensures Matches(states[n + 1], states, events, Told(states, r, events, n), n + 1)
  {
    hide MasterIs, SyncIs, LegIs, RequestIs, DelayIs, Line.At, LastPoll, PtpDelay.Window.Valid, Dataset.Valid;
    var e, s', r' := events[n], states[n + 1], Told(states, r, events, n);
    var s1 := s.(syncSeq := e.m.seqNo, t2Cnt := e.cnt, t2 := s.line.At(s.freq, e.cnt), t2Epoch := s.epoch,
                 syncCorr := e.m.corr, waiting := e.m.twoStep);
    if e.m.twoStep {
      NoPoll(events, n);
      KeepMaster(s, s', events, r, r', n, n + 1);
      NowWaits(s', states, events, r', n);
      KeepLeg(s, s', states, events, r, r', n, n + 1);
      KeepRequest(s, s', states, events, r, r', n, n + 1);
    } else {
      DoneMatches(s, s1, states, events, r, n, n, e.m.corr);
    }
  }

  lemma NowWaits(s: State, states: seq<State>, events: seq<Event>, r: Record, n: nat)
    requires |states| == |events| + 1 && n < |events| && Known(r, events, n + 1) && r.waiting == Some(n) && s.waiting
    requires s.syncSeq == events[n].m.seqNo && s.t2Cnt == events[n].cnt && s.syncCorr == events[n].m.corr
    requires s.t2 == states[n].line.At(states[0].freq, events[n].cnt) && s.t2Epoch == states[n].epoch == s.epoch
    ensures SyncIs(s, states, events, r, n + 1)
  {
    hide Line.At;
  }

  /** What the waiting Sync left. */
  lemma WaitingIs(s: State, states: seq<State>, events: seq<Event>, r: Record, n: nat)
    requires |states| == |events| + 1 && n <= |events| && Known(r, events, n) && SyncIs(s, states, events, r, n)
    ensures s.waiting <==> r.waiting.Some?
    ensures r.waiting.Some? ==>
              var i := r.waiting.value;
              && s.syncSeq == events[i].m.seqNo && s.t2Cnt == events[i].cnt && s.syncCorr == events[i].m.corr
              && s.t2 == states[i].line.At(states[0].freq, events[i].cnt) && s.t2Epoch == states[i].epoch == s.epoch
  {
    hide Line.At;
  }

  lemma FollowUpMatches(s: State, states: seq<State>, events: seq<Event>, r: Record, n: nat)
    requires |states| == |events| + 1 && n < |events| && Masters(r, events, n) && events[n].m.FollowUp?
    requires s == states[n] && Matches(s, states, events, r, n)
    requires states[n + 1] == HandleFollowUp(s, events[n].m, events[n].now, events[n].later)
    ensures Matches(states[n + 1], states, events, Told(states, r, events, n), n + 1)
  {
    hide MasterIs, SyncIs, LegIs, RequestIs, DelayIs, Line.At, LastPoll, PtpDelay.Window.Valid, Dataset.Valid;
    hide SyncComplete;
    WaitingIs(s, states, events, r, n);
    if Completes(s, events[n].m) {
      DoneMatches(s, s.(waiting := false), states, events, r, r.waiting.value, n, s.syncCorr + events[n].m.corr);
    } else {
      NoPoll(events, n);
      KnownLater(r, events, n);
      KeepAll(s, s, states, events, r, r, n);
    }
  }

  /** The engine finds the sample that the record says. */
  lemma SampleIs(s: State, states: seq<State>, events: seq<Event>, r: Record, n: nat)
    requires |states| == |events| + 1 && n < |events| && Known(r, events, n) && s == states[n] && r.asked.Some?
    requires events[n].Receive? && events[n].m.DelayResp? && Answers(s, events[n].m)
    requires LegIs(s, states, events, r, n) && RequestIs(s, states, events, r, n)
    ensures Sample(states, events, r, n)
            == if Samples(s, events[n].m) then [DelaySample(s, events[n].m)] else []
  {
    hide Line.At, RawAt, Sound;
  }

  lemma AnswersIs(s: State, states: seq<State>, events: seq<Event>, r: Record, n: nat)
    requires |states| == |events| + 1 && n < |events| && Known(r, events, n) && RequestIs(s, states, events, r, n)
    requires events[n].Receive? && events[n].m.DelayResp? && s.self == states[0].self
    ensures var m := events[n].m;
            Answers(s, m) <==> r.asked.Some? && m.seqNo == r.requests % 0x1_0000 && m.requester == states[0].self
  {
    hide Line.At, Known;
  }

  lemma RespMatches(s: State, states: seq<State>, events: seq<Event>, r: Record, n: nat)
    requires |states| == |events| + 1 && n < |events| && Masters(r, events, n) && events[n].m.DelayResp?
    requires s == states[n] && Matches(s, states, events, r, n) && states[n + 1] == HandleDelayResp(s, events[n].m)
    ensures Matches(states[n + 1], states, events, Told(states, r, events, n), n + 1)
  {
    hide MasterIs, SyncIs, LegIs, RequestIs, DelayIs, Line.At, LastPoll, Dataset.Valid, Sample, DelaySample, Samples;
    hide PtpDelay.Window.Add, Answers;
    var m, s', r' := events[n].m, states[n + 1], Told(states, r, events, n);
    AnswersIs(s, states, events, r, n);
    NoPoll(events, n);
    if Answers(s, m) {
      SampleIs(s, states, events, r, n);
      if Samples(s, m) {
        DelayGrows(s.delay, r.samples, DelaySample(s, m));
        StaysValid(s.delay, DelaySample(s, m));
      }
      assert r.samples + [] == r.samples;
      hide Matches, Known;
      AnsweredMatches(s, s', states, events, r, r', n);
    } else {
      KnownLater(r, events, n);
      KeepAll(s, s, states, events, r, r, n);
    }
  }

  lemma AnsweredMatches(s: State, s': State, states: seq<State>, events: seq<Event>, r: Record, r': Record, n: nat)
    requires |states| == |events| + 1 && n < |events| && Known(r, events, n) && Known(r', events, n + 1)
    requires Matches(s, states, events, r, n) && LastPoll(events, n + 1) == LastPoll(events, n)
    requires s' == s.(reqOut := false, delay := s'.delay) && r' == r.(asked := None, samples := r'.samples)
    requires s'.delay.Valid() && DelayIs(s'.delay, r'.samples)
    ensures Matches(s', states, events, r', n + 1)
  {
    hide MasterIs, SyncIs, LegIs, RequestIs, DelayIs, Line.At, LastPoll, Dataset.Valid, Known;
    KeepMaster(s, s', events, r, r', n, n + 1);
    KeepSync(s, s', states, events, r, r', n, n + 1);
    KeepLeg(s, s', states, events, r, r', n, n + 1);
    NoneAsked(s, s', states, events, r, r', n);
  }

  lemma StaysValid(d: PtpDelay.Window, x: int)
    requires d.Valid()
    ensures d.Add(x).Valid()
  {
    hide PtpDelay.Median;
  }

  lemma NoneAsked(s: State, s': State, states: seq<State>, events: seq<Event>, r: Record, r': Record, n: nat)
    requires |states| == |events| + 1 && n < |events| && Known(r, events, n) && Known(r', events, n + 1)
    requires RequestIs(s, states, events, r, n) && r'.due == r.due && r'.requests == r.requests
    requires r'.lastReq == r.lastReq
    requires r'.asked == None && s'.servo == s.servo && s'.reqDue == s.reqDue && s'.reqSeq == s.reqSeq
    requires s'.lastReq == s.lastReq && !s'.reqOut
    ensures RequestIs(s', states, events, r', n + 1)
  {
    hide Sound, Line.At;
  }

  // ----- Every run --------------------------------------------------------------------------------------

  lemma ReceiveMatches(s: State, states: seq<State>, events: seq<Event>, r: Record, n: nat)
    requires |states| == |events| + 1 && n < |events| && Known(r, events, n) && events[n].Receive? && s == states[n]
    requires Matches(s, states, events, r, n) && !events[n].m.Announce?
    requires events[n].m.Source() != states[0].self && events[n].eventPort == events[n].m.Sync?
    requires states[n + 1] == Handle(s, events[n])
    ensures var r' := if Masters(r, events, n) then Told(states, r, events, n) else r;
            Known(r', events, n + 1) && Matches(states[n + 1], states, events, r', n + 1)
  {
    hide MasterIs, SyncIs, LegIs, RequestIs, DelayIs, Line.At, LastPoll, PtpDelay.Window.Valid, Dataset.Valid, Told;
    hide HandleAnnounce, HandleSync, HandleFollowUp, HandleDelayResp, Known;
    MastersIs(s, events, r, n);
    if Masters(r, events, n) {
      match events[n].m {
        case Sync(_, _, _, _, _) => SyncMatches(s, states, events, r, n);
        case FollowUp(_, _, _, _) => FollowUpMatches(s, states, events, r, n);
        case DelayResp(_, _, _, _, _) => RespMatches(s, states, events, r, n);
      }
    } else {
      NoPoll(events, n);
      KnownLater(r, events, n);
      KeepAll(s, s, states, events, r, r, n);
    }
  }

  lemma RunSound(states: seq<State>, events: seq<Event>)
    requires IsRun(states, events)
    ensures |states| == |events| + 1 && Sound(events) && IsInitial(states[0])
  {
    hide Handle, IsInitial;
    forall i | 0 <= i < |events| ensures EventOk(events[i]) {
      assert events[i] == events[i];
    }
  }

  lemma RunStep(states: seq<State>, events: seq<Event>, n: nat)
    requires IsRun(states, events) && n < |events|
    ensures Ok(states[n]) && EventOk(events[n]) && states[n + 1] == Handle(states[n], events[n])
  {
    hide Handle, Ok, EventOk, IsInitial;
    assert events[n] == events[n];
  }

  /** In every state of every run, everything the engine has stored is what the events
      say. */
  lemma {:induction false} Remembers(states: seq<State>, events: seq<Event>, n: nat)
    requires IsRun(states, events) && n <= |events|
    ensures |states| == |events| + 1 && Sound(events)
    ensures Matches(states[n], states, events, RecordAt(states, events, n), n)
  {
    hide IsRun, Handle, Matches, Known, Sound;
    RunSound(states, events);
    if n == 0 {
      Begins(states, events);
    } else {
      Remembers(states, events, n - 1);
      RunStep(states, events, n - 1);
      StepMatches(states, events, n - 1);
    }
  }

  lemma Begins(states: seq<State>, events: seq<Event>)
    requires |states| == |events| + 1 && Sound(events) && IsInitial(states[0])
    ensures Matches(states[0], states, events, RecordAt(states, events, 0), 0)
  {
    DelayBegins(states[0].delay);
  }

  lemma StepMatches(states: seq<State>, events: seq<Event>, n: nat)
    requires |states| == |events| + 1 && Sound(events) && n < |events|
    requires Matches(states[n], states, events, RecordAt(states, events, n), n)
    requires Ok(states[n]) && EventOk(events[n]) && states[n + 1] == Handle(states[n], events[n])
    ensures Matches(states[n + 1], states, events, RecordAt(states, events, n + 1), n + 1)
  {
    hide MasterIs, SyncIs, LegIs, RequestIs, DelayIs, Line.At, LastPoll, PtpDelay.Window.Valid, Dataset.Valid;
    hide Told, Polled, Chosen, HandleAnnounce, HandleSync, HandleFollowUp, HandleDelayResp, Known;
    var s, r, e := states[n], RecordAt(states, events, n), events[n];
    if e.Poll? {
      PollMatches(s, states, events, r, n);
    } else if e.m.Source() == states[0].self || e.eventPort != e.m.Sync? {
      NoPoll(events, n);
      KnownLater(r, events, n);
      KeepAll(s, s, states, events, r, r, n);
    } else if e.m.Announce? {
      AnnounceMatches(s, states, events, r, n);
    } else {
      ReceiveMatches(s, states, events, r, n);
    }
  }
}
