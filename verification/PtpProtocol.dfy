/** When the engine loses its master, asks for the delay, feeds its servo and changes its
    delay, from the events alone. */
module PtpProtocol {
  import opened CInt
  import opened Common
  import PtpClock
  import opened PtpMaster
  import opened PtpCore
  import opened PtpRuns
  import opened PtpHistory
  import PtpServo
  import PtpDelay

  // ----- Losing the master -------------------------------------------------------------------------------

  /** Event i is an Announce of the given port. */
  ghost predicate AnnouncedBy(events: seq<Event>, self: PortId, port: PortId, i: nat) {
    Announced(events, i) && !events[i].eventPort && events[i].m.ds.portId == port && port != self
  }

  /** Event i is the last Announce of the port before n. */
  ghost predicate LastOf(events: seq<Event>, self: PortId, port: PortId, i: nat, n: nat) {
    && i < n && AnnouncedBy(events, self, port, i)
    && forall j :: i < j < n ==> !AnnouncedBy(events, self, port, j)
  }

  /** What an event does to the master on record: it may lose it, renew it, or take
      another one; any other event is no Announce of the master's port. */
  ghost predicate MasterAfter(states: seq<State>, events: seq<Event>, n: nat)
    requires |states| == |events| + 1 && Sound(events) && n < |events|
  {
    var r, r' := RecordAt(states, events, n), RecordAt(states, events, n + 1);
    || r'.master == None
    || (r'.master == Some(n) && Announced(events, n) && !events[n].eventPort && events[n].m.ds.portId != states[0].self)
    || (r'.master == r.master && !AnnouncedBy(events, states[0].self, events[r.master.value].m.ds.portId, n))
  }

  lemma MasterMoves(states: seq<State>, events: seq<Event>, n: nat)
    requires |states| == |events| + 1 && Sound(events) && n < |events|
    ensures MasterAfter(states, events, n)
  {
    if events[n].Poll? { PollMoves(states, events, n); }
    else if events[n].m.Announce? { AnnounceMoves(states, events, n); }
    else { hide Sound, Chosen, Polled, Sample, Forget; }
  }

  lemma PollMoves(states: seq<State>, events: seq<Event>, n: nat)
    requires |states| == |events| + 1 && Sound(events) && n < |events| && events[n].Poll?
    ensures MasterAfter(states, events, n)
  {
    hide Silent, Sound, Told, Chosen, Masters;
  }

  lemma AnnounceMoves(states: seq<State>, events: seq<Event>, n: nat)
    requires |states| == |events| + 1 && Sound(events) && n < |events| && Announced(events, n)
    ensures MasterAfter(states, events, n)
  {
    hide Better, Sound, Told, Polled, Masters;
  }

  /** The Announce the record keeps of the master is the last one of its port. */
  lemma {:induction false} MasterIsLast(states: seq<State>, events: seq<Event>, n: nat)
    requires |states| == |events| + 1 && Sound(events) && n <= |events|
    ensures var r := RecordAt(states, events, n);
            r.master.Some? ==> LastOf(events, states[0].self, events[r.master.value].m.ds.portId, r.master.value, n)
  {
    hide RecordAt, Sound;
    if n == 0 {
      NothingYet(states, events);
    } else {
      MasterIsLast(states, events, n - 1);
      MasterMoves(states, events, n - 1);
    }
  }

  lemma NothingYet(states: seq<State>, events: seq<Event>)
    requires |states| == |events| + 1 && Sound(events)
    ensures RecordAt(states, events, 0) == Nothing
  {
  }

  /** A poll takes the master away if and only if, on the 32-bit count of milliseconds,
      more than three of its announce intervals and half a second have passed since the
      last poll before its last Announce. */
  lemma SilenceLosesMaster(states: seq<State>, events: seq<Event>, n: nat)
    requires IsRun(states, events) && n < |events| && events[n].Poll? && states[n].haveMaster
    ensures exists i: nat ::
              && LastOf(events, states[0].self, states[n].master.portId, i, n)
              && (states[n + 1].haveMaster <==>
                    (events[n].ms - LastPoll(events, i)) % 0x1_0000_0000 <= 3 * Interval(events[i].m.logInterval) + 500)
  {
    hide IsRun, Handle, Interval, LastPoll, SyncIs, LegIs, RequestIs, DelayIs, Sound, LastOf, RecordAt, Polled;
    Remembers(states, events, n);
    Remembers(states, events, n + 1);
    MasterIsLast(states, events, n);
    var r := RecordAt(states, events, n);
    PolledAfter(states, events, n);
    assert LastOf(events, states[0].self, states[n].master.portId, r.master.value, n);
  }

  lemma PolledAfter(states: seq<State>, events: seq<Event>, n: nat)
    requires |states| == |events| + 1 && Sound(events) && n < |events| && events[n].Poll?
    ensures var r, r' := RecordAt(states, events, n), RecordAt(states, events, n + 1);
            r'.master == if r.master.Some? && Silent(events, r.master.value, events[n].ms) then None else r.master
  {
    hide Silent, Sound;
  }

  // ----- Asking for the delay ------------------------------------------------------------------------------

  /** Event j makes a Delay_Req: its number goes up. */
  ghost predicate Requested(states: seq<State>, j: nat) {
    j + 1 < |states| && states[j + 1].reqSeq != states[j].reqSeq
  }

  /** Event j selects or loses a master, and the measurements start anew. */
  ghost predicate Restarted(states: seq<State>, j: nat) {
    && j + 1 < |states|
    && (states[j + 1].haveMaster != states[j].haveMaster
        || (states[j].haveMaster && states[j + 1].master.portId != states[j].master.portId))
  }

  /** Event j completes a Sync of the master: a one-step Sync, or the Follow_Up of the
      Sync that waits for it. */
  ghost predicate Completed(states: seq<State>, events: seq<Event>, j: nat)
    requires |states| == |events| + 1 && Sound(events)
  {
    && j < |events| && var r, e := RecordAt(states, events, j), events[j];
       && e.Receive? && e.m.Source() != states[0].self && e.eventPort == e.m.Sync? && Masters(r, events, j)
       && ((e.m.Sync? && !e.m.twoStep)
           || (e.m.FollowUp? && r.waiting.Some? && e.m.seqNo == events[r.waiting.value].m.seqNo))
  }

  /** A Sync was completed before n, and since then nothing was requested and nothing
      started anew. */
  ghost predicate SyncedSince(states: seq<State>, events: seq<Event>, n: nat)
    requires |states| == |events| + 1 && Sound(events) && n <= |events|
  {
    exists c: nat :: c < n && Completed(states, events, c)
      && forall j: nat :: c < j < n ==> !Requested(states, j) && !Restarted(states, j)
  }

  /** When the last Delay_Req before n was made, or 0. */
  ghost function LastRequest(states: seq<State>, events: seq<Event>, n: nat): nat
    requires |states| == |events| + 1 && n <= |events|
  {
    if n == 0 then 0
    else if Requested(states, n - 1) && events[n - 1].Poll? then events[n - 1].ms
    else LastRequest(states, events, n - 1)
  }

  /** The master on record is lost, found or changed. */
  ghost predicate Changes(events: seq<Event>, r: Record, r': Record)
    requires r.master.Some? ==> Announced(events, r.master.value)
    requires r'.master.Some? ==> Announced(events, r'.master.value)
  {
    || r.master.Some? != r'.master.Some?
    || (r.master.Some? && events[r.master.value].m.ds.portId != events[r'.master.value].m.ds.portId)
  }

  /** What event n does to requests and to what is due. */
  ghost predicate Seen(states: seq<State>, events: seq<Event>, n: nat)
    requires |states| == |events| + 1 && Sound(events) && n < |events|
  {
    var r, r' := RecordAt(states, events, n), RecordAt(states, events, n + 1);
    var asks, changes, done := r'.requests != r.requests, Changes(events, r, r'), Completed(states, events, n);
    && (asks ==> events[n].Poll? && r'.requests == r.requests + 1 && r'.lastReq == events[n].ms && !r'.due)
    && (!asks ==> r'.lastReq == r.lastReq) && (done ==> r'.due && !asks && !changes) && (changes ==> !r'.due)
    && (!done && !asks && !changes ==> r'.due == r.due)
  }

  lemma RecordSeen(states: seq<State>, events: seq<Event>, n: nat)
    requires |states| == |events| + 1 && Sound(events) && n < |events|
    ensures Seen(states, events, n)
  {
    hide Seen;
    if events[n].Poll? { PollSeen(states, events, n); }
    else if events[n].m.Announce? { AnnounceSeen(states, events, n); }
    else { MessageSeen(states, events, n); }
  }

  lemma PollSeen(states: seq<State>, events: seq<Event>, n: nat)
    requires |states| == |events| + 1 && Sound(events) && n < |events| && events[n].Poll?
    ensures Seen(states, events, n)
  {
    hide Silent, Sound, Told, Chosen, Masters;
  }

  lemma AnnounceSeen(states: seq<State>, events: seq<Event>, n: nat)
    requires |states| == |events| + 1 && Sound(events) && n < |events| && Announced(events, n)
    ensures Seen(states, events, n)
  {
    hide Better, Sound, Told, Polled, Masters;
  }

  lemma MessageSeen(states: seq<State>, events: seq<Event>, n: nat)
    requires |states| == |events| + 1 && Sound(events) && n < |events|
    requires events[n].Receive? && !events[n].m.Announce?
    ensures Seen(states, events, n)
  {
    hide Sound, Chosen, Polled, Sample, Forget;
  }

  lemma StatesSeen(states: seq<State>, events: seq<Event>, n: nat)
    requires IsRun(states, events) && n < |events|
    ensures |states| == |events| + 1 && Sound(events)
    ensures var r, r' := RecordAt(states, events, n), RecordAt(states, events, n + 1);
            && (Requested(states, n) <==> r'.requests != r.requests)
            && (Restarted(states, n) <==> Changes(events, r, r'))
  {
    hide IsRun, Handle, SyncIs, LegIs, RequestIs, DelayIs, Sound, LastPoll, Interval, PtpClock.Line.At, RecordAt;
    hide Completed, Changes;
    Remembers(states, events, n);
    Remembers(states, events, n + 1);
    RecordSeen(states, events, n);
    var r, r' := RecordAt(states, events, n), RecordAt(states, events, n + 1);
    Counted(states[n], states, events, r, n);
    Counted(states[n + 1], states, events, r', n + 1);
    NextNumber(r.requests);
    ChangesSeen(states[n], states[n + 1], events, r, r', n);
  }

  lemma ChangesSeen(s: State, s': State, events: seq<Event>, r: Record, r': Record, n: nat)
    requires Known(r, events, n) && Known(r', events, n + 1) && MasterIs(s, events, r, n)
    requires MasterIs(s', events, r', n + 1)
    ensures Changes(events, r, r') <==>
              s'.haveMaster != s.haveMaster || (s.haveMaster && s'.master.portId != s.master.portId)
  {
    hide LastPoll, Interval, Sound;
  }

  lemma NextNumber(n: nat)
    ensures (n + 1) % 0x1_0000 != n % 0x1_0000
  {
  }

  lemma {:induction false} DueMeans(states: seq<State>, events: seq<Event>, n: nat)
    requires IsRun(states, events) && n <= |events|
    ensures |states| == |events| + 1 && Sound(events)
    ensures RecordAt(states, events, n).due <==> SyncedSince(states, events, n)
    ensures RecordAt(states, events, n).lastReq == LastRequest(states, events, n)
  {
    hide IsRun, Completed, Requested, Restarted, Sound, RecordAt, Changes, SyncedSince, Known;
    RunSound(states, events);
    if n == 0 {
      NothingYet(states, events);
      NotSynced(states, events);
    } else {
      DueMeans(states, events, n - 1);
      StatesSeen(states, events, n - 1);
      RecordSeen(states, events, n - 1);
      SinceStep(states, events, n - 1);
    }
  }

  lemma NotSynced(states: seq<State>, events: seq<Event>)
    requires |states| == |events| + 1 && Sound(events)
    ensures !SyncedSince(states, events, 0)
  {
  }

  lemma SinceStep(states: seq<State>, events: seq<Event>, n: nat)
    requires |states| == |events| + 1 && Sound(events) && n < |events|
    ensures SyncedSince(states, events, n + 1)
            <==> Completed(states, events, n)
                 || (SyncedSince(states, events, n) && !Requested(states, n) && !Restarted(states, n))
  {
    hide Completed, Requested, Restarted, Sound;
    if SyncedSince(states, events, n + 1) {
      var c: nat :| c < n + 1 && Completed(states, events, c)
        && forall j: nat :: c < j < n + 1 ==> !Requested(states, j) && !Restarted(states, j);
      if c < n { assert SyncedSince(states, events, n); }
    }
  }

  /** A poll makes a Delay_Req if and only if it does not lose the master, a Sync has been
      completed since the last one and since the measurements started, and 900 ms have
      passed since the last one on the 32-bit count. */
  lemma RequestsExactlyWhen(states: seq<State>, events: seq<Event>, n: nat)
    requires IsRun(states, events) && n < |events| && events[n].Poll?
    ensures |states| == |events| + 1 && Sound(events)
    ensures Requested(states, n) <==>
              && !Restarted(states, n) && SyncedSince(states, events, n)
              && (events[n].ms - LastRequest(states, events, n)) % 0x1_0000_0000 >= 900
  {
    hide IsRun, SyncedSince, Requested, Restarted, Sound, RecordAt, Changes, LastRequest, Known;
    RunSound(states, events);
    DueMeans(states, events, n);
    StatesSeen(states, events, n);
    PollAsks(states, events, n);
  }

  lemma PollAsks(states: seq<State>, events: seq<Event>, n: nat)
    requires |states| == |events| + 1 && Sound(events) && n < |events| && events[n].Poll?
    ensures var r, r' := RecordAt(states, events, n), RecordAt(states, events, n + 1);
            r'.requests != r.requests <==>
              !Changes(events, r, r') && r.due && (events[n].ms - r.lastReq) % 0x1_0000_0000 >= 900
  {
    hide Silent, Sound, Told, Chosen;
  }

  // ----- Feeding the servo -----------------------------------------------------------------------------------

  /** The Sync that event n completes. */
  ghost function SyncOf(states: seq<State>, events: seq<Event>, n: nat): (i: nat)
    requires |states| == |events| + 1 && Sound(events) && Completed(states, events, n)
    ensures i <= n && Arrived(events, i) && (i < n ==> events[n].m.FollowUp?)
  {
    if events[n].m.Sync? then n else RecordAt(states, events, n).waiting.value
  }

  /** Event e gives the servo the measurement m and does to clock and epoch what the servo
      then says. */
  ghost predicate Fed(s: State, e: Event, s': State, m: PtpServo.Measurement) {
    && e.Receive?
    && var next := PtpServo.Next(s.servo, s.line.ppb, s.freq, m);
       && s'.servo == next.0 && s'.line == PtpClock.After(s.line, s.freq, PtpServo.Changes(next.1, e.now, e.later))
       && s'.epoch == (if PtpServo.Jumped(next.1) then (s.epoch + 1) % 0x1_0000_0000 else s.epoch)
       && s'.lastOffset == PtpServo.Offset(m) && s'.syncs == (s.syncs + 1) % 0x1_0000_0000
  }

  /** Clock and servo are left alone, or the servo is reset with a change of master. */
  ghost predicate Unfed(s: State, s': State) {
    && s'.line == s.line && s'.epoch == s.epoch && s'.lastOffset == s.lastOffset && s'.syncs == s.syncs
    && (s'.servo == s.servo
        || (s'.servo == PtpServo.Initial
            && (s'.haveMaster != s.haveMaster || (s.haveMaster && s'.master.portId != s.master.portId))))
  }

  /** The event completes a Sync, as the engine sees it. */
  ghost predicate Finishes(s: State, e: Event) {
    Heard(s, e) && if e.m.Sync? then !e.m.twoStep else Completes(s, e.m)
  }

  lemma CompletedIs(states: seq<State>, events: seq<Event>, n: nat)
    requires |states| == |events| + 1 && Sound(events) && n < |events|
    requires Matches(states[n], states, events, RecordAt(states, events, n), n)
    ensures Completed(states, events, n) <==> Finishes(states[n], events[n])
  {
    hide MasterIs, SyncIs, LegIs, RequestIs, DelayIs, LastPoll, Interval, PtpClock.Line.At, RecordAt, Sound;
    var s, r, e := states[n], RecordAt(states, events, n), events[n];
    if e.Receive? && !e.m.Announce? {
      MastersIs(s, events, r, n);
      WaitingIs(s, states, events, r, n);
    }
  }

  lemma FedBy(s: State, s1: State, e: Event, t1: int, corr: int)
    requires e.Receive? && s1.t2Epoch == s1.epoch
    requires s1.servo == s.servo && s1.line == s.line && s1.freq == s.freq && s1.epoch == s.epoch
    requires s1.delay == s.delay && s1.syncs == s.syncs
    ensures Fed(s, e, SyncComplete(s1, t1, corr, e.now, e.later),
                PtpServo.Measurement(s1.t2 - (t1 + corr), s.delay.ns, s1.t2Cnt))
  {
    hide PtpServo.Next, PtpServo.Changes, PtpClock.After, PtpServo.Jumped;
  }

  lemma CompletionFeeds(states: seq<State>, events: seq<Event>, n: nat)
    requires |states| == |events| + 1 && Sound(events) && Completed(states, events, n)
    requires Matches(states[n], states, events, RecordAt(states, events, n), n)
    requires EventOk(events[n]) && states[n + 1] == Handle(states[n], events[n])
    ensures var s, i := states[n], SyncOf(states, events, n);
            Fed(s, events[n], states[n + 1],
                PtpServo.Measurement(RawAt(states, events, i, n), s.delay.ns, events[i].cnt))
  {
    hide MasterIs, SyncIs, LegIs, RequestIs, DelayIs, LastPoll, Interval, PtpClock.Line.At, RecordAt, Sound;
    hide Fed, SyncComplete;
    var s, r, e := states[n], RecordAt(states, events, n), events[n];
    CompletedIs(states, events, n);
    WaitingIs(s, states, events, r, n);
    if e.m.Sync? {
      FedBy(s, s.(syncSeq := e.m.seqNo, t2Cnt := e.cnt, t2 := s.line.At(s.freq, e.cnt), t2Epoch := s.epoch,
                  syncCorr := e.m.corr, waiting := e.m.twoStep), e, e.m.origin, e.m.corr);
    } else {
      FedBy(s, s.(waiting := false), e, e.m.origin, s.syncCorr + e.m.corr);
    }
  }

  lemma OthersFeedNothing(s: State, e: Event)
    requires Ok(s) && EventOk(e) && !Finishes(s, e)
    ensures Unfed(s, Handle(s, e))
  {
    hide Unfed, PollAt, HandleAnnounce, HandleDelayResp, SyncComplete, PtpClock.Line.At, Ok, Dataset.Valid;
    if e.Poll? {
      PollUnfed(s, e.ms, e.sent, e.tx);
    } else if e.m.Announce? {
      AnnounceUnfed(s, e.m);
      Unmoved(s);
    } else {
      RestUnfed(s, e);
    }
  }

  lemma Unmoved(s: State)
    ensures Unfed(s, s)
  {
  }

  lemma PollUnfed(s: State, ms: nat, sent: bool, tx: nat)
    ensures Unfed(s, PollAt(s, ms, sent, tx))
  {
    if TimesOut(s, ms) { HadMaster(s, ms); }
    hide PtpClock.Line.At, Requests, TimesOut;
  }

  lemma HadMaster(s: State, ms: nat)
    requires TimesOut(s, ms)
    ensures s.haveMaster
  {
  }

  lemma AnnounceUnfed(s: State, m: Message)
    requires Ok(s) && m.Announce? && m.ds.Valid()
    ensures Unfed(s, HandleAnnounce(s, m))
  {
    hide Compare, LogIntervalMs, Dataset.Valid;
  }

  lemma RestUnfed(s: State, e: Event)
    requires Ok(s) && e.Receive? && !e.m.Announce? && !Finishes(s, e)
    ensures Unfed(s, Handle(s, e))
  {
    hide PtpClock.Line.At, PtpDelay.Window.Add, DelaySample, SyncComplete, Samples, HandleAnnounce, Dataset.Valid;
  }

  /** The servo gets exactly one measurement for each completed Sync: how far the clock was
      ahead of the master when the Sync arrived, the delay in use, and the counter reading
      of the Sync. Nothing else touches the clock; and nothing else the servo but a change
      of master, which resets it. */
  lemma ServoIsFed(states: seq<State>, events: seq<Event>, n: nat)
    requires IsRun(states, events) && n < |events|
    ensures |states| == |events| + 1 && Sound(events)
    ensures var s, s' := states[n], states[n + 1];
            if Completed(states, events, n) then
              var i := SyncOf(states, events, n);
              Fed(s, events[n], s', PtpServo.Measurement(RawAt(states, events, i, n), s.delay.ns, events[i].cnt))
            else Unfed(s, s')
  {
    hide IsRun, Matches, Sound, RecordAt, RawAt, Handle, Completed, Fed, Unfed, Finishes;
    Remembers(states, events, n);
    RunStep(states, events, n);
    CompletedIs(states, events, n);
    if Completed(states, events, n) { CompletionFeeds(states, events, n); }
    else { OthersFeedNothing(states[n], events[n]); }
  }

  // ----- The delay and UTC -----------------------------------------------------------------------------------

  /** The path delay in use is the median of the last eight samples on record, and
      unknown if there is none. */
  lemma DelayIsMedian(states: seq<State>, events: seq<Event>, n: nat)
    requires IsRun(states, events) && n <= |events|
    ensures |states| == |events| + 1 && Sound(events)
    ensures var samples := RecordAt(states, events, n).samples;
            var last := if |samples| <= 8 then samples else samples[|samples| - 8..];
            states[n].delay.ns == if samples == [] then -1 else PtpDelay.Median(last)
  {
    hide IsRun, MasterIs, SyncIs, LegIs, RequestIs, Sound, RecordAt, Known, PtpDelay.Median, LastPoll, Dataset.Valid;
    Remembers(states, events, n);
    var samples := RecordAt(states, events, n).samples;
    var w :| Empty(w) && states[n].delay == PtpDelay.AddAll(w, samples);
    if samples != [] { PtpDelay.FilterIsMedianOfLast(w, samples); }
  }

  /** In every state of every run, UTC is the clock less the offset of the last Announce
      ever taken, if that had both the flag of the PTP time scale and that of a valid
      offset; otherwise it is the clock. */
  lemma UtcIsTold(states: seq<State>, events: seq<Event>, n: nat, cnt: nat)
    requires IsRun(states, events) && n <= |events|
    ensures |states| == |events| + 1 && Sound(events)
    ensures var told, time := RecordAt(states, events, n).told, states[n].line.At(states[n].freq, cnt);
            UtcNow(states[n], cnt)
            == if told.Some? && events[told.value].m.flags & 8 != 0 && events[told.value].m.flags & 4 != 0
               then time - events[told.value].m.utcOffset * 1_000_000_000 else time
  {
    hide IsRun, SyncIs, LegIs, RequestIs, DelayIs, Sound, PtpClock.Line.At, LastPoll, Interval;
    Remembers(states, events, n);
    var told := RecordAt(states, events, n).told;
    hide RecordAt;
    if told.Some? { BothFlags(events[told.value].m.flags); }
  }

  lemma BothFlags(flags: bv8)
    ensures flags & UtcFlags == UtcFlags <==> flags & 8 != 0 && flags & 4 != 0
  {
  }
}
