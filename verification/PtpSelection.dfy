/** Which master a run selects. */
module PtpSelection {
  import opened PtpMaster
  import opened PtpCore
  import opened PtpRuns
  import PtpClock
  import PtpDelay
  import PtpServo

  /** An Announce of another port. */
  predicate Announces(self: PortId, e: Event) {
    e.Receive? && e.m.Announce? && !e.eventPort && e.m.ds.Valid() && e.m.ds.portId != self
  }

  /** The event makes its data set the master's. */
  predicate Takes(s: State, e: Event)
    requires Ok(s)
  {
    Announces(s.self, e) && (Refreshes(s, e.m.ds) || Selects(s, e.m.ds))
  }

  ghost predicate Selection(s: State, e: Event, s': State)
    requires Ok(s)
  {
    && Ok(s') && s'.self == s.self
    && (if Takes(s, e)
        then s'.haveMaster && s'.master == e.m.ds && s'.utcOffset == e.m.utcOffset && s'.flags == e.m.flags
        else
          s'.haveMaster == s.haveMaster && s'.master == s.master && s'.utcOffset == s.utcOffset && s'.flags == s.flags)
  }

  /** Everything that an Announce sets is as it was. */
  ghost predicate Unchosen(s: State, s': State) {
    && s'.self == s.self && s'.haveMaster == s.haveMaster && s'.master == s.master
    && s'.utcOffset == s.utcOffset && s'.flags == s.flags
  }

  lemma PollSelection(s: State, ms: nat, sent: bool, tx: nat)
    requires Ok(s) && !TimesOut(s, ms)
    ensures var s' := PollAt(s, ms, sent, tx); Ok(s') && Unchosen(s, s')
  {
    hide Requests, TimesOut, PtpClock.Line.At, PtpDelay.Window.Valid;
  }

  lemma SyncSelection(s: State, t1: int, corr: int, now: nat, later: nat)
    requires Ok(s)
    ensures var s' := SyncComplete(s, t1, corr, now, later); Ok(s') && Unchosen(s, s')
  {
    hide PtpClock.After, PtpServo.Next, PtpServo.Changes, PtpDelay.Window.Valid;
  }

  /** The messages of the selected master choose nobody. */
  lemma MessageSelection(s: State, m: Message, cnt: nat, now: nat, later: nat)
    requires Ok(s) && !m.Announce?
    ensures var s' := if m.Sync? then HandleSync(s, m, cnt, now, later)
                      else if m.FollowUp? then HandleFollowUp(s, m, now, later) else HandleDelayResp(s, m);
            Ok(s') && Unchosen(s, s')
  {
    hide PtpDelay.Median, SyncComplete, PtpClock.Line.At, DelaySample, Samples;
    if m.Sync? {
      var s1 := s.(syncSeq := m.seqNo, t2Cnt := cnt, t2 := s.line.At(s.freq, cnt), t2Epoch := s.epoch,
                   syncCorr := m.corr, waiting := m.twoStep);
      SyncSelection(s1, m.origin, m.corr, now, later);
    } else if m.FollowUp? {
      SyncSelection(s.(waiting := false), m.origin, s.syncCorr + m.corr, now, later);
    }
  }

  lemma AnnounceSelection(s: State, m: Message)
    requires Ok(s) && m.Announce? && m.ds.Valid()
    ensures var s' := HandleAnnounce(s, m);
            && Ok(s') && s'.self == s.self
            && if Refreshes(s, m.ds) || Selects(s, m.ds)
               then s'.haveMaster && s'.master == m.ds && s'.utcOffset == m.utcOffset && s'.flags == m.flags
               else s' == s
  {
    hide Compare, LogIntervalMs, Selects;
  }

  /** What an event does to the selection when no receipt timeout expires. */
  lemma MasterStep(s: State, e: Event)
    requires Ok(s) && EventOk(e) && !Expires(s, e)
    ensures Selection(s, e, Handle(s, e))
  {
    hide Ok, Refreshes, Selects, PollAt, HandleAnnounce, HandleSync, HandleFollowUp, HandleDelayResp, TimesOut,
      Dataset.Valid;
    match e
    case Poll(ms, sent, tx) => PollSelection(s, ms, sent, tx);
    case Receive(m, eventPort, cnt, now, later) =>
      if m.Announce? { AnnounceSelection(s, m); } else { MessageSelection(s, m, cnt, now, later); }
  }

  /** A poll finds that the master has been silent for too long. */
  predicate Expires(s: State, e: Event) {
    e.Poll? && TimesOut(s, e.ms)
  }

  lemma ExpiryStep(s: State, e: Event)
    requires Ok(s) && Expires(s, e)
    ensures var s' := Handle(s, e); Ok(s') && s'.self == s.self && !s'.haveMaster
  {
    hide TimesOut, Requests;
  }

  /** Where the events since the last receipt timeout before n begin. */
  ghost function Since(states: seq<State>, events: seq<Event>, n: nat): (from: nat)
    requires n <= |events| < |states|
    ensures from <= n
  {
    if n == 0 then 0 else if Expires(states[n - 1], events[n - 1]) then n else Since(states, events, n - 1)
  }

  // ----- UTC ---------------------------------------------------------------

  /** The event is the Announce that set the master, its UTC offset and flags. */
  ghost predicate SetBy(s: State, e: Event) {
    Announces(s.self, e) && e.m.ds == s.master && e.m.utcOffset == s.utcOffset && e.m.flags == s.flags
  }

  /** In every run the UTC offset and its flags are those of the selected master, from
      the same Announce as its data set, which came since the last receipt timeout. */
  lemma {:induction false} UtcIsMasters(states: seq<State>, events: seq<Event>, n: nat)
    requires IsRun(states, events) && n <= |events|
    ensures Ok(states[n]) && states[n].self == states[0].self
    ensures states[n].haveMaster ==>
              exists i {:trigger events[i]} :: Since(states, events, n) <= i < n && SetBy(states[n], events[i])
  {
    if n > 0 {
      var m := n - 1;
      UtcIsMasters(states, events, m);
      assert events[m] == events[m];
      if Expires(states[m], events[m]) {
        ExpiryStep(states[m], events[m]);
      } else {
        MasterStep(states[m], events[m]);
        hide IsRun, Handle, Announces, Refreshes, Selects;
        if states[n].haveMaster {
          if Takes(states[m], events[m]) {
            assert SetBy(states[n], events[m]);
          } else {
            var i :| Since(states, events, m) <= i < m && SetBy(states[m], events[i]);
            assert SetBy(states[n], events[i]);
          }
        }
      }
    }
  }

  // ----- The best master ---------------------------------------------------

  /** Each port announces the same data set throughout. */
  ghost predicate Steady(events: seq<Event>, self: PortId, from: nat, n: nat)
    requires n <= |events|
  {
    forall i, j {:trigger events[i], events[j]} :: from <= i < n && from <= j < n
      && Announces(self, events[i]) && Announces(self, events[j]) && events[i].m.ds.portId == events[j].m.ds.portId
      ==> events[i].m.ds == events[j].m.ds
  }

  /** The master is the best of the data sets announced at `from` or later, before n. */
  ghost predicate IsBest(s: State, events: seq<Event>, from: nat, n: nat)
    requires n <= |events| && Ok(s)
  {
    && (s.haveMaster ==> HeardOf(events, s.self, from, n, s.master))
    && (forall i {:trigger events[i]} :: from <= i < n && Announces(s.self, events[i]) ==>
          s.haveMaster && !Better(events[i].m.ds, s.master))
  }

  ghost predicate HeardOf(events: seq<Event>, self: PortId, from: nat, n: nat, ds: Dataset)
    requires n <= |events|
  {
    exists i {:trigger events[i]} :: from <= i < n && Announces(self, events[i]) && events[i].m.ds == ds
  }

  /** In every run the selected master is the best of the data sets announced since
      the last receipt timeout, if each port has announced only one since then; and
      there is one as soon as there was any. */
  lemma {:induction false} SelectedIsBest(states: seq<State>, events: seq<Event>, n: nat)
    requires IsRun(states, events) && n <= |events|
    requires Steady(events, states[0].self, Since(states, events, n), n)
    ensures Ok(states[n]) && states[n].self == states[0].self
    ensures IsBest(states[n], events, Since(states, events, n), n)
  {
    hide IsRun, Handle, Steady, IsBest, Expires, Ok, EventOk, Selection;
    UtcIsMasters(states, events, n);
    RunBegins(states, events);
    if n == 0 {
      NoneIsBest(states[n], events, n);
    } else {
      var m := n - 1;
      UtcIsMasters(states, events, m);
      RunStep(states, events, m);
      if Expires(states[m], events[m]) {
        ExpiryStep(states[m], events[m]);
        NoneIsBest(states[n], events, n);
      } else {
        SteadyBefore(events, states[0].self, Since(states, events, m), m);
        SelectedIsBest(states, events, m);
        MasterStep(states[m], events[m]);
        BestStep(states[m], states[n], events, Since(states, events, m), m);
      }
    }
  }

  lemma RunBegins(states: seq<State>, events: seq<Event>)
    requires IsRun(states, events)
    ensures |states| == |events| + 1 && !states[0].haveMaster
  {
  }

  lemma RunStep(states: seq<State>, events: seq<Event>, m: nat)
    requires IsRun(states, events) && m < |events|
    ensures Ok(states[m]) && EventOk(events[m]) && states[m + 1] == Handle(states[m], events[m])
  {
    hide Ok, EventOk, Handle;
    assert events[m] == events[m];
  }

  lemma NoneIsBest(s: State, events: seq<Event>, n: nat)
    requires n <= |events| && Ok(s) && !s.haveMaster
    ensures IsBest(s, events, n, n)
  {
  }

  lemma SteadyBefore(events: seq<Event>, self: PortId, from: nat, m: nat)
    requires m < |events| && Steady(events, self, from, m + 1)
    ensures Steady(events, self, from, m)
  {
  }

  lemma BestStep(s: State, s': State, events: seq<Event>, from: nat, m: nat)
    requires from <= m < |events| && Ok(s) && Ok(s') && s'.self == s.self
    requires IsBest(s, events, from, m) && Steady(events, s.self, from, m + 1)
    requires Selection(s, events[m], s')
    ensures IsBest(s', events, from, m + 1)
  {
    hide Compare;
    var e := events[m];
    if Announces(s.self, e) && Refreshes(s, e.m.ds) {
      var i :| from <= i < m && Announces(s.self, events[i]) && events[i].m.ds == s.master;
      assert e.m.ds == s.master;
    }
    forall i | from <= i < m + 1 && Announces(s.self, events[i])
      ensures s'.haveMaster && !Better(events[i].m.ds, s'.master)
    {
      BetterIsTotal(events[i].m.ds, s'.master);
      if i < m && Announces(s.self, e) && Selects(s, e.m.ds) && Better(events[i].m.ds, e.m.ds) {
        BetterIsTransitive(events[i].m.ds, e.m.ds, s.master);
      }
    }
  }

  /** The order in which the ports are heard does not matter: two runs that have heard
      the same data sets since their last receipt timeouts select the same master. */
  lemma OrderDoesNotMatter(states: seq<State>, events: seq<Event>, states': seq<State>, events': seq<Event>)
    requires IsRun(states, events) && Steady(events, states[0].self, Since(states, events, |events|), |events|)
    requires IsRun(states', events') && Steady(events', states'[0].self, Since(states', events', |events'|), |events'|)
    requires states[0].self == states'[0].self
    requires var from, from' := Since(states, events, |events|), Since(states', events', |events'|);
             forall ds :: HeardOf(events, states[0].self, from, |events|, ds)
                          <==> HeardOf(events', states'[0].self, from', |events'|, ds)
    ensures var s, s' := states[|events|], states'[|events'|];
            s.haveMaster == s'.haveMaster && (s.haveMaster ==> s.master == s'.master)
  {
    hide IsRun, Steady, IsBest, Since, Ok, HeardOf, Compare, Better;
    RunBegins(states, events);
    RunBegins(states', events');
    var s, s' := states[|events|], states'[|events'|];
    var from, from' := Since(states, events, |events|), Since(states', events', |events'|);
    SelectedIsBest(states, events, |events|);
    SelectedIsBest(states', events', |events'|);
    BestIsHeard(s, events, from);
    BestIsHeard(s', events', from');
    if s.haveMaster && s'.haveMaster {
      assert HeardOf(events', s.self, from', |events'|, s.master) && HeardOf(events, s.self, from, |events|, s'.master);
      BetterIsTotal(s.master, s'.master);
    }
  }

  lemma BestIsHeard(s: State, events: seq<Event>, from: nat)
    requires Ok(s) && IsBest(s, events, from, |events|)
    ensures s.haveMaster ==> HeardOf(events, s.self, from, |events|, s.master)
    ensures forall ds {:trigger HeardOf(events, s.self, from, |events|, ds)} ::
              HeardOf(events, s.self, from, |events|, ds) ==> s.haveMaster && ds.Valid() && !Better(ds, s.master)
  {
  }

  // ----- Resets ------------------------------------------------------------

  /** How often a new master has started the measurements anew at `from` or later,
      before n. */
  ghost function Resets(states: seq<State>, events: seq<Event>, from: nat, n: nat): nat
    requires n <= |events| < |states|
  {
    if n <= from then 0
    else Resets(states, events, from, n - 1)
         + if Ok(states[n - 1]) && Announces(states[n - 1].self, events[n - 1])
           && Selects(states[n - 1], events[n - 1].m.ds)
           then 1 else 0
  }

  /** The ports heard at `from` or later, before n. */
  ghost function Ports(events: seq<Event>, self: PortId, from: nat, n: nat): set<PortId>
    requires n <= |events|
  {
    if n <= from then {}
    else Ports(events, self, from, n - 1) + if Announces(self, events[n - 1]) then {events[n - 1].m.ds.portId} else {}
  }

  lemma {:induction false} PortIsHeard(events: seq<Event>, self: PortId, from: nat, n: nat, p: PortId) returns (i: nat)
    requires n <= |events| && p in Ports(events, self, from, n)
    ensures from <= i < n && Announces(self, events[i]) && events[i].m.ds.portId == p
  {
    if Announces(self, events[n - 1]) && events[n - 1].m.ds.portId == p {
      i := n - 1;
    } else {
      i := PortIsHeard(events, self, from, n - 1, p);
    }
  }

  lemma Grows(ports: set<PortId>, p: PortId)
    ensures |ports + {p}| == if p in ports then |ports| else |ports| + 1
  {
    if p in ports { assert ports + {p} == ports; }
  }

  /** In every run a new master starts the measurements anew at most once for each port
      heard since the last receipt timeout. */
  lemma {:induction false} ResetsAreFew(states: seq<State>, events: seq<Event>, n: nat)
    requires IsRun(states, events) && n <= |events|
    requires Steady(events, states[0].self, Since(states, events, n), n)
    ensures var from := Since(states, events, n);
            Resets(states, events, from, n) <= |Ports(events, states[0].self, from, n)|
  {
    if n > 0 && !Expires(states[n - 1], events[n - 1]) {
      var m, self, from := n - 1, states[0].self, Since(states, events, n);
      ResetsAreFew(states, events, m);
      SelectedIsBest(states, events, m);
      hide IsRun, Steady, IsBest, Selects, Announces, Expires;
      var s, e := states[m], events[m];
      assert Ports(events, self, from, m) + {} == Ports(events, self, from, m);
      if Announces(self, e) {
        AnnouncesPort(self, e);
        Grows(Ports(events, self, from, m), e.m.ds.portId);
        if Selects(s, e.m.ds) { SelectsNewPort(s, events, from, m); }
      }
    }
  }

  lemma AnnouncesPort(self: PortId, e: Event)
    requires Announces(self, e)
    ensures e.Receive? && e.m.Announce? && e.m.ds.Valid()
  {
  }

  /** Only a port that was not heard before is selected. */
  lemma SelectsNewPort(s: State, events: seq<Event>, from: nat, m: nat)
    requires from <= m < |events| && Ok(s) && IsBest(s, events, from, m) && Steady(events, s.self, from, m + 1)
    requires Announces(s.self, events[m]) && Selects(s, events[m].m.ds)
    ensures events[m].m.ds.portId !in Ports(events, s.self, from, m)
  {
    var p := events[m].m.ds.portId;
    if p in Ports(events, s.self, from, m) {
      var i := PortIsHeard(events, s.self, from, m, p);
      assert false;
    }
  }
}
