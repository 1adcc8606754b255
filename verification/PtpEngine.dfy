/** The slave engine as the program keeps it: one object whose handlers update it in
    place, with the delay filter, the servo and the clock it steers. */
module PtpEngine {
  import opened CInt
  import opened PtpClock
  import opened PtpMaster
  import opened PtpCore
  import PtpRuns
  import PtpServo
  import PtpDelay

  /** The selected master. */
  datatype Choice = Choice(have: bool, master: Dataset, lastAnnounce: nat, timeout: nat, utcOffset: int, flags: bv8)

  /** The last Sync. */
  datatype Arrival = Arrival(waiting: bool, seqNo: nat, cnt: nat, t2: int, corr: int, epoch: nat)

  /** The last master-to-slave leg. */
  datatype Leg = Leg(valid: bool, ns: int, epoch: nat)

  /** The last Delay_Req. */
  datatype Request = Request(due: bool, out: bool, seqNo: nat, t3: int, epoch: nat, last: nat)

  class Engine {
    const self: PortId
    var choice: Choice
    var sync: Arrival
    var leg: Leg
    var req: Request
    var nowMs: nat
    var lastOffset: int
    var syncs: nat
    const filter: PtpDelay.Filter
    const servo: PtpServo.Servo
    const clock: Clock

    predicate Valid()
      reads this, filter, servo
    {
      filter.Valid() && servo.clock == clock && PtpServo.Bounded(servo.View()) && choice.master.Valid()
    }

    function View(): (s: State)
      requires Valid()
      reads this, filter, filter.win, servo, clock
      ensures Ok(s)
    {
      State(self, choice.have, choice.master, choice.lastAnnounce, choice.timeout, choice.utcOffset, choice.flags,
            sync.waiting, sync.seqNo, sync.cnt, sync.t2, sync.corr, sync.epoch, leg.valid, leg.ns, leg.epoch,
            req.due, req.out, req.seqNo, req.t3, req.epoch, req.last, nowMs,
            filter.View(), servo.View(), lastOffset, syncs, clock.freq, clock.line, clock.epoch)
    }

    constructor (id: PortId, c: Clock)
      ensures Valid() && clock == c && self == id
      ensures IsInitial(View())
      ensures fresh(filter) && fresh(filter.win) && fresh(servo)
    {
      self, clock := id, c;
      choice := Choice(false, Dataset(0, 0, 0, 0, 0, 0, [0, 0, 0, 0, 0, 0, 0, 0], [0, 0, 0, 0, 0, 0, 0, 0, 0, 0]),
                       0, 0, 0, 0);
      sync, leg, req := Arrival(false, 0, 0, 0, 0, 0), Leg(false, 0, 0), Request(false, false, 0, 0, 0, 0);
      nowMs, lastOffset, syncs := 0, 0, 0;
      filter := new PtpDelay.Filter();
      servo := new PtpServo.Servo(c);
    }

    method ResetMeasurements()
      requires Valid()
      modifies this, filter, servo
      ensures Valid() && View() == Reset(old(View()))
    {
      sync := sync.(waiting := false);
      leg := leg.(valid := false);
      req := req.(due := false, out := false);
      filter.Clear();
      servo.Init();
    }

    method HandleAnnounce(m: Message)
      requires Valid() && m.Announce? && m.ds.Valid()
      modifies this, filter, servo
      ensures Valid() && View() == PtpCore.HandleAnnounce(old(View()), m)
    {
      hide Compare, LogIntervalMs;
      var ds := m.ds;
      if choice.have && ds.portId == choice.master.portId {
        choice := choice.(master := ds);
      } else if !choice.have || Compare(ds, choice.master) < 0 {
        choice := choice.(master := ds, have := true);
        ResetMeasurements();
      } else {
        return;
      }
      choice := choice.(lastAnnounce := nowMs, timeout := 3 * LogIntervalMs(m.logInterval) + 500,
                        utcOffset := m.utcOffset, flags := m.flags);
    }

    /** A Sync is complete: run the servo, and keep the leg unless the clock was
        stepped under it. */
    method SyncComplete(t1: int, corr: int, now: nat, later: nat)
      requires Valid() && now < Word64 && later < Word64
      modifies this, servo, clock
      ensures Valid() && View() == PtpCore.SyncComplete(old(View()), t1, corr, now, later)
    {
      hide After, PtpServo.Next, PtpServo.Changes;
      if sync.epoch != clock.epoch {
        return;
      }
      var raw := sync.t2 - (t1 + corr);
      syncs := (syncs + 1) % Word32;
      lastOffset := servo.Sample(raw, filter.ns, sync.cnt, now, later);
      if clock.epoch == sync.epoch {
        leg := Leg(true, raw, sync.epoch);
      } else {
        leg := leg.(valid := false);
      }
      req := req.(due := true);
    }

    method HandleSync(m: Message, cnt: nat, now: nat, later: nat)
      requires Valid() && m.Sync? && now < Word64 && later < Word64
      modifies this, servo, clock
      ensures Valid() && View() == PtpCore.HandleSync(old(View()), m, cnt, now, later)
    {
      hide Line.At, PtpCore.SyncComplete;
      sync := Arrival(sync.waiting, m.seqNo, cnt, clock.line.At(clock.freq, cnt), m.corr, clock.epoch);
      if m.twoStep {
        sync := sync.(waiting := true);
      } else {
        sync := sync.(waiting := false);
        SyncComplete(m.origin, sync.corr, now, later);
      }
    }

    method HandleFollowUp(m: Message, now: nat, later: nat)
      requires Valid() && m.FollowUp? && now < Word64 && later < Word64
      modifies this, servo, clock
      ensures Valid() && View() == PtpCore.HandleFollowUp(old(View()), m, now, later)
    {
      hide PtpCore.SyncComplete;
      if !sync.waiting || m.seqNo != sync.seqNo {
        return;
      }
      sync := sync.(waiting := false);
      SyncComplete(m.origin, sync.corr + m.corr, now, later);
    }

    method HandleDelayResp(m: Message)
      requires Valid() && m.DelayResp?
      modifies this, filter, filter.win
      ensures Valid() && View() == PtpCore.HandleDelayResp(old(View()), m)
    {
      if !req.out || m.seqNo != req.seqNo || m.requester != self {
        return;
      }
      req := req.(out := false);
      if req.epoch != clock.epoch || !leg.valid || leg.epoch != req.epoch {
        return;
      }
      var sample := Quot(leg.ns + (m.received - m.corr - req.t3), 2);
      if Abs(sample) > DelayMaxNs {
        return;
      }
      filter.Add(sample);
    }

    method Rx(m: Message, eventPort: bool, cnt: nat, now: nat, later: nat)
      requires Valid() && EventOk(Receive(m, eventPort, cnt, now, later)) && now < Word64 && later < Word64
      modifies this, filter, filter.win, servo, clock
      ensures Valid() && View() == Handle(old(View()), Receive(m, eventPort, cnt, now, later))
    {
      hide PtpCore.HandleAnnounce, PtpCore.HandleSync, PtpCore.HandleFollowUp, PtpCore.HandleDelayResp;
      if m.Source() == self {
        return;
      }
      if eventPort {
        if m.Sync? && choice.have && m.from == choice.master.portId {
          HandleSync(m, cnt, now, later);
        }
      } else if m.Announce? {
        HandleAnnounce(m);
      } else if choice.have && m.Source() == choice.master.portId {
        if m.FollowUp? {
          HandleFollowUp(m, now, later);
        } else if m.DelayResp? {
          HandleDelayResp(m);
        }
      }
    }

    /** One event of either kind. */
    method Feed(e: Event)
      requires Valid() && EventOk(e) && Readings(e)
      modifies this, filter, filter.win, servo, clock
      ensures Valid() && View() == Handle(old(View()), e)
    {
      hide Handle, View;
      match e {
        case Receive(m, eventPort, cnt, now, later) => Rx(m, eventPort, cnt, now, later);
        case Poll(ms, sent, tx) => Poll(ms, sent, tx);
      }
    }

    /** ptp_core_utc_now_ns at a counter reading. */
    method UtcNow(cnt: nat) returns (t: int)
      requires Valid()
      ensures t == PtpCore.UtcNow(View(), cnt)
    {
      t := clock.line.At(clock.freq, cnt);
      if choice.flags & 0x08 != 0 && choice.flags & 0x04 != 0 {
        t := t - choice.utcOffset * NsPerSec;
      }
    }

    method SendDelayReq(sent: bool, tx: nat)
      requires Valid()
      modifies this
      ensures Valid() && View() == PtpCore.SendDelayReq(old(View()), sent, tx)
    {
      hide Line.At;
      req := req.(seqNo := (req.seqNo + 1) % 0x10000);
      if sent {
        req := req.(t3 := clock.line.At(clock.freq, tx), epoch := clock.epoch, out := true);
      }
      req := req.(last := nowMs);
    }

    method Poll(ms: nat, sent: bool, tx: nat)
      requires Valid()
      modifies this, filter, servo
      ensures Valid() && View() == Handle(old(View()), Event.Poll(ms, sent, tx))
    {
      hide PtpCore.SendDelayReq;
      nowMs := ms;
      if choice.have && (ms - choice.lastAnnounce) % Word32 > choice.timeout {
        choice := choice.(have := false);
        ResetMeasurements();
        return;
      }
      if req.due && servo.phase != PtpServo.Unlocked && (ms - req.last) % Word32 >= 900 {
        req := req.(due := false);
        SendDelayReq(sent, tx);
      }
    }
  }

  /** The counter readings of an event are 64-bit words. */
  predicate Readings(e: Event) {
    e.Receive? ==> e.now < Word64 && e.later < Word64
  }

  /** A fresh engine fed with any events follows the model from start to end: after the
      i-th event it is in the i-th state of a run. */
  method FeedAll(id: PortId, clock: Clock, events: seq<Event>) returns (engine: Engine, ghost states: seq<State>)
    requires forall i :: 0 <= i < |events| ==> EventOk(events[i]) && Readings(events[i])
    modifies clock
    ensures engine.Valid() && PtpRuns.IsRun(states, events) && states[|events|] == engine.View()
    ensures engine.clock == clock && states[0].self == id && states[0].line == old(clock.line)
  {
    engine := new Engine(id, clock);
    states := [engine.View()];
    var i := 0;
    while i < |events|
      invariant i <= |events| && engine.Valid() && engine.clock == clock && |states| == i + 1
      invariant fresh(engine) && fresh(engine.filter) && fresh(engine.filter.win) && fresh(engine.servo)
      invariant states[i] == engine.View() && PtpRuns.IsRun(states, events[..i])
      invariant states[0].self == id && states[0].line == old(clock.line)
    {
      hide Engine.View, PtpRuns.IsRun, Handle;
      assert events[..i + 1] == events[..i] + [events[i]];
      OneMore(states, events[..i], events[i]);
      engine.Feed(events[i]);
      states := states + [engine.View()];
      i := i + 1;
    }
    assert events[..|events|] == events;
  }

  lemma OneMore(states: seq<State>, events: seq<Event>, e: Event)
    requires PtpRuns.IsRun(states, events) && Ok(states[|events|]) && EventOk(e)
    ensures PtpRuns.IsRun(states + [Handle(states[|events|], e)], events + [e])
  {
    hide Handle, IsInitial, Ok, EventOk;
    var states', events' := states + [Handle(states[|events|], e)], events + [e];
    assert states'[0] == states[0] && |states'| == |events'| + 1;
    forall i {:trigger events'[i]} {:trigger states'[i]} | 0 <= i < |events'|
      ensures Ok(states'[i]) && EventOk(events'[i]) && states'[i + 1] == Handle(states'[i], events'[i])
    {
      if i < |events| { assert events[i] == events'[i]; }
    }
  }
}
