/** The slave engine of port/ptp/ptp_core.c: announced masters, Sync and Follow_Up,
    Delay_Req and Delay_Resp. Messages come decoded; the counter readings that go
    with an event, and whether a frame could be sent, are part of the event. */
module PtpCore {
  import opened CInt
  import opened PtpClock
  import opened PtpMaster
  import PtpServo
  import PtpDelay

  const Word32: int := 0x1_0000_0000
  const DelayMaxNs: int := 10_000_000
  /** The flags of a valid UTC offset and of the PTP time scale. */
  const UtcFlags: bv8 := 0x0C

  type PortId = seq<nat>

  datatype Message =
    | Announce(ds: Dataset, logInterval: int, utcOffset: int, flags: bv8)
    | Sync(from: PortId, seqNo: nat, twoStep: bool, origin: int, corr: int)
    | FollowUp(from: PortId, seqNo: nat, origin: int, corr: int)
    | DelayResp(from: PortId, seqNo: nat, requester: PortId, received: int, corr: int)
  {
    function Source(): PortId {
      match this
      case Announce(ds, _, _, _) => ds.portId
      case _ => from
    }
  }

  datatype Event =
    | Receive(m: Message, eventPort: bool, cnt: nat, now: nat, later: nat)
    | Poll(ms: nat, sent: bool, tx: nat)

  datatype State = State(
    self: PortId,
    haveMaster: bool, master: Dataset, lastAnnounce: nat, timeout: nat, utcOffset: int, flags: bv8,
    waiting: bool, syncSeq: nat, t2Cnt: nat, t2: int, syncCorr: int, t2Epoch: nat,
    msValid: bool, msLeg: int, msEpoch: nat,
    reqDue: bool, reqOut: bool, reqSeq: nat, t3: int, t3Epoch: nat, lastReq: nat, nowMs: nat,
    delay: PtpDelay.Window, servo: PtpServo.State, lastOffset: int, syncs: nat,
    freq: nat, line: Line, epoch: nat)

  // ----- The handlers ------------------------------------------------------

  function Reset(s: State): State {
    s.(waiting := false, msValid := false, reqDue := false, reqOut := false,
       delay := s.delay.(n := 0, idx := 0, ns := -1), servo := PtpServo.Initial)
  }

  function Shift(log2: nat): (p: nat)
    ensures p > 0
  {
    if log2 == 0 then 1 else 2 * Shift(log2 - 1)
  }

  function LogIntervalMs(log2: int): nat {
    var l := if log2 < -7 then -7 else if log2 > 6 then 6 else log2;
    if l >= 0 then 1000 * Shift(l) else Below(1000, -l)
  }

  /** n shifted right. */
  function Below(n: nat, k: nat): nat {
    if k == 0 then n else Below(n / 2, k - 1)
  }

  predicate Refreshes(s: State, ds: Dataset) {
    s.haveMaster && ds.portId == s.master.portId
  }

  /** The announced data set replaces the master and starts the measurements anew. */
  predicate Selects(s: State, ds: Dataset)
    requires ds.Valid() && s.master.Valid()
  {
    !Refreshes(s, ds) && (!s.haveMaster || Compare(ds, s.master) < 0)
  }

  function HandleAnnounce(s: State, m: Message): State
    requires m.Announce? && m.ds.Valid() && s.master.Valid()
  {
    if !Refreshes(s, m.ds) && !Selects(s, m.ds) then s
    else
      var s' := if Refreshes(s, m.ds) then s.(master := m.ds) else Reset(s.(master := m.ds, haveMaster := true));
      s'.(lastAnnounce := s.nowMs, timeout := 3 * LogIntervalMs(m.logInterval) + 500, utcOffset := m.utcOffset,
          flags := m.flags)
  }

  predicate FromMaster(s: State, from: PortId) {
    s.haveMaster && from == s.master.portId
  }

  function SyncComplete(s: State, t1: int, corr: int, now: nat, later: nat): State {
    if s.t2Epoch != s.epoch then s
    else
      var raw := s.t2 - (t1 + corr);
      var m := PtpServo.Measurement(raw, s.delay.ns, s.t2Cnt);
      var next := PtpServo.Next(s.servo, s.line.ppb, s.freq, m);
      var epoch' := if PtpServo.Jumped(next.1) then (s.epoch + 1) % Word32 else s.epoch;
      var s' := s.(servo := next.0, lastOffset := PtpServo.Offset(m), syncs := (s.syncs + 1) % Word32,
                   line := After(s.line, s.freq, PtpServo.Changes(next.1, now, later)), epoch := epoch',
                   reqDue := true);
      if epoch' == s.t2Epoch then s'.(msLeg := raw, msEpoch := s.t2Epoch, msValid := true)
      else s'.(msValid := false)
  }

  function HandleSync(s: State, m: Message, cnt: nat, now: nat, later: nat): State
    requires m.Sync?
  {
    var s' := s.(syncSeq := m.seqNo, t2Cnt := cnt, t2 := s.line.At(s.freq, cnt), t2Epoch := s.epoch,
                 syncCorr := m.corr, waiting := m.twoStep);
    if m.twoStep then s' else SyncComplete(s', m.origin, m.corr, now, later)
  }

  /** The Follow_Up of the Sync that is waiting for one. */
  predicate Completes(s: State, m: Message) {
    m.FollowUp? && s.waiting && m.seqNo == s.syncSeq
  }

  function HandleFollowUp(s: State, m: Message, now: nat, later: nat): State
    requires m.FollowUp?
  {
    if !Completes(s, m) then s
    else SyncComplete(s.(waiting := false), m.origin, s.syncCorr + m.corr, now, later)
  }

  /** The answer to our outstanding request. */
  predicate Answers(s: State, m: Message) {
    m.DelayResp? && s.reqOut && m.seqNo == s.reqSeq && m.requester == s.self
  }

  predicate Usable(s: State) {
    s.t3Epoch == s.epoch && s.msValid && s.msEpoch == s.t3Epoch
  }

  function DelaySample(s: State, m: Message): int
    requires m.DelayResp?
  {
    Quot(s.msLeg + (m.received - m.corr - s.t3), 2)
  }

  /** The response yields a sample for the delay window. */
  predicate Samples(s: State, m: Message) {
    Answers(s, m) && Usable(s) && Abs(DelaySample(s, m)) <= DelayMaxNs
  }

  function HandleDelayResp(s: State, m: Message): State
    requires m.DelayResp? && s.delay.Valid()
  {
    if !Answers(s, m) then s
    else if !Samples(s, m) then s.(reqOut := false)
    else s.(reqOut := false, delay := s.delay.Add(DelaySample(s, m)))
  }

  /** A Sync is taken from the event port only, the others from the general port. */
  function Deliver(s: State, m: Message, eventPort: bool, cnt: nat, now: nat, later: nat): State
    requires s.master.Valid() && s.delay.Valid() && (m.Announce? ==> m.ds.Valid())
  {
    if m.Source() == s.self || eventPort != m.Sync? then s
    else if m.Announce? then HandleAnnounce(s, m)
    else if !FromMaster(s, m.from) then s
    else if m.Sync? then HandleSync(s, m, cnt, now, later)
    else if m.FollowUp? then HandleFollowUp(s, m, now, later)
    else HandleDelayResp(s, m)
  }

  /** UTC by the clock and the master's announced offset, if it announces one that
      is valid on the PTP time scale. */
  function UtcNow(s: State, cnt: nat): int {
    s.line.At(s.freq, cnt) - if s.flags & UtcFlags == UtcFlags then s.utcOffset * NsPerSec else 0
  }

  function SendDelayReq(s: State, sent: bool, tx: nat): State {
    var s' := s.(reqSeq := (s.reqSeq + 1) % 0x10000, lastReq := s.nowMs);
    if sent then s'.(t3 := s.line.At(s.freq, tx), t3Epoch := s.epoch, reqOut := true) else s'
  }

  predicate TimesOut(s: State, ms: nat) {
    s.haveMaster && (ms - s.lastAnnounce) % Word32 > s.timeout
  }

  predicate Requests(s: State, ms: nat) {
    !TimesOut(s, ms) && s.reqDue && s.servo.phase != PtpServo.Unlocked && (ms - s.lastReq) % Word32 >= 900
  }

  function PollAt(s: State, ms: nat, sent: bool, tx: nat): State {
    var s' := s.(nowMs := ms);
    if TimesOut(s, ms) then Reset(s'.(haveMaster := false))
    else if Requests(s, ms) then SendDelayReq(s'.(reqDue := false), sent, tx)
    else s'
  }

  function Handle(s: State, e: Event): State
    requires Ok(s) && EventOk(e)
  {
    match e
    case Receive(m, eventPort, cnt, now, later) => Deliver(s, m, eventPort, cnt, now, later)
    case Poll(ms, sent, tx) => PollAt(s, ms, sent, tx)
  }

  predicate Ok(s: State) {
    s.master.Valid() && s.delay.Valid()
  }

  predicate EventOk(e: Event) {
    e.Receive? && e.m.Announce? ==> e.m.ds.Valid()
  }

  /** After ptp_core_init: all zero but the delay, which is unknown. The clock may have
      been used before. */
  predicate IsInitial(s: State) {
    && Ok(s) && !s.haveMaster && s == Reset(s) && s.utcOffset == 0 && s.flags == 0
    && s.reqSeq == 0 && s.lastReq == 0 && s.nowMs == 0
  }

  /** An interval of 2^l seconds in milliseconds, rounded down, with l taken into -7
      to 6. */
  lemma LogIntervalIs(l: int)
    ensures 0 <= l <= 6 ==> LogIntervalMs(l) == 1000 * Shift(l)
    ensures -7 <= l <= 0 ==> LogIntervalMs(l) == 1000 / Shift(-l)
    ensures l > 6 ==> LogIntervalMs(l) == LogIntervalMs(6) == 64_000
    ensures l < -7 ==> LogIntervalMs(l) == LogIntervalMs(-7) == 7
  {
    Halved(1000, if -7 <= l <= 0 then -l else 7);
    assert Shift(6) == 4 * Shift(4) && Shift(4) == 4 * Shift(2) && Shift(2) == 4;
    assert Shift(7) == 2 * Shift(6);
  }

  lemma {:induction false} Halved(n: nat, k: nat)
    ensures Below(n, k) == n / Shift(k)
  {
    if k > 0 {
      Halved(n / 2, k - 1);
      Quarter(n, Shift(k - 1));
    }
  }

  lemma Quarter(n: nat, p: nat)
    requires p > 0
    ensures (n / 2) / p == n / (2 * p)
  {
    var q := (n / 2) / p;
    FloorBounds(n / 2, p);
    assert 2 * p * q <= n < 2 * p * q + 2 * p;
    FloorIs(n, 2 * p, q);
  }
}
