/** How long a task waits: every call that serves its event list brings it one place
    forward, and only a waiter created with a higher priority puts it back by one. */
module KernelWaiting {
  import opened Common
  import opened Rings
  import opened KernelState
  import opened KernelInvariant
  import opened KernelSteps
  import opened KernelRuns
  import opened KernelQueues
  import opened KernelEffects
  import KernelOrder

  /** t waits in l behind at most n others. */
  ghost predicate Behind(k: State, l: ListId, t: nat, n: int) {
    l in k.lists && exists i :: 0 <= i <= n && i < |k.lists[l].items| && k.lists[l].items[i] == t
  }

  ghost predicate WaitsIn(k: State, l: ListId, t: nat) {
    l in k.lists && t in k.lists[l].items
  }

  /** The step serves the head of l: an item comes in for its receivers, or goes out
      for its senders. */
  ghost predicate Serves(k: State, step: Step, l: ListId) {
    match l
    case Receivers(q) => Accepts(k, step, q)
    case Senders(q) => Delivers(k, step, q)
    case _ => false
  }

  /** The running task, created with a higher priority than t, begins to wait in l. */
  ghost predicate Overtakes(k: State, step: Step, l: ListId, t: nat) {
    && (step.BlockToSend? || step.BlockToReceive?)
    && l == (if step.BlockToSend? then Senders(step.q) else Receivers(step.q))
    && k.current.Some? && k.current.value < |k.tasks| && t < |k.tasks|
    && k.tasks[k.current.value].base > k.tasks[t].base
  }

  // ----- The list operations -----------------------------------------------------------------

  /** A removal from any list puts nobody back, and that of the head brings everybody
      behind it forward. */
  lemma DetachBehind(k: State, x: nat, m: ListId, l: ListId, t: nat, n: int)
    requires Placed(k) && m in k.lists && In(k, x, m) && Behind(k, l, t, n) && (m == l ==> x != t)
    ensures Behind(Detach(k, x, m), l, t, n)
    ensures m == l && k.lists[l].items[0] == x ==> Behind(Detach(k, x, m), l, t, n - 1)
  {
    RemoveKeeps(k.lists[m], x);
    if m == l {
      var i :| 0 <= i <= n && i < |k.lists[l].items| && k.lists[l].items[i] == t;
      var j := IndexOf(k.lists[l].items, x);
      var s := Remove(k.lists[l], x).items;
      assert s[if i < j then i else i - 1] == t;
    }
  }

  lemma AttachBehind(k: State, x: nat, m: ListId, l: ListId, t: nat, n: int)
    requires Placed(k) && m in k.lists && x < |k.tasks| && k.tasks[x].Container(m) == None
    requires Sorted(k) && l.IsEvent() && Behind(k, l, t, n) && t < |k.tasks|
    requires k.tasks[t].base < MaxPriorities && k.tasks[x].base < MaxPriorities
    ensures Behind(AttachSorted(k, x, m), l, t, if m == l && k.tasks[x].base > k.tasks[t].base then n + 1 else n)
  {
    hide Placed, Sorted, Walk, Behind;
    PlacedIndices(k, m);
    RingOk(k, m);
    BehindIsIn(k, l, t, n);
    if m == l {
      var i := PlaceOf(k, l, t, n);
      if k.tasks[x].base <= k.tasks[t].base { ComesBehind(k, x, l, t, i); }
      var at := InsertionPoint(Keys(k.tasks, k.lists[l].items, l), k.tasks[x].Key(l));
      assert AttachSorted(k, x, l).lists[l] == InsertAt(k.lists[l], at, x);
      InsertedBehind(k.lists[l], at, x, i);
      IsPlace(AttachSorted(k, x, l), l, t, if i < at then i else i + 1,
              if k.tasks[x].base > k.tasks[t].base then n + 1 else n);
    } else {
      SameBehind(k, AttachSorted(k, x, m), l, t, n);
    }
  }

  lemma RingOk(k: State, l: ListId)
    requires Placed(k) && l in k.lists
    ensures k.lists[l].cursor <= |k.lists[l].items|
  {
  }

  lemma PlaceOf(k: State, l: ListId, t: nat, n: int) returns (i: nat)
    requires Behind(k, l, t, n)
    ensures l in k.lists && i <= n && i < |k.lists[l].items| && k.lists[l].items[i] == t
  {
    i :| 0 <= i <= n && i < |k.lists[l].items| && k.lists[l].items[i] == t;
  }

  lemma IsPlace(k: State, l: ListId, t: nat, i: nat, n: int)
    requires l in k.lists && i <= n && i < |k.lists[l].items| && k.lists[l].items[i] == t
    ensures Behind(k, l, t, n)
  {
  }

  lemma InsertedBehind(r: Ring<nat>, at: nat, x: nat, i: nat)
    requires r.cursor <= |r.items| && at <= |r.items| && i < |r.items|
    ensures var j := if i < at then i else i + 1;
            j < |InsertAt(r, at, x).items| && InsertAt(r, at, x).items[j] == r.items[i]
  {
  }

  /** A newcomer created with no higher priority is put behind t. */
  lemma ComesBehind(k: State, x: nat, l: ListId, t: nat, i: nat)
    requires Placed(k) && Sorted(k) && l in k.lists && l.IsEvent() && i < |k.lists[l].items| && k.lists[l].items[i] == t
    requires t < |k.tasks| && x < |k.tasks| && k.tasks[x].base <= k.tasks[t].base < MaxPriorities
    ensures Indices(k.lists[l].items, k.tasks)
    ensures i < InsertionPoint(Keys(k.tasks, k.lists[l].items, l), k.tasks[x].Key(l))
  {
    PlacedIndices(k, l);
    hide Placed;
    var keys, v := Keys(k.tasks, k.lists[l].items, l), k.tasks[x].Key(l);
    assert ListSorted(k, l);
    SortedByKeys(k.tasks, k.lists[l].items, l);
    InsertionKeepsOrder(keys, v);
    assert keys[i] <= v;
  }

  lemma SameBehind(k: State, k': State, l: ListId, t: nat, n: int)
    requires Behind(k, l, t, n) && l in k'.lists && k'.lists[l] == k.lists[l]
    ensures Behind(k', l, t, n)
  {
  }

  lemma WakeWaiterBehind(k: State, m: ListId, l: ListId, t: nat, n: int)
    requires Placed(k) && PriosOk(k) && Homed(k) && m in k.lists && m.IsEvent() && l.IsEvent() && Behind(k, l, t, n)
    requires WaitsIn(WakeWaiter(k, m), l, t)
    ensures Behind(WakeWaiter(k, m), l, t, if m == l then n - 1 else n)
  {
    if k.lists[m].items != [] {
      var x := k.lists[m].items[0];
      HeadIsIn(k, m);
      var k1 := Detach(k, x, m);
      var k2 := Detach(k1, x, k1.tasks[x].home.value);
      DetachBehind(k, x, m, l, t, n);
      SameBehind(k1, k2, l, t, if m == l then n - 1 else n);
      SameBehind(k2, WakeWaiter(k, m), l, t, if m == l then n - 1 else n);
    }
  }

  lemma BlockBehind(k: State, x: nat, m: ListId, wait: nat, l: ListId, t: nat, n: int)
    requires Placed(k) && PriosOk(k) && Sorted(k) && m in k.lists && m.IsEvent() && l.IsEvent() && Behind(k, l, t, n)
    requires x < |k.tasks| && k.tasks[x].home.Some? && k.tasks[x].wait == None && t < |k.tasks|
    requires k.tasks[t].base < MaxPriorities && k.tasks[x].base < MaxPriorities
    ensures Behind(Block(k, x, m, wait), l, t, if m == l && k.tasks[x].base > k.tasks[t].base then n + 1 else n)
  {
    hide Placed, Sorted, AttachSorted, Park, PriosOk;
    IsInContainers(k, x);
    var k1 := Detach(k, x, k.tasks[x].home.value);
    DetachKeepsOrder(k, x, k.tasks[x].home.value);
    SameBehind(k, k1, l, t, n);
    AttachBehind(k1, x, m, l, t, n);
    EnlistOk(k, x, m);
    KernelOrder.ParkEventList(Enlist(k, x, m), x, wait, l);
  }

  lemma WakeSleeperBehind(k: State, x: nat, l: ListId, t: nat, n: int)
    requires Placed(k) && PriosOk(k) && In(k, x, Delayed) && l.IsEvent() && Behind(k, l, t, n)
    requires WaitsIn(WakeSleeper(k, x), l, t)
    ensures Behind(WakeSleeper(k, x), l, t, n)
  {
    var k1 := Detach(k, x, Delayed);
    SameBehind(k, k1, l, t, n);
    if k1.tasks[x].wait.Some? {
      RemoveKeeps(k1.lists[k1.tasks[x].wait.value], x);
      DetachBehind(k1, x, k1.tasks[x].wait.value, l, t, n);
    }
  }

  lemma {:induction false} WakeSleepersBehind(k: State, l: ListId, t: nat, n: int)
    requires BeforeWake(k) && l.IsEvent() && Behind(k, l, t, n) && WaitsIn(WakeSleepers(k), l, t)
    ensures Behind(WakeSleepers(k), l, t, n)
    decreases |k.lists[Delayed].items|
  {
    var d := k.lists[Delayed].items;
    if d != [] && (assert d[0] in d; k.tasks[d[0]].value <= k.tick) {
      assert d[0] in d;
      var k1 := WakeSleeper(k, d[0]);
      WakeSleeperOk(k, d[0], k.tick - 1);
      StillThere(k, d[0], l, t);
      WakeSleeperBehind(k, d[0], l, t, n);
      WakeSleepersBehind(k1, l, t, n);
    }
  }

  /** Who waits when all sleepers are woken has waited before. */
  lemma StillThere(k: State, x: nat, l: ListId, t: nat)
    requires BeforeWake(k) && In(k, x, Delayed) && l in k.lists && l.IsEvent()
    requires BeforeWake(WakeSleeper(k, x)) && WakeSleeper(k, x).queues == k.queues
    requires WaitsIn(WakeSleepers(WakeSleeper(k, x)), l, t)
    ensures WaitsIn(WakeSleeper(k, x), l, t)
  {
    hide WakeSleeper, WakeSleepers;
    var k1 := WakeSleeper(k, x);
    WakeSleepersOk(k1);
    assert ListExists(k, l) && ListExists(k1, l);
    if t !in k1.lists[l].items { KernelOrder.StaysOut(k1, WakeSleepers(k1), l, t); }
  }

  // ----- Steps ---------------------------------------------------------------------------------

  /** By how many places a step moves t back at most. */
  ghost function Shift(k: State, step: Step, l: ListId, t: nat): int {
    (if Overtakes(k, step, l, t) then 1 else 0) - (if Serves(k, step, l) then 1 else 0)
  }

  lemma SendBehind(k: State, step: Step, l: ListId, t: nat, n: int)
    requires Inv(k) && Enabled(k, step) && step.TrySend? && l.IsEvent() && Behind(k, l, t, n)
    requires WaitsIn(Apply(k, step), l, t)
    ensures Behind(Apply(k, step), l, t, n + Shift(k, step, l, t))
  {
    hide Placed, Sorted, TasksOk, BoostsOk, IdleOk, Deposit, WakeWaiter, QueuesOk, Behind;
    InvBasics(k);
    var q := step.q;
    HolderExists(k, q);
    EventLists(k, q);
    if Accepts(k, step, q) {
      DepositOk(k, q, step.item, step.front);
      DepositLists(k, q, step.item, step.front);
      BehindIsIn(k, l, t, n);
      SameBehind(k, Deposit(k, q, step.item, step.front), l, t, n);
      WakeWaiterBehind(Deposit(k, q, step.item, step.front), Receivers(q), l, t, n);
    }
  }

  lemma BehindIsIn(k: State, l: ListId, t: nat, n: int)
    requires Behind(k, l, t, n)
    ensures l in k.lists && t in k.lists[l].items
  {
  }

  lemma ReceiveBehind(k: State, step: Step, l: ListId, t: nat, n: int)
    requires Inv(k) && Enabled(k, step) && step.TryReceive? && l.IsEvent() && Behind(k, l, t, n)
    requires WaitsIn(Apply(k, step), l, t)
    ensures Behind(Apply(k, step), l, t, n + Shift(k, step, l, t))
  {
    hide Placed, Sorted, TasksOk, BoostsOk, IdleOk, WakeWaiter, QueuesOk, Behind;
    InvBasics(k);
    EventLists(k, step.q);
    BehindIsIn(k, l, t, n);
    var queue := k.queues[step.q];
    if queue.contents != [] {
      var k1 := SetQueue(k, step.q, queue.(contents := queue.contents[1..],
                                           holder := if queue.mutex then k.current else queue.holder));
      SameBehind(k, k1, l, t, n);
      WakeWaiterBehind(k1, Senders(step.q), l, t, n);
    }
  }

  lemma BlockStepBehind(k: State, step: Step, l: ListId, t: nat, n: int)
    requires Inv(k) && Enabled(k, step) && (step.BlockToSend? || step.BlockToReceive?) && l.IsEvent()
    requires Behind(k, l, t, n)
    ensures Behind(Apply(k, step), l, t, n + Shift(k, step, l, t))
  {
    hide Placed, ListSorted, TaskOk, BoostsOk, IdleOk, QueuesOk, Behind, Block, Inherit;
    InvBasics(k);
    CallerReady(k);
    EventLists(k, step.q);
    BehindIsIn(k, l, t, n);
    KernelOrder.WaitingIndices(k, l, t);
    if step.BlockToSend? {
      BlockBehind(k, k.current.value, Senders(step.q), step.wait, l, t, n);
      Yielding(Block(k, k.current.value, Senders(step.q), step.wait), l, t, n + Shift(k, step, l, t));
    } else {
      HolderExists(k, step.q);
      var holder := k.queues[step.q].holder;
      InheritOk(k, holder);
      InheritBehind(k, holder, l, t, n);
      var k1 := if k.queues[step.q].mutex then Inherit(k, holder) else k;
      EventLists(k1, step.q);
      BlockBehind(k1, k.current.value, Receivers(step.q), step.wait, l, t, n);
      Yielding(Block(k1, k.current.value, Receivers(step.q), step.wait), l, t, n + Shift(k, step, l, t));
    }
  }

  lemma Yielding(k: State, l: ListId, t: nat, n: int)
    requires Behind(k, l, t, n)
    ensures Behind(k.(yielding := true), l, t, n)
  {
  }

  lemma InheritBehind(k: State, holder: Option<nat>, l: ListId, t: nat, n: int)
    requires Placed(k) && PriosOk(k) && (holder.Some? ==> holder.value < |k.tasks|)
    requires k.current.Some? && k.current.value < |k.tasks| && l.IsEvent() && Behind(k, l, t, n)
    ensures Behind(Inherit(k, holder), l, t, n)
  {
    hide Placed, Reprioritise;
    if holder.Some? && k.tasks[holder.value].prio < k.tasks[k.current.value].prio {
      ReprioritiseLists(k, holder.value, k.tasks[k.current.value].prio);
    }
    SameBehind(k, Inherit(k, holder), l, t, n);
  }

  lemma TickBehind(k: State, l: ListId, t: nat, n: int)
    requires Inv(k) && Enabled(k, TickInterrupt) && l.IsEvent() && Behind(k, l, t, n)
    requires WaitsIn(Apply(k, TickInterrupt), l, t)
    ensures Behind(Apply(k, TickInterrupt), l, t, n)
  {
    hide BeforeWake, Behind, Placed, PriosOk, Sorted, TasksOk, QueuesOk, BoostsOk;
    InvBasics(k);
    TickBegins(k);
    BehindIsIn(k, l, t, n);
    SameBehind(k, k.(tick := k.tick + 1), l, t, n);
    WakeSleepersBehind(k.(tick := k.tick + 1), l, t, n);
  }

  lemma OtherBehind(k: State, step: Step, l: ListId, t: nat, n: int)
    requires Inv(k) && Enabled(k, step) && l.IsEvent() && Behind(k, l, t, n)
    requires step.Create? || step.Start? || step.DelayFor? || step.SwitchContext? || step.CreateQueue?
             || step.CreateCounting? || step.CreateMutex? || step.SetInheritance?
    ensures Behind(Apply(k, step), l, t, n)
  {
    BehindIsIn(k, l, t, n);
    if step.CreateMutex? && step.memory { KernelOrder.MutexAhead(k, l); }
    else { KernelOrder.SameEventLists(k, step, l); }
    hide Inv, Enabled, Apply;
    SameBehind(k, Apply(k, step), l, t, n);
  }

  /** A step that leaves t waiting brings it forward by one if it serves the list and
      puts it back by at most one if somebody overtakes it. */
  lemma StepMovesWaiter(k: State, step: Step, l: ListId, t: nat, n: int)
    requires Inv(k) && Enabled(k, step) && l.IsEvent() && Behind(k, l, t, n) && WaitsIn(Apply(k, step), l, t)
    ensures Behind(Apply(k, step), l, t, n + Shift(k, step, l, t))
  {
    hide Inv, Enabled, Apply, Behind, WaitsIn;
    match step
    case TrySend(_, _, _) => SendBehind(k, step, l, t, n);
    case TryReceive(_) => ReceiveBehind(k, step, l, t, n);
    case BlockToSend(_, _) => BlockStepBehind(k, step, l, t, n);
    case BlockToReceive(_, _) => BlockStepBehind(k, step, l, t, n);
    case TickInterrupt => TickBehind(k, l, t, n);
    case _ => OtherBehind(k, step, l, t, n);
  }

  // ----- Runs ----------------------------------------------------------------------------------

  /** How often l was served, and how often t was overtaken there, in the first n steps. */
  ghost function Services(trace: seq<State>, steps: seq<Step>, l: ListId, n: nat): nat
    requires n <= |steps| < |trace|
  {
    if n == 0 then 0 else Services(trace, steps, l, n - 1) + if Serves(trace[n - 1], steps[n - 1], l) then 1 else 0
  }

  ghost function Overtakings(trace: seq<State>, steps: seq<Step>, l: ListId, t: nat, n: nat): nat
    requires n <= |steps| < |trace|
  {
    if n == 0 then 0
    else Overtakings(trace, steps, l, t, n - 1) + if Overtakes(trace[n - 1], steps[n - 1], l, t) then 1 else 0
  }

  lemma {:induction false} WaiterMoves(trace: seq<State>, steps: seq<Step>, l: ListId, t: nat, p: nat, n: nat)
    requires IsRun(trace, steps) && Inv(trace[0]) && n < |trace| && l.IsEvent() && Behind(trace[0], l, t, p)
    requires forall m :: 0 <= m <= n ==> WaitsIn(trace[m], l, t)
    ensures |steps| < |trace|
    ensures Behind(trace[n], l, t, p + Overtakings(trace, steps, l, t, n) - Services(trace, steps, l, n))
  {
    hide IsRun, Inv, Enabled, Apply, Behind, WaitsIn, Overtakes, Serves;
    RunLength(trace, steps);
    if n > 0 {
      WaiterMoves(trace, steps, l, t, p, n - 1);
      RunStep(trace, steps, n - 1);
      StepMovesWaiter(trace[n - 1], steps[n - 1], l, t,
                      p + Overtakings(trace, steps, l, t, n - 1) - Services(trace, steps, l, n - 1));
    }
  }

  /** Nobody starves: a task that waits behind p others is ready by the time its list
      was served more often than p times and once for everybody who overtook it. */
  lemma WaiterIsServed(trace: seq<State>, steps: seq<Step>, l: ListId, t: nat, p: nat, n: nat)
    requires IsRun(trace, steps) && Inv(trace[0]) && n <= |steps| < |trace| && l.IsEvent() && Behind(trace[0], l, t, p)
    requires Services(trace, steps, l, n) > p + Overtakings(trace, steps, l, t, n)
    ensures exists m :: 0 < m <= n && t < |trace[m].tasks| && MadeReady(trace[m].tasks[t])
  {
    hide IsRun, Inv, Apply, Enabled;
    if forall m :: 0 <= m <= n ==> WaitsIn(trace[m], l, t) {
      WaiterMoves(trace, steps, l, t, p, n);
      assert false;
    }
    var m :| 0 <= m <= n && !WaitsIn(trace[m], l, t);
    LeavesReady(trace, steps, l, t, m);
  }

  /** Who has waited and waits no more was made ready. */
  lemma {:induction false} LeavesReady(trace: seq<State>, steps: seq<Step>, l: ListId, t: nat, n: nat)
    requires IsRun(trace, steps) && Inv(trace[0]) && n < |trace| && l.IsEvent()
    requires WaitsIn(trace[0], l, t) && !WaitsIn(trace[n], l, t)
    ensures exists m :: 0 < m <= n && t < |trace[m].tasks| && MadeReady(trace[m].tasks[t])
  {
    hide Inv, Apply, Enabled, MadeReady;
    RunLength(trace, steps);
    if WaitsIn(trace[n - 1], l, t) {
      RunStep(trace, steps, n - 1);
      LeavesOnlyReady(trace[n - 1], steps[n - 1], l, t);
    } else {
      LeavesReady(trace, steps, l, t, n - 1);
    }
  }

  lemma LeavesOnlyReady(k: State, step: Step, l: ListId, t: nat)
    requires Inv(k) && Enabled(k, step) && l.IsEvent() && WaitsIn(k, l, t) && !WaitsIn(Apply(k, step), l, t)
    ensures t < |Apply(k, step).tasks| && MadeReady(Apply(k, step).tasks[t])
  {
    assert In(k, t, l);
    assert TaskOk(k.tasks[t], k.top, k.tick);
    BlockedTaskStep(k, step, t);
    StepKeepsInv(k, step);
    StepCreates(k, step);
    assert ListExists(k, l) && ListExists(Apply(k, step), l);
    hide Apply;
    assert StillBlocked(k.tasks[t], Apply(k, step).tasks[t]) ==> In(Apply(k, step), t, l);
  }
}
