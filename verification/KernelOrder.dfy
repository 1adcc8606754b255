/** Wake-up order on event lists: the greatest creation-time priority first, and
    equals in the order in which they began to wait. */
module KernelOrder {
  import opened Common
  import opened Rings
  import opened KernelState
  import opened KernelInvariant
  import opened KernelSteps
  import opened KernelRuns

  ghost predicate Before(s: seq<nat>, a: nat, b: nat) {
    exists i, j :: 0 <= i < j < |s| && s[i] == a && s[j] == b
  }

  /** a waits in l, and b, if it waits there too, waits behind a. */
  ghost predicate Ahead(k: State, l: ListId, a: nat, b: nat) {
    && l in k.lists && a in k.lists[l].items
    && (b in k.lists[l].items ==> Before(k.lists[l].items, a, b))
  }

  lemma RemoveKeepsBefore(r: Ring<nat>, x: nat, a: nat, b: nat)
    requires r.cursor <= |r.items| && x in r.items && a != x && b != x && Before(r.items, a, b)
    ensures Before(Remove(r, x).items, a, b)
  {
    var n := IndexOf(r.items, x);
    var s := Remove(r, x).items;
    var i, j :| 0 <= i < j < |r.items| && r.items[i] == a && r.items[j] == b;
    var i', j' := if i < n then i else i - 1, if j < n then j else j - 1;
    assert s[i'] == a && s[j'] == b && i' < j';
  }

  lemma InsertKeepsBefore(r: Ring<nat>, at: nat, x: nat, a: nat, b: nat)
    requires r.cursor <= |r.items| && at <= |r.items| && Before(r.items, a, b)
    ensures Before(InsertAt(r, at, x).items, a, b)
  {
    var s := InsertAt(r, at, x).items;
    var i, j :| 0 <= i < j < |r.items| && r.items[i] == a && r.items[j] == b;
    var i', j' := if i < at then i else i + 1, if j < at then j else j + 1;
    assert s[i'] == a && s[j'] == b && i' < j';
  }

  // ----- The list operations keep a ahead of b --------------------------------------

  ghost predicate StillAhead(k': State, l: ListId, a: nat, b: nat) {
    l in k'.lists && (a in k'.lists[l].items ==> Ahead(k', l, a, b))
  }

  lemma DetachAhead(k: State, t: nat, m: ListId, l: ListId, a: nat, b: nat)
    requires Placed(k) && m in k.lists && In(k, t, m) && Ahead(k, l, a, b)
    ensures StillAhead(Detach(k, t, m), l, a, b)
  {
    RemoveKeeps(k.lists[m], t);
    if m == l && t != a && t != b && b in k.lists[l].items {
      RemoveKeepsBefore(k.lists[l], t, a, b);
    }
  }

  lemma AttachAhead(k: State, t: nat, m: ListId, l: ListId, a: nat, b: nat)
    requires Placed(k) && m in k.lists && t < |k.tasks| && k.tasks[t].Container(m) == None
    requires Sorted(k) && l.IsEvent() && Ahead(k, l, a, b)
    requires t == b ==> a < |k.tasks| && k.tasks[b].base <= k.tasks[a].base < MaxPriorities
    ensures StillAhead(AttachSorted(k, t, m), l, a, b)
  {
    PlacedIndices(k, m);
    var keys, v := Keys(k.tasks, k.lists[m].items, m), k.tasks[t].Key(m);
    var at := InsertionPoint(keys, v);
    InsertAtKeeps(k.lists[m], at, t);
    if m == l {
      if b in k.lists[l].items {
        InsertKeepsBefore(k.lists[l], at, t, a, b);
      } else if t == b {
        InsertedBehind(k, t, l, a);
      }
    }
  }

  /** A newcomer of no higher creation-time priority queues up behind a. */
  lemma InsertedBehind(k: State, t: nat, l: ListId, a: nat)
    requires Placed(k) && Sorted(k) && l in k.lists && l.IsEvent() && a in k.lists[l].items
    requires t < |k.tasks| && k.tasks[t].Container(l) == None
    requires a < |k.tasks| && k.tasks[t].base <= k.tasks[a].base < MaxPriorities
    ensures Before(AttachSorted(k, t, l).lists[l].items, a, t)
  {
    PlacedIndices(k, l);
    var items := k.lists[l].items;
    var keys, v := Keys(k.tasks, items, l), k.tasks[t].Key(l);
    var at := InsertionPoint(keys, v);
    assert ListSorted(k, l);
    SortedByKeys(k.tasks, items, l);
    InsertionKeepsOrder(keys, v);
    var i :| 0 <= i < |items| && items[i] == a;
    assert keys[i] <= v;
    var s := InsertAt(k.lists[l], at, t).items;
    assert s[i] == a && s[at] == t && i < at;
  }

  lemma SameListAhead(k: State, k': State, l: ListId, a: nat, b: nat)
    requires Ahead(k, l, a, b) && l in k'.lists && k'.lists[l] == k.lists[l]
    ensures Ahead(k', l, a, b)
  {
  }

  lemma AddReadyAhead(k: State, t: nat, l: ListId, a: nat, b: nat)
    requires Placed(k) && PriosOk(k) && t < |k.tasks| && k.tasks[t].home == None
    requires l.IsEvent() && StillAhead(k, l, a, b)
    ensures StillAhead(AddReady(k, t), l, a, b)
  {
  }

  lemma WakeWaiterAhead(k: State, m: ListId, l: ListId, a: nat, b: nat)
    requires Placed(k) && PriosOk(k) && Homed(k) && m in k.lists && m.IsEvent()
    requires l.IsEvent() && Ahead(k, l, a, b)
    ensures StillAhead(WakeWaiter(k, m), l, a, b)
  {
    if k.lists[m].items != [] {
      var t := k.lists[m].items[0];
      assert t in k.lists[m].items;
      DetachAhead(k, t, m, l, a, b);
      var k1 := Detach(k, t, m);
      var k2 := Detach(k1, t, k1.tasks[t].home.value);
      assert k2.lists[l] == k1.lists[l];
      AddReadyAhead(k2, t, l, a, b);
    }
  }

  lemma WakeSleeperAhead(k: State, t: nat, l: ListId, a: nat, b: nat)
    requires Placed(k) && PriosOk(k) && In(k, t, Delayed) && l.IsEvent() && Ahead(k, l, a, b)
    ensures StillAhead(WakeSleeper(k, t), l, a, b)
  {
    var k1 := Detach(k, t, Delayed);
    SameListAhead(k, k1, l, a, b);
    if k1.tasks[t].wait.Some? {
      DetachAhead(k1, t, k1.tasks[t].wait.value, l, a, b);
      AddReadyAhead(Detach(k1, t, k1.tasks[t].wait.value), t, l, a, b);
    } else {
      AddReadyAhead(k1, t, l, a, b);
    }
  }

  lemma {:induction false} WakeSleepersAhead(k: State, l: ListId, a: nat, b: nat)
    requires BeforeWake(k) && l.IsEvent() && Ahead(k, l, a, b)
    ensures StillAhead(WakeSleepers(k), l, a, b)
    decreases |k.lists[Delayed].items|
  {
    var d := k.lists[Delayed].items;
    if d != [] && (assert d[0] in d; k.tasks[d[0]].value <= k.tick) {
      assert d[0] in d;
      var k1 := WakeSleeper(k, d[0]);
      WakeSleeperOk(k, d[0], k.tick - 1);
      WakeSleeperAhead(k, d[0], l, a, b);
      if a in k1.lists[l].items {
        WakeSleepersAhead(k1, l, a, b);
      } else {
        WakeSleepersOk(k1);
        StaysOut(k1, WakeSleepers(k1), l, a);
      }
    }
  }

  /** Waking sleepers puts nobody on an event list. */
  lemma StaysOut(k: State, k': State, l: ListId, a: nat)
    requires Placed(k) && Placed(k') && Woken(k, k') && l in k.lists && l.IsEvent() && a !in k.lists[l].items
    ensures l in k'.lists && a !in k'.lists[l].items
  {
    assert ListExists(k', l);
    if In(k', a, l) {
      assert In(k, a, l);
    }
  }

  lemma BlockAhead(k: State, t: nat, m: ListId, wait: nat, l: ListId, a: nat, b: nat)
    requires Placed(k) && PriosOk(k) && Sorted(k) && m in k.lists && m.IsEvent()
    requires t < |k.tasks| && k.tasks[t].home.Some? && k.tasks[t].wait == None
    requires l.IsEvent() && Ahead(k, l, a, b)
    requires t == b ==> a < |k.tasks| && k.tasks[b].base <= k.tasks[a].base < MaxPriorities
    ensures StillAhead(Block(k, t, m, wait), l, a, b)
  {
    hide Placed, Sorted, AttachSorted, Park;
    IsInContainers(k, t);
    var k1 := Detach(k, t, k.tasks[t].home.value);
    DetachKeepsOrder(k, t, k.tasks[t].home.value);
    SameListAhead(k, k1, l, a, b);
    AttachAhead(k1, t, m, l, a, b);
    EnlistOk(k, t, m);
    ParkEventList(Enlist(k, t, m), t, wait, l);
  }

  lemma ParkEventList(k: State, t: nat, wait: nat, l: ListId)
    requires Placed(k) && PriosOk(k) && t < |k.tasks| && k.tasks[t].home == None && l.IsEvent() && l in k.lists
    ensures var k' := Park(k, t, wait); l in k'.lists && k'.lists[l] == k.lists[l]
  {
    hide Placed;
  }

  // ----- Step and run -----------------------------------------------------------------

  lemma DepositAhead(k: State, q: nat, item: Item, front: bool, l: ListId, a: nat, b: nat)
    requires Placed(k) && PriosOk(k) && q < |k.queues| && l.IsEvent() && Ahead(k, l, a, b)
    requires k.queues[q].holder.Some? ==> k.queues[q].holder.value < |k.tasks|
    ensures Ahead(Deposit(k, q, item, front), l, a, b)
  {
    DepositLists(k, q, item, front);
  }

  lemma ReceiveAhead(k: State, q: nat, l: ListId, a: nat, b: nat)
    requires Placed(k) && PriosOk(k) && Homed(k) && q < |k.queues| && k.queues[q].contents != []
    requires l.IsEvent() && Ahead(k, l, a, b)
    ensures StillAhead(Receive(k, q), l, a, b)
  {
    var queue := k.queues[q];
    var k1 := SetQueue(k, q, queue.(contents := queue.contents[1..],
                                    holder := if queue.mutex then k.current else queue.holder));
    SameListAhead(k, k1, l, a, b);
    WakeWaiterAhead(k1, Senders(q), l, a, b);
  }

  lemma BlockToReceiveAhead(k: State, q: nat, wait: nat, l: ListId, a: nat, b: nat)
    requires Inv(k) && Enabled(k, BlockToReceive(q, wait)) && l.IsEvent() && Ahead(k, l, a, b)
    requires a < |k.tasks| && (b < |k.tasks| ==> k.tasks[b].base <= k.tasks[a].base < MaxPriorities)
    ensures StillAhead(Apply(k, BlockToReceive(q, wait)), l, a, b)
  {
    InvBasics(k);
    CallerReady(k);
    var holder := k.queues[q].holder;
    assert QueueOk(k.queues[q], |k.tasks|);
    InheritOk(k, holder);
    var k1 := if k.queues[q].mutex then Inherit(k, holder) else k;
    if holder.Some? && k.current.Some? && k.tasks[holder.value].prio < k.tasks[k.current.value].prio {
      ReprioritiseLists(k, holder.value, k.tasks[k.current.value].prio);
    }
    SameListAhead(k, k1, l, a, b);
    BlockAhead(k1, k.current.value, Receivers(q), wait, l, a, b);
  }

  lemma SendAhead(k: State, q: nat, item: Item, front: bool, l: ListId, a: nat, b: nat)
    requires Inv(k) && Enabled(k, TrySend(q, item, front)) && l.IsEvent() && Ahead(k, l, a, b)
    ensures StillAhead(Apply(k, TrySend(q, item, front)), l, a, b)
  {
    InvBasics(k);
    assert QueueOk(k.queues[q], |k.tasks|);
    if |k.queues[q].contents| < k.queues[q].length {
      DepositAhead(k, q, item, front, l, a, b);
      WakeWaiterAhead(Deposit(k, q, item, front), Receivers(q), l, a, b);
    }
  }

  lemma LaterAhead(k: State, tick: nat, l: ListId, a: nat, b: nat)
    requires Ahead(k, l, a, b)
    ensures Ahead(k.(tick := tick), l, a, b)
  {
    SameListAhead(k, k.(tick := tick), l, a, b);
  }

  lemma TickAhead(k: State, l: ListId, a: nat, b: nat)
    requires Placed(k) && PriosOk(k) && BeforeWake(k.(tick := k.tick + 1)) && l.IsEvent() && Ahead(k, l, a, b)
    ensures StillAhead(Tick(k), l, a, b)
  {
    hide BeforeWake, Ahead, StillAhead, Placed, PriosOk;
    LaterAhead(k, k.tick + 1, l, a, b);
    WakeSleepersAhead(k.(tick := k.tick + 1), l, a, b);
  }

  /** The steps that do not touch event lists. */
  lemma SameEventLists(k: State, step: Step, l: ListId)
    requires Inv(k) && Enabled(k, step) && l.IsEvent() && l in k.lists
    requires step.Create? || step.Start? || step.DelayFor? || step.SwitchContext? || step.CreateQueue?
             || step.CreateCounting?
             || step.SetInheritance? || (step.CreateMutex? && !step.memory)
    ensures var k' := Apply(k, step); l in k'.lists && k'.lists[l] == k.lists[l]
  {
    hide Placed, TasksOk, QueuesOk, BoostsOk, IdleOk, Sorted, CurrentOk;
    InvBasics(k);
    NotNew(k, l);
    if step.DelayFor? { CallerReady(k); }
    if step.SwitchContext? { IdleReady(k); }
  }

  lemma NotNew(k: State, l: ListId)
    requires Placed(k) && l in k.lists
    ensures l != Senders(|k.queues|) && l != Receivers(|k.queues|)
  {
    assert ListExists(k, l);
  }

  lemma OtherStepAhead(k: State, step: Step, l: ListId, a: nat, b: nat)
    requires Inv(k) && Enabled(k, step) && l.IsEvent() && Ahead(k, l, a, b)
    requires step.Create? || step.Start? || step.DelayFor? || step.SwitchContext? || step.CreateQueue?
             || step.CreateCounting? || step.CreateMutex? || step.SetInheritance?
    ensures StillAhead(Apply(k, step), l, a, b)
  {
    if step.CreateMutex? && step.memory {
      MutexAhead(k, l);
    } else {
      SameEventLists(k, step, l);
    }
    hide Inv, Enabled, Apply;
    var k' := Apply(k, step);
    assert l in k'.lists && k'.lists[l] == k.lists[l];
  }

  lemma MutexAhead(k: State, l: ListId)
    requires Inv(k) && l.IsEvent() && l in k.lists
    ensures var k' := Apply(k, CreateMutex(true)); l in k'.lists && k'.lists[l] == k.lists[l]
  {
    InvBasics(k);
    MutexStartsAvailable(k);
    hide TasksOk, QueuesOk, BoostsOk, IdleOk, Sorted, CurrentOk;
  }

  lemma AheadStep(k: State, step: Step, l: ListId, a: nat, b: nat)
    requires Inv(k) && Enabled(k, step) && l.IsEvent() && Ahead(k, l, a, b)
    requires a < |k.tasks| && (b < |k.tasks| ==> k.tasks[b].base <= k.tasks[a].base < MaxPriorities)
    ensures StillAhead(Apply(k, step), l, a, b)
  {
    InvBasics(k);
    match step
    case TrySend(q, item, front) => SendAhead(k, q, item, front, l, a, b);
    case BlockToSend(q, wait) =>
      CallerReady(k);
      BlockAhead(k, k.current.value, Senders(q), wait, l, a, b);
    case TryReceive(q) => if k.queues[q].contents != [] { ReceiveAhead(k, q, l, a, b); }
    case BlockToReceive(q, wait) => BlockToReceiveAhead(k, q, wait, l, a, b);
    case TickInterrupt => TickBegins(k); TickAhead(k, l, a, b);
    case _ => OtherStepAhead(k, step, l, a, b);
  }

  lemma WaitingIndices(k: State, l: ListId, a: nat)
    requires Inv(k) && l in k.lists && a in k.lists[l].items
    ensures a < |k.tasks| && k.tasks[a].base < MaxPriorities
  {
    assert In(k, a, l);
    assert TaskOk(k.tasks[a], k.top, k.tick);
  }

  /** Over any run: as long as a keeps waiting on an event list, no task of lower
      or equal creation-time priority that came later gets in front of it. The
      woken task being the head, equals are served first come, first served. */
  lemma {:induction false} FirstComeFirstServed(trace: seq<State>, steps: seq<Step>, j: nat, l: ListId, a: nat, b: nat)
    requires IsRun(trace, steps) && Inv(trace[0]) && j < |trace| && l.IsEvent()
    requires forall m :: 0 <= m <= j ==> l in trace[m].lists && a in trace[m].lists[l].items
    requires b !in trace[0].lists[l].items
    requires forall m :: 0 <= m <= j && a < |trace[m].tasks| && b < |trace[m].tasks| ==>
               trace[m].tasks[b].base <= trace[m].tasks[a].base
    ensures Ahead(trace[j], l, a, b)
  {
    if j > 0 {
      FirstComeFirstServed(trace, steps, j - 1, l, a, b);
      RunKeepsInv(trace, steps, j - 1);
      assert StepTo(trace[j - 1], steps[j - 1], trace[j]);
      WaitingIndices(trace[j - 1], l, a);
      AheadStep(trace[j - 1], steps[j - 1], l, a, b);
    }
  }

  /** The head of an event list has the greatest creation-time priority there. */
  lemma HeadIsHighest(k: State, l: ListId, u: nat)
    requires Inv(k) && l in k.lists && l.IsEvent() && u in k.lists[l].items
    ensures var t := k.lists[l].items[0];
            u < |k.tasks| && t < |k.tasks| && k.tasks[u].base <= k.tasks[t].base
  {
    assert ListSorted(k, l);
    WaitingIndices(k, l, u);
    assert k.lists[l].items[0] in k.lists[l].items;
    WaitingIndices(k, l, k.lists[l].items[0]);
    var i :| 0 <= i < |k.lists[l].items| && k.lists[l].items[i] == u;
  }
}
