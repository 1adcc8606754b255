/** The kernel as a state machine over its atomic steps, and the invariant that
    every interleaving of them keeps. */
module KernelInvariant {
  import opened Common
  import opened Rings
  import opened KernelState

  // ----- The invariant ------------------------------------------------------

  /** A task is ready at its own priority and waits for nothing, or sleeps until
      a tick that is still to come, or is suspended on some event list. */
  ghost predicate TaskOk(task: Task, top: nat, tick: int) {
    && task.base <= task.prio < MaxPriorities
    && (|| (task.home == Some(Ready(task.prio)) && task.prio <= top && task.wait == None)
        || (task.home == Some(Delayed) && tick < task.value <= MaxDelay)
        || (task.home == Some(Suspended) && task.wait.Some?))
  }

  ghost predicate TasksOk(k: State, tick: int) {
    forall t :: 0 <= t < |k.tasks| ==> TaskOk(k.tasks[t], k.top, tick)
  }

  /** The delayed list and the event lists are in key order. */
  ghost predicate Sorted(k: State) {
    forall l {:trigger ListSorted(k, l)} :: l in k.lists && (l.IsEvent() || l == Delayed) ==> ListSorted(k, l)
  }

  ghost predicate ListSorted(k: State, l: ListId)
    requires l in k.lists
  {
    KeysSorted(k.tasks, k.lists[l].items, l)
  }

  ghost predicate KeysSorted(tasks: seq<Task>, items: seq<nat>, l: ListId) {
    && Indices(items, tasks)
    && (forall i :: 0 <= i < |items| ==> tasks[items[i]].Key(l) <= MaxDelay)
    && (forall i, j :: 0 <= i < j < |items| ==> tasks[items[i]].Key(l) <= tasks[items[j]].Key(l))
  }

  /** A mutex is a one-slot queue of empty items; a held one is not available. */
  ghost predicate QueueOk(queue: Queue, tasks: nat) {
    && 0 < queue.length && |queue.contents| <= queue.length
    && (forall i :: 0 <= i < |queue.contents| ==> |queue.contents[i]| == queue.itemSize)
    && (queue.mutex ==> queue.length == 1 && queue.itemSize == 0 && (queue.holder.Some? ==> queue.contents == []))
    && (!queue.mutex ==> queue.holder == None)
    && (queue.holder.Some? ==> queue.holder.value < tasks)
  }

  ghost predicate QueuesOk(k: State) {
    forall q :: 0 <= q < |k.queues| ==> QueueOk(k.queues[q], |k.tasks|)
  }

  ghost predicate Holds(k: State, t: nat) {
    exists q :: 0 <= q < |k.queues| && k.queues[q].holder == Some(t)
  }

  /** Only mutex holders run above their base priority. */
  ghost predicate BoostsOk(k: State) {
    forall t :: 0 <= t < |k.tasks| && k.tasks[t].prio != k.tasks[t].base ==> Holds(k, t)
  }

  /** The idle task is always ready, at priority 0. */
  ghost predicate IdleOk(k: State) {
    k.idle.Some? ==>
      && k.idle.value < |k.tasks|
      && k.tasks[k.idle.value].base == 0
      && k.tasks[k.idle.value].home == Some(Ready(0))
      && !Holds(k, k.idle.value)
  }

  /** Unless it has just blocked itself, the running task is ready; and there is
      one as soon as there is any task. */
  ghost predicate CurrentOk(k: State) {
    && (k.current.Some? ==>
          && k.current.value < |k.tasks|
          && (!k.yielding ==> k.tasks[k.current.value].home == Some(Ready(k.tasks[k.current.value].prio))))
    && (k.current == None ==> k.tasks == [] && k.idle == None)
  }

  ghost predicate Inv(k: State) {
    && Placed(k) && TasksOk(k, k.tick) && Sorted(k) && QueuesOk(k) && BoostsOk(k)
    && IdleOk(k) && CurrentOk(k) && k.top < MaxPriorities && k.tick <= MaxDelay
  }

  // ----- Key order under the list operations --------------------------------

  /** Changing the record of a task that is not in the list, or changing it
      without touching its key, keeps the list sorted. */
  lemma OtherTaskKeepsOrder(tasks: seq<Task>, items: seq<nat>, l: ListId, t: nat, task: Task)
    requires t < |tasks| && KeysSorted(tasks, items, l)
    requires t !in items || task.Key(l) == tasks[t].Key(l)
    ensures KeysSorted(tasks[t := task], items, l)
  {
    assert forall i :: 0 <= i < |items| ==> items[i] in items;
  }

  lemma CutKeepsOrder(tasks: seq<Task>, r: Ring<nat>, l: ListId, j: nat)
    requires r.cursor <= |r.items| && j < |r.items| && KeysSorted(tasks, r.items, l)
    ensures KeysSorted(tasks, RemoveAt(r, j).items, l)
  {
  }

  lemma KeysOfInsert(tasks: seq<Task>, r: Ring<nat>, l: ListId, t: nat, at: nat)
    requires r.cursor <= |r.items| && Indices(r.items, tasks) && t < |tasks| && at <= |r.items|
    ensures Indices(InsertAt(r, at, t).items, tasks)
    ensures var keys := Keys(tasks, r.items, l);
            Keys(tasks, InsertAt(r, at, t).items, l) == keys[..at] + [tasks[t].Key(l)] + keys[at..]
  {
  }

  lemma SortedByKeys(tasks: seq<Task>, items: seq<nat>, l: ListId)
    requires Indices(items, tasks)
    ensures KeysSorted(tasks, items, l) <==>
            && Ascending(Keys(tasks, items, l))
            && forall i :: 0 <= i < |items| ==> Keys(tasks, items, l)[i] <= MaxDelay
  {
    var keys := Keys(tasks, items, l);
    assert forall i :: 0 <= i < |items| ==> keys[i] == tasks[items[i]].Key(l);
  }

  lemma InsertKeepsOrder(tasks: seq<Task>, r: Ring<nat>, l: ListId, t: nat)
    requires r.cursor <= |r.items| && KeysSorted(tasks, r.items, l)
    requires t < |tasks| && tasks[t].Key(l) <= MaxDelay
    ensures KeysSorted(tasks, InsertAt(r, InsertionPoint(Keys(tasks, r.items, l), tasks[t].Key(l)), t).items, l)
  {
    var keys, v := Keys(tasks, r.items, l), tasks[t].Key(l);
    var at := InsertionPoint(keys, v);
    SortedByKeys(tasks, r.items, l);
    InsertionKeepsOrder(keys, v);
    KeysOfInsert(tasks, r, l, t, at);
    SortedByKeys(tasks, InsertAt(r, at, t).items, l);
  }

  /** Only list l changed, only task t's record changed and not in its keys. */
  lemma OneListKeepsOrder(k: State, k': State, t: nat, l: ListId)
    requires Placed(k) && Sorted(k) && Placed(k') && k'.queues == k.queues
    requires t < |k.tasks| == |k'.tasks| && k'.tasks == k.tasks[t := k'.tasks[t]]
    requires k'.tasks[t].base == k.tasks[t].base
    requires k'.tasks[t].value == k.tasks[t].value || k.tasks[t].home == None
    requires forall m :: m in k.lists && m != l ==> k'.lists[m] == k.lists[m]
    requires l in k.lists && (l.IsEvent() || l == Delayed) ==> ListSorted(k', l)
    ensures Sorted(k')
  {
    forall m | m in k'.lists && (m.IsEvent() || m == Delayed) ensures ListSorted(k', m) {
      if m != l {
        assert ListSorted(k, m);
        OtherTaskKeepsOrder(k.tasks, k.lists[m].items, m, t, k'.tasks[t]);
      }
    }
  }

  lemma DetachKeepsOrder(k: State, t: nat, l: ListId)
    requires Placed(k) && Sorted(k) && l in k.lists && In(k, t, l)
    ensures Sorted(Detach(k, t, l))
  {
    var k' := Detach(k, t, l);
    if l.IsEvent() || l == Delayed {
      assert ListSorted(k, l);
      CutKeepsOrder(k.tasks, k.lists[l], l, IndexOf(k.lists[l].items, t));
      OtherTaskKeepsOrder(k.tasks, k'.lists[l].items, l, t, k'.tasks[t]);
    }
    OneListKeepsOrder(k, k', t, l);
  }

  lemma AttachEndKeepsOrder(k: State, t: nat, l: ListId)
    requires Placed(k) && Sorted(k) && l in k.lists && t < |k.tasks| && k.tasks[t].Container(l) == None
    requires !l.IsEvent() && l != Delayed
    ensures Sorted(AttachEnd(k, t, l))
  {
    OneListKeepsOrder(k, AttachEnd(k, t, l), t, l);
  }

  lemma AttachSortedKeepsOrder(k: State, t: nat, l: ListId)
    requires Placed(k) && Sorted(k) && l in k.lists && t < |k.tasks| && k.tasks[t].Container(l) == None
    requires l.IsEvent() || l == Delayed
    requires k.tasks[t].Key(l) <= MaxDelay
    ensures Sorted(AttachSorted(k, t, l))
  {
    var k' := AttachSorted(k, t, l);
    assert ListSorted(k, l);
    InsertKeepsOrder(k.tasks, k.lists[l], l, t);
    OtherTaskKeepsOrder(k.tasks, k'.lists[l].items, l, t, k'.tasks[t]);
    OneListKeepsOrder(k, k', t, l);
  }

  lemma SetValueKeepsOrder(k: State, t: nat, v: nat)
    requires Placed(k) && Sorted(k) && t < |k.tasks| && k.tasks[t].home == None
    ensures Sorted(SetValue(k, t, v))
  {
    OneListKeepsOrder(k, SetValue(k, t, v), t, Suspended);
  }

  lemma SetPrioKeepsOrder(k: State, t: nat, p: nat)
    requires Placed(k) && Sorted(k) && t < |k.tasks|
    ensures Sorted(SetPrio(k, t, p))
  {
    OneListKeepsOrder(k, SetPrio(k, t, p), t, Suspended);
  }

  lemma SameTasksKeepOrder(k: State, k': State)
    requires Sorted(k) && k'.tasks == k.tasks && k'.lists == k.lists
    ensures Sorted(k')
  {
    forall l | l in k'.lists && (l.IsEvent() || l == Delayed) ensures ListSorted(k', l) {
      assert ListSorted(k, l);
    }
  }

  // ----- What each building block does to the tasks -------------------------

  ghost predicate OthersOk(k: State, t: nat, tick: int) {
    forall u :: 0 <= u < |k.tasks| && u != t ==> TaskOk(k.tasks[u], k.top, tick)
  }

  /** k' differs from k in the record of task t, and in lists and top only. */
  ghost predicate OnlyTask(k: State, k': State, t: nat, task: Task) {
    && t < |k.tasks|
    && k' == k.(tasks := k.tasks[t := task], lists := k'.lists, top := k'.top)
  }

  lemma OnlyTaskTwice(k: State, k1: State, k2: State, t: nat, a: Task, b: Task)
    requires OnlyTask(k, k1, t, a) && OnlyTask(k1, k2, t, b)
    ensures OnlyTask(k, k2, t, b)
  {
    assert k.tasks[t := a][t := b] == k.tasks[t := b];
  }

  lemma OneTaskOk(k: State, k': State, t: nat, task: Task, tick: int)
    requires OnlyTask(k, k', t, task) && OthersOk(k, t, tick) && k.top <= k'.top
    requires TaskOk(task, k'.top, tick)
    ensures TasksOk(k', tick)
  {
  }

  lemma AddReadyOk(k: State, t: nat, tick: int)
    requires Placed(k) && PriosOk(k) && Sorted(k) && OthersOk(k, t, tick) && k.top < MaxPriorities
    requires t < |k.tasks| && k.tasks[t].home == None && k.tasks[t].wait == None
    ensures var k' := AddReady(k, t);
            var p := k.tasks[t].prio;
            && TasksOk(k', tick) && Sorted(k') && k'.top < MaxPriorities
            && OnlyTask(k, k', t, k.tasks[t].(value := p, home := Some(Ready(p))))
  {
    hide Placed, ListSorted;
    var p := k.tasks[t].prio;
    var k1 := k.(top := if p > k.top then p else k.top);
    SameTasksKeepOrder(k, k1);
    SameStructure(k, k1);
    FixedLists(k1);
    SetValueKeepsOrder(k1, t, p);
    AttachEndKeepsOrder(SetValue(k1, t, p), t, Ready(p));
  }

  lemma ReprioritiseOk(k: State, t: nat, p: nat)
    requires Placed(k) && Sorted(k) && TasksOk(k, k.tick) && k.top < MaxPriorities && PriosOk(k)
    requires t < |k.tasks| && k.tasks[t].base <= p < MaxPriorities
    ensures var k' := Reprioritise(k, t, p);
            && TasksOk(k', k'.tick) && Sorted(k') && k'.top < MaxPriorities
            && OnlyTask(k, k', t, k'.tasks[t])
            && k'.tasks[t].prio == p && k'.tasks[t].base == k.tasks[t].base
            && k'.tasks[t].wait == k.tasks[t].wait
            && (k.tasks[t].home == Some(Ready(k.tasks[t].prio)) ==> k'.tasks[t].home == Some(Ready(p)))
            && (k.tasks[t].home != Some(Ready(k.tasks[t].prio)) ==> k'.tasks[t] == k.tasks[t].(prio := p))
  {
    hide Placed, ListSorted;
    var l := Ready(k.tasks[t].prio);
    IsInContainers(k, t);
    if k.tasks[t].home == Some(l) {
      var k1 := Detach(k, t, l);
      DetachKeepsOrder(k, t, l);
      SetPrioKeepsOrder(k1, t, p);
      AddReadyOk(SetPrio(k1, t, p), t, k.tick);
    } else {
      SetPrioKeepsOrder(k, t, p);
    }
  }

  lemma DelayUntilKeepsOrder(k: State, t: nat, wake: nat)
    requires Placed(k) && PriosOk(k) && Sorted(k)
    requires t < |k.tasks| && k.tasks[t].home == None && wake <= MaxDelay
    ensures Sorted(DelayUntil(k, t, wake))
  {
    SetValueKeepsOrder(k, t, wake);
    AttachSortedKeepsOrder(SetValue(k, t, wake), t, Delayed);
  }

  lemma EnlistOk(k: State, t: nat, l: ListId)
    requires Placed(k) && PriosOk(k) && l in k.lists && l.IsEvent()
    requires t < |k.tasks| && k.tasks[t].home.Some? && k.tasks[t].wait == None
    ensures OnlyTask(k, Enlist(k, t, l), t, k.tasks[t].(home := None, wait := Some(l)))
    ensures Enlist(k, t, l).top == k.top
    ensures Sorted(k) ==> Sorted(Enlist(k, t, l))
  {
    if Sorted(k) {
      DetachKeepsOrder(k, t, k.tasks[t].home.value);
      AttachSortedKeepsOrder(Detach(k, t, k.tasks[t].home.value), t, l);
    }
  }

  lemma ParkOk(k: State, t: nat, wait: nat)
    requires Placed(k) && PriosOk(k) && t < |k.tasks| && k.tasks[t].home == None
    requires wait == MaxDelay || k.tick + wait <= MaxDelay
    ensures OnlyTask(k, Park(k, t, wait), t,
                     if wait == MaxDelay then k.tasks[t].(home := Some(Suspended))
                     else k.tasks[t].(value := k.tick + wait, home := Some(Delayed)))
    ensures Park(k, t, wait).top == k.top
    ensures Sorted(k) ==> Sorted(Park(k, t, wait))
  {
    hide Placed, PriosOk, ListSorted;
    FixedLists(k);
    if Sorted(k) {
      if wait == MaxDelay { AttachEndKeepsOrder(k, t, Suspended); }
      else { DelayUntilKeepsOrder(k, t, k.tick + wait); }
    }
  }

  /** The record of a task that blocked itself on event list l. */
  function Blocked(task: Task, l: ListId, tick: nat, wait: nat): Task {
    if wait == MaxDelay then task.(home := Some(Suspended), wait := Some(l))
    else task.(value := tick + wait, home := Some(Delayed), wait := Some(l))
  }

  lemma BlockOk(k: State, t: nat, l: ListId, wait: nat)
    requires Placed(k) && PriosOk(k) && Sorted(k) && TasksOk(k, k.tick) && l in k.lists && l.IsEvent()
    requires t < |k.tasks| && k.tasks[t].home == Some(Ready(k.tasks[t].prio))
    requires wait == MaxDelay || (0 < wait && k.tick + wait <= MaxDelay)
    ensures var k' := Block(k, t, l, wait);
            && TasksOk(k', k'.tick) && Sorted(k') && k'.top == k.top
            && OnlyTask(k, k', t, Blocked(k.tasks[t], l, k.tick, wait))
  {
    hide Placed, ListSorted, Enlist, Park;
    var k1, k2 := Enlist(k, t, l), Block(k, t, l, wait);
    EnlistOk(k, t, l);
    ParkOk(k1, t, wait);
    OnlyTaskTwice(k, k1, k2, t, k1.tasks[t], Blocked(k.tasks[t], l, k.tick, wait));
    OneTaskOk(k, k2, t, Blocked(k.tasks[t], l, k.tick, wait), k.tick);
  }

  lemma SleepKeepsOrder(k: State, t: nat, ticks: nat)
    requires Placed(k) && PriosOk(k) && Sorted(k)
    requires t < |k.tasks| && k.tasks[t].home.Some? && k.tick + ticks <= MaxDelay
    ensures Sorted(Sleep(k, t, ticks))
  {
    DetachKeepsOrder(k, t, k.tasks[t].home.value);
    DelayUntilKeepsOrder(Detach(k, t, k.tasks[t].home.value), t, k.tick + ticks);
  }

  lemma SleepOk(k: State, t: nat, ticks: nat)
    requires Placed(k) && PriosOk(k) && TasksOk(k, k.tick)
    requires t < |k.tasks| && k.tasks[t].home.Some?
    requires 0 < ticks && k.tick + ticks <= MaxDelay
    ensures var k' := Sleep(k, t, ticks);
            && TasksOk(k', k'.tick) && k'.top == k.top
            && OnlyTask(k, k', t, k.tasks[t].(value := k.tick + ticks, home := Some(Delayed)))
  {
    hide Placed, ListSorted;
    IsInContainers(k, t);
    FixedLists(Detach(k, t, k.tasks[t].home.value));
  }

  lemma WakeWaiterOk(k: State, l: ListId)
    requires Placed(k) && PriosOk(k) && Homed(k) && Sorted(k) && TasksOk(k, k.tick) && k.top < MaxPriorities
    requires l in k.lists && l.IsEvent()
    ensures var k' := WakeWaiter(k, l);
            && TasksOk(k', k'.tick) && Sorted(k') && k'.top < MaxPriorities
            && (k.lists[l].items == [] ==> k' == k)
            && (k.lists[l].items != [] ==>
                  var t := k.lists[l].items[0];
                  && In(k, t, l)
                  && OnlyTask(k, k', t, Awake(k.tasks[t])))
  {
    hide Placed, ListSorted;
    if k.lists[l].items != [] {
      var t := k.lists[l].items[0];
      HeadIsIn(k, l);
      DetachKeepsOrder(k, t, l);
      var k1 := Detach(k, t, l);
      IsInContainers(k1, t);
      DetachKeepsOrder(k1, t, k1.tasks[t].home.value);
      AddReadyOk(Detach(k1, t, k1.tasks[t].home.value), t, k.tick);
    }
  }

  /** The record of a task that was put back on its ready list. */
  function Awake(task: Task): Task {
    task.(value := task.prio, home := Some(Ready(task.prio)), wait := None)
  }

  lemma WakeSleeperOk(k: State, t: nat, tick: int)
    requires Placed(k) && PriosOk(k) && Sorted(k) && OthersOk(k, t, tick) && k.top < MaxPriorities
    requires In(k, t, Delayed)
    ensures var k' := WakeSleeper(k, t);
            && TasksOk(k', tick) && Sorted(k') && k'.top < MaxPriorities
            && OnlyTask(k, k', t, Awake(k.tasks[t]))
  {
    hide Placed, ListSorted;
    FixedLists(k);
    var k1 := Detach(k, t, Delayed);
    DetachKeepsOrder(k, t, Delayed);
    IsInContainers(k1, t);
    if k1.tasks[t].wait.Some? {
      DetachKeepsOrder(k1, t, k1.tasks[t].wait.value);
      AddReadyOk(Detach(k1, t, k1.tasks[t].wait.value), t, tick);
    } else {
      AddReadyOk(k1, t, tick);
    }
  }
}
