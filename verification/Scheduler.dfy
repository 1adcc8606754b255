/** kernel/tasks.c on objects: task control blocks whose two list items hang in the
    kernel's lists. Every method is proved against the function of KernelState that
    models it. */
module Scheduler {
  import opened Common
  import opened Rings
  import opened Lists
  import opened KernelState

  class TCB {
    const state: ListItem
    const event: ListItem
    var prio: nat
    var base: nat

    /** The part of xTaskCreate that fills in the control block of task t. */
    constructor (p: nat, t: nat)
      requires p <= MaxPriorities
      ensures fresh(state) && fresh(event) && state.kind.StateItem? && event.kind.EventItem?
      ensures prio == p && base == p && state.owner == t && event.owner == t
      ensures state.container == null && event.container == null
      ensures state.value == 0 && event.value == MaxPriorities - p
    {
      state := new ListItem(StateItem);
      event := new ListItem(EventItem);
      prio, base := p, p;
      new;
      state.owner, event.owner := t, t;
      event.value := MaxPriorities - p;
    }

    /** The item that goes into event lists, or the one that goes into the others. */
    function Node(e: bool): ListItem {
      if e then event else state
    }
  }

  /** The nodes of a list are the items of these tasks. */
  ghost predicate Mapped(nodes: seq<ListItem>, items: seq<nat>, tasks: seq<TCB>, e: bool) {
    && |nodes| == |items|
    && forall i :: 0 <= i < |items| ==> items[i] < |tasks| && nodes[i] == tasks[items[i]].Node(e)
  }

  /** These nodes and this cursor are what the model's ring says. */
  ghost predicate Shows(end: ListItem, nodes: seq<ListItem>, cursor: nat, ring: Ring<nat>, tasks: seq<TCB>, e: bool,
                        repr: set<object>) {
    && end.kind.Sentinel? && end in repr && (forall n :: n in nodes ==> n in repr)
    && nodes != [] && cursor == ring.cursor && Mapped(nodes[1..], ring.items, tasks, e)
  }

  /** A list object holds what the model's ring says. */
  ghost predicate ListRep(list: List, ring: Ring<nat>, tasks: seq<TCB>, e: bool, repr: set<object>)
    reads repr
  {
    list in repr && Shows(list.end, list.nodes, list.cursor, ring, tasks, e, repr) && list.Valid()
  }

  /** The head waiter of l has a higher priority than the running task. */
  ghost predicate Outranked(k: State, l: ListId)
    requires l in k.lists && (k.lists[l].items != [] ==> k.current.Some? && k.current.value < |k.tasks|)
  {
    var items := k.lists[l].items;
    items != [] && items[0] < |k.tasks| && k.tasks[items[0]].prio > k.tasks[k.current.value].prio
  }

  /** The list a container pointer of the model stands for. */
  function Ptr(lists: map<ListId, List>, l: Option<ListId>): List? {
    if l.Some? && l.value in lists then lists[l.value] else null
  }

  ghost function States(tcbs: seq<TCB>): set<ListItem> {
    set tcb | tcb in tcbs :: tcb.state
  }

  ghost function Events(tcbs: seq<TCB>): set<ListItem> {
    set tcb | tcb in tcbs :: tcb.event
  }

  /** The control blocks hold the model's priorities and keys. */
  ghost predicate TasksAre(tcbs: seq<TCB>, tasks: seq<Task>)
    reads tcbs`prio, tcbs`base, States(tcbs)`owner, States(tcbs)`value, Events(tcbs)`owner, Events(tcbs)`value
  {
    && |tcbs| == |tasks|
    && forall t {:trigger tcbs[t]} :: 0 <= t < |tcbs| ==>
         && tcbs[t].prio == tasks[t].prio && tcbs[t].base == tasks[t].base
         && tcbs[t].state.kind.StateItem? && tcbs[t].event.kind.EventItem?
         && tcbs[t].state.owner == t && tcbs[t].event.owner == t
         && tcbs[t].state.value == tasks[t].value && tcbs[t].event.value == tasks[t].Key(Senders(0))
  }

  /** The container pointers of their items are the model's. */
  ghost predicate Contained(tcbs: seq<TCB>, tasks: seq<Task>, lists: map<ListId, List>)
    reads States(tcbs)`container, Events(tcbs)`container
  {
    && |tcbs| == |tasks|
    && forall t {:trigger tcbs[t]} :: 0 <= t < |tcbs| ==>
         tcbs[t].state.container == Ptr(lists, tasks[t].home) && tcbs[t].event.container == Ptr(lists, tasks[t].wait)
  }

  ghost predicate Owned(tcbs: seq<TCB>, repr: set<object>) {
    forall t {:trigger tcbs[t]} :: 0 <= t < |tcbs| ==> tcbs[t] in repr && tcbs[t].state in repr && tcbs[t].event in repr
  }

  ghost predicate ListsRep(lists: map<ListId, List>, rings: map<ListId, Ring<nat>>, tasks: seq<TCB>, repr: set<object>)
    reads repr
  {
    && lists.Keys == rings.Keys
    && (forall l, m :: l in lists && m in lists && l != m ==> lists[l] != lists[m] && lists[l].end != lists[m].end)
    && (forall l :: l in lists ==> ListRep(lists[l], rings[l], tasks, l.IsEvent(), repr))
  }

  // ----- Rings of nodes and rings of tasks ---------------------------------

  /** Different tasks have different items. */
  ghost predicate Separate(tasks: seq<TCB>, e: bool) {
    forall t, u :: 0 <= t < u < |tasks| ==> tasks[t].Node(e) != tasks[u].Node(e)
  }

  lemma {:induction false} MappedIndex(nodes: seq<ListItem>, items: seq<nat>, tasks: seq<TCB>, e: bool, t: nat)
    requires Mapped(nodes, items, tasks, e) && Separate(tasks, e) && t < |tasks|
    ensures tasks[t].Node(e) in nodes <==> t in items
    ensures t in items ==> IndexOf(nodes, tasks[t].Node(e)) == IndexOf(items, t)
  {
    if items != [] {
      MappedIndex(nodes[1..], items[1..], tasks, e, t);
      assert nodes == [nodes[0]] + nodes[1..] && items == [items[0]] + items[1..];
    }
  }

  lemma MappedRemove(r: Ring<ListItem>, s: Ring<nat>, tasks: seq<TCB>, e: bool, t: nat)
    requires Mapped(r.items, s.items, tasks, e) && r.cursor == s.cursor && Separate(tasks, e)
    requires t < |tasks| && t in s.items && r.WellFormed() && s.WellFormed()
    ensures tasks[t].Node(e) in r.items
    ensures var r', s' := Remove(r, tasks[t].Node(e)), Remove(s, t);
            r'.cursor == s'.cursor && Mapped(r'.items, s'.items, tasks, e)
  {
    MappedIndex(r.items, s.items, tasks, e, t);
  }

  lemma MappedEndInsert(r: Ring<ListItem>, s: Ring<nat>, tasks: seq<TCB>, e: bool, t: nat)
    requires Mapped(r.items, s.items, tasks, e) && r.cursor == s.cursor && t < |tasks|
    requires r.cursor <= |r.items|
    ensures var r', s' := EndInsert(r, tasks[t].Node(e)), EndInsert(s, t);
            r'.cursor == s'.cursor && Mapped(r'.items, s'.items, tasks, e)
  {
    var at := if r.cursor == 0 then |r.items| else r.cursor - 1;
    MappedInsertAt(r, s, tasks, e, at, t);
  }

  lemma MappedInsertAt(r: Ring<ListItem>, s: Ring<nat>, tasks: seq<TCB>, e: bool, at: nat, t: nat)
    requires Mapped(r.items, s.items, tasks, e) && r.cursor == s.cursor && t < |tasks|
    requires r.cursor <= |r.items| && at <= |r.items|
    ensures var r', s' := InsertAt(r, at, tasks[t].Node(e)), InsertAt(s, at, t);
            r'.cursor == s'.cursor && Mapped(r'.items, s'.items, tasks, e)
  {
  }

  lemma TasksSeparate(tcbs: seq<TCB>, tasks: seq<Task>, e: bool)
    requires TasksAre(tcbs, tasks)
    ensures Separate(tcbs, e)
  {
    forall t, u | 0 <= t < u < |tcbs| ensures tcbs[t].Node(e) != tcbs[u].Node(e) {
      assert tcbs[t].state.owner == t && tcbs[u].state.owner == u;
    }
  }

  /** No node of one list is a node of another. */
  lemma NodesApart(a: List, b: List)
    requires a.Valid() && b.Valid() && a != b && a.end != b.end
    ensures forall n :: n in a.nodes ==> n !in b.nodes
  {
    forall i, j | 0 <= i < |a.nodes| && 0 <= j < |b.nodes| ensures a.nodes[i] != b.nodes[j] {
      assert i > 0 ==> a.nodes[i].container == a;
      assert j > 0 ==> b.nodes[j].container == b;
    }
  }

  lemma RingOf(list: List)
    requires list.Valid()
    ensures list.View().WellFormed()
  {
  }

  class Kernel {
    var tasks: seq<TCB>
    var lists: map<ListId, List>
    var top: nat
    var tick: nat
    var current: Option<nat>
    var inherit: bool
    ghost var k: State
    ghost var repr: set<object>

    ghost predicate Valid()
      reads this, repr
    {
      && this !in repr && Placed(k) && PriosOk(k)
      && top == k.top && tick == k.tick && current == k.current && inherit == k.inherit
      && Owned(tasks, repr) && TasksAre(tasks, k.tasks) && Contained(tasks, k.tasks, lists)
      && ListsRep(lists, k.lists, tasks, repr)
    }

    /** uxListRemove on an item of task t. */
    method RemoveItem(item: ListItem, ghost t: nat, ghost l: ListId)
      requires Valid() && l in k.lists && In(k, t, l) && t < |tasks| && item == tasks[t].Node(l.IsEvent())
      modifies this`k, repr
      ensures Valid() && k == Detach(old(k), t, l)
    {
      hide Placed, PriosOk, Remove, ListsRep, TasksAre, Contained;
      Detachable(k, t, l);
      ListInRepr(lists, k.lists, tasks, repr, l);
      DetachItem(item, lists[l], lists, k.lists, tasks, repr, k.tasks, t, l);
      k := Detach(k, t, l);
    }

    /** vListInsertEnd of an item of task t. */
    method AppendItem(list: List, item: ListItem, ghost t: nat, ghost l: ListId)
      requires Valid() && l in k.lists && t < |tasks| && t < |k.tasks| && k.tasks[t].Container(l) == None
      requires item == tasks[t].Node(l.IsEvent()) && l in lists && list == lists[l]
      modifies this`k, repr
      ensures Valid() && k == AttachEnd(old(k), t, l)
    {
      hide Placed, PriosOk, EndInsert, ListsRep, TasksAre, Contained;
      Attachable(k, t, l);
      ListInRepr(lists, k.lists, tasks, repr, l);
      assert tasks[t].state in repr;
      AttachItem(list, item, lists, k.lists, tasks, repr, k.tasks, t, l);
      k := AttachEnd(k, t, l);
    }

    /** vListInsert of an item of task t. */
    method InsertItem(list: List, item: ListItem, ghost t: nat, ghost l: ListId)
      requires Valid() && l in k.lists && t < |tasks| && t < |k.tasks| && k.tasks[t].Container(l) == None
      requires item == tasks[t].Node(l.IsEvent()) && l in lists && list == lists[l] && k.tasks[t].Key(l) <= MaxDelay
      modifies this`k, repr
      ensures Valid() && k == AttachSorted(old(k), t, l)
    {
      hide Placed, PriosOk, InsertAt, ListsRep, InsertionPoint;
      SortedAttachable(k, t, l);
      InsertionAgrees(k, lists, tasks, repr, t, l);
      ListInRepr(lists, k.lists, tasks, repr, l);
      assert tasks[t].state in repr;
      hide TasksAre, Contained;
      ghost var at := InsertionPoint(KernelState.Keys(k.tasks, k.lists[l].items, l), k.tasks[t].Key(l));
      SortItemIn(list, item, lists, k.lists, tasks, repr, k.tasks, t, l, at);
      k := AttachSorted(k, t, l);
    }

    // ----- Reading the objects ---------------------------------------------

    /** The fields of a task are those of the model. */
    lemma TaskIs(t: nat)
      requires Valid() && t < |k.tasks|
      ensures t < |tasks| && tasks[t] in repr && tasks[t].state in repr && this !in repr
      ensures tasks[t].prio == k.tasks[t].prio && tasks[t].base == k.tasks[t].base
              && tasks[t].state.value == k.tasks[t].value
      ensures k.tasks[t].base <= k.tasks[t].prio < MaxPriorities && top == k.top && current == k.current
              && inherit == k.inherit
    {
    }

    /** The container pointers of a task are those of the model. */
    lemma ContainersAre(t: nat)
      requires Valid() && t < |k.tasks|
      ensures t < |tasks| && tasks[t].event in repr
      ensures tasks[t].event.container == null <==> k.tasks[t].wait == None
      ensures forall l :: l in lists ==> (tasks[t].state.container == lists[l] <==> k.tasks[t].home == Some(l))
    {
      assert ContainersExist(k, k.tasks[t]);
    }

    /** Where the state item of a task is. */
    lemma HomeIs(t: nat)
      requires Valid() && t < |k.tasks| && k.tasks[t].home.Some?
      ensures t < |tasks| && tick == k.tick && this !in repr
      ensures var home := k.tasks[t].home.value; home in k.lists && !home.IsEvent() && In(k, t, home)
    {
      assert ContainersExist(k, k.tasks[t]);
    }

    lemma Readies(p: nat)
      requires Valid() && p < MaxPriorities
      ensures Ready(p) in lists && Ready(p) in k.lists && Delayed in lists && Delayed in k.lists
      ensures Suspended in lists && Suspended in k.lists
    {
      assert ListExists(k, Ready(p)) && ListExists(k, Delayed) && ListExists(k, Suspended);
    }

    /** The count and the head of a list. */
    lemma HeadIs(l: ListId)
      requires Valid() && l in k.lists
      ensures l in lists && lists[l] in repr && lists[l].end in repr && lists[l].count == |k.lists[l].items|
      ensures k.lists[l].items != [] ==>
                var t := k.lists[l].items[0];
                && t < |tasks| && t < |k.tasks| && In(k, t, l)
                && lists[l].end.next == tasks[t].Node(l.IsEvent()) && tasks[t].Node(l.IsEvent()) in repr
                && tasks[t].Node(l.IsEvent()).owner == t && tasks[t].Node(l.IsEvent()).value == k.tasks[t].Key(l)
    {
      var list := lists[l];
      assert ListRep(list, k.lists[l], tasks, l.IsEvent(), repr);
      if k.lists[l].items != [] {
        var t := k.lists[l].items[0];
        assert t in k.lists[l].items;
        assert list.nodes[1..][0] == list.nodes[1] && list.nodes[0].next == list.nodes[1];
      }
    }

    // ----- Writing one field -----------------------------------------------

    method SetTop(p: nat)
      requires Valid()
      modifies this`top, this`k
      ensures Valid() && k == old(k).(top := p)
    {
      hide Placed, PriosOk, ListsRep, TasksAre, Contained, Owned;
      SameStructure(k, k.(top := p));
      top := p;
      k := k.(top := p);
    }

    method SetTick(n: nat)
      requires Valid()
      modifies this`tick, this`k
      ensures Valid() && k == old(k).(tick := n)
    {
      hide Placed, PriosOk, ListsRep, TasksAre, Contained, Owned;
      SameStructure(k, k.(tick := n));
      tick := n;
      k := k.(tick := n);
    }

    method SetCurrent(t: nat)
      requires Valid()
      modifies this`current, this`k
      ensures Valid() && k == old(k).(current := Some(t), yielding := false)
    {
      hide Placed, PriosOk, ListsRep, TasksAre, Contained, Owned;
      SameStructure(k, k.(current := Some(t), yielding := false));
      current := Some(t);
      k := k.(current := Some(t), yielding := false);
    }

    /** listSET_LIST_ITEM_VALUE on a state item that is in no list. */
    method SetValueOf(t: nat, v: nat)
      requires Valid() && t < |k.tasks| && t < |tasks| && k.tasks[t].home == None
      modifies this`k, repr
      ensures Valid() && k == SetValue(old(k), t, v)
    {
      hide Placed, PriosOk, ListsRep, TasksAre, Contained;
      ValueKeeps(k, t, v);
      assert tasks[t].state in repr;
      RewriteValue(tasks[t].state, v, lists, k.lists, tasks, repr, k.tasks, t);
      k := SetValue(k, t, v);
    }

    /** A new current priority; the base priority stays. */
    method SetPrioOf(t: nat, p: nat)
      requires Valid() && t < |k.tasks| && t < |tasks| && k.tasks[t].base <= p < MaxPriorities
      modifies this`k, repr
      ensures Valid() && k == SetPrio(old(k), t, p)
    {
      hide Placed, PriosOk, ListsRep, TasksAre, Contained;
      PrioKeeps(k, t, p);
      assert tasks[t] in repr;
      RewritePrio(tasks[t], p, lists, k.lists, tasks, repr, k.tasks, t);
      k := SetPrio(k, t, p);
    }

    // ----- kernel/tasks.c ----------------------------------------------------

    /** prvAddTaskToReadyList */
    method AddReady(t: nat)
      requires Valid() && t < |k.tasks| && k.tasks[t].home == None
      modifies this`k, this`top, repr
      ensures Valid() && k == KernelState.AddReady(old(k), t)
    {
      hide Valid, Placed, PriosOk;
      TaskIs(t);
      var p := tasks[t].prio;
      if p > top {
        SetTop(p);
      }
      SetValueOf(t, p);
      Readies(p);
      AppendItem(lists[Ready(p)], tasks[t].state, t, Ready(p));
    }

    /** prvReprioritise */
    method Reprioritise(t: nat, p: nat)
      requires Valid() && t < |k.tasks| && k.tasks[t].base <= p < MaxPriorities
      modifies this`k, this`top, repr
      ensures Valid() && k == KernelState.Reprioritise(old(k), t, p)
    {
      hide Valid, Placed, PriosOk;
      TaskIs(t);
      ContainersAre(t);
      Readies(tasks[t].prio);
      var l := Ready(tasks[t].prio);
      if tasks[t].state.container == lists[l] {
        RemoveItem(tasks[t].state, t, l);
        SetPrioOf(t, p);
        AddReady(t);
      } else {
        SetPrioOf(t, p);
      }
    }

    /** vTaskPriorityInherit */
    method PriorityInherit(holder: Option<nat>)
      requires Valid() && (holder.Some? ==> holder.value < |k.tasks|)
               && (k.current.Some? ==> k.current.value < |k.tasks|)
      modifies this`k, this`top, repr
      ensures Valid() && k == Inherit(old(k), holder)
    {
      if holder == None || current == None || !inherit {
        return;
      }
      TaskIs(holder.value);
      TaskIs(current.value);
      if tasks[holder.value].prio < tasks[current.value].prio {
        Reprioritise(holder.value, tasks[current.value].prio);
      }
    }

    /** vTaskPriorityDisinherit: the result says that a yield may be due. */
    method PriorityDisinherit(holder: Option<nat>) returns (restored: bool)
      requires Valid() && (holder.Some? ==> holder.value < |k.tasks|)
      modifies this`k, this`top, repr
      ensures Valid() && k == Disinherit(old(k), holder)
      ensures restored <==> holder.Some? && old(k).tasks[holder.value].prio != old(k).tasks[holder.value].base
    {
      if holder == None {
        return false;
      }
      TaskIs(holder.value);
      if tasks[holder.value].prio != tasks[holder.value].base {
        Reprioritise(holder.value, tasks[holder.value].base);
        return true;
      }
      return false;
    }

    /** The state item of task t, in no list, goes onto the delayed list. */
    method DelayItem(t: nat, wake: nat)
      requires Valid() && t < |k.tasks| && k.tasks[t].home == None && wake <= MaxDelay
      modifies this`k, repr
      ensures Valid() && k == DelayUntil(old(k), t, wake)
    {
      hide Valid, Placed, PriosOk;
      TaskIs(t);
      SetValueOf(t, wake);
      Readies(0);
      InsertItem(lists[Delayed], tasks[t].state, t, Delayed);
    }

    /** vTaskPlaceOnEventList for the running task t. */
    method PlaceOnEventList(l: ListId, t: nat, wait: nat)
      requires Valid() && l in k.lists && l.IsEvent() && t < |k.tasks| && k.tasks[t].home.Some?
               && k.tasks[t].wait == None
      requires wait == MaxDelay || k.tick + wait <= MaxDelay
      modifies this`k, repr
      ensures Valid() && k == Block(old(k), t, l, wait)
    {
      hide Valid, Placed, PriosOk;
      HomeIs(t);
      HeadIs(l);
      ghost var home := k.tasks[t].home.value;
      RemoveItem(tasks[t].state, t, home);
      InsertItem(lists[l], tasks[t].event, t, l);
      ParkItem(t, wait);
    }

    /** Its second half: the state item onto the suspended or the delayed list. */
    method ParkItem(t: nat, wait: nat)
      requires Valid() && t < |k.tasks| && k.tasks[t].home == None && (wait == MaxDelay || k.tick + wait <= MaxDelay)
      modifies this`k, repr
      ensures Valid() && k == Park(old(k), t, wait)
    {
      hide Valid, Placed, PriosOk;
      TaskIs(t);
      Readies(0);
      if wait == MaxDelay {
        AppendItem(lists[Suspended], tasks[t].state, t, Suspended);
      } else {
        TickIs();
        DelayItem(t, tick + wait);
      }
    }

    lemma TickIs()
      requires Valid()
      ensures tick == k.tick && this !in repr
    {
    }

    /** vTaskDelay for the running task t. */
    method Delay(t: nat, ticks: nat)
      requires Valid() && t < |k.tasks| && k.tasks[t].home.Some? && k.tick + ticks <= MaxDelay
      modifies this`k, repr
      ensures Valid() && k == if ticks > 0 then Sleep(old(k), t, ticks) else old(k)
    {
      hide Valid, Placed, PriosOk;
      if ticks > 0 {
        HomeIs(t);
        ghost var home := k.tasks[t].home.value;
        RemoveItem(tasks[t].state, t, home);
        DelayItem(t, tick + ticks);
      }
    }

    /** xTaskRemoveFromEventList: the result says that the woken task outranks the
        running one. */
    method RemoveFromEventList(l: ListId) returns (shouldYield: bool)
      requires Valid() && l in k.lists && l.IsEvent() && Homed(k)
      requires k.lists[l].items != [] ==> k.current.Some? && k.current.value < |k.tasks|
      modifies this`k, this`top, repr
      ensures Valid() && k == WakeWaiter(old(k), l)
      ensures shouldYield <==> Outranked(old(k), l)
    {
      hide Valid, Placed, PriosOk;
      HeadIs(l);
      if lists[l].count == 0 {
        return false;
      }
      TaskIs(k.current.value);
      var t := lists[l].end.next.owner;
      TaskIs(t);
      shouldYield := tasks[t].prio > tasks[current.value].prio;
      HomeIs(t);
      ghost var home := k.tasks[t].home.value;
      RemoveItem(tasks[t].event, t, l);
      HomeIs(t);
      RemoveItem(tasks[t].state, t, home);
      AddReady(t);
    }

    /** One round of the loop of xTaskIncrementTick. */
    method WakeTask(t: nat)
      requires Valid() && t < |k.tasks| && In(k, t, Delayed)
      modifies this`k, this`top, repr
      ensures Valid() && k == WakeSleeper(old(k), t)
    {
      hide Valid, Placed, PriosOk;
      TaskIs(t);
      Readies(0);
      RemoveItem(tasks[t].state, t, Delayed);
      ContainersAre(t);
      if tasks[t].event.container != null {
        ghost var l := k.tasks[t].wait.value;
        WaitIs(t);
        RemoveItem(tasks[t].event, t, l);
      }
      AddReady(t);
    }

    lemma WaitIs(t: nat)
      requires Valid() && t < |k.tasks| && k.tasks[t].wait.Some?
      ensures t < |tasks| && k.tasks[t].wait.value in k.lists && k.tasks[t].wait.value.IsEvent()
              && In(k, t, k.tasks[t].wait.value)
    {
      assert ContainersExist(k, k.tasks[t]);
    }

    /** xTaskIncrementTick */
    method IncrementTick()
      requires Valid()
      modifies this`k, this`top, this`tick, repr
      ensures Valid() && k == Tick(old(k))
    {
      hide Valid, Placed, PriosOk, WakeSleepers;
      Kept();
      SetTick(tick + 1);
      ghost var k0 := k;
      Kept();
      Readies(0);
      HeadIs(Delayed);
      while lists[Delayed].count != 0
        invariant Valid() && Placed(k) && PriosOk(k) && this !in repr
        invariant WakeSleepers(k) == WakeSleepers(k0)
        invariant Delayed in k.lists && Delayed in lists && lists[Delayed].count == |k.lists[Delayed].items|
        invariant repr == old(repr) && lists == old(lists) && tasks == old(tasks)
        decreases |k.lists[Delayed].items|
      {
        WakeSleepersStep(k);
        var woken := WakeHead();
        if !woken {
          break;
        }
        Kept();
        Readies(0);
        HeadIs(Delayed);
      }
      WakeSleepersStep(k);
    }

    /** The head of the delayed list is woken unless its time is still to come. */
    method WakeHead() returns (woken: bool)
      requires Valid() && Delayed in k.lists && k.lists[Delayed].items != []
      modifies this`k, this`top, repr
      ensures Valid() && Delayed in k.lists
      ensures var t := old(k).lists[Delayed].items[0];
              && t < |old(k).tasks| && In(old(k), t, Delayed) && (woken <==> old(k).tasks[t].value <= old(k).tick)
              && k == if woken then WakeSleeper(old(k), t) else old(k)
      ensures woken ==> |k.lists[Delayed].items| < |old(k).lists[Delayed].items|
    {
      hide Valid, Placed, PriosOk;
      Kept();
      HeadIs(Delayed);
      var item := lists[Delayed].end.next;
      if item.value > tick {
        return false;
      }
      WakeTask(item.owner);
      Readies(0);
      return true;
    }

    lemma Kept()
      requires Valid()
      ensures Placed(k) && PriosOk(k) && this !in repr && tick == k.tick && top == k.top && current == k.current
    {
    }

    /** vTaskSwitchContext */
    method SwitchContext()
      requires Valid() && k.top < MaxPriorities
               && exists p :: 0 <= p <= k.top && Ready(p) in k.lists && k.lists[Ready(p)].items != []
      modifies this`k, this`top, this`current, repr
      ensures Valid() && k == Switch(old(k))
    {
      hide Valid, Placed, PriosOk;
      Kept();
      var p := top;
      Readies(p);
      HeadIs(Ready(p));
      while lists[Ready(p)].count == 0
        invariant 0 <= p <= top && Ready(p) in lists && Ready(p) in k.lists
                  && lists[Ready(p)].count == |k.lists[Ready(p)].items|
        invariant TopReady(k, p) == TopReady(k, k.top)
        modifies {}
        decreases p
      {
        if p == 0 {
          break;
        }
        p := p - 1;
        Readies(p);
        HeadIs(Ready(p));
      }
      assert p == TopReady(k, k.top);
      TopHasReady(k);
      hide TopReady, Advance;
      SetTop(p);
      var t := NextReady(p);
      SetCurrent(t);
    }

    /** listGET_OWNER_OF_NEXT_ENTRY on the ready list of priority p. */
    method NextReady(p: nat) returns (t: nat)
      requires Valid() && p < MaxPriorities && Ready(p) in k.lists && k.lists[Ready(p)].items != []
      modifies this`k, repr
      ensures Valid() && old(k).lists[Ready(p)].cursor <= |old(k).lists[Ready(p)].items|
      ensures var ring := Advance(old(k).lists[Ready(p)]);
              && k == old(k).(lists := old(k).lists[Ready(p) := ring])
              && 0 < ring.cursor <= |ring.items| && t == Served(ring)
    {
      hide Placed, PriosOk, Advance, ListsRep;
      RingBounds(k, Ready(p));
      ListInRepr(lists, k.lists, tasks, repr, Ready(p));
      ghost var ring := Advance(k.lists[Ready(p)]);
      AdvanceKeeps(k, Ready(p));
      t := AdvanceIn(lists[Ready(p)], lists, k.lists, tasks, k.tasks, repr, Ready(p));
      hide TasksAre, Contained;
      k := k.(lists := k.lists[Ready(p) := ring]);
    }

    /** xTaskCreate: if pvPortMalloc gives it a stack and a control block, fill in
        the control block and make the task ready. */
    method CreateTask(prio: nat, memory: bool) returns (ok: bool, t: nat)
      requires Valid()
      modifies this, repr
      ensures Valid() && ok == memory && t == |old(k).tasks|
      ensures k == if memory then KernelState.CreateTask(old(k), prio) else old(k)
      ensures fresh(repr - old(repr)) && repr >= old(repr)
    {
      ok, t := memory, |tasks|;
      if !memory {
        return;
      }
      var p := if prio >= MaxPriorities then MaxPriorities - 1 else prio;
      t := AddTask(p);
      AddReady(t);
    }

    /** A control block in no list. */
    method AddTask(p: nat) returns (t: nat)
      requires Valid() && p < MaxPriorities
      modifies this
      ensures Valid() && t == |old(k).tasks| && k == NewTask(old(k), p)
      ensures fresh(repr - old(repr)) && repr >= old(repr)
    {
      hide Placed, PriosOk, ListsRep, Owned;
      NewTaskPlaced(k, p);
      t := |tasks|;
      var tcb := new TCB(p, t);
      ListsGrow(lists, k.lists, tasks, repr, tcb, repr + {tcb, tcb.state, tcb.event});
      TasksGrow(tasks, k.tasks, lists, repr, tcb, Task(p, p, 0, None, None), repr + {tcb, tcb.state, tcb.event});
      hide TasksAre, Contained;
      tasks := tasks + [tcb];
      repr := repr + {tcb, tcb.state, tcb.event};
      if current == None {
        current := Some(t);
      }
      k := NewTask(k, p);
    }

    /** prvInitialiseTaskLists */
    constructor (inherits: bool)
      ensures Valid() && fresh(repr)
      ensures k.tasks == [] && k.queues == [] && k.top == 0 && k.tick == 0 && k.current == None && k.idle == None
      ensures !k.yielding && k.inherit == inherits && AllEmpty(k.lists)
    {
      tasks, lists, top, tick, current, inherit := [], map[], 0, 0, None, inherits;
      k, repr := State([], map[], [], 0, 0, None, None, false, inherits), {};
      new;
      hide ListsRep, AllEmpty, Placed, PriosOk;
      NoLists();
      InitialiseLists();
      EmptyPlaced(k);
    }

    method InitialiseLists()
      requires lists == map[] && k.lists == map[] && tasks == [] && repr == {} && ListsRep(map[], map[], [], {})
      modifies this`lists, this`k, this`repr
      ensures fresh(repr) && this !in repr && k == old(k).(lists := k.lists)
      ensures ListsRep(lists, k.lists, [], repr) && AllEmpty(k.lists)
      ensures forall l :: l in k.lists <==> (l.Ready? && l.prio < MaxPriorities) || l == Delayed || l == Suspended
    {
      hide ListsRep, AllEmpty;
      NoneEmpty();
      for p := 0 to MaxPriorities
        invariant fresh(repr) && this !in repr && k == old(k).(lists := k.lists)
        invariant ListsRep(lists, k.lists, tasks, repr) && AllEmpty(k.lists)
        invariant forall l :: l in k.lists <==> l.Ready? && l.prio < p
      {
        EmptyAdded(k.lists, Ready(p));
        AddList(Ready(p));
      }
      EmptyAdded(k.lists, Delayed);
      AddList(Delayed);
      EmptyAdded(k.lists, Suspended);
      AddList(Suspended);
    }

    /** A new, empty list. */
    method AddList(l: ListId)
      requires ListsRep(lists, k.lists, tasks, repr) && l !in k.lists && this !in repr
      modifies this`lists, this`k, this`repr
      ensures this !in repr && fresh(repr - old(repr)) && repr >= old(repr)
      ensures k == old(k).(lists := old(k).lists[l := Ring([], 0)])
      ensures l !in old(lists) && l in lists && lists == old(lists)[l := lists[l]]
      ensures ListsRep(lists, k.lists, tasks, repr)
    {
      hide ListsRep;
      ListKeys(lists, k.lists, tasks, repr);
      var list := new List();
      ListsApart(lists, k.lists, tasks, repr, list);
      ListsAdded(lists, k.lists, tasks, repr, l, list, repr + {list, list.end});
      lists := lists[l := list];
      repr := repr + {list, list.end};
      k := k.(lists := k.lists[l := Ring([], 0)]);
    }

    /** The event lists of a new queue. */
    method AddQueueLists(n: nat, ghost queue: Queue)
      requires Valid() && n == |k.queues|
      modifies this`lists, this`k, this`repr
      ensures Valid() && k == AddQueue(old(k), queue)
      ensures fresh(repr - old(repr)) && repr >= old(repr)
    {
      hide Placed, PriosOk, ListsRep, InLists;
      ghost var before := lists;
      NewQueuePlaced(k, queue);
      SameKeys(k, lists, tasks, repr);
      AddList(Senders(n));
      AddList(Receivers(n));
      ContainedGrow(tasks, k.tasks, before, lists);
      assert TasksAre(tasks, k.tasks);
      hide Contained, TasksAre;
      k := k.(queues := k.queues + [queue]);
    }

    /** vTaskSetMutexInheritance */
    method SetInheritance(on: bool)
      requires Valid()
      modifies this`inherit, this`k
      ensures Valid() && k == old(k).(inherit := on)
    {
      hide Placed, PriosOk, ListsRep, TasksAre, Contained, Owned;
      SameStructure(k, k.(inherit := on));
      inherit := on;
      k := k.(inherit := on);
    }

    /** The running task has blocked itself; task t is the idle task. */
    ghost method Note(yielding: bool, idle: Option<nat>)
      requires Valid()
      modifies this`k
      ensures Valid() && k == old(k).(yielding := yielding, idle := idle)
    {
      hide Placed, PriosOk, ListsRep, TasksAre, Contained, Owned;
      SameStructure(k, k.(yielding := yielding, idle := idle));
      k := k.(yielding := yielding, idle := idle);
    }

    /** The model's view of a queue whose storage or holder was written. */
    ghost method NoteQueue(q: nat, queue: Queue)
      requires Valid() && q < |k.queues|
      modifies this`k
      ensures Valid() && k == SetQueue(old(k), q, queue)
    {
      hide Placed, PriosOk, ListsRep, TasksAre, Contained, Owned;
      SameStructure(k, SetQueue(k, q, queue));
      k := SetQueue(k, q, queue);
    }
  }

  // ----- Support for the methods -------------------------------------------

  lemma ValueKeeps(k: State, t: nat, v: nat)
    requires Placed(k) && PriosOk(k) && t < |k.tasks| && k.tasks[t].home == None
    ensures Placed(SetValue(k, t, v)) && PriosOk(SetValue(k, t, v))
  {
  }

  lemma PrioKeeps(k: State, t: nat, p: nat)
    requires Placed(k) && PriosOk(k) && t < |k.tasks| && k.tasks[t].base <= p < MaxPriorities
    ensures Placed(SetPrio(k, t, p)) && PriosOk(SetPrio(k, t, p))
  {
  }

  lemma NewQueuePlaced(k: State, queue: Queue)
    requires Placed(k) && PriosOk(k)
    ensures Placed(AddQueue(k, queue)) && PriosOk(AddQueue(k, queue))
    ensures Senders(|k.queues|) !in k.lists && Receivers(|k.queues|) !in k.lists
  {
  }

  /** Every container pointer of the model is that of a list. */
  lemma SameKeys(k: State, lists: map<ListId, List>, tcbs: seq<TCB>, repr: set<object>)
    requires Placed(k) && ListsRep(lists, k.lists, tcbs, repr)
    ensures lists.Keys == k.lists.Keys
    ensures forall t :: 0 <= t < |k.tasks| ==> InLists(k.tasks[t], lists)
  {
    forall t | 0 <= t < |k.tasks| ensures InLists(k.tasks[t], lists) {
      assert ContainersExist(k, k.tasks[t]);
    }
  }

  ghost predicate InLists(task: Task, lists: map<ListId, List>) {
    (task.home.Some? ==> task.home.value in lists) && (task.wait.Some? ==> task.wait.value in lists)
  }

  lemma ContainedGrow(tcbs: seq<TCB>, tasks: seq<Task>, lists: map<ListId, List>, lists': map<ListId, List>)
    requires Contained(tcbs, tasks, lists) && forall t :: 0 <= t < |tasks| ==> InLists(tasks[t], lists)
    requires forall l :: l in lists ==> l in lists' && lists'[l] == lists[l]
    ensures Contained(tcbs, tasks, lists')
  {
    forall t | 0 <= t < |tcbs|
      ensures tcbs[t].state.container == Ptr(lists', tasks[t].home)
              && tcbs[t].event.container == Ptr(lists', tasks[t].wait)
    {
      assert InLists(tasks[t], lists);
    }
  }

  /** The state with a new task in no list. */
  ghost function NewTask(k: State, p: nat): State {
    k.(tasks := k.tasks + [Task(p, p, 0, None, None)],
       current := if k.current == None then Some(|k.tasks|) else k.current)
  }

  lemma NewTaskPlaced(k: State, p: nat)
    requires Placed(k) && PriosOk(k) && p < MaxPriorities
    ensures Placed(NewTask(k, p)) && PriosOk(NewTask(k, p))
  {
    UnlistedTask(k, NewTask(k, p), Task(p, p, 0, None, None));
    hide Placed;
  }

  lemma ListsGrow(lists: map<ListId, List>, rings: map<ListId, Ring<nat>>, tasks: seq<TCB>, repr: set<object>, tcb: TCB,
                  repr': set<object>)
    requires ListsRep(lists, rings, tasks, repr) && repr <= repr'
    ensures ListsRep(lists, rings, tasks + [tcb], repr')
  {
    forall l | l in lists ensures ListRep(lists[l], rings[l], tasks + [tcb], l.IsEvent(), repr') {
      assert ListRep(lists[l], rings[l], tasks, l.IsEvent(), repr);
    }
  }

  lemma TasksGrow(tcbs: seq<TCB>, tasks: seq<Task>, lists: map<ListId, List>, repr: set<object>, tcb: TCB, task: Task,
                  repr': set<object>)
    requires TasksAre(tcbs, tasks) && Contained(tcbs, tasks, lists) && Owned(tcbs, repr) && repr <= repr'
    requires tcb in repr' && tcb.state in repr' && tcb.event in repr'
    requires tcb.prio == task.prio && tcb.base == task.base
    requires tcb.state.kind.StateItem? && tcb.event.kind.EventItem? && tcb.state.owner == tcb.event.owner == |tcbs|
    requires tcb.state.value == task.value && tcb.event.value == task.Key(Senders(0))
    requires task.home == None && task.wait == None && tcb.state.container == null && tcb.event.container == null
    ensures TasksAre(tcbs + [tcb], tasks + [task]) && Contained(tcbs + [tcb], tasks + [task], lists)
            && Owned(tcbs + [tcb], repr')
  {
  }

  ghost predicate AllEmpty(rings: map<ListId, Ring<nat>>) {
    forall l :: l in rings ==> rings[l] == Ring([], 0)
  }

  lemma NoLists()
    ensures ListsRep(map[], map[], [], {})
  {
  }

  lemma NoneEmpty()
    ensures AllEmpty(map[])
  {
  }

  lemma EmptyAdded(rings: map<ListId, Ring<nat>>, l: ListId)
    requires AllEmpty(rings)
    ensures AllEmpty(rings[l := Ring([], 0)])
  {
  }

  lemma EmptyPlaced(k: State)
    requires k.tasks == [] && k.queues == [] && AllEmpty(k.lists)
    requires forall l :: l in k.lists <==> (l.Ready? && l.prio < MaxPriorities) || l == Delayed || l == Suspended
    ensures Placed(k) && PriosOk(k) && forall l :: l in k.lists ==> k.lists[l] == Ring([], 0)
  {
  }

  /** A new list is none of the old ones. */
  lemma ListsApart(lists: map<ListId, List>, rings: map<ListId, Ring<nat>>, tasks: seq<TCB>, repr: set<object>,
                   list: List)
    requires ListsRep(lists, rings, tasks, repr) && list !in repr && list.end !in repr
    ensures forall l :: l in lists ==> lists[l] != list && lists[l].end != list.end
  {
    forall l | l in lists ensures lists[l] != list && lists[l].end != list.end {
      assert ListRep(lists[l], rings[l], tasks, l.IsEvent(), repr);
    }
  }

  lemma ListsAdded(lists: map<ListId, List>, rings: map<ListId, Ring<nat>>, tasks: seq<TCB>, repr: set<object>,
                   l: ListId, list: List, repr': set<object>)
    requires ListsRep(lists, rings, tasks, repr) && l !in lists && repr <= repr' && list in repr' && list.end in repr'
    requires forall m :: m in lists ==> lists[m] != list && lists[m].end != list.end
    requires list.Valid() && list.nodes == [list.end] && list.cursor == 0 && list.end.kind.Sentinel?
    ensures ListsRep(lists[l := list], rings[l := Ring([], 0)], tasks, repr')
  {
    forall m | m in lists ensures ListRep(lists[m], rings[m], tasks, m.IsEvent(), repr') {
      assert ListRep(lists[m], rings[m], tasks, m.IsEvent(), repr);
    }
    assert ListRep(list, Ring([], 0), tasks, l.IsEvent(), repr');
  }

  lemma WakeSleepersStep(k: State)
    requires Placed(k) && PriosOk(k) && Delayed in k.lists
    ensures var d := k.lists[Delayed].items;
            if d == [] then WakeSleepers(k) == k
            else
              && d[0] < |k.tasks| && In(k, d[0], Delayed)
              && WakeSleepers(k) == if k.tasks[d[0]].value > k.tick then k else WakeSleepers(WakeSleeper(k, d[0]))
  {
    if k.lists[Delayed].items != [] { assert k.lists[Delayed].items[0] in k.lists[Delayed].items; }
  }

  lemma TopHasReady(k: State)
    requires Placed(k) && k.top < MaxPriorities
             && exists p :: 0 <= p <= k.top && Ready(p) in k.lists && k.lists[Ready(p)].items != []
    ensures Ready(TopReady(k, k.top)) in k.lists && k.lists[Ready(TopReady(k, k.top))].items != []
  {
    assert ListExists(k, Ready(TopReady(k, k.top)));
  }

  lemma RingBounds(k: State, l: ListId)
    requires Placed(k) && l in k.lists
    ensures k.lists[l].cursor <= |k.lists[l].items| && k.lists[l].WellFormed()
  {
  }

  lemma AdvanceKeeps(k: State, l: ListId)
    requires Placed(k) && PriosOk(k) && l in k.lists && k.lists[l].items != []
    ensures k.lists[l].cursor <= |k.lists[l].items|
    ensures var ring := Advance(k.lists[l]);
            && ring.items == k.lists[l].items && 0 < ring.cursor <= |ring.items|
            && Placed(k.(lists := k.lists[l := ring])) && PriosOk(k.(lists := k.lists[l := ring]))
  {
    var k' := k.(lists := k.lists[l := Advance(k.lists[l])]);
    assert forall m, t: nat :: In(k', t, m) == In(k, t, m);
  }

  /** The round-robin step on one list, and all the lists after it. */
  method AdvanceIn(list: List, ghost lists: map<ListId, List>, ghost rings: map<ListId, Ring<nat>>,
                   ghost tcbs: seq<TCB>, ghost tasks: seq<Task>, ghost repr: set<object>, ghost l: ListId)
    returns (t: nat)
    requires ListsRep(lists, rings, tcbs, repr) && TasksAre(tcbs, tasks) && l in lists && list == lists[l]
    requires rings[l].WellFormed() && rings[l].items != []
    modifies list`index, list`cursor
    ensures var ring := Advance(rings[l]);
            0 < ring.cursor <= |ring.items| && t == Served(ring) && ListsRep(lists, rings[l := ring], tcbs, repr)
  {
    ghost var e := l.IsEvent();
    assert ListRep(list, rings[l], tcbs, e, repr);
    t := list.NextOwner();
    assert list.nodes[1..][list.cursor - 1] == tcbs[rings[l].items[list.cursor - 1]].Node(e);
    assert ListRep(list, Advance(rings[l]), tcbs, e, repr);
    hide Shows;
    forall m | m in lists && m != l ensures ListRep(lists[m], rings[m], tcbs, m.IsEvent(), repr) {
      assert old(ListRep(lists[m], rings[m], tcbs, m.IsEvent(), repr));
    }
    ListsUpdated(lists, rings, tcbs, repr, l, Advance(rings[l]));
  }

  method WritePrio(tcb: TCB, p: nat, ghost lists: map<ListId, List>, ghost rings: map<ListId, Ring<nat>>,
                   ghost tasks: seq<TCB>, ghost repr: set<object>)
    requires ListsRep(lists, rings, tasks, repr)
    modifies tcb`prio
    ensures tcb.prio == p && ListsRep(lists, rings, tasks, repr)
  {
    hide Shows;
    tcb.prio := p;
    forall m | m in lists ensures ListRep(lists[m], rings[m], tasks, m.IsEvent(), repr) {
      assert old(ListRep(lists[m], rings[m], tasks, m.IsEvent(), repr));
    }
  }

  /** The same, and the control blocks after it. */
  method RewritePrio(tcb: TCB, p: nat, ghost lists: map<ListId, List>, ghost rings: map<ListId, Ring<nat>>,
                     ghost tcbs: seq<TCB>, ghost repr: set<object>, ghost tasks: seq<Task>, ghost t: nat)
    requires ListsRep(lists, rings, tcbs, repr) && TasksAre(tcbs, tasks) && Contained(tcbs, tasks, lists)
    requires t < |tcbs| && t < |tasks| && tcb == tcbs[t]
    modifies tcb`prio
    ensures ListsRep(lists, rings, tcbs, repr)
    ensures TasksAre(tcbs, tasks[t := tasks[t].(prio := p)]) && Contained(tcbs, tasks[t := tasks[t].(prio := p)], lists)
  {
    hide ListsRep;
    WritePrio(tcb, p, lists, rings, tcbs, repr);
  }

  method RewriteValue(item: ListItem, v: nat, ghost lists: map<ListId, List>, ghost rings: map<ListId, Ring<nat>>,
                      ghost tcbs: seq<TCB>, ghost repr: set<object>, ghost tasks: seq<Task>, ghost t: nat)
    requires ListsRep(lists, rings, tcbs, repr) && TasksAre(tcbs, tasks) && Contained(tcbs, tasks, lists)
    requires t < |tcbs| && t < |tasks| && item == tcbs[t].state && tasks[t].home == None
    modifies item`value
    ensures ListsRep(lists, rings, tcbs, repr)
    ensures TasksAre(tcbs, tasks[t := tasks[t].(value := v)])
            && Contained(tcbs, tasks[t := tasks[t].(value := v)], lists)
  {
    hide ListsRep;
    WriteValue(item, v, lists, rings, tcbs, repr);
  }

  /** Write the key of an item that is in no list. */
  method WriteValue(item: ListItem, v: nat, ghost lists: map<ListId, List>, ghost rings: map<ListId, Ring<nat>>,
                    ghost tasks: seq<TCB>, ghost repr: set<object>)
    requires ListsRep(lists, rings, tasks, repr) && item.container == null && !item.kind.Sentinel?
    modifies item`value
    ensures item.value == v && ListsRep(lists, rings, tasks, repr)
  {
    forall m | m in lists ensures item !in lists[m].nodes {
      assert ListRep(lists[m], rings[m], tasks, m.IsEvent(), repr);
      NotThere(lists[m], item);
    }
    hide Shows;
    item.value := v;
    forall m | m in lists ensures ListRep(lists[m], rings[m], tasks, m.IsEvent(), repr) {
      assert old(ListRep(lists[m], rings[m], tasks, m.IsEvent(), repr));
    }
  }

  lemma Detachable(k: State, t: nat, l: ListId)
    requires Placed(k) && PriosOk(k) && l in k.lists && In(k, t, l)
    ensures t in k.lists[l].items && k.lists[l].WellFormed()
    ensures Placed(Detach(k, t, l)) && PriosOk(Detach(k, t, l))
    ensures Detach(k, t, l).tasks == k.tasks[t := k.tasks[t].Move(l, None)]
    ensures Detach(k, t, l).lists == k.lists[l := Remove(k.lists[l], t)]
  {
  }

  lemma Attachable(k: State, t: nat, l: ListId)
    requires Placed(k) && PriosOk(k) && l in k.lists && t < |k.tasks| && k.tasks[t].Container(l) == None
    ensures Placed(AttachEnd(k, t, l)) && PriosOk(AttachEnd(k, t, l))
    ensures AttachEnd(k, t, l).tasks == k.tasks[t := k.tasks[t].Move(l, Some(l))]
    ensures k.lists[l].WellFormed() && AttachEnd(k, t, l).lists == k.lists[l := EndInsert(k.lists[l], t)]
  {
  }

  lemma SortedAttachable(k: State, t: nat, l: ListId)
    requires Placed(k) && PriosOk(k) && l in k.lists && t < |k.tasks| && k.tasks[t].Container(l) == None
    ensures Placed(AttachSorted(k, t, l)) && PriosOk(AttachSorted(k, t, l))
    ensures AttachSorted(k, t, l).tasks == k.tasks[t := k.tasks[t].Move(l, Some(l))]
    ensures k.lists[l].WellFormed() && Indices(k.lists[l].items, k.tasks)
    ensures var at := InsertionPoint(KernelState.Keys(k.tasks, k.lists[l].items, l), k.tasks[t].Key(l));
            at <= |k.lists[l].items| && AttachSorted(k, t, l).lists == k.lists[l := InsertAt(k.lists[l], at, t)]
  {
    PlacedIndices(k, l);
  }

  lemma ListInRepr(lists: map<ListId, List>, rings: map<ListId, Ring<nat>>, tasks: seq<TCB>, repr: set<object>,
                   l: ListId)
    requires ListsRep(lists, rings, tasks, repr) && l in rings
    ensures l in lists && lists[l] in repr && forall n :: n in lists[l].nodes ==> n in repr
  {
    assert ListRep(lists[l], rings[l], tasks, l.IsEvent(), repr);
  }

  /** uxListRemove, and the lists and control blocks after it. */
  method DetachItem(item: ListItem, ghost list: List, ghost lists: map<ListId, List>,
                    ghost rings: map<ListId, Ring<nat>>, ghost tcbs: seq<TCB>, ghost repr: set<object>,
                    ghost tasks: seq<Task>, ghost t: nat, ghost l: ListId)
    requires ListsRep(lists, rings, tcbs, repr) && TasksAre(tcbs, tasks) && Contained(tcbs, tasks, lists)
    requires l in lists && l in rings && t < |tcbs| && t < |tasks| && t in rings[l].items && rings[l].WellFormed()
    requires item == tcbs[t].Node(l.IsEvent()) && tasks[t].Container(l) == Some(l) && list == lists[l]
    modifies list`count, list`index, list`nodes, list`cursor, list.nodes`next, list.nodes`prev, item`container
    ensures ListsRep(lists, rings[l := Remove(rings[l], t)], tcbs, repr)
    ensures TasksAre(tcbs, tasks[t := tasks[t].Move(l, None)])
            && Contained(tcbs, tasks[t := tasks[t].Move(l, None)], lists)
  {
    hide ListsRep, Remove, Separate, Ring.WellFormed;
    TasksSeparate(tcbs, tasks, l.IsEvent());
    RemoveFrom(item, list, lists, rings, tcbs, repr, t, l);
  }

  /** vListInsertEnd, and the lists and control blocks after it. */
  method AttachItem(list: List, item: ListItem, ghost lists: map<ListId, List>, ghost rings: map<ListId, Ring<nat>>,
                    ghost tcbs: seq<TCB>, ghost repr: set<object>, ghost tasks: seq<Task>, ghost t: nat,
                    ghost l: ListId)
    requires ListsRep(lists, rings, tcbs, repr) && TasksAre(tcbs, tasks) && Contained(tcbs, tasks, lists)
    requires l in lists && l in rings && t < |tcbs| && t < |tasks| && rings[l].WellFormed() && item in repr
    requires item == tcbs[t].Node(l.IsEvent()) && tasks[t].Container(l) == None && list == lists[l]
    modifies list`count, list`nodes, list`cursor, list.nodes`next, list.nodes`prev, item`next, item`prev, item`container
    ensures ListsRep(lists, rings[l := EndInsert(rings[l], t)], tcbs, repr)
    ensures TasksAre(tcbs, tasks[t := tasks[t].Move(l, Some(l))])
            && Contained(tcbs, tasks[t := tasks[t].Move(l, Some(l))], lists)
  {
    hide ListsRep, EndInsert, Ring.WellFormed;
    TasksSeparate(tcbs, tasks, l.IsEvent());
    AppendTo(list, item, lists, rings, tcbs, repr, t, l);
  }

  /** vListInsert, and the lists and control blocks after it. */
  method SortItemIn(list: List, item: ListItem, ghost lists: map<ListId, List>, ghost rings: map<ListId, Ring<nat>>,
                    ghost tcbs: seq<TCB>, ghost repr: set<object>, ghost tasks: seq<Task>, ghost t: nat,
                    ghost l: ListId, ghost at: nat)
    requires ListsRep(lists, rings, tcbs, repr) && TasksAre(tcbs, tasks) && Contained(tcbs, tasks, lists)
    requires l in lists && l in rings && t < |tcbs| && t < |tasks| && rings[l].WellFormed() && item in repr
    requires item == tcbs[t].Node(l.IsEvent()) && tasks[t].Container(l) == None && list == lists[l]
             && item.value <= MaxDelay
    requires list.nodes != [] && at == InsertionPoint(list.Keys(), item.value) && at <= |rings[l].items|
    modifies list`count, list`nodes, list`cursor, list.nodes`next, list.nodes`prev, item`next, item`prev, item`container
    ensures ListsRep(lists, rings[l := InsertAt(rings[l], at, t)], tcbs, repr)
    ensures TasksAre(tcbs, tasks[t := tasks[t].Move(l, Some(l))])
            && Contained(tcbs, tasks[t := tasks[t].Move(l, Some(l))], lists)
  {
    hide ListsRep, InsertAt, Ring.WellFormed, InsertionPoint;
    TasksSeparate(tcbs, tasks, l.IsEvent());
    InsertInto(list, item, lists, rings, tcbs, repr, t, l, at);
  }

  /** uxListRemove, and all the lists after it. */
  method RemoveFrom(item: ListItem, ghost list: List, ghost lists: map<ListId, List>,
                    ghost rings: map<ListId, Ring<nat>>, ghost tasks: seq<TCB>, ghost repr: set<object>, ghost t: nat,
                    ghost l: ListId)
    requires ListsRep(lists, rings, tasks, repr) && l in lists && Separate(tasks, l.IsEvent())
    requires t < |tasks| && t in rings[l].items && rings[l].WellFormed()
    requires item == tasks[t].Node(l.IsEvent()) && item.container == list && list == lists[l]
    modifies list`count, list`index, list`nodes, list`cursor, list.nodes`next, list.nodes`prev, item`container
    ensures item.container == null
    ensures ListsRep(lists, rings[l := Remove(rings[l], t)], tasks, repr)
  {
    ghost var e := l.IsEvent();
    hide Mapped, Shows, Separate, List.Valid, Ring.WellFormed, Remove, EndInsert, InsertAt, InsertionPoint;
    ListFacts(lists, rings, tasks, repr, l);
    MappedRemove(list.View(), rings[l], tasks, e, t);
    ListsValid(lists, rings, tasks, repr, l);
    RemoveNode(item, list, lists.Values - {list});
    ShowsAgain(list, old(list.nodes), Remove(rings[l], t), tasks, e, repr, item);
    forall m | m in lists && m != l ensures ListRep(lists[m], rings[m], tasks, m.IsEvent(), repr) {
      assert old(ListRep(lists[m], rings[m], tasks, m.IsEvent(), repr));
      assert lists[m] in lists.Values - {list};
    }
    ListsUpdated(lists, rings, tasks, repr, l, Remove(rings[l], t));
  }

  /** Every list but l is valid, and apart from l. */
  lemma ListsValid(lists: map<ListId, List>, rings: map<ListId, Ring<nat>>, tasks: seq<TCB>, repr: set<object>,
                   l: ListId)
    requires ListsRep(lists, rings, tasks, repr) && l in lists
    ensures forall o :: o in lists.Values - {lists[l]} ==> Other(o, lists[l])
  {
    forall o | o in lists.Values - {lists[l]} ensures Other(o, lists[l]) {
      var m :| m in lists && lists[m] == o;
      assert ListRep(lists[m], rings[m], tasks, m.IsEvent(), repr);
    }
  }

  ghost predicate Other(o: List, list: List)
    reads o, o.end, o.nodes
  {
    o.Valid() && o != list && o.end != list.end && o.end.kind.Sentinel?
  }

  lemma ListKeys(lists: map<ListId, List>, rings: map<ListId, Ring<nat>>, tasks: seq<TCB>, repr: set<object>)
    requires ListsRep(lists, rings, tasks, repr)
    ensures lists.Keys == rings.Keys
  {
  }

  lemma ListFacts(lists: map<ListId, List>, rings: map<ListId, Ring<nat>>, tasks: seq<TCB>, repr: set<object>,
                  l: ListId)
    requires ListsRep(lists, rings, tasks, repr) && l in lists
    ensures var list, ring := lists[l], rings[l];
            && list in repr && list.Valid() && list.end.kind.Sentinel? && list.end in repr
            && (forall n :: n in list.nodes ==> n in repr)
            && list.View().cursor == ring.cursor && Mapped(list.View().items, ring.items, tasks, l.IsEvent())
            && list.View().WellFormed()
  {
    assert ListRep(lists[l], rings[l], tasks, l.IsEvent(), repr);
  }

  /** A list object that was written shows its new ring. */
  lemma ShowsAgain(list: List, was: seq<ListItem>, ring: Ring<nat>, tasks: seq<TCB>, e: bool, repr: set<object>,
                   item: ListItem)
    requires list in repr && list.Valid() && list.end.kind.Sentinel? && list.end in repr && item in repr
    requires (forall n :: n in was ==> n in repr) && forall n :: n in list.nodes ==> n in was || n == item
    requires list.View().cursor == ring.cursor && Mapped(list.View().items, ring.items, tasks, e)
    ensures ListRep(list, ring, tasks, e, repr)
  {
  }

  lemma ListsUpdated(lists: map<ListId, List>, rings: map<ListId, Ring<nat>>, tasks: seq<TCB>, repr: set<object>,
                     l: ListId, ring: Ring<nat>)
    requires lists.Keys == rings.Keys && l in lists
    requires forall m, n :: m in lists && n in lists && m != n ==> lists[m] != lists[n] && lists[m].end != lists[n].end
    requires forall m :: m in lists && m != l ==> ListRep(lists[m], rings[m], tasks, m.IsEvent(), repr)
    requires ListRep(lists[l], ring, tasks, l.IsEvent(), repr)
    ensures ListsRep(lists, rings[l := ring], tasks, repr)
  {
    hide ListRep;
  }

  /** uxListRemove, and what it leaves alone. */
  method RemoveNode(item: ListItem, ghost list: List, ghost others: set<List>)
    requires list.Valid() && item in list.nodes[1..] && item.container == list
    requires forall o :: o in others ==> Other(o, list)
    modifies list`count, list`index, list`nodes, list`cursor, list.nodes`next, list.nodes`prev, item`container
    ensures item.container == null && list.Valid()
    ensures item in old(list.View()).items && list.View() == Remove(old(list.View()), item)
    ensures forall n :: n in list.nodes ==> n in old(list.nodes)
    ensures forall o :: o in others ==> o.Valid()
  {
    RingOf(list);
    NodesOf(list);
    RemoveKeeps(list.View(), item);
    forall o | o in others ensures forall n :: n in list.nodes ==> n !in o.nodes {
      NodesApart(list, o);
    }
    var left := ListRemove(item);
    NodesOf(list);
  }

  /** vListInsertEnd, and what it leaves alone. */
  method AppendNode(list: List, item: ListItem, ghost others: set<List>)
    requires list.Valid() && item.container == null && !item.kind.Sentinel? && list.end.kind.Sentinel?
    requires forall o :: o in others ==> Other(o, list)
    modifies list`count, list`nodes, list`cursor, list.nodes`next, list.nodes`prev, item`next, item`prev, item`container
    ensures item.container == list && list.Valid()
    ensures list.View() == EndInsert(old(list.View()), item)
    ensures forall n :: n in list.nodes ==> n in old(list.nodes) || n == item
    ensures forall o :: o in others ==> o.Valid()
  {
    RingOf(list);
    NodesOf(list);
    NotThere(list, item);
    EndInsertKeeps(list.View(), item);
    forall o | o in others ensures item !in o.nodes && forall n :: n in list.nodes ==> n !in o.nodes {
      NodesApart(list, o);
      NotThere(o, item);
    }
    list.InsertEnd(item);
    NodesOf(list);
  }

  /** The nodes are the end marker and the items. */
  lemma NodesOf(list: List)
    requires list.Valid()
    ensures forall n :: n in list.nodes <==> n == list.end || n in list.View().items
  {
    assert list.nodes == [list.end] + list.nodes[1..];
  }

  lemma NotThere(list: List, item: ListItem)
    requires list.Valid() && item.container == null && !item.kind.Sentinel? && list.end.kind.Sentinel?
    ensures item !in list.nodes
  {
    forall i | 0 <= i < |list.nodes| ensures list.nodes[i] != item {
      assert i > 0 ==> list.nodes[i].container == list;
    }
  }

  /** vListInsertEnd, and all the lists after it. */
  method AppendTo(list: List, item: ListItem, ghost lists: map<ListId, List>, ghost rings: map<ListId, Ring<nat>>,
                  ghost tasks: seq<TCB>, ghost repr: set<object>, ghost t: nat, ghost l: ListId)
    requires ListsRep(lists, rings, tasks, repr) && l in lists && t < |tasks| && rings[l].WellFormed()
    requires item == tasks[t].Node(l.IsEvent()) && item.container == null && list == lists[l]
    requires item in repr && !item.kind.Sentinel?
    modifies list`count, list`nodes, list`cursor, list.nodes`next, list.nodes`prev, item`next, item`prev, item`container
    ensures item.container == list
    ensures ListsRep(lists, rings[l := EndInsert(rings[l], t)], tasks, repr)
  {
    ghost var e := l.IsEvent();
    hide Mapped, Shows, Separate, List.Valid, Ring.WellFormed, Remove, EndInsert, InsertAt, InsertionPoint;
    ListFacts(lists, rings, tasks, repr, l);
    MappedEndInsert(list.View(), rings[l], tasks, e, t);
    ListsValid(lists, rings, tasks, repr, l);
    AppendNode(list, item, lists.Values - {list});
    ShowsAgain(list, old(list.nodes), EndInsert(rings[l], t), tasks, e, repr, item);
    forall m | m in lists && m != l ensures ListRep(lists[m], rings[m], tasks, m.IsEvent(), repr) {
      assert old(ListRep(lists[m], rings[m], tasks, m.IsEvent(), repr));
      assert lists[m] in lists.Values - {list};
    }
    ListsUpdated(lists, rings, tasks, repr, l, EndInsert(rings[l], t));
  }

  /** vListInsert, and what it leaves alone. */
  method InsertNode(list: List, item: ListItem, ghost others: set<List>)
    requires list.Valid() && item.container == null && !item.kind.Sentinel? && list.end.kind.Sentinel?
    requires item.value <= MaxDelay
    requires forall o :: o in others ==> Other(o, list)
    modifies list`count, list`nodes, list`cursor, list.nodes`next, list.nodes`prev, item`next, item`prev, item`container
    ensures item.container == list && list.Valid()
    ensures list.View() == InsertAt(old(list.View()), InsertionPoint(old(list.Keys()), item.value), item)
    ensures forall n :: n in list.nodes ==> n in old(list.nodes) || n == item
    ensures forall o :: o in others ==> o.Valid()
  {
    RingOf(list);
    NodesOf(list);
    NotThere(list, item);
    InsertAtKeeps(list.View(), InsertionPoint(list.Keys(), item.value), item);
    forall o | o in others ensures item !in o.nodes && forall n :: n in list.nodes ==> n !in o.nodes {
      NodesApart(list, o);
      NotThere(o, item);
    }
    list.Insert(item);
    NodesOf(list);
  }

  /** vListInsert, and all the lists after it. */
  method InsertInto(list: List, item: ListItem, ghost lists: map<ListId, List>, ghost rings: map<ListId, Ring<nat>>,
                    ghost tasks: seq<TCB>, ghost repr: set<object>, ghost t: nat, ghost l: ListId, ghost at: nat)
    requires ListsRep(lists, rings, tasks, repr) && l in lists && t < |tasks| && rings[l].WellFormed()
    requires item == tasks[t].Node(l.IsEvent()) && item.container == null && list == lists[l]
    requires item in repr && !item.kind.Sentinel? && item.value <= MaxDelay
    requires list.nodes != [] && at == InsertionPoint(list.Keys(), item.value) && at <= |rings[l].items|
    modifies list`count, list`nodes, list`cursor, list.nodes`next, list.nodes`prev, item`next, item`prev, item`container
    ensures item.container == list
    ensures ListsRep(lists, rings[l := InsertAt(rings[l], at, t)], tasks, repr)
  {
    ghost var e := l.IsEvent();
    hide Mapped, Shows, Separate, List.Valid, Ring.WellFormed, Remove, EndInsert, InsertAt, InsertionPoint;
    ListFacts(lists, rings, tasks, repr, l);
    MappedInsertAt(list.View(), rings[l], tasks, e, at, t);
    ListsValid(lists, rings, tasks, repr, l);
    InsertNode(list, item, lists.Values - {list});
    ShowsAgain(list, old(list.nodes), InsertAt(rings[l], at, t), tasks, e, repr, item);
    forall m | m in lists && m != l ensures ListRep(lists[m], rings[m], tasks, m.IsEvent(), repr) {
      assert old(ListRep(lists[m], rings[m], tasks, m.IsEvent(), repr));
      assert lists[m] in lists.Values - {list};
    }
    ListsUpdated(lists, rings, tasks, repr, l, InsertAt(rings[l], at, t));
  }

  lemma InsertionAgrees(k: State, lists: map<ListId, List>, tcbs: seq<TCB>, repr: set<object>, t: nat, l: ListId)
    requires Placed(k) && ListsRep(lists, k.lists, tcbs, repr) && TasksAre(tcbs, k.tasks)
    requires l in k.lists && l in lists && t < |tcbs| && t < |k.tasks|
    ensures Indices(k.lists[l].items, k.tasks) && lists[l].nodes != []
    ensures tcbs[t].Node(l.IsEvent()).value == k.tasks[t].Key(l)
    ensures InsertionPoint(lists[l].Keys(), k.tasks[t].Key(l))
            == InsertionPoint(KernelState.Keys(k.tasks, k.lists[l].items, l), k.tasks[t].Key(l))
  {
    PlacedIndices(k, l);
    assert ListRep(lists[l], k.lists[l], tcbs, l.IsEvent(), repr);
    KeysAgree(lists[l], k.lists[l], tcbs, k.tasks, l, repr);
  }

  /** The keys in the nodes are the keys of the model. */
  lemma KeysAgree(list: List, ring: Ring<nat>, tcbs: seq<TCB>, tasks: seq<Task>, l: ListId, repr: set<object>)
    requires ListRep(list, ring, tcbs, l.IsEvent(), repr) && TasksAre(tcbs, tasks) && Indices(ring.items, tasks)
    ensures list.nodes != [] && list.Keys() == KernelState.Keys(tasks, ring.items, l)
  {
    forall i | 0 <= i < |ring.items| ensures list.Keys()[i] == tasks[ring.items[i]].Key(l) {
      assert list.nodes[1..][i] == tcbs[ring.items[i]].Node(l.IsEvent());
    }
  }
}
