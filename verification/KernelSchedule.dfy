/** What a context switch selects, and where every task is. */
module KernelSchedule {
  import opened Common
  import opened Rings
  import opened KernelState
  import opened KernelInvariant
  import opened KernelSteps
  import opened KernelRuns

  ghost predicate IsReady(k: State, t: nat) {
    t < |k.tasks| && k.tasks[t].home == Some(Ready(k.tasks[t].prio))
  }

  /** vTaskSwitchContext selects a ready task of the highest ready priority: the
      one that is next in the service order of its list. */
  lemma SwitchSelectsHighest(k: State)
    requires Inv(k) && Enabled(k, SwitchContext)
    ensures var k' := Apply(k, SwitchContext);
            && k'.current.Some? && IsReady(k', k'.current.value) && k'.tasks == k.tasks
            && (forall t: nat :: IsReady(k, t) ==> k.tasks[t].prio <= k.tasks[k'.current.value].prio)
            && var ring := k.lists[Ready(k.tasks[k'.current.value].prio)];
               ring.items != [] && k'.current.value == Order(ring)[0]
  {
    IdleReady(k);
    StepKeepsInv(k, SwitchContext);
    var k' := Apply(k, SwitchContext);
    var p := TopReady(k, k.top);
    AdvanceRotates(k.lists[Ready(p)]);
    var c := k'.current.value;
    assert c in k.lists[Ready(p)].items;
    assert In(k, c, Ready(p));
    forall t: nat | IsReady(k, t) ensures k.tasks[t].prio <= p {
      assert In(k, t, Ready(k.tasks[t].prio));
      assert TaskOk(k.tasks[t], k.top, k.tick);
    }
    assert TaskOk(k.tasks[c], k.top, k.tick);
  }

  // ----- Round robin among equals -----------------------------------------------------

  /** The context switches among the first n steps. */
  ghost function Switches(steps: seq<Step>, n: nat): nat
    requires n <= |steps|
  {
    if n == 0 then 0 else Switches(steps, n - 1) + if steps[n - 1] == SwitchContext then 1 else 0
  }

  /** p is the highest priority at which anybody is ready. */
  ghost predicate IsTop(k: State, p: nat) {
    && Ready(p) in k.lists && k.lists[Ready(p)].items != []
    && forall r: nat :: p < r && Ready(r) in k.lists ==> k.lists[Ready(r)].items == []
  }

  ghost predicate SameReady(k: State, k': State, p: nat) {
    Ready(p) in k.lists && Ready(p) in k'.lists && k'.lists[Ready(p)] == k.lists[Ready(p)]
  }

  /** Throughout the run p is the highest ready priority, and only the context
      switches touch its list. Everything else may happen: ticks, sends and
      receives, delays and wake-ups of other priorities. */
  ghost predicate Undisturbed(trace: seq<State>, steps: seq<Step>, p: nat) {
    && |trace| == |steps| + 1
    && (forall i :: 0 <= i < |trace| ==> IsTop(trace[i], p))
    && (forall i :: 0 <= i < |steps| && steps[i] != SwitchContext ==> SameReady(trace[i], trace[i + 1], p))
  }

  /** The ring of priority p after j switches, and the task that then runs. */
  ghost predicate Turned(ring: Ring<nat>, k: State, p: nat, j: nat)
    requires ring.cursor <= |ring.items| && ring.items != []
  {
    && Ready(p) in k.lists && k.lists[Ready(p)] == AdvanceN(ring, j)
    && (j > 0 ==> k.current == Some(Order(ring)[(j - 1) % |ring.items|]))
  }

  /** The service order names each item of the ring exactly once. */
  ghost predicate EachOnce(ring: Ring<nat>)
    requires ring.cursor <= |ring.items|
  {
    && |Order(ring)| == |ring.items|
    && (forall t :: t in ring.items ==> exists m :: 0 <= m < |ring.items| && Order(ring)[m] == t)
    && (forall l, m :: 0 <= l < m < |ring.items| ==> Order(ring)[l] != Order(ring)[m])
  }

  /** One switch: the top list's cursor advances and the item under it runs. */
  lemma SwitchTurns(k: State, k': State, p: nat, ring: Ring<nat>, j: nat)
    requires Inv(k) && k.idle.Some? && StepTo(k, SwitchContext, k') && IsTop(k, p)
    requires ring.cursor <= |ring.items| && ring.items != [] && Turned(ring, k, p, j)
    ensures Turned(ring, k', p, j + 1)
  {
    IdleReady(k);
    TopIs(k, p);
    AdvanceNServes(ring, j + 1);
    hide Placed, TasksOk, Sorted, QueuesOk, BoostsOk, Order;
  }

  lemma TopIs(k: State, p: nat)
    requires Inv(k) && IsTop(k, p)
    ensures Placed(k) && k.top < MaxPriorities && TopReady(k, k.top) == p
  {
    HeadIsIn(k, Ready(p));
    var t := k.lists[Ready(p)].items[0];
    assert TaskOk(k.tasks[t], k.top, k.tick);
    assert ListExists(k, Ready(p));
    FixedLists(k);
    hide Placed, TasksOk, Sorted, QueuesOk, BoostsOk, IdleOk, CurrentOk;
    TopReadyIs(k, k.top, p);
  }

  lemma {:induction false} TopReadyIs(k: State, top: nat, p: nat)
    requires Placed(k) && p <= top < MaxPriorities && IsTop(k, p)
    ensures TopReady(k, top) == p
  {
    FixedLists(k);
    hide Placed;
    if top > p { TopReadyIs(k, top - 1, p); }
  }

  /** Time slicing: while p stays the highest ready priority and its list is
      left alone, the j-th context switch runs the ((j - 1) mod n)-th of the n
      tasks in service order, and it runs until the next switch. So any n
      switches in a row run each of them exactly once. */
  lemma {:induction false} PeersTakeTurns(trace: seq<State>, steps: seq<Step>, p: nat, i: nat)
    requires IsRun(trace, steps) && Inv(trace[0]) && trace[0].idle.Some? && Undisturbed(trace, steps, p) && i < |trace|
    ensures Ready(p) in trace[0].lists && trace[0].lists[Ready(p)].WellFormed()
    ensures var ring, j := trace[0].lists[Ready(p)], Switches(steps, i);
            ring.items != [] && EachOnce(ring) && trace[i].idle.Some? && Turned(ring, trace[i], p, j)
  {
    hide Inv, Order, Ring.WellFormed, EachOnce, Turned, StepTo, IsTop, SameReady;
    assert IsTop(trace[0], p);
    RingAtStart(trace[0], p);
    var ring := trace[0].lists[Ready(p)];
    if i > 0 {
      PeersTakeTurns(trace, steps, p, i - 1);
      RunKeepsInv(trace, steps, i - 1);
      var k, k' := trace[i - 1], trace[i];
      assert StepTo(k, steps[i - 1], k') && IsTop(k, p);
      OneTurn(k, steps[i - 1], k', p, ring, Switches(steps, i - 1));
    }
  }

  lemma RingAtStart(k: State, p: nat)
    requires Inv(k) && IsTop(k, p)
    ensures var ring := k.lists[Ready(p)];
            ring.items != [] && ring.cursor <= |ring.items| && ring.WellFormed() && Turned(ring, k, p, 0)
              && EachOnce(ring)
  {
    OrderIsPermutation(k.lists[Ready(p)]);
  }

  lemma OneTurn(k: State, step: Step, k': State, p: nat, ring: Ring<nat>, j: nat)
    requires Inv(k) && k.idle.Some? && StepTo(k, step, k') && IsTop(k, p)
    requires ring.cursor <= |ring.items| && ring.items != [] && Turned(ring, k, p, j)
    requires step == SwitchContext || SameReady(k, k', p)
    ensures k'.idle.Some? && Turned(ring, k', p, j + if step == SwitchContext then 1 else 0)
  {
    StepFrame(k, step);
    hide Placed, TasksOk, Sorted, QueuesOk, BoostsOk, Order, Apply;
    if step == SwitchContext { SwitchTurns(k, k', p, ring, j); }
  }

  /** Everybody whose sleep is over has a priority below p. */
  ghost predicate WakesBelow(k: State, tick: int, p: nat) {
    forall t :: 0 <= t < |k.tasks| && k.tasks[t].home == Some(Delayed) && k.tasks[t].value <= tick ==>
        k.tasks[t].prio < p
  }

  ghost predicate SameFrom(k: State, k': State, p: nat) {
    forall r: nat :: p <= r && Ready(r) in k.lists ==> SameReady(k, k', r)
  }

  /** A tick that wakes only tasks of lower priority leaves the peers alone, so
      that it may come between two switches. */
  lemma TickLeavesPeers(k: State, k': State, p: nat)
    requires Inv(k) && Enabled(k, TickInterrupt) && StepTo(k, TickInterrupt, k') && IsTop(k, p)
    requires WakesBelow(k, k.tick + 1, p)
    ensures IsTop(k', p) && SameReady(k, k', p)
  {
    hide Placed, TasksOk, Sorted, QueuesOk, BoostsOk, BeforeWake, SameFrom, WakeSleepers, IsTop, PriosOk;
    InvBasics(k);
    TickBegins(k);
    var k1 := k.(tick := k.tick + 1);
    SameStructure(k, k1);
    WakeSleepersPeers(k1, p);
    SameLists(k, k1, k', p);
  }

  lemma SameLists(k: State, k1: State, k': State, p: nat)
    requires Placed(k) && Placed(k') && k1.lists == k.lists && SameFrom(k1, k', p) && IsTop(k, p)
    ensures IsTop(k', p) && SameReady(k, k', p)
  {
    FixedLists(k);
    assert ListExists(k, Ready(p));
    forall r: nat | p < r && Ready(r) in k'.lists ensures k'.lists[Ready(r)].items == [] {
      assert ListExists(k', Ready(r));
      assert SameReady(k1, k', r);
    }
  }

  lemma {:induction false} WakeSleepersPeers(k: State, p: nat)
    requires BeforeWake(k) && WakesBelow(k, k.tick, p)
    ensures SameFrom(k, WakeSleepers(k), p)
    decreases |k.lists[Delayed].items|
  {
    FixedLists(k);
    hide Placed, TaskOk, ListSorted, PriosOk, WakeSleeper;
    var d := k.lists[Delayed].items;
    if d != [] && (HeadIsIn(k, Delayed); k.tasks[d[0]].value <= k.tick) {
      HeadIsIn(k, Delayed);
      var k1 := WakeSleeper(k, d[0]);
      WakeSleeperOk(k, d[0], k.tick - 1);
      WakeSleeperPeers(k, d[0], p);
      WakeSleepersPeers(k1, p);
    }
  }

  lemma WakeSleeperPeers(k: State, t: nat, p: nat)
    requires Placed(k) && PriosOk(k) && In(k, t, Delayed) && k.tasks[t].prio < p
    ensures SameFrom(k, WakeSleeper(k, t), p)
  {
  }

  // ----- Conservation -------------------------------------------------------------------

  /** The number of tasks in the ready lists below p. */
  ghost function ReadyBelow(k: State, p: nat): nat
    requires Placed(k) && p <= MaxPriorities
  {
    if p == 0 then 0 else ReadyBelow(k, p - 1) + |k.lists[Ready(p - 1)].items|
  }

  ghost function Elements(s: seq<nat>): set<nat> {
    set t | t in s
  }

  lemma {:induction false} DistinctCount(s: seq<nat>)
    requires forall i, j :: 0 <= i < j < |s| ==> s[i] != s[j]
    ensures |Elements(s)| == |s|
  {
    if s != [] {
      var rest, x := s[..|s| - 1], s[|s| - 1];
      DistinctCount(rest);
      assert s == rest + [x];
      assert Elements(s) == Elements(rest) + {x};
      assert x !in Elements(rest);
    }
  }

  ghost function UpTo(n: nat): (e: set<nat>)
    ensures |e| == n && forall t :: t in e <==> 0 <= t < n
  {
    if n == 0 then {} else UpTo(n - 1) + {n - 1}
  }

  /** The set of tasks whose state item is in l. */
  ghost function HomeSet(k: State, l: ListId): set<nat> {
    set t: nat | t < |k.tasks| && k.tasks[t].home == Some(l)
  }

  lemma HomeSetSize(k: State, l: ListId)
    requires Placed(k) && l in k.lists && !l.IsEvent()
    ensures |HomeSet(k, l)| == |k.lists[l].items|
  {
    DistinctCount(k.lists[l].items);
    forall t: nat ensures t in HomeSet(k, l) <==> t in Elements(k.lists[l].items) {
      assert t in k.lists[l].items <==> In(k, t, l);
    }
    assert HomeSet(k, l) == Elements(k.lists[l].items);
  }

  ghost predicate ReadyHome(k: State, t: nat, p: nat) {
    t < |k.tasks| && k.tasks[t].home.Some? && k.tasks[t].home.value.Ready? && k.tasks[t].home.value.prio < p
  }

  ghost function ReadySet(k: State, p: nat): set<nat> {
    set t: nat | t < |k.tasks| && ReadyHome(k, t, p)
  }

  lemma {:induction false} ReadySetSize(k: State, p: nat)
    requires Placed(k) && p <= MaxPriorities
    ensures |ReadySet(k, p)| == ReadyBelow(k, p)
  {
    hide Placed, ListExists;
    if p == 0 {
      assert ReadySet(k, 0) == {};
    } else {
      ReadySetSize(k, p - 1);
      FixedLists(k);
      HomeSetSize(k, Ready(p - 1));
      assert ReadySet(k, p) == ReadySet(k, p - 1) + HomeSet(k, Ready(p - 1));
      assert ReadySet(k, p - 1) !! HomeSet(k, Ready(p - 1));
    }
  }

  /** The ready, delayed and suspended lists together hold every task once. */
  lemma ListsHoldEveryTask(k: State)
    requires Inv(k)
    ensures ReadyBelow(k, MaxPriorities) + |k.lists[Delayed].items| + |k.lists[Suspended].items| == |k.tasks|
  {
    ReadySetSize(k, MaxPriorities);
    HomeSetSize(k, Delayed);
    HomeSetSize(k, Suspended);
    HomesCover(k);
    DisjointSum(UpTo(|k.tasks|), ReadySet(k, MaxPriorities), HomeSet(k, Delayed), HomeSet(k, Suspended));
  }

  lemma HomesCover(k: State)
    requires TasksOk(k, k.tick)
    ensures forall t :: t in UpTo(|k.tasks|) <==>
              t in ReadySet(k, MaxPriorities) + HomeSet(k, Delayed) + HomeSet(k, Suspended)
  {
    forall t: nat
      ensures t in UpTo(|k.tasks|) <==> t in ReadySet(k, MaxPriorities) + HomeSet(k, Delayed) + HomeSet(k, Suspended)
    {
      if t < |k.tasks| { assert TaskOk(k.tasks[t], k.top, k.tick); }
    }
  }

  lemma DisjointSum(u: set<nat>, r: set<nat>, d: set<nat>, s: set<nat>)
    requires forall t :: t in u <==> t in r + d + s
    requires r !! d && r !! s && d !! s
    ensures |u| == |r| + |d| + |s|
  {
    assert u == r + d + s;
  }

  /** In every state of every run each task is ready at its priority, delayed or
      suspended; a task on an event list is delayed or suspended, a suspended one
      is on an event list; and the three kinds of list hold every task once. */
  lemma RunPlacesEveryTask(trace: seq<State>, steps: seq<Step>, i: nat, t: nat)
    requires IsRun(trace, steps) && IsInitial(trace[0]) && i < |trace| && t < |trace[i].tasks|
    ensures var k := trace[i];
            var task := k.tasks[t];
            && Placed(k)
            && (|| (task.home == Some(Ready(task.prio)) && t in k.lists[Ready(task.prio)].items)
                || (task.home == Some(Delayed) && t in k.lists[Delayed].items)
                || (task.home == Some(Suspended) && t in k.lists[Suspended].items))
            && (forall l :: l in k.lists && !l.IsEvent() && t in k.lists[l].items ==> task.home == Some(l))
            && (forall l :: l in k.lists && l.IsEvent() && t in k.lists[l].items ==>
                  task.home == Some(Delayed) || task.home == Some(Suspended))
            && (task.home == Some(Suspended) ==>
                  exists l :: l in k.lists && l.IsEvent() && t in k.lists[l].items)
            && ReadyBelow(k, MaxPriorities) + |k.lists[Delayed].items| + |k.lists[Suspended].items| == |k.tasks|
  {
    InitialInv(trace[0]);
    RunKeepsInv(trace, steps, i);
    var k := trace[i];
    assert TaskOk(k.tasks[t], k.top, k.tick);
    forall l | l in k.lists && t in k.lists[l].items ensures In(k, t, l) {
    }
    if k.tasks[t].home == Some(Suspended) {
      assert In(k, t, k.tasks[t].wait.value);
    }
    assert k.tasks[t].home.Some? ==> In(k, t, k.tasks[t].home.value);
    ListsHoldEveryTask(k);
  }
}
