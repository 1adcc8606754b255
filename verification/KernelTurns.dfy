/** The service order of the ready lists: nobody jumps the queue. */
module KernelTurns {
  import opened Common
  import opened Rings
  import opened KernelState
  import opened KernelInvariant
  import opened KernelSteps
  import opened KernelRuns
  import opened KernelSchedule
  import opened KernelOrder

  /** As long as both a and c are ready at p, a is served before c and before all
      who were not among `was`. */
  ghost predicate Kept(k: State, p: nat, was: seq<nat>, a: nat, c: nat) {
    && Ready(p) in k.lists && k.lists[Ready(p)].cursor <= |k.lists[Ready(p)].items|
    && var ring := k.lists[Ready(p)];
       a in ring.items && c in ring.items ==>
         Before(Order(ring), a, c) && forall b :: b in ring.items && b !in was ==> Before(Order(ring), a, b)
  }

  // ----- Rings -----------------------------------------------------------------------------------

  lemma OrderHas(r: Ring<nat>, x: nat)
    requires r.cursor <= |r.items|
    ensures x in Order(r) <==> x in r.items
  {
    assert r.items == r.items[..r.cursor] + r.items[r.cursor..];
  }

  /** One more in front of the last one, or behind it, comes behind everybody who is
      before somebody. */
  lemma NewcomerBehind(s: seq<nat>, x: nat, n: nat, a: nat, c: nat)
    requires Before(s, a, c) && |s| - 1 <= n <= |s|
    ensures var s' := s[..n] + [x] + s[n..];
            Before(s', a, c) && Before(s', a, x) && forall b :: Before(s, a, b) ==> Before(s', a, b)
  {
    var s' := s[..n] + [x] + s[n..];
    var i, j :| 0 <= i < j < |s| && s[i] == a && s[j] == c;
    assert s'[i] == a && s'[n] == x;
    forall b | Before(s, a, b) ensures Before(s', a, b) {
      var i', j' :| 0 <= i' < j' < |s| && s[i'] == a && s[j'] == b;
      assert s'[if i' < n then i' else i' + 1] == a && s'[if j' < n then j' else j' + 1] == b;
    }
  }

  lemma LeaverBehind(s: seq<nat>, n: nat, a: nat, b: nat)
    requires n < |s| && Before(s, a, b) && a != s[n] && b != s[n]
    ensures Before(s[..n] + s[n + 1..], a, b)
  {
    var s' := s[..n] + s[n + 1..];
    var i, j :| 0 <= i < j < |s| && s[i] == a && s[j] == b;
    assert s'[if i < n then i else i - 1] == a && s'[if j < n then j else j - 1] == b;
  }

  // ----- List operations -------------------------------------------------------------------------

  lemma DetachKept(k: State, x: nat, m: ListId, p: nat, was: seq<nat>, a: nat, c: nat)
    requires Placed(k) && m in k.lists && In(k, x, m) && Kept(k, p, was, a, c)
    ensures Kept(Detach(k, x, m), p, was, a, c)
  {
    var ring := k.lists[Ready(p)];
    if m == Ready(p) {
      RemoveKeeps(ring, x);
      hide Placed, Order, Remove;
      var k' := Detach(k, x, m);
      var ring' := k'.lists[m];
      if a in ring'.items && c in ring'.items {
        RemovedBefore(ring, x, a, c);
        forall b | b in ring'.items && b !in was ensures Before(Order(ring'), a, b) {
          RemovedBefore(ring, x, a, b);
        }
      }
    }
  }

  lemma RemovedBefore(ring: Ring<nat>, x: nat, a: nat, b: nat)
    requires ring.WellFormed() && x in ring.items && a != x && b != x && Before(Order(ring), a, b)
    ensures Remove(ring, x).cursor <= |Remove(ring, x).items|
    ensures Before(Order(Remove(ring, x)), a, b)
  {
    var j := IndexOf(ring.items, x);
    RemoveKeepsOrder(ring, j);
    hide Order;
    LeaverBehind(Order(ring), if j < ring.cursor then j + (|ring.items| - ring.cursor) else j - ring.cursor, a, b);
  }

  lemma AttachEndKept(k: State, x: nat, m: ListId, p: nat, was: seq<nat>, a: nat, c: nat)
    requires Placed(k) && m in k.lists && x < |k.tasks| && k.tasks[x].Container(m) == None && Kept(k, p, was, a, c)
    requires m == Ready(p) ==> x != a && x != c
    ensures Kept(AttachEnd(k, x, m), p, was, a, c)
  {
    if m == Ready(p) {
      var ring := k.lists[m];
      var ring' := EndInsert(ring, x);
      EndInsertKeeps(ring, x);
      hide Placed, Order, EndInsert;
      if a in ring.items && c in ring.items { RingGrows(ring, x, a, c); }
      assert AttachEnd(k, x, m).lists[m] == ring';
    }
  }

  /** An end-insert keeps a before everybody it was before, and puts it before x. */
  lemma RingGrows(ring: Ring<nat>, x: nat, a: nat, c: nat)
    requires ring.WellFormed() && x !in ring.items && Before(Order(ring), a, c)
    ensures EndInsert(ring, x).cursor <= |EndInsert(ring, x).items|
    ensures var s' := Order(EndInsert(ring, x));
            Before(s', a, c) && Before(s', a, x) && forall b :: Before(Order(ring), a, b) ==> Before(s', a, b)
  {
    EndInsertDelaysOnlyCursor(ring, x);
    var s, n := Order(ring), if ring.cursor == 0 then |ring.items| else |ring.items| - 1;
    assert Order(EndInsert(ring, x)) == s[..n] + [x] + s[n..];
    hide Order, EndInsert, Before;
    NewcomerBehind(s, x, n, a, c);
  }

  lemma SameKept(k: State, k': State, p: nat, was: seq<nat>, a: nat, c: nat)
    requires Kept(k, p, was, a, c) && Ready(p) in k'.lists && k'.lists[Ready(p)] == k.lists[Ready(p)]
    ensures Kept(k', p, was, a, c)
  {
  }

  // ----- Building blocks -------------------------------------------------------------------------

  lemma AddReadyKept(k: State, x: nat, p: nat, was: seq<nat>, a: nat, c: nat)
    requires Placed(k) && PriosOk(k) && x < |k.tasks| && k.tasks[x].home == None && Kept(k, p, was, a, c)
    requires k.tasks[x].prio == p ==> x != a && x != c
    ensures Kept(AddReady(k, x), p, was, a, c)
  {
    var q := k.tasks[x].prio;
    var k1 := k.(top := if q > k.top then q else k.top);
    SameStructure(k, k1);
    FixedLists(k1);
    hide Placed, AttachEnd, Kept;
    KeptIn(k, p, was, a, c);
    SameKept(k, SetValue(k1, x, q), p, was, a, c);
    AttachEndKept(SetValue(k1, x, q), x, Ready(q), p, was, a, c);
  }

  lemma KeptIn(k: State, p: nat, was: seq<nat>, a: nat, c: nat)
    requires Kept(k, p, was, a, c)
    ensures Ready(p) in k.lists
  {
  }

  lemma ReprioritiseKept(k: State, x: nat, q: nat, p: nat, was: seq<nat>, a: nat, c: nat)
    requires Placed(k) && PriosOk(k) && x < |k.tasks| && k.tasks[x].base <= q < MaxPriorities && Kept(k, p, was, a, c)
    requires q == p ==> x != a && x != c
    ensures Kept(Reprioritise(k, x, q), p, was, a, c)
  {
    hide Placed, Kept, AddReady;
    IsInContainers(k, x);
    KeptIn(k, p, was, a, c);
    var l := Ready(k.tasks[x].prio);
    if k.tasks[x].home == Some(l) {
      DetachKept(k, x, l, p, was, a, c);
      var k1 := Detach(k, x, l);
      SameKept(k1, SetPrio(k1, x, q), p, was, a, c);
      AddReadyKept(SetPrio(k1, x, q), x, p, was, a, c);
    } else {
      SameKept(k, SetPrio(k, x, q), p, was, a, c);
    }
  }

  lemma WakeWaiterKept(k: State, l: ListId, p: nat, was: seq<nat>, a: nat, c: nat)
    requires Placed(k) && PriosOk(k) && Homed(k) && l in k.lists && l.IsEvent() && Kept(k, p, was, a, c)
    requires k.lists[l].items != [] ==> k.lists[l].items[0] != a && k.lists[l].items[0] != c
    ensures Kept(WakeWaiter(k, l), p, was, a, c)
  {
    hide Placed, Kept, AddReady;
    if k.lists[l].items != [] {
      var x := k.lists[l].items[0];
      HeadIsIn(k, l);
      DetachKept(k, x, l, p, was, a, c);
      var k1 := Detach(k, x, l);
      IsInContainers(k1, x);
      DetachKept(k1, x, k1.tasks[x].home.value, p, was, a, c);
      AddReadyKept(Detach(k1, x, k1.tasks[x].home.value), x, p, was, a, c);
    }
  }

  lemma WakeSleeperKept(k: State, x: nat, p: nat, was: seq<nat>, a: nat, c: nat)
    requires Placed(k) && PriosOk(k) && In(k, x, Delayed) && Kept(k, p, was, a, c) && x != a && x != c
    ensures Kept(WakeSleeper(k, x), p, was, a, c)
  {
    hide Placed, Kept, AddReady;
    FixedLists(k);
    DetachKept(k, x, Delayed, p, was, a, c);
    var k1 := Detach(k, x, Delayed);
    IsInContainers(k1, x);
    if k1.tasks[x].wait.Some? {
      DetachKept(k1, x, k1.tasks[x].wait.value, p, was, a, c);
      AddReadyKept(Detach(k1, x, k1.tasks[x].wait.value), x, p, was, a, c);
    } else {
      AddReadyKept(k1, x, p, was, a, c);
    }
  }

  ghost predicate Asleep(k: State, t: nat) {
    t < |k.tasks| && k.tasks[t].home == Some(Delayed)
  }

  lemma {:induction false} WakeSleepersKept(k: State, p: nat, was: seq<nat>, a: nat, c: nat)
    requires BeforeWake(k) && Kept(k, p, was, a, c) && !Asleep(k, a) && !Asleep(k, c)
    ensures Kept(WakeSleepers(k), p, was, a, c)
    decreases |k.lists[Delayed].items|
  {
    FixedLists(k);
    hide Placed, TaskOk, ListSorted, PriosOk, WakeSleeper, Kept;
    var d := k.lists[Delayed].items;
    if d != [] && (HeadIsIn(k, Delayed); k.tasks[d[0]].value <= k.tick) {
      HeadIsIn(k, Delayed);
      WakeSleeperOk(k, d[0], k.tick - 1);
      WakeSleeperKept(k, d[0], p, was, a, c);
      WakeSleepersKept(WakeSleeper(k, d[0]), p, was, a, c);
    }
  }

  lemma BlockKept(k: State, x: nat, l: ListId, wait: nat, p: nat, was: seq<nat>, a: nat, c: nat)
    requires Placed(k) && PriosOk(k) && l in k.lists && l.IsEvent() && Kept(k, p, was, a, c)
    requires x < |k.tasks| && k.tasks[x].home.Some? && k.tasks[x].wait == None
    ensures Kept(Block(k, x, l, wait).(yielding := true), p, was, a, c)
  {
    hide Placed, Kept;
    IsInContainers(k, x);
    DetachKept(k, x, k.tasks[x].home.value, p, was, a, c);
    var k1 := Detach(k, x, k.tasks[x].home.value);
    KeptIn(k1, p, was, a, c);
    SameKept(k1, Block(k, x, l, wait).(yielding := true), p, was, a, c);
  }

  lemma SleepKept(k: State, x: nat, ticks: nat, p: nat, was: seq<nat>, a: nat, c: nat)
    requires Placed(k) && PriosOk(k) && x < |k.tasks| && k.tasks[x].home.Some? && Kept(k, p, was, a, c)
    ensures Kept(Sleep(k, x, ticks).(yielding := true), p, was, a, c)
  {
    hide Placed, Kept;
    IsInContainers(k, x);
    DetachKept(k, x, k.tasks[x].home.value, p, was, a, c);
    var k1 := Detach(k, x, k.tasks[x].home.value);
    KeptIn(k1, p, was, a, c);
    SameKept(k1, Sleep(k, x, ticks).(yielding := true), p, was, a, c);
  }

  // ----- Steps -----------------------------------------------------------------------------------

  /** a and c are ready at p, and a is served first. */
  ghost predicate FirstOf(k: State, p: nat, a: nat, c: nat) {
    && Ready(p) in k.lists && k.lists[Ready(p)].cursor <= |k.lists[Ready(p)].items|
    && Before(Order(k.lists[Ready(p)]), a, c)
  }

  ghost predicate ReadyAt(k: State, t: nat, p: nat) {
    t < |k.tasks| && k.tasks[t].prio == p && k.tasks[t].home == Some(Ready(p)) && k.tasks[t].wait == None
  }

  lemma BothReady(k: State, p: nat, a: nat, c: nat)
    requires Inv(k) && FirstOf(k, p, a, c)
    ensures Kept(k, p, k.lists[Ready(p)].items, a, c) && p < MaxPriorities
    ensures ReadyAt(k, a, p) && ReadyAt(k, c, p)
  {
    assert ListExists(k, Ready(p));
    OrderHas(k.lists[Ready(p)], a);
    OrderHas(k.lists[Ready(p)], c);
    assert In(k, a, Ready(p)) && In(k, c, Ready(p));
    assert TaskOk(k.tasks[a], k.top, k.tick) && TaskOk(k.tasks[c], k.top, k.tick);
  }

  lemma SendKept(k: State, step: Step, p: nat, a: nat, c: nat)
    requires Inv(k) && Enabled(k, step) && step.TrySend? && FirstOf(k, p, a, c)
    ensures Kept(Apply(k, step), p, k.lists[Ready(p)].items, a, c)
  {
    hide Placed, ListSorted, TaskOk, BoostsOk, IdleOk, Deposit, WakeWaiter, QueuesOk, Kept, FirstOf;
    InvBasics(k);
    BothReady(k, p, a, c);
    FirstIn(k, p, a, c);
    var q, was := step.q, k.lists[Ready(p)].items;
    HolderExists(k, q);
    EventLists(k, q);
    if |k.queues[q].contents| < k.queues[q].length {
      var k1 := Deposit(k, q, step.item, step.front);
      DepositOk(k, q, step.item, step.front);
      DepositLists(k, q, step.item, step.front);
      DepositKept(k, q, step.item, step.front, p, was, a, c);
      HeadIsIn(k1, Receivers(q));
      WakeWaiterKept(k1, Receivers(q), p, was, a, c);
    }
  }

  lemma FirstIn(k: State, p: nat, a: nat, c: nat)
    requires FirstOf(k, p, a, c)
    ensures Ready(p) in k.lists
  {
  }

  lemma DepositKept(k: State, q: nat, item: Item, front: bool, p: nat, was: seq<nat>, a: nat, c: nat)
    requires Placed(k) && PriosOk(k) && q < |k.queues| && Kept(k, p, was, a, c)
    requires k.queues[q].holder.Some? ==> k.queues[q].holder.value < |k.tasks|
    requires a < |k.tasks| && c < |k.tasks| && k.tasks[a].prio == k.tasks[c].prio == p
    ensures Kept(Deposit(k, q, item, front), p, was, a, c)
  {
    hide Placed, Kept, Reprioritise;
    KeptIn(k, p, was, a, c);
    var queue := k.queues[q];
    var contents := if front then [item] + queue.contents else queue.contents + [item];
    var k1 := SetQueue(k, q, queue.(contents := contents));
    SameKept(k, k1, p, was, a, c);
    if queue.mutex {
      if queue.holder.Some? && k.tasks[queue.holder.value].prio != k.tasks[queue.holder.value].base {
        ReprioritiseKept(k1, queue.holder.value, k.tasks[queue.holder.value].base, p, was, a, c);
      }
      KeptIn(Disinherit(k1, queue.holder), p, was, a, c);
      SameKept(Disinherit(k1, queue.holder), Deposit(k, q, item, front), p, was, a, c);
    }
  }

  lemma ReceiveKept(k: State, step: Step, p: nat, a: nat, c: nat)
    requires Inv(k) && Enabled(k, step) && step.TryReceive? && FirstOf(k, p, a, c)
    ensures Kept(Apply(k, step), p, k.lists[Ready(p)].items, a, c)
  {
    hide Placed, ListSorted, TaskOk, BoostsOk, IdleOk, WakeWaiter, QueuesOk, Kept, FirstOf;
    InvBasics(k);
    BothReady(k, p, a, c);
    FirstIn(k, p, a, c);
    EventLists(k, step.q);
    var queue := k.queues[step.q];
    if queue.contents != [] {
      var k1 := SetQueue(k, step.q, queue.(contents := queue.contents[1..],
                                           holder := if queue.mutex then k.current else queue.holder));
      SameKept(k, k1, p, k.lists[Ready(p)].items, a, c);
      HeadIsIn(k1, Senders(step.q));
      WakeWaiterKept(k1, Senders(step.q), p, k.lists[Ready(p)].items, a, c);
    }
  }

  lemma ParkKept(k: State, step: Step, p: nat, a: nat, c: nat)
    requires Inv(k) && Enabled(k, step) && (step.BlockToSend? || step.BlockToReceive? || step.DelayFor?)
    requires FirstOf(k, p, a, c)
    ensures Kept(Apply(k, step), p, k.lists[Ready(p)].items, a, c)
  {
    hide Placed, ListSorted, TaskOk, BoostsOk, IdleOk, QueuesOk, Kept, FirstOf, Block, Sleep, Inherit;
    InvBasics(k);
    CallerReady(k);
    BothReady(k, p, a, c);
    FirstIn(k, p, a, c);
    var x, was := k.current.value, k.lists[Ready(p)].items;
    if step.DelayFor? {
      if step.ticks > 0 { SleepKept(k, x, step.ticks, p, was, a, c); }
    } else {
      EventLists(k, step.q);
      if step.BlockToSend? {
        BlockKept(k, x, Senders(step.q), step.wait, p, was, a, c);
      } else {
        HolderExists(k, step.q);
        var holder := k.queues[step.q].holder;
        InheritOk(k, holder);
        InheritKept(k, holder, p, was, a, c);
        var k1 := if k.queues[step.q].mutex then Inherit(k, holder) else k;
        EventLists(k1, step.q);
        BlockKept(k1, x, Receivers(step.q), step.wait, p, was, a, c);
      }
    }
  }

  lemma InheritKept(k: State, holder: Option<nat>, p: nat, was: seq<nat>, a: nat, c: nat)
    requires Placed(k) && PriosOk(k) && (holder.Some? ==> holder.value < |k.tasks|)
    requires k.current.Some? && k.current.value < |k.tasks| && Kept(k, p, was, a, c)
    requires a < |k.tasks| && c < |k.tasks| && k.tasks[a].prio == k.tasks[c].prio == p
    ensures Kept(Inherit(k, holder), p, was, a, c)
  {
    hide Placed, Kept, Reprioritise;
    if holder.Some? && k.tasks[holder.value].prio < k.tasks[k.current.value].prio {
      ReprioritiseKept(k, holder.value, k.tasks[k.current.value].prio, p, was, a, c);
    }
  }

  lemma TickKept(k: State, p: nat, a: nat, c: nat)
    requires Inv(k) && Enabled(k, TickInterrupt) && FirstOf(k, p, a, c)
    ensures Kept(Apply(k, TickInterrupt), p, k.lists[Ready(p)].items, a, c)
  {
    hide BeforeWake, Kept, Placed, PriosOk, Sorted, TasksOk, QueuesOk, BoostsOk, FirstOf;
    InvBasics(k);
    TickBegins(k);
    BothReady(k, p, a, c);
    FirstIn(k, p, a, c);
    var k1 := k.(tick := k.tick + 1);
    SameKept(k, k1, p, k.lists[Ready(p)].items, a, c);
    WakeSleepersKept(k1, p, k.lists[Ready(p)].items, a, c);
  }

  lemma BirthKept(k: State, step: Step, p: nat, a: nat, c: nat)
    requires Inv(k) && Enabled(k, step) && (step.Create? || step.Start?) && FirstOf(k, p, a, c)
    ensures Kept(Apply(k, step), p, k.lists[Ready(p)].items, a, c)
  {
    hide Kept, Placed, Sorted, TasksOk, QueuesOk, BoostsOk, CurrentOk, FirstOf, AddReady;
    InvBasics(k);
    BothReady(k, p, a, c);
    FirstIn(k, p, a, c);
    var was := k.lists[Ready(p)].items;
    var prio := if step.Create? then step.prio else 0;
    var q := if prio >= MaxPriorities then MaxPriorities - 1 else prio;
    var k1 := k.(tasks := k.tasks + [Task(q, q, 0, None, None)],
                 current := if k.current == None then Some(|k.tasks|) else k.current);
    UnlistedTask(k, k1, Task(q, q, 0, None, None));
    SameKept(k, k1, p, was, a, c);
    AddReadyKept(k1, |k.tasks|, p, was, a, c);
    KeptIn(CreateTask(k, prio), p, was, a, c);
    SameKept(CreateTask(k, prio), CreateTask(k, prio).(idle := Some(|k.tasks|), tick := 0), p, was, a, c);
  }

  lemma QuietKept(k: State, step: Step, p: nat, a: nat, c: nat)
    requires Inv(k) && Enabled(k, step) && FirstOf(k, p, a, c)
    requires step.CreateQueue? || step.CreateCounting? || step.CreateMutex? || step.SetInheritance?
    ensures Kept(Apply(k, step), p, k.lists[Ready(p)].items, a, c)
  {
    hide Kept, Placed, Sorted, TasksOk, QueuesOk, BoostsOk, FirstOf;
    InvBasics(k);
    BothReady(k, p, a, c);
    FirstIn(k, p, a, c);
    if step.CreateMutex? { MutexStartsAvailable(k); }
    SameKept(k, Apply(k, step), p, k.lists[Ready(p)].items, a, c);
  }

  /** Nobody jumps the queue: of two tasks of one priority that stay ready, every
      step but a context switch keeps the order of service, and puts all who become
      ready at that priority behind the first of them. So a newcomer comes in front of
      the last in the order at most. */
  lemma NobodyJumpsTheQueue(k: State, step: Step, p: nat, a: nat, c: nat)
    requires Inv(k) && Enabled(k, step) && step != SwitchContext && FirstOf(k, p, a, c)
    ensures Kept(Apply(k, step), p, k.lists[Ready(p)].items, a, c)
  {
    hide Inv, Enabled, Apply, FirstOf, Kept;
    match step
    case Create(_, _) => BirthKept(k, step, p, a, c);
    case Start => BirthKept(k, step, p, a, c);
    case DelayFor(_) => ParkKept(k, step, p, a, c);
    case TrySend(_, _, _) => SendKept(k, step, p, a, c);
    case BlockToSend(_, _) => ParkKept(k, step, p, a, c);
    case TryReceive(_) => ReceiveKept(k, step, p, a, c);
    case BlockToReceive(_, _) => ParkKept(k, step, p, a, c);
    case TickInterrupt => TickKept(k, p, a, c);
    case _ => QuietKept(k, step, p, a, c);
  }

  /** A context switch sends the task it selects to the back of its own order, and
      touches no other list. */
  lemma SwitchRotates(k: State)
    requires Inv(k) && Enabled(k, SwitchContext)
    ensures var k' := Apply(k, SwitchContext);
            && k'.current.Some? && k'.current.value < |k.tasks|
            && var l := Ready(k.tasks[k'.current.value].prio);
               && l in k.lists && l in k'.lists && k.lists[l].items != []
               && k.lists[l].cursor <= |k.lists[l].items| && k'.lists[l].cursor <= |k'.lists[l].items|
               && Order(k'.lists[l]) == Order(k.lists[l])[1..] + [k'.current.value]
               && k'.lists.Keys == k.lists.Keys && forall m :: m in k.lists && m != l ==> k'.lists[m] == k.lists[m]
  {
    SwitchSelectsHighest(k);
    IdleReady(k);
    var k' := Apply(k, SwitchContext);
    var p := TopReady(k, k.top);
    AdvanceRotates(k.lists[Ready(p)]);
    assert k'.current.value in k.lists[Ready(p)].items;
    assert In(k, k'.current.value, Ready(p));
    assert TaskOk(k.tasks[k'.current.value], k.top, k.tick);
  }
}
