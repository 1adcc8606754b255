/** The atomic steps of the kernel, and that each of them keeps the invariant. */
module KernelSteps {
  import opened Common
  import opened Rings
  import opened KernelState
  import opened KernelInvariant

  /** `memory`: whether pvPortMalloc gives a creating call what it asks for. */
  datatype Step =
    | Create(prio: nat, memory: bool)                 // xTaskCreate
    | Start                                           // vTaskStartScheduler
    | DelayFor(ticks: nat)                            // vTaskDelay
    | TrySend(q: nat, item: Item, front: bool)        // prvSend, queue section
    | BlockToSend(q: nat, wait: nat)                  // prvSend, blocking section
    | TryReceive(q: nat)                              // xQueueReceive, queue section
    | BlockToReceive(q: nat, wait: nat)               // xQueueReceive, blocking section
    | TickInterrupt                                   // xTaskIncrementTick
    | SwitchContext                                   // vTaskSwitchContext
    | CreateQueue(length: nat, itemSize: nat, memory: bool) // xQueueCreate
    | CreateCounting(max: nat, initial: nat, memory: bool) // xQueueCreateCounting
    | CreateMutex(memory: bool)                       // xQueueCreateMutex
    | SetInheritance(on: bool)                        // vTaskSetMutexInheritance

  /** Somebody calls into the kernel: main() before the scheduler starts, with or
      without a task created, or a running task that has not just blocked itself
      and is not the idle task, which never calls. */
  ghost predicate Calling(k: State) {
    !k.yielding && (k.idle.Some? ==> k.current != k.idle)
  }

  /** Only a task of the running scheduler blocks or delays itself. */
  ghost predicate MayBlock(k: State) {
    k.idle.Some? && Calling(k)
  }

  /** A timeout that ends before the 32-bit tick count wraps, or none. */
  ghost predicate WaitOk(k: State, wait: nat) {
    wait == MaxDelay || (0 < wait && k.tick + wait <= MaxDelay)
  }

  ghost predicate Enabled(k: State, step: Step) {
    match step
    case Create(_, _) => true
    case Start => k.idle == None
    case DelayFor(ticks) => MayBlock(k) && k.tick + ticks <= MaxDelay
    case TrySend(q, item, _) => Calling(k) && q < |k.queues| && |item| == k.queues[q].itemSize
    case BlockToSend(q, wait) => MayBlock(k) && q < |k.queues| && WaitOk(k, wait)
    case TryReceive(q) => Calling(k) && q < |k.queues|
    case BlockToReceive(q, wait) => MayBlock(k) && q < |k.queues| && WaitOk(k, wait)
    case TickInterrupt => k.idle.Some? && k.tick < MaxDelay
    case SwitchContext => k.idle.Some?
    case CreateQueue(_, _, _) => true
    case CreateCounting(max, initial, _) => initial <= max
    case CreateMutex(_) => true
    case SetInheritance(_) => true
  }

  lemma InvBasics(k: State)
    requires Inv(k)
    ensures PriosOk(k) && Homed(k)
  {
    forall t | 0 <= t < |k.tasks|
      ensures k.tasks[t].base <= k.tasks[t].prio < MaxPriorities && k.tasks[t].home.Some?
    {
      assert TaskOk(k.tasks[t], k.top, k.tick);
    }
  }

  lemma IdleReady(k: State)
    requires Inv(k) && k.idle.Some?
    ensures k.idle.value in k.lists[Ready(0)].items && k.lists[Ready(0)].items != []
  {
    assert In(k, k.idle.value, Ready(0));
  }

  // ----- Waking the expired sleepers ------------------------------------------

  /** k' is k after its expired sleepers, and only they, were woken. */
  ghost predicate Woken(k: State, k': State) {
    && TasksOk(k', k.tick) && Sorted(k') && k'.top < MaxPriorities
    && k' == k.(tasks := k'.tasks, lists := k'.lists, top := k'.top)
    && |k'.tasks| == |k.tasks|
    && forall t :: 0 <= t < |k.tasks| ==>
         k'.tasks[t] == if k.tasks[t].home == Some(Delayed) && k.tasks[t].value <= k.tick
                        then Awake(k.tasks[t]) else k.tasks[t]
  }

  /** What the loop of xTaskIncrementTick starts from. */
  ghost predicate BeforeWake(k: State) {
    && Placed(k) && PriosOk(k) && Sorted(k) && k.top < MaxPriorities && TasksOk(k, k.tick - 1)
  }

  lemma TickBegins(k: State)
    requires Inv(k)
    ensures BeforeWake(k.(tick := k.tick + 1))
  {
    InvBasics(k);
    SameTasksKeepOrder(k, k.(tick := k.tick + 1));
  }

  /** When the loop of xTaskIncrementTick ends, nobody sleeps past his tick. */
  lemma {:induction false} WakeSleepersOk(k: State)
    requires BeforeWake(k)
    ensures Woken(k, WakeSleepers(k))
    decreases |k.lists[Delayed].items|
  {
    hide Placed, TaskOk, ListSorted, WakeSleeper, PriosOk;
    FixedLists(k);
    var d := k.lists[Delayed].items;
    if d != [] && (HeadIsIn(k, Delayed); k.tasks[d[0]].value <= k.tick) {
      HeadIsIn(k, Delayed);
      var k1 := WakeSleeper(k, d[0]);
      WakeSleeperOk(k, d[0], k.tick - 1);
      WakeSleepersOk(k1);
    } else {
      NobodyWoken(k);
    }
  }

  lemma NobodyWoken(k: State)
    requires BeforeWake(k)
    requires var d := k.lists[Delayed].items; d != [] ==> (HeadIsIn(k, Delayed); k.tasks[d[0]].value > k.tick)
    ensures Woken(k, k)
  {
    NobodyExpired(k);
    hide Placed, PriosOk, Sorted;
  }

  lemma NobodyExpired(k: State)
    requires Placed(k) && Sorted(k)
    requires var d := k.lists[Delayed].items; d != [] ==> (assert d[0] in d; k.tasks[d[0]].value > k.tick)
    ensures forall t :: 0 <= t < |k.tasks| && k.tasks[t].home == Some(Delayed) ==> k.tasks[t].value > k.tick
  {
    var d := k.lists[Delayed].items;
    assert ListSorted(k, Delayed);
    forall t | 0 <= t < |k.tasks| && k.tasks[t].home == Some(Delayed)
      ensures k.tasks[t].value > k.tick
    {
      assert In(k, t, Delayed);
      assert t in d;
    }
  }

  // ----- The step function ----------------------------------------------------

  /** The running task blocks itself on l and asks for a context switch. */
  function BlockCurrent(k: State, l: ListId, wait: nat): State
    requires Placed(k) && PriosOk(k) && l in k.lists && l.IsEvent()
    requires k.current.Some? && k.current.value < |k.tasks|
    requires k.tasks[k.current.value].home.Some? && k.tasks[k.current.value].wait == None
  {
    Block(k, k.current.value, l, wait).(yielding := true)
  }

  lemma CallerReady(k: State)
    requires Inv(k) && MayBlock(k)
    ensures k.current.Some? && k.current.value < |k.tasks|
    ensures var task := k.tasks[k.current.value];
            task.home == Some(Ready(task.prio)) && task.wait == None
  {
    assert TaskOk(k.tasks[k.current.value], k.top, k.tick);
  }

  lemma InheritOk(k: State, holder: Option<nat>)
    requires Inv(k) && PriosOk(k)
    requires holder.Some? ==> holder.value < |k.tasks|
    ensures var k' := Inherit(k, holder);
            && TasksOk(k', k'.tick) && Sorted(k') && k'.top < MaxPriorities
            && |k'.tasks| == |k.tasks|
            && (forall t :: 0 <= t < |k.tasks| ==> SameButPrio(k.tasks[t], k'.tasks[t]))
            && (forall t :: 0 <= t < |k.tasks| && Some(t) != holder ==> k'.tasks[t] == k.tasks[t])
            && (k.current.Some? ==> k'.tasks[k.current.value] == k.tasks[k.current.value])
            && k' == k.(tasks := k'.tasks, lists := k'.lists, top := k'.top)
  {
    hide Placed, TaskOk, ListSorted, Reprioritise, QueuesOk, BoostsOk, IdleOk;
    if holder.Some? && k.current.Some? && k.inherit {
      var p := k.tasks[k.current.value].prio;
      if k.tasks[holder.value].prio < p { ReprioritiseOk(k, holder.value, p); }
    }
  }

  /** The same task, possibly at another priority: ready, delayed, suspended and
      waiting exactly as before. */
  ghost predicate SameButPrio(a: Task, b: Task) {
    && b.base == a.base && b.wait == a.wait
    && (a.home == Some(Ready(a.prio)) ==> b.home == Some(Ready(b.prio)))
    && (a.home != Some(Ready(a.prio)) ==> b == a.(prio := b.prio))
  }

  lemma DisinheritOk(k: State, holder: Option<nat>)
    requires Placed(k) && Sorted(k) && TasksOk(k, k.tick) && k.top < MaxPriorities && PriosOk(k)
    requires holder.Some? ==> holder.value < |k.tasks|
    ensures var k' := Disinherit(k, holder);
            && TasksOk(k', k'.tick) && Sorted(k') && k'.top < MaxPriorities
            && |k'.tasks| == |k.tasks|
            && (forall t :: 0 <= t < |k.tasks| ==> SameButPrio(k.tasks[t], k'.tasks[t]))
            && (forall t :: 0 <= t < |k.tasks| && Some(t) != holder ==> k'.tasks[t] == k.tasks[t])
            && (holder.Some? ==> k'.tasks[holder.value].prio == k.tasks[holder.value].base)
            && k' == k.(tasks := k'.tasks, lists := k'.lists, top := k'.top)
  {
    hide Placed, TaskOk, ListSorted, Reprioritise;
    if holder.Some? && k.tasks[holder.value].prio != k.tasks[holder.value].base {
      ReprioritiseOk(k, holder.value, k.tasks[holder.value].base);
    }
  }

  /** An empty counting semaphore with n tokens in it. */
  function Tokens(n: nat): (items: seq<Item>)
    ensures |items| == n && forall i :: 0 <= i < n ==> items[i] == []
  {
    seq(n, _ => [])
  }

  function Apply(k: State, step: Step): State
    requires Inv(k) && Enabled(k, step)
  {
    InvBasics(k);
    match step
    case Create(prio, memory) => if memory then CreateTask(k, prio) else k
    case Start => CreateTask(k, 0).(idle := Some(|k.tasks|), tick := 0)
    case DelayFor(ticks) =>
      CallerReady(k);
      if ticks == 0 then k else Sleep(k, k.current.value, ticks).(yielding := true)
    case TrySend(q, item, front) =>
      if |k.queues[q].contents| < k.queues[q].length then Send(k, q, item, front) else k
    case BlockToSend(q, wait) =>
      CallerReady(k);
      BlockCurrent(k, Senders(q), wait)
    case TryReceive(q) =>
      if k.queues[q].contents != [] then Receive(k, q) else k
    case BlockToReceive(q, wait) =>
      CallerReady(k); InheritOk(k, k.queues[q].holder);
      BlockCurrent(if k.queues[q].mutex then Inherit(k, k.queues[q].holder) else k, Receivers(q), wait)
    case TickInterrupt => Tick(k)
    case SwitchContext => IdleReady(k); Switch(k)
    case CreateQueue(length, itemSize, memory) =>
      if length == 0 || !memory then k else AddQueue(k, Queue(length, itemSize, [], false, None))
    case CreateCounting(max, initial, memory) =>
      if max == 0 || !memory then k else AddQueue(k, Queue(max, 0, Tokens(initial), false, None))
    case CreateMutex(memory) =>
      if !memory then k else Send(AddQueue(k, Queue(1, 0, [], true, None)), |k.queues|, [], false)
    case SetInheritance(on) => k.(inherit := on)
  }

  /** k' is what the step makes of k. */
  ghost predicate Performs(k: State, step: Step, k': State) {
    Inv(k) && Enabled(k, step) && k' == Apply(k, step)
  }

  // ----- Preservation, step by step -------------------------------------------

  /** The tasks may only have moved or changed priority within their rights; the
      queues are as before. */
  lemma SameQueuesInv(k: State, k': State)
    requires Inv(k) && Placed(k') && Sorted(k') && TasksOk(k', k'.tick)
    requires k'.queues == k.queues && |k'.tasks| >= |k.tasks|
    requires forall t :: 0 <= t < |k.tasks| ==> k'.tasks[t].base == k.tasks[t].base
    requires BoostsOk(k') && CurrentOk(k')
    requires k'.top < MaxPriorities && k'.tick <= MaxDelay
    requires k'.idle == k.idle && (k.idle.Some? ==> k'.tasks[k.idle.value].home == Some(Ready(0)))
    ensures Inv(k')
  {
    forall q | 0 <= q < |k'.queues| ensures QueueOk(k'.queues[q], |k'.tasks|) {
      assert QueueOk(k.queues[q], |k.tasks|);
    }
    assert forall t :: Holds(k', t) <==> Holds(k, t);
  }

  lemma CreateTaskEffect(k: State, prio: nat)
    requires Inv(k) && PriosOk(k)
    ensures var k' := CreateTask(k, prio);
            && TasksOk(k', k'.tick) && Sorted(k') && k'.top < MaxPriorities
            && k' == k.(tasks := k'.tasks, lists := k'.lists, top := k'.top,
                        current := if k.current == None then Some(|k.tasks|) else k.current)
            && |k'.tasks| == |k.tasks| + 1 && (forall t :: 0 <= t < |k.tasks| ==> k'.tasks[t] == k.tasks[t])
            && var born := k'.tasks[|k.tasks|];
               && born.prio == born.base == (if prio >= MaxPriorities then MaxPriorities - 1 else prio)
               && born.home == Some(Ready(born.prio))
  {
    hide Placed, ListExists, AttachEnd, SetValue;
    var p := if prio >= MaxPriorities then MaxPriorities - 1 else prio;
    var t := |k.tasks|;
    var k1 := k.(tasks := k.tasks + [Task(p, p, 0, None, None)],
                 current := if k.current == None then Some(t) else k.current);
    UnlistedTask(k, k1, Task(p, p, 0, None, None));
    forall l | l in k1.lists && (l.IsEvent() || l == Delayed) ensures ListSorted(k1, l) {
      assert ListSorted(k, l);
    }
    AddReadyOk(k1, t, k.tick);
  }

  lemma CreateTaskInv(k: State, prio: nat)
    requires Inv(k) && PriosOk(k)
    ensures Inv(CreateTask(k, prio))
  {
    CreateTaskEffect(k, prio);
    var k' := CreateTask(k, prio);
    forall t | 0 <= t < |k'.tasks| && k'.tasks[t].prio != k'.tasks[t].base ensures Holds(k', t) {
      assert Holds(k, t);
    }
    SameQueuesInv(k, k');
  }

  lemma StartInv(k: State)
    requires Inv(k) && k.idle == None
    ensures Inv(Apply(k, Start))
  {
    hide Placed, ListSorted, CreateTask;
    InvBasics(k);
    CreateTaskInv(k, 0);
    CreateTaskEffect(k, 0);
    var k1, k' := CreateTask(k, 0), Apply(k, Start);
    SameTasksKeepOrder(k1, k');
    SameStructure(k1, k');
    forall q | 0 <= q < |k'.queues| ensures k'.queues[q].holder != Some(|k.tasks|) {
      assert QueueOk(k.queues[q], |k.tasks|);
    }
    assert forall t :: Holds(k', t) <==> Holds(k1, t);
  }

  lemma DelayForInv(k: State, ticks: nat)
    requires Inv(k) && Enabled(k, DelayFor(ticks))
    ensures Inv(Apply(k, DelayFor(ticks)))
  {
    if ticks > 0 {
      InvBasics(k);
      CallerReady(k);
      var t := k.current.value;
      SleepOk(k, t, ticks);
      SleepKeepsOrder(k, t, ticks);
      SleptInv(k, Sleep(k, t, ticks), t);
    }
  }

  /** The running task, not the idle one, has parked itself. */
  lemma SleptInv(k: State, k1: State, t: nat)
    requires Inv(k) && k.current == Some(t) && k.current != k.idle && t < |k.tasks|
    requires Placed(k1) && Sorted(k1) && TasksOk(k1, k1.tick) && k1.top < MaxPriorities
    requires k1 == k.(tasks := k1.tasks, lists := k1.lists, top := k1.top) && |k1.tasks| == |k.tasks|
    requires forall u :: 0 <= u < |k.tasks| && u != t ==>
               k1.tasks[u].base == k.tasks[u].base
               && (k1.tasks[u].prio != k1.tasks[u].base ==> Holds(k, u))
    requires k1.tasks[t].base == k.tasks[t].base && k1.tasks[t].prio == k.tasks[t].prio
    requires k.idle.Some? ==> k1.tasks[k.idle.value].home == Some(Ready(0))
    ensures Inv(k1.(yielding := true))
  {
    var k' := k1.(yielding := true);
    SameTasksKeepOrder(k1, k');
    forall u | 0 <= u < |k'.tasks| && k'.tasks[u].prio != k'.tasks[u].base ensures Holds(k', u) {
      assert Holds(k, u);
    }
    SameQueuesInv(k, k');
  }

  lemma BlockCurrentInv(k: State, l: ListId, wait: nat)
    requires Inv(k) && PriosOk(k) && MayBlock(k) && WaitOk(k, wait) && l in k.lists && l.IsEvent()
    ensures (CallerReady(k); Inv(BlockCurrent(k, l, wait)))
  {
    CallerReady(k);
    BlockOk(k, k.current.value, l, wait);
    SleptInv(k, Block(k, k.current.value, l, wait), k.current.value);
  }

  lemma BlockToSendInv(k: State, q: nat, wait: nat)
    requires Inv(k) && Enabled(k, BlockToSend(q, wait))
    ensures Inv(Apply(k, BlockToSend(q, wait)))
  {
    InvBasics(k);
    BlockCurrentInv(k, Senders(q), wait);
  }

  lemma InheritInv(k: State, q: nat)
    requires Inv(k) && PriosOk(k) && q < |k.queues|
    requires k.queues[q].holder.Some? ==> k.queues[q].holder.value < |k.tasks|
    ensures Inv(Inherit(k, k.queues[q].holder))
  {
    var holder := k.queues[q].holder;
    InheritOk(k, holder);
    var k' := Inherit(k, holder);
    forall t | 0 <= t < |k'.tasks| && k'.tasks[t].prio != k'.tasks[t].base ensures Holds(k', t) {
      if k'.tasks[t] == k.tasks[t] { assert Holds(k, t); }
      else { assert k'.queues[q].holder == Some(t); }
    }
    SameQueuesInv(k, k');
  }

  lemma BlockToReceiveInv(k: State, q: nat, wait: nat)
    requires Inv(k) && Enabled(k, BlockToReceive(q, wait))
    ensures Inv(Apply(k, BlockToReceive(q, wait)))
  {
    hide Placed, TasksOk, Sorted, Inherit, BoostsOk, BlockCurrent;
    InvBasics(k);
    CallerReady(k);
    assert QueueOk(k.queues[q], |k.tasks|);
    InheritOk(k, k.queues[q].holder);
    InheritInv(k, q);
    EventLists(Inherit(k, k.queues[q].holder), q);
    EventLists(k, q);
    BlockCurrentInv(if k.queues[q].mutex then Inherit(k, k.queues[q].holder) else k, Receivers(q), wait);
  }

  lemma TickInv(k: State)
    requires Inv(k) && Enabled(k, TickInterrupt)
    ensures Inv(Apply(k, TickInterrupt))
  {
    InvBasics(k);
    TickBegins(k);
    TickEffect(k);
    WokenInv(k, Tick(k));
  }

  /** A tick wakes exactly the sleepers whose time has come. */
  lemma TickEffect(k: State)
    requires Placed(k) && PriosOk(k) && BeforeWake(k.(tick := k.tick + 1))
    ensures Woken(k.(tick := k.tick + 1), Tick(k))
  {
    hide Placed, PriosOk, TaskOk, ListSorted, WakeSleepers, Woken;
    WakeSleepersOk(k.(tick := k.tick + 1));
  }

  lemma WokenInv(k: State, k': State)
    requires Inv(k) && k.tick < MaxDelay && Placed(k') && Woken(k.(tick := k.tick + 1), k')
    ensures Inv(k')
  {
    forall t | 0 <= t < |k'.tasks| && k'.tasks[t].prio != k'.tasks[t].base ensures Holds(k', t) {
      assert Holds(k, t);
    }
    SameQueuesInv(k, k');
  }

  lemma SwitchInv(k: State)
    requires Inv(k) && k.idle.Some?
    ensures Inv(Apply(k, SwitchContext))
  {
    hide KeysSorted;
    IdleReady(k);
    var k' := Switch(k);
    forall l | l in k'.lists && (l.IsEvent() || l == Delayed) ensures ListSorted(k', l) {
      assert ListSorted(k, l);
    }
    forall t | 0 <= t < |k.tasks| ensures TaskOk(k'.tasks[t], k'.top, k'.tick) {
      assert TaskOk(k.tasks[t], k.top, k.tick);
      if k.tasks[t].home == Some(Ready(k.tasks[t].prio)) {
        assert In(k, t, Ready(k.tasks[t].prio));
      }
    }
    assert forall t :: Holds(k', t) <==> Holds(k, t);
    var ring := k'.lists[Ready(k'.top)];
    assert Served(ring) in ring.items;
    assert In(k', Served(ring), Ready(k'.top));
    assert TaskOk(k'.tasks[Served(ring)], k'.top, k'.tick);
  }

  lemma AddQueueInv(k: State, queue: Queue)
    requires Inv(k) && PriosOk(k) && QueueOk(queue, 0) && queue.holder == None
    ensures Inv(AddQueue(k, queue))
  {
    var k' := AddQueue(k, queue);
    forall l | l in k'.lists && (l.IsEvent() || l == Delayed) ensures ListSorted(k', l) {
      if l in k.lists { assert ListSorted(k, l); }
    }
    forall t: nat ensures Holds(k', t) <==> Holds(k, t) {
      if Holds(k, t) {
        var q :| 0 <= q < |k.queues| && k.queues[q].holder == Some(t);
        assert k'.queues[q].holder == Some(t);
      }
    }
  }

  /** xQueueCreateMutex gives the fresh mutex once: it starts available. */
  lemma MutexStartsAvailable(k: State)
    requires Inv(k)
    ensures Apply(k, CreateMutex(true)) == (InvBasics(k); AddQueue(k, Queue(1, 0, [[]], true, None)))
  {
    InvBasics(k);
    var q, item: Item := |k.queues|, [];
    var k1, full := AddQueue(k, Queue(1, 0, [], true, None)), Queue(1, 0, [item], true, None);
    assert [] + [item] == [item];
    assert k1.queues[q := full][q := full] == k.queues + [full];
    assert k1.lists[Receivers(q)].items == [];
  }

  /** Queue q changed: its contents, and its holder if it is a mutex. The tasks
      moved within their rights. */
  lemma QueueStepInv(k: State, k': State, q: nat)
    requires Inv(k) && Placed(k') && Sorted(k') && TasksOk(k', k'.tick) && k'.top < MaxPriorities
    requires q < |k.queues| == |k'.queues| && |k'.tasks| == |k.tasks|
    requires k' == k.(tasks := k'.tasks, lists := k'.lists, top := k'.top, queues := k'.queues)
    requires forall r :: 0 <= r < |k.queues| && r != q ==> k'.queues[r] == k.queues[r]
    requires QueueOk(k'.queues[q], |k.tasks|)
    requires k'.queues[q].holder == None || (k.queues[q].holder == None && k'.queues[q].holder == k.current)
    requires Calling(k)
    requires forall t :: 0 <= t < |k.tasks| ==>
               && k'.tasks[t].base == k.tasks[t].base
               && (k'.tasks[t].prio == k.tasks[t].prio || k'.tasks[t].prio == k.tasks[t].base)
               && (k.tasks[t].home == Some(Ready(k.tasks[t].prio)) ==>
                     k'.tasks[t].home == Some(Ready(k'.tasks[t].prio)))
    requires k.queues[q].holder.Some? && k'.queues[q].holder == None ==>
               k'.tasks[k.queues[q].holder.value].prio == k.tasks[k.queues[q].holder.value].base
    ensures Inv(k')
  {
    forall t | 0 <= t < |k'.tasks| && k'.tasks[t].prio != k'.tasks[t].base ensures Holds(k', t) {
      assert Holds(k, t);
      var r :| 0 <= r < |k.queues| && k.queues[r].holder == Some(t);
      assert r != q;
      assert k'.queues[r].holder == Some(t);
    }
    if k.idle.Some? {
      assert TaskOk(k'.tasks[k.idle.value], k'.top, k'.tick);
    }
  }

  lemma DepositOk(k: State, q: nat, item: Item, front: bool)
    requires Inv(k) && PriosOk(k) && q < |k.queues|
    requires k.queues[q].holder.Some? ==> k.queues[q].holder.value < |k.tasks|
    ensures var k' := Deposit(k, q, item, front);
            var queue := k.queues[q];
            && TasksOk(k', k'.tick) && Sorted(k') && k'.top < MaxPriorities
            && |k'.tasks| == |k.tasks|
            && (forall t :: 0 <= t < |k.tasks| ==> SameButPrio(k.tasks[t], k'.tasks[t]))
            && (forall t :: 0 <= t < |k.tasks| && !(queue.mutex && queue.holder == Some(t)) ==>
                  k'.tasks[t] == k.tasks[t])
            && (queue.mutex && queue.holder.Some? ==>
                  k'.tasks[queue.holder.value].prio == k.tasks[queue.holder.value].base)
            && k' == k.(tasks := k'.tasks, lists := k'.lists, top := k'.top,
                        queues := k.queues[q := k'.queues[q]])
            && k'.queues[q] == queue.(contents := if front then [item] + queue.contents else queue.contents + [item],
                                      holder := if queue.mutex then None else queue.holder)
  {
    hide Placed, PriosOk, TaskOk, ListSorted, Disinherit, QueuesOk, BoostsOk, IdleOk, CurrentOk;
    var queue := k.queues[q];
    var contents := if front then [item] + queue.contents else queue.contents + [item];
    var k1 := SetQueue(k, q, queue.(contents := contents));
    SameTasksKeepOrder(k, k1);
    if queue.mutex {
      DisinheritOk(k1, queue.holder);
      SameTasksKeepOrder(Disinherit(k1, queue.holder), Deposit(k, q, item, front));
    }
  }

  lemma WakeWaiterInv(k: State, l: ListId)
    requires Inv(k) && PriosOk(k) && Homed(k) && l in k.lists && l.IsEvent()
    ensures Inv(WakeWaiter(k, l))
  {
    hide Placed, TaskOk, ListSorted, WakeWaiter, QueuesOk;
    WakeWaiterOk(k, l);
    var k' := WakeWaiter(k, l);
    forall t | 0 <= t < |k'.tasks| && k'.tasks[t].prio != k'.tasks[t].base ensures Holds(k', t) {
      assert Holds(k, t);
    }
    SameQueuesInv(k, k');
  }

  lemma SendInv(k: State, q: nat, item: Item, front: bool)
    requires Inv(k) && Enabled(k, TrySend(q, item, front))
    ensures Inv(Apply(k, TrySend(q, item, front)))
  {
    hide Placed, TaskOk, ListSorted, Deposit, WakeWaiter, BoostsOk;
    InvBasics(k);
    var queue := k.queues[q];
    assert QueueOk(queue, |k.tasks|);
    if |queue.contents| < queue.length {
      DepositOk(k, q, item, front);
      QueueStepInv(k, Deposit(k, q, item, front), q);
      EventLists(Deposit(k, q, item, front), q);
      WakeWaiterInv(Deposit(k, q, item, front), Receivers(q));
    }
  }

  lemma ReceiveInv(k: State, q: nat)
    requires Inv(k) && Enabled(k, TryReceive(q))
    ensures Inv(Apply(k, TryReceive(q)))
  {
    hide Placed, TaskOk, ListSorted, WakeWaiter, BoostsOk;
    InvBasics(k);
    var queue := k.queues[q];
    assert QueueOk(queue, |k.tasks|);
    if queue.contents != [] {
      var k1 := SetQueue(k, q, queue.(contents := queue.contents[1..],
                                      holder := if queue.mutex then k.current else queue.holder));
      SameTasksKeepOrder(k, k1);
      QueueStepInv(k, k1, q);
      EventLists(k1, q);
      WakeWaiterInv(k1, Senders(q));
    }
  }

  lemma SetInheritanceInv(k: State, on: bool)
    requires Inv(k) && PriosOk(k)
    ensures Inv(k.(inherit := on))
  {
    hide Placed, TaskOk, ListSorted;
    SameStructure(k, k.(inherit := on));
    SameTasksKeepOrder(k, k.(inherit := on));
    assert forall t :: Holds(k, t) <==> Holds(k.(inherit := on), t);
  }

  /** Every enabled step keeps the invariant. */
  lemma StepKeepsInv(k: State, step: Step)
    requires Inv(k) && Enabled(k, step)
    ensures Inv(Apply(k, step))
  {
    hide Placed, TasksOk, Sorted, QueuesOk, BoostsOk, IdleOk, CurrentOk, CreateTask;
    InvBasics(k);
    match step
    case Create(prio, memory) => if memory { CreateTaskInv(k, prio); }
    case Start => StartInv(k);
    case DelayFor(ticks) => DelayForInv(k, ticks);
    case TrySend(q, item, front) => SendInv(k, q, item, front);
    case BlockToSend(q, wait) => BlockToSendInv(k, q, wait);
    case TryReceive(q) => ReceiveInv(k, q);
    case BlockToReceive(q, wait) => BlockToReceiveInv(k, q, wait);
    case TickInterrupt => TickInv(k);
    case SwitchContext => SwitchInv(k);
    case CreateQueue(length, itemSize, memory) =>
      if length > 0 && memory { AddQueueInv(k, Queue(length, itemSize, [], false, None)); }
    case CreateCounting(max, initial, memory) =>
      if max > 0 && memory { AddQueueInv(k, Queue(max, 0, Tokens(initial), false, None)); }
    case CreateMutex(memory) =>
      if memory {
        MutexStartsAvailable(k);
        AddQueueInv(k, Queue(1, 0, [[]], true, None));
      }
    case SetInheritance(on) => SetInheritanceInv(k, on);
  }
}
