/** kernel/queue.c on objects: control blocks with their byte storage beside the
    scheduler they block and wake tasks through. Every critical section is proved
    against the function of KernelState that models it. */
module QueueObjects {
  import opened Common
  import opened Rings
  import opened KernelState
  import opened Scheduler
  import opened KernelInvariant
  import KernelSteps
  import KernelRuns
  import ByteQueue

  /** Queue_t without its two event lists, which the scheduler keeps. */
  class QueueControl {
    const bytes: ByteQueue.Queue
    var mutex: bool
    var holder: Option<nat>

    constructor (b: ByteQueue.Queue, m: bool)
      ensures bytes == b && mutex == m && holder == None
    {
      bytes, mutex, holder := b, m, None;
    }
  }

  /** A control block and its storage hold what the model's queue says. */
  ghost predicate QueueRep(qc: QueueControl, queue: Queue, repr: set<object>)
    reads repr
  {
    && qc in repr && qc.bytes in repr && qc.bytes.store in repr && qc.bytes.Valid()
    && qc.bytes.length == queue.length && qc.bytes.itemSize == queue.itemSize && qc.bytes.contents == queue.contents
    && qc.mutex == queue.mutex && qc.holder == queue.holder
  }

  ghost predicate OwnStorage(queues: seq<QueueControl>) {
    forall i, j :: 0 <= i < j < |queues| ==>
      queues[i] != queues[j] && queues[i].bytes != queues[j].bytes && queues[i].bytes.store != queues[j].bytes.store
  }

  ghost predicate QueuesRep(qcs: seq<QueueControl>, queues: seq<Queue>, repr: set<object>)
    reads repr
  {
    |qcs| == |queues| && OwnStorage(qcs) && forall q :: 0 <= q < |qcs| ==> QueueRep(qcs[q], queues[q], repr)
  }

  class System {
    const kernel: Kernel
    var queues: seq<QueueControl>
    ghost var repr: set<object>

    ghost predicate Valid()
      reads this, repr, kernel, kernel.repr
    {
      && this !in repr && this !in kernel.repr && kernel !in repr && repr !! kernel.repr
      && kernel.Valid() && QueuesRep(queues, kernel.k.queues, repr)
    }

    constructor (s: Kernel)
      requires s.Valid() && s.k.queues == []
      ensures Valid() && kernel == s && queues == [] && repr == {}
    {
      kernel, queues, repr := s, [], {};
    }

    /** prvCopyIn */
    method CopyIn(q: nat, item: Item, front: bool)
      requires Valid() && q < |queues| && q < |kernel.k.queues| && |item| == kernel.k.queues[q].itemSize
      requires |kernel.k.queues[q].contents| < kernel.k.queues[q].length
      modifies repr, kernel`k
      ensures Valid()
      ensures var queue := old(kernel.k).queues[q];
              var contents := if front then [item] + queue.contents else queue.contents + [item];
              kernel.k == SetQueue(old(kernel.k), q, queue.(contents := contents))
    {
      assert QueueRep(queues[q], kernel.k.queues[q], repr);
      hide Kernel.Valid, ByteQueue.Queue.Valid;
      Store(queues[q], queues, kernel.k.queues, repr, q, item, front);
      ghost var queue := kernel.k.queues[q];
      kernel.NoteQueue(q, queue.(contents := if front then [item] + queue.contents else queue.contents + [item]));
    }

    /** prvCopyOut */
    method CopyOut(q: nat) returns (item: Item)
      requires Valid() && q < |queues| && q < |kernel.k.queues| && kernel.k.queues[q].contents != []
      modifies repr, kernel`k
      ensures Valid()
      ensures var queue := old(kernel.k).queues[q];
              item == queue.contents[0]
                && kernel.k == SetQueue(old(kernel.k), q, queue.(contents := queue.contents[1..]))
    {
      assert QueueRep(queues[q], kernel.k.queues[q], repr);
      hide Kernel.Valid, ByteQueue.Queue.Valid;
      item := Fetch(queues[q], queues, kernel.k.queues, repr, q);
      ghost var queue := kernel.k.queues[q];
      kernel.NoteQueue(q, queue.(contents := queue.contents[1..]));
    }

    method SetHolder(q: nat, holder: Option<nat>)
      requires Valid() && q < |queues| && q < |kernel.k.queues|
      modifies repr, kernel`k
      ensures Valid() && kernel.k == SetQueue(old(kernel.k), q, old(kernel.k).queues[q].(holder := holder))
    {
      assert QueueRep(queues[q], kernel.k.queues[q], repr);
      hide Kernel.Valid, ByteQueue.Queue.Valid;
      WriteHolder(queues[q], queues, kernel.k.queues, repr, q, holder);
      kernel.NoteQueue(q, kernel.k.queues[q].(holder := holder));
    }

    /** The fields of a queue are those of the model. */
    lemma QueueIs(q: nat)
      requires Valid() && q < |kernel.k.queues|
      ensures q < |queues| && kernel.Valid() && kernel.k.current == kernel.current
      ensures var qc, queue := queues[q], kernel.k.queues[q];
              && qc.bytes.waiting == |queue.contents| && qc.bytes.length == queue.length
              && qc.bytes.itemSize == queue.itemSize
              && qc.mutex == queue.mutex && qc.holder == queue.holder
    {
      assert QueueRep(queues[q], kernel.k.queues[q], repr);
    }

    /** The mutex loses its holder, who loses what was inherited. */
    method Release(q: nat)
      requires Valid() && q < |kernel.k.queues|
      requires kernel.k.queues[q].holder.Some? ==> kernel.k.queues[q].holder.value < |kernel.k.tasks|
      modifies repr, kernel`k, kernel`top, kernel.repr
      ensures Valid()
      ensures Placed(old(kernel.k)) && PriosOk(old(kernel.k))
      ensures var k1 := Disinherit(old(kernel.k), old(kernel.k).queues[q].holder);
              q < |k1.queues| && kernel.k == SetQueue(k1, q, k1.queues[q].(holder := None))
    {
      hide Kernel.Valid, QueuesRep;
      QueueIs(q);
      KernelKept();
      DisinheritKeeps(kernel.k, kernel.k.queues[q].holder);
      var restored := kernel.PriorityDisinherit(queues[q].holder);
      SetHolder(q, None);
    }

    /** Wake the head waiter of an event list. */
    method Wake(l: ListId) returns (mayYield: bool)
      requires Valid() && l in kernel.k.lists && l.IsEvent() && Homed(kernel.k)
      requires kernel.k.lists[l].items != [] ==> kernel.k.current.Some? && kernel.k.current.value < |kernel.k.tasks|
      modifies kernel`k, kernel`top, kernel.repr
      ensures Valid() && Placed(old(kernel.k)) && PriosOk(old(kernel.k)) && kernel.k == WakeWaiter(old(kernel.k), l)
      ensures mayYield <==> Outranked(old(kernel.k), l)
    {
      hide Kernel.Valid, QueuesRep;
      KernelKept();
      WakeKeeps(kernel.k, l);
      mayYield := kernel.RemoveFromEventList(l);
    }

    /** The item goes in; a mutex is released. */
    method DepositItem(q: nat, item: Item, front: bool)
      requires Valid() && Inv(kernel.k) && PriosOk(kernel.k) && Homed(kernel.k) && q < |kernel.k.queues|
      requires QueueOk(kernel.k.queues[q], |kernel.k.tasks|) && |item| == kernel.k.queues[q].itemSize
      requires |kernel.k.queues[q].contents| < kernel.k.queues[q].length
      modifies repr, kernel`k, kernel`top, kernel.repr
      ensures Valid() && kernel.k == Deposit(old(kernel.k), q, item, front)
    {
      hide System.Valid, Inv, Placed, PriosOk, Homed, Disinherit;
      ghost var k := kernel.k;
      QueueIs(q);
      Apart();
      DepositFacts(k, q, item, front);
      CopyIn(q, item, front);
      QueueIs(q);
      if queues[q].mutex {
        Release(q);
      }
    }

    /** The critical section of prvSend: the item goes in if there is room, and a
        receiver is woken. */
    method TrySend(q: nat, item: Item, front: bool) returns (ok: bool, mayYield: bool)
      requires Valid() && Inv(kernel.k) && KernelSteps.Enabled(kernel.k, KernelSteps.TrySend(q, item, front))
      modifies repr, kernel`k, kernel`top, kernel.repr
      ensures Valid() && KernelSteps.Performs(old(kernel.k), KernelSteps.TrySend(q, item, front), kernel.k)
      ensures ok <==> HasRoom(old(kernel.k), q)
      ensures mayYield <==> ok && YieldDue(old(kernel.k), Receivers(q), kernel.k)
    {
      hide System.Valid, Inv, Placed, PriosOk, Homed, WakeWaiter, Deposit, QueueOk;
      ghost var k := kernel.k;
      CallFacts(k);
      QueueIs(q);
      Apart();
      if queues[q].bytes.waiting >= queues[q].bytes.length {
        return false, false;
      }
      DepositFacts(k, q, item, front);
      SendYields(k, q, item, front);
      DepositItem(q, item, front);
      WaiterIsTask(kernel.k, Receivers(q));
      mayYield := Wake(Receivers(q));
      ok := true;
    }

    /** The first item comes out; a mutex is taken. */
    method TakeItem(q: nat) returns (item: Item)
      requires Valid() && q < |kernel.k.queues| && kernel.k.queues[q].contents != []
      modifies repr, kernel`k
      ensures Valid() && item == old(kernel.k).queues[q].contents[0] && Placed(old(kernel.k)) && PriosOk(old(kernel.k))
      ensures kernel.k == Taken(old(kernel.k), q)
    {
      hide System.Valid, Placed, PriosOk;
      QueueIs(q);
      KernelKept();
      Apart();
      item := CopyOut(q);
      QueueIs(q);
      if queues[q].mutex {
        SetHolder(q, kernel.current);
      }
    }

    /** The critical section of xQueueReceive: the first item comes out if there is
        one, and a sender is woken. */
    method TryReceive(q: nat) returns (ok: bool, item: Item, mayYield: bool)
      requires Valid() && Inv(kernel.k) && KernelSteps.Enabled(kernel.k, KernelSteps.TryReceive(q))
      modifies repr, kernel`k, kernel`top, kernel.repr
      ensures Valid() && KernelSteps.Performs(old(kernel.k), KernelSteps.TryReceive(q), kernel.k)
      ensures if ok then Offers(old(kernel.k), q, item) else forall first :: !Offers(old(kernel.k), q, first)
      ensures mayYield <==> ok && YieldDue(old(kernel.k), Senders(q), kernel.k)
    {
      hide System.Valid, Inv, Placed, PriosOk, WakeWaiter, QueueOk, Homed, Taken;
      ghost var k := kernel.k;
      CallFacts(k);
      QueueIs(q);
      Apart();
      if queues[q].bytes.waiting == 0 {
        return false, [], false;
      }
      TakenFacts(k, q);
      ReceiveYields(k, q);
      item := TakeItem(q);
      WaiterIsTask(kernel.k, Senders(q));
      mayYield := Wake(Senders(q));
      ok := true;
    }

    /** The running task blocks on an event list of a queue. */
    method BlockOn(l: ListId, wait: nat)
      requires Valid() && l in kernel.k.lists && l.IsEvent() && (wait == MaxDelay || kernel.k.tick + wait <= MaxDelay)
      requires kernel.k.current.Some? && kernel.k.current.value < |kernel.k.tasks|
      requires var task := kernel.k.tasks[kernel.k.current.value]; task.home.Some? && task.wait == None
      modifies kernel`k, kernel.repr
      ensures Valid() && Placed(old(kernel.k)) && PriosOk(old(kernel.k))
      ensures kernel.k == KernelSteps.BlockCurrent(old(kernel.k), l, wait)
    {
      hide Kernel.Valid, QueuesRep, Placed, PriosOk;
      KernelKept();
      BlockKeeps(kernel.k, kernel.k.current.value, l, wait);
      kernel.PlaceOnEventList(l, kernel.current.value, wait);
      kernel.Note(true, kernel.k.idle);
    }

    /** The blocking part of prvSend. */
    method BlockToSend(q: nat, wait: nat)
      requires Valid() && Inv(kernel.k) && KernelSteps.Enabled(kernel.k, KernelSteps.BlockToSend(q, wait))
      modifies kernel`k, kernel.repr
      ensures Valid() && KernelSteps.Performs(old(kernel.k), KernelSteps.BlockToSend(q, wait), kernel.k)
    {
      hide System.Valid, Inv, Placed, PriosOk, Homed, QueueOk;
      BlockFacts(kernel.k);
      BlockOn(Senders(q), wait);
    }

    /** The blocking part of xQueueReceive: the holder of a mutex inherits first. */
    method BlockToReceive(q: nat, wait: nat)
      requires Valid() && Inv(kernel.k) && KernelSteps.Enabled(kernel.k, KernelSteps.BlockToReceive(q, wait))
      modifies kernel`k, kernel`top, kernel.repr
      ensures Valid() && KernelSteps.Performs(old(kernel.k), KernelSteps.BlockToReceive(q, wait), kernel.k)
    {
      hide System.Valid, Inv, Placed, PriosOk, Homed, Inherit, KernelSteps.BlockCurrent, QueueOk, KernelSteps.MayBlock;
      BlockFacts(kernel.k);
      HolderFacts(kernel.k, q);
      QueueIs(q);
      Apart();
      if queues[q].mutex {
        InheritFrom(queues[q].holder);
      }
      BlockOn(Receivers(q), wait);
    }

    method InheritFrom(holder: Option<nat>)
      requires Valid() && (holder.Some? ==> holder.value < |kernel.k.tasks|)
      requires kernel.k.current.Some? ==> kernel.k.current.value < |kernel.k.tasks|
      modifies kernel`k, kernel`top, kernel.repr
      ensures Valid() && Placed(old(kernel.k)) && PriosOk(old(kernel.k)) && kernel.k == Inherit(old(kernel.k), holder)
    {
      hide Kernel.Valid, QueuesRep, Placed, PriosOk;
      KernelKept();
      InheritKeeps(kernel.k, holder);
      kernel.PriorityInherit(holder);
    }

    /** vTaskDelay */
    method DelayFor(ticks: nat)
      requires Valid() && Inv(kernel.k) && KernelSteps.Enabled(kernel.k, KernelSteps.DelayFor(ticks))
      modifies kernel`k, kernel.repr
      ensures Valid() && KernelSteps.Performs(old(kernel.k), KernelSteps.DelayFor(ticks), kernel.k)
    {
      hide Kernel.Valid, QueuesRep, Inv, Placed, PriosOk, Homed, QueueOk;
      BlockFacts(kernel.k);
      KernelKept();
      kernel.Kept();
      if ticks > 0 {
        SleepKeeps(kernel.k, kernel.k.current.value, ticks);
        kernel.Delay(kernel.current.value, ticks);
        kernel.Note(true, kernel.k.idle);
      }
    }

    /** xTaskIncrementTick */
    method TickInterrupt()
      requires Valid() && Inv(kernel.k) && KernelSteps.Enabled(kernel.k, KernelSteps.TickInterrupt)
      modifies kernel`k, kernel`top, kernel`tick, kernel.repr
      ensures Valid() && KernelSteps.Performs(old(kernel.k), KernelSteps.TickInterrupt, kernel.k)
    {
      hide Kernel.Valid, QueuesRep, Placed, PriosOk, Inv, Tick;
      KernelKept();
      TickKeeps(kernel.k);
      kernel.IncrementTick();
    }

    /** vTaskSwitchContext */
    method SwitchContext()
      requires Valid() && Inv(kernel.k) && KernelSteps.Enabled(kernel.k, KernelSteps.SwitchContext)
      modifies kernel`k, kernel`top, kernel`current, kernel.repr
      ensures Valid() && KernelSteps.Performs(old(kernel.k), KernelSteps.SwitchContext, kernel.k)
    {
      hide Kernel.Valid, QueuesRep, Placed, PriosOk, Inv;
      KernelKept();
      IdleIsReady(kernel.k);
      hide Switch;
      kernel.SwitchContext();
    }

    /** xTaskCreate: without memory nothing happens. */
    method Create(prio: nat, memory: bool) returns (ok: bool)
      requires Valid() && Inv(kernel.k)
      modifies kernel, kernel.repr
      ensures Valid() && KernelSteps.Performs(old(kernel.k), KernelSteps.Create(prio, memory), kernel.k) && ok == memory
      ensures repr == old(repr) && fresh(kernel.repr - old(kernel.repr))
    {
      hide Kernel.Valid, QueuesRep, Placed, PriosOk, Inv, KernelState.CreateTask;
      KernelKept();
      CreateKeeps(kernel.k, prio);
      var t;
      ok, t := kernel.CreateTask(prio, memory);
    }

    /** vTaskStartScheduler */
    method Start()
      requires Valid() && Inv(kernel.k) && KernelSteps.Enabled(kernel.k, KernelSteps.Start)
      modifies kernel, kernel.repr
      ensures Valid() && KernelSteps.Performs(old(kernel.k), KernelSteps.Start, kernel.k)
      ensures repr == old(repr) && fresh(kernel.repr - old(kernel.repr))
    {
      hide Kernel.Valid, QueuesRep, Placed, PriosOk, Inv, KernelState.CreateTask;
      KernelKept();
      CreateKeeps(kernel.k, 0);
      var ok, t := kernel.CreateTask(0, true);
      kernel.Note(kernel.k.yielding, Some(t));
      kernel.SetTick(0);
    }

    /** vTaskSetMutexInheritance */
    method SetInheritance(on: bool)
      requires Valid() && Inv(kernel.k)
      modifies kernel`inherit, kernel`k
      ensures Valid() && KernelSteps.Performs(old(kernel.k), KernelSteps.SetInheritance(on), kernel.k)
    {
      hide Kernel.Valid, QueuesRep, Inv;
      KernelKept();
      kernel.SetInheritance(on);
    }

    /** A queue object with empty storage, at the end of the list of queues. */
    method AddControl(length: nat, itemSize: nat, mutex: bool)
      requires Valid() && length > 0
      modifies this, kernel`lists, kernel`k, kernel`repr
      ensures Valid() && Placed(old(kernel.k)) && PriosOk(old(kernel.k))
      ensures kernel.k == AddQueue(old(kernel.k), Queue(length, itemSize, [], mutex, None))
      ensures |queues| == |old(queues)| + 1 && fresh(repr - old(repr)) && fresh(kernel.repr - old(kernel.repr))
    {
      hide Kernel.Valid, QueuesRep, Placed, PriosOk;
      KernelKept();
      SameCount();
      var bytes := new ByteQueue.Queue(length, itemSize);
      var qc := new QueueControl(bytes, mutex);
      ghost var queue := Queue(length, itemSize, [], mutex, None);
      QueuesGrow(queues, kernel.k.queues, repr, qc, queue);
      kernel.AddQueueLists(|queues|, queue);
      queues := queues + [qc];
      repr := repr + {qc, bytes, bytes.store};
    }

    lemma SameCount()
      requires Valid()
      ensures |queues| == |kernel.k.queues| && forall i :: 0 <= i < |queues| ==> queues[i].bytes.store in repr
    {
      forall i | 0 <= i < |queues| ensures queues[i].bytes.store in repr {
        assert QueueRep(queues[i], kernel.k.queues[i], repr);
      }
    }

    /** xQueueCreate: NULL for a queue of no items, or without memory. */
    method CreateQueue(length: nat, itemSize: nat, memory: bool) returns (ok: bool)
      requires Valid() && Inv(kernel.k)
      modifies this, kernel`lists, kernel`k, kernel`repr
      ensures Valid() && KernelSteps.Performs(old(kernel.k), KernelSteps.CreateQueue(length, itemSize, memory),
                                              kernel.k)
      ensures fresh(repr - old(repr)) && fresh(kernel.repr - old(kernel.repr))
      ensures ok <==> length > 0 && memory
    {
      hide System.Valid, Inv, AddQueue;
      if length == 0 || !memory {
        return false;
      }
      AddControl(length, itemSize, false);
      return true;
    }

    /** xQueueCreateCounting */
    method CreateCounting(max: nat, initial: nat, memory: bool) returns (ok: bool)
      requires Valid() && Inv(kernel.k)
               && KernelSteps.Enabled(kernel.k, KernelSteps.CreateCounting(max, initial, memory))
      modifies this, repr, kernel`lists, kernel`k, kernel`repr
      ensures Valid() && KernelSteps.Performs(old(kernel.k), KernelSteps.CreateCounting(max, initial, memory), kernel.k)
      ensures fresh(repr - old(repr)) && fresh(kernel.repr - old(kernel.repr))
      ensures ok <==> max > 0 && memory
    {
      hide System.Valid, Inv, Placed, PriosOk, QueuesRep;
      if max == 0 || !memory {
        return false;
      }
      SameCount();
      var n := |queues|;
      AddControl(max, 0, false);
      Apart();
      Fill(n, initial);
      assert KernelSteps.Tokens(initial) == seq(initial, _ => []);
      return true;
    }

    method Fill(q: nat, n: nat)
      requires Valid() && q < |queues| && q < |kernel.k.queues| && kernel.k.queues[q].itemSize == 0
      modifies repr, kernel`k
      ensures Valid() && kernel.k == SetQueue(old(kernel.k), q, old(kernel.k).queues[q].(contents := seq(n, _ => [])))
    {
      assert QueueRep(queues[q], kernel.k.queues[q], repr);
      hide Kernel.Valid, ByteQueue.Queue.Valid;
      Count(queues[q], queues, kernel.k.queues, repr, q, n);
      kernel.NoteQueue(q, kernel.k.queues[q].(contents := seq(n, _ => [])));
    }

    /** The first give of a new mutex. */
    method GiveFirst(q: nat)
      requires Valid() && q < |kernel.k.queues| && kernel.k.queues[q] == Queue(1, 0, [], true, None) && Homed(kernel.k)
      requires Receivers(q) in kernel.k.lists && kernel.k.lists[Receivers(q)].items == []
      modifies repr, kernel`k, kernel`top, kernel.repr
      ensures Valid() && Placed(old(kernel.k)) && PriosOk(old(kernel.k))
      ensures kernel.k == SetQueue(old(kernel.k), q, Queue(1, 0, [[]], true, None))
    {
      hide System.Valid, Placed, PriosOk;
      ghost var k0 := kernel.k;
      QueueIs(q);
      KernelKept();
      Apart();
      GiveFacts(k0, q);
      CopyIn(q, [], false);
      Release(q);
      var mayYield := Wake(Receivers(q));
    }

    /** xQueueCreateMutex: a queue of one empty item, which is put in at once. */
    method CreateMutex(memory: bool) returns (ok: bool)
      requires Valid() && Inv(kernel.k)
      modifies this, repr, kernel, kernel.repr
      ensures Valid() && KernelSteps.Performs(old(kernel.k), KernelSteps.CreateMutex(memory), kernel.k) && ok == memory
      ensures fresh(repr - old(repr)) && fresh(kernel.repr - old(kernel.repr))
    {
      hide System.Valid, Inv, Placed, PriosOk, Homed, Send, AddQueue;
      ok := memory;
      if !memory {
        return;
      }
      SameCount();
      var n := |queues|;
      MutexFacts(kernel.k);
      AddControl(1, 0, true);
      Apart();
      GiveFirst(n);
    }

    /** Any step of the model: the objects follow it and stay sound. */
    method Perform(step: KernelSteps.Step)
      requires Valid() && Inv(kernel.k) && KernelSteps.Enabled(kernel.k, step)
      modifies this, repr, kernel, kernel.repr
      ensures Valid() && Inv(kernel.k) && KernelSteps.Performs(old(kernel.k), step, kernel.k)
      ensures fresh(repr - old(repr)) && fresh(kernel.repr - old(kernel.repr))
    {
      hide System.Valid, Inv, KernelSteps.Apply, KernelSteps.Enabled;
      KernelSteps.StepKeepsInv(kernel.k, step);
      Apart();
      match step {
        case Create(prio, memory) => var ok := Create(prio, memory);
        case Start => Start();
        case DelayFor(ticks) => DelayFor(ticks);
        case TrySend(q, item, front) => var ok, mayYield := TrySend(q, item, front);
        case BlockToSend(q, wait) => BlockToSend(q, wait);
        case TryReceive(q) => var ok, item, mayYield := TryReceive(q);
        case BlockToReceive(q, wait) => BlockToReceive(q, wait);
        case TickInterrupt => TickInterrupt();
        case SwitchContext => SwitchContext();
        case CreateQueue(length, itemSize, memory) => var ok := CreateQueue(length, itemSize, memory);
        case CreateCounting(max, initial, memory) => var ok := CreateCounting(max, initial, memory);
        case CreateMutex(memory) => var ok := CreateMutex(memory);
        case SetInheritance(on) => SetInheritance(on);
      }
    }

    /** The parts of the system are separate objects. */
    lemma Apart()
      requires Valid()
      ensures this !in repr && this !in kernel.repr && kernel !in repr && kernel !in kernel.repr && repr !! kernel.repr
    {
      kernel.Kept();
    }

    lemma KernelKept()
      requires Valid()
      ensures kernel.Valid() && Placed(kernel.k) && PriosOk(kernel.k)
    {
      kernel.Kept();
    }
  }

  /** A fresh system follows any run of the model from start to end: after the
      i-th call its objects represent the i-th state. */
  method PerformAll(steps: seq<KernelSteps.Step>, ghost trace: seq<State>) returns (s: System)
    requires KernelRuns.IsRun(trace, steps) && KernelRuns.IsInitial(trace[0])
    ensures fresh(s) && s.Valid() && Inv(s.kernel.k) && s.kernel.k == trace[|steps|]
  {
    hide System.Valid, Kernel.Valid, Inv, KernelRuns.StepTo;
    s := Boot();
    KernelRuns.InitialInv(trace[0]);
    OneInitialState(s.kernel.k, trace[0]);
    var i := 0;
    while i < |steps|
      invariant i <= |steps| && s.Valid() && Inv(s.kernel.k) && s.kernel.k == trace[i]
      invariant fresh(s) && fresh(s.repr) && fresh(s.kernel) && fresh(s.kernel.repr)
    {
      FollowStep(trace[i], steps[i], trace[i + 1]);
      s.Perform(steps[i]);
      i := i + 1;
    }
  }

  /** The scheduler's lists initialised, no task and no queue. */
  method Boot() returns (s: System)
    ensures fresh(s) && fresh(s.repr) && fresh(s.kernel) && fresh(s.kernel.repr)
    ensures s.Valid() && KernelRuns.IsInitial(s.kernel.k)
  {
    var kernel := new Kernel(true);
    StartIsInitial(kernel);
    s := new System(kernel);
  }

  // ----- Facts about the model ---------------------------------------------

  lemma StartIsInitial(kernel: Kernel)
    requires kernel.Valid()
    requires var k := kernel.k;
             && k.tasks == [] && k.queues == [] && k.top == 0 && k.tick == 0 && k.current == None && k.idle == None
             && !k.yielding && k.inherit && AllEmpty(k.lists)
    ensures KernelRuns.IsInitial(kernel.k)
  {
    kernel.Kept();
  }

  lemma OneInitialState(a: State, b: State)
    requires KernelRuns.IsInitial(a) && KernelRuns.IsInitial(b)
    ensures a == b
  {
    assert forall l :: ListExists(a, l) <==> ListExists(b, l);
    assert a.lists == b.lists;
  }

  lemma FollowStep(k: State, step: KernelSteps.Step, k': State)
    requires Inv(k) && KernelRuns.StepTo(k, step, k')
    ensures KernelSteps.Performs(k, step, k')
  {
  }

  /** What a call finds: a current task, unless there is no task at all. */
  lemma CallFacts(k: State)
    requires Inv(k)
    ensures Placed(k) && PriosOk(k) && Homed(k)
    ensures if k.current.Some? then k.current.value < |k.tasks| else k.tasks == []
    ensures forall q :: 0 <= q < |k.queues| ==> QueueOk(k.queues[q], |k.tasks|)
    ensures forall q: nat :: q < |k.queues| ==> Senders(q) in k.lists && Receivers(q) in k.lists
  {
    KernelSteps.InvBasics(k);
    assert forall q: nat :: q < |k.queues| ==> ListExists(k, Senders(q)) && ListExists(k, Receivers(q));
  }

  /** What a task that blocks itself finds. */
  lemma BlockFacts(k: State)
    requires Inv(k) && KernelSteps.MayBlock(k)
    ensures Placed(k) && PriosOk(k) && Homed(k) && k.current.Some? && k.current.value < |k.tasks|
    ensures k.tasks[k.current.value].home.Some? && k.tasks[k.current.value].wait == None
    ensures forall q: nat :: q < |k.queues| ==> Senders(q) in k.lists && Receivers(q) in k.lists
  {
    CallFacts(k);
    KernelSteps.CallerReady(k);
  }

  /** Where somebody waits, there is a task. */
  lemma WaiterIsTask(k: State, l: ListId)
    requires Placed(k) && l in k.lists
    ensures k.lists[l].items != [] ==> k.tasks != []
  {
    assert k.lists[l].items != [] ==> k.lists[l].items[0] in k.lists[l].items;
  }

  /** Somebody waited first in l before the call and, now ready, has a priority above
      that of the running task. */
  ghost predicate YieldDue(k: State, l: ListId, k': State) {
    && l in k.lists && k.lists[l].items != [] && k'.current.Some?
    && var t := k.lists[l].items[0];
       t < |k'.tasks| && k'.current.value < |k'.tasks| && k'.tasks[t].prio > k'.tasks[k'.current.value].prio
  }

  /** Waking changes no priority, so that the comparison is the same before and after. */
  lemma WakeYields(k: State, l: ListId)
    requires Placed(k) && PriosOk(k) && Homed(k) && Sorted(k) && TasksOk(k, k.tick) && k.top < MaxPriorities
    requires l in k.lists && l.IsEvent()
    requires if k.current.Some? then k.current.value < |k.tasks| else k.tasks == []
    ensures k.lists[l].items != [] ==> k.current.Some?
    ensures YieldDue(k, l, WakeWaiter(k, l)) <==> Outranked(k, l)
  {
    hide Placed, ListSorted, TaskOk, PriosOk, Homed, WakeWaiter;
    HeadIsIn(k, l);
    WakeWaiterOk(k, l);
  }

  lemma SendYields(k: State, q: nat, item: Item, front: bool)
    requires Inv(k) && PriosOk(k) && Homed(k) && q < |k.queues| && QueueOk(k.queues[q], |k.tasks|)
    ensures var k1 := Deposit(k, q, item, front);
            && Receivers(q) in k1.lists && Homed(k1)
            && (k1.lists[Receivers(q)].items != [] ==> k1.current.Some? && k1.current.value < |k1.tasks|)
            && (YieldDue(k, Receivers(q), WakeWaiter(k1, Receivers(q))) <==> Outranked(k1, Receivers(q)))
  {
    hide Placed, ListSorted, TaskOk, PriosOk, Homed, WakeWaiter, Deposit, QueueOk;
    CallFacts(k);
    DepositFacts(k, q, item, front);
    HolderIn(k, q);
    KernelSteps.DepositOk(k, q, item, front);
    KernelRuns.DepositLists(k, q, item, front);
    WakeYields(Deposit(k, q, item, front), Receivers(q));
  }

  lemma HolderIn(k: State, q: nat)
    requires q < |k.queues| && QueueOk(k.queues[q], |k.tasks|)
    ensures k.queues[q].holder.Some? ==> k.queues[q].holder.value < |k.tasks|
  {
  }

  lemma ReceiveYields(k: State, q: nat)
    requires Inv(k) && PriosOk(k) && Homed(k) && q < |k.queues| && k.queues[q].contents != []
    ensures var k1 := Taken(k, q);
            && Senders(q) in k1.lists && Homed(k1)
            && (k1.lists[Senders(q)].items != [] ==> k1.current.Some? && k1.current.value < |k1.tasks|)
            && (YieldDue(k, Senders(q), WakeWaiter(k1, Senders(q))) <==> Outranked(k1, Senders(q)))
  {
    hide Placed, ListSorted, TaskOk, PriosOk, Homed, WakeWaiter;
    CallFacts(k);
    TakenFacts(k, q);
    SameTasksKeepOrder(k, Taken(k, q));
    WakeYields(Taken(k, q), Senders(q));
  }

  /** Changing a priority leaves the queues alone and every task in some list. */
  lemma ReprioritiseKeeps(k: State, t: nat, p: nat)
    requires Placed(k) && PriosOk(k) && t < |k.tasks| && k.tasks[t].base <= p < MaxPriorities
    ensures var k' := Reprioritise(k, t, p);
            k'.queues == k.queues && |k'.tasks| == |k.tasks| && k'.current == k.current && k'.tick == k.tick
  {
  }

  /** The state with the first item of queue q taken by the running task. */
  ghost function Taken(k: State, q: nat): (k': State)
    requires Placed(k) && PriosOk(k) && q < |k.queues| && k.queues[q].contents != []
    ensures Placed(k') && PriosOk(k')
  {
    var queue := k.queues[q];
    SetQueue(k, q, queue.(contents := queue.contents[1..], holder := if queue.mutex then k.current else queue.holder))
  }

  lemma TakenFacts(k: State, q: nat)
    requires Placed(k) && PriosOk(k) && Homed(k) && q < |k.queues| && k.queues[q].contents != []
    ensures var k' := Taken(k, q);
            && Homed(k') && k'.lists == k.lists && k'.tasks == k.tasks && k'.current == k.current
            && Receive(k, q) == WakeWaiter(k', Senders(q))
  {
    assert ListExists(k, Senders(q));
  }

  lemma GiveFacts(k: State, q: nat)
    requires Placed(k) && PriosOk(k) && Homed(k) && q < |k.queues| && k.queues[q] == Queue(1, 0, [], true, None)
    requires Receivers(q) in k.lists && k.lists[Receivers(q)].items == []
    ensures var none: seq<Item> := [];
            var k1 := SetQueue(k, q, Queue(1, 0, none + [[]], true, None));
            && k1 == SetQueue(k, q, Queue(1, 0, [[]], true, None)) && Disinherit(k1, None) == k1 && Homed(k1)
            && SetQueue(k1, q, k1.queues[q].(holder := None)) == k1 && WakeWaiter(k1, Receivers(q)) == k1
            && Deposit(k, q, [], false) == k1 && Send(k, q, [], false) == k1
  {
    var none: seq<Item> := [];
    assert none + [[]] == [[]];
    var k1 := SetQueue(k, q, Queue(1, 0, [[]], true, None));
    assert k1.queues[q := k1.queues[q]] == k1.queues;
    assert k1.(queues := k1.queues) == k1;
  }

  lemma MutexFacts(k: State)
    requires Inv(k)
    ensures Placed(k) && PriosOk(k) && Homed(k)
    ensures var n, k1 := |k.queues|, AddQueue(k, Queue(1, 0, [], true, None));
            && Homed(k1) && n < |k1.queues| && k1.queues[n] == Queue(1, 0, [], true, None)
            && Receivers(n) in k1.lists && k1.lists[Receivers(n)].items == []
            && Send(k1, n, [], false) == SetQueue(k1, n, Queue(1, 0, [[]], true, None))
  {
    KernelSteps.InvBasics(k);
    hide Placed, PriosOk;
    var n, k1 := |k.queues|, AddQueue(k, Queue(1, 0, [], true, None));
    GiveFacts(k1, n);
  }

  lemma SleepKeeps(k: State, t: nat, ticks: nat)
    requires Placed(k) && PriosOk(k) && t < |k.tasks| && k.tasks[t].home.Some?
    ensures Sleep(k, t, ticks).queues == k.queues
  {
  }

  lemma {:induction false} WakeSleepersKeeps(k: State)
    requires Placed(k) && PriosOk(k)
    ensures WakeSleepers(k).queues == k.queues
    decreases |k.lists[Delayed].items|
  {
    var d := k.lists[Delayed].items;
    if d != [] {
      assert d[0] in d;
      if k.tasks[d[0]].value <= k.tick { WakeSleepersKeeps(WakeSleeper(k, d[0])); }
    }
  }

  lemma TickKeeps(k: State)
    requires Placed(k) && PriosOk(k)
    ensures Tick(k).queues == k.queues
  {
    hide Placed, PriosOk;
    SameStructure(k, k.(tick := k.tick + 1));
    WakeSleepersKeeps(k.(tick := k.tick + 1));
  }

  lemma IdleIsReady(k: State)
    requires Inv(k) && k.idle.Some?
    ensures k.top < MaxPriorities && Ready(0) in k.lists && k.lists[Ready(0)].items != []
    ensures exists p :: 0 <= p <= k.top && Ready(p) in k.lists && k.lists[Ready(p)].items != []
    ensures Switch(k).queues == k.queues
  {
    KernelSteps.IdleReady(k);
    assert 0 <= 0 <= k.top && Ready(0) in k.lists;
  }

  lemma CreateKeeps(k: State, prio: nat)
    requires Placed(k) && PriosOk(k)
    ensures CreateTask(k, prio).queues == k.queues
  {
  }

  /** A fresh queue beside the others. */
  lemma QueuesGrow(qcs: seq<QueueControl>, queues: seq<Queue>, repr: set<object>, qc: QueueControl, queue: Queue)
    requires QueuesRep(qcs, queues, repr) && qc !in repr && qc.bytes !in repr && qc.bytes.store !in repr
             && qc.bytes.Valid()
    requires qc.bytes.length == queue.length && qc.bytes.itemSize == queue.itemSize
             && qc.bytes.contents == queue.contents
    requires qc.mutex == queue.mutex && qc.holder == queue.holder
    ensures QueuesRep(qcs + [qc], queues + [queue], repr + {qc, qc.bytes, qc.bytes.store})
  {
    var repr' := repr + {qc, qc.bytes, qc.bytes.store};
    forall i | 0 <= i < |qcs|
      ensures QueueRep(qcs[i], queues[i], repr') && qcs[i] != qc && qcs[i].bytes != qc.bytes
              && qcs[i].bytes.store != qc.bytes.store
    {
      assert QueueRep(qcs[i], queues[i], repr);
    }
    assert QueueRep(qc, queue, repr');
  }

  lemma BlockKeeps(k: State, t: nat, l: ListId, wait: nat)
    requires Placed(k) && PriosOk(k) && l in k.lists && l.IsEvent()
    requires t < |k.tasks| && k.tasks[t].home.Some? && k.tasks[t].wait == None
    ensures Block(k, t, l, wait).queues == k.queues
  {
  }

  lemma InheritKeeps(k: State, holder: Option<nat>)
    requires Placed(k) && PriosOk(k) && (holder.Some? ==> holder.value < |k.tasks|)
             && (k.current.Some? ==> k.current.value < |k.tasks|)
    ensures Inherit(k, holder).queues == k.queues
  {
    if holder.Some? && k.current.Some? && k.tasks[holder.value].prio < k.tasks[k.current.value].prio < MaxPriorities {
      ReprioritiseKeeps(k, holder.value, k.tasks[k.current.value].prio);
    }
  }

  lemma InheritFacts(k: State, holder: Option<nat>)
    requires Inv(k) && PriosOk(k) && (holder.Some? ==> holder.value < |k.tasks|)
    requires k.current.Some? && k.current.value < |k.tasks|
    ensures var k' := Inherit(k, holder);
            && |k'.tasks| == |k.tasks| && k'.current == k.current && k'.tick == k.tick && |k'.queues| == |k.queues|
            && k'.tasks[k.current.value] == k.tasks[k.current.value]
            && forall q: nat :: q < |k.queues| ==> Receivers(q) in k'.lists
  {
    KernelSteps.InheritOk(k, holder);
    var k' := Inherit(k, holder);
    assert forall q: nat :: q < |k.queues| ==> ListExists(k', Receivers(q));
  }

  /** What blocking on queue q finds after its holder has inherited. */
  lemma HolderFacts(k: State, q: nat)
    requires Inv(k) && KernelSteps.MayBlock(k) && q < |k.queues|
    ensures Placed(k) && PriosOk(k) && k.current.Some? && k.current.value < |k.tasks|
    ensures k.queues[q].holder.Some? ==> k.queues[q].holder.value < |k.tasks|
    ensures var k' := if k.queues[q].mutex then Inherit(k, k.queues[q].holder) else k;
            && |k'.tasks| == |k.tasks| && k'.current == k.current && k'.tick == k.tick
            && k'.tasks[k.current.value] == k.tasks[k.current.value] && Receivers(q) in k'.lists
  {
    BlockFacts(k);
    assert QueueOk(k.queues[q], |k.tasks|);
    InheritFacts(k, k.queues[q].holder);
  }

  lemma WakeKeeps(k: State, l: ListId)
    requires Placed(k) && PriosOk(k) && l in k.lists && l.IsEvent() && Homed(k)
    ensures WakeWaiter(k, l).queues == k.queues
  {
  }

  lemma DepositFacts(k: State, q: nat, item: Item, front: bool)
    requires Inv(k) && PriosOk(k) && Homed(k) && q < |k.queues| && QueueOk(k.queues[q], |k.tasks|)
    ensures var k' := Deposit(k, q, item, front);
            && Homed(k') && k'.current == k.current && |k'.tasks| == |k.tasks| && Receivers(q) in k'.lists
            && |k'.queues| == |k.queues|
    ensures var k1 := SetQueue(k, q, k.queues[q].(contents :=
                        if front then [item] + k.queues[q].contents else k.queues[q].contents + [item]));
            Placed(k1) && PriosOk(k1) && Disinherit(k1, k.queues[q].holder).queues == k1.queues
  {
    KernelSteps.DepositOk(k, q, item, front);
    var k1 := SetQueue(k, q, k.queues[q].(contents :=
                if front then [item] + k.queues[q].contents else k.queues[q].contents + [item]));
    DisinheritKeeps(k1, k.queues[q].holder);
    assert ListExists(Deposit(k, q, item, front), Receivers(q));
  }

  lemma DisinheritKeeps(k: State, holder: Option<nat>)
    requires Placed(k) && PriosOk(k) && (holder.Some? ==> holder.value < |k.tasks|)
    ensures var k' := Disinherit(k, holder);
            k'.queues == k.queues && |k'.tasks| == |k.tasks| && k'.current == k.current && k'.tick == k.tick
  {
    if holder.Some? { ReprioritiseKeeps(k, holder.value, k.tasks[holder.value].base); }
  }

  /** Take the first item out of one queue's storage, and all the queues after it. */
  method Fetch(qc: QueueControl, ghost qcs: seq<QueueControl>, ghost queues: seq<Queue>, ghost repr: set<object>,
               ghost q: nat)
    returns (item: Item)
    requires QueuesRep(qcs, queues, repr) && q < |qcs| && qc == qcs[q] && queues[q].contents != []
    modifies qc.bytes
    ensures item == queues[q].contents[0]
    ensures QueuesRep(qcs, queues[q := queues[q].(contents := queues[q].contents[1..])], repr)
  {
    assert QueueRep(qcs[q], queues[q], repr);
    item := qc.bytes.Take();
    forall i | 0 <= i < |qcs| && i != q ensures QueueRep(qcs[i], queues[i], repr) {
      assert old(QueueRep(qcs[i], queues[i], repr));
    }
  }

  method Count(qc: QueueControl, ghost qcs: seq<QueueControl>, ghost queues: seq<Queue>, ghost repr: set<object>,
               ghost q: nat, n: nat)
    requires QueuesRep(qcs, queues, repr) && q < |qcs| && qc == qcs[q] && queues[q].itemSize == 0
    modifies qc.bytes`waiting, qc.bytes`contents
    ensures QueuesRep(qcs, queues[q := queues[q].(contents := seq(n, _ => []))], repr)
  {
    assert QueueRep(qcs[q], queues[q], repr);
    qc.bytes.SetCount(n);
    forall i | 0 <= i < |qcs| && i != q ensures QueueRep(qcs[i], queues[i], repr) {
      assert old(QueueRep(qcs[i], queues[i], repr));
    }
  }

  method WriteHolder(qc: QueueControl, ghost qcs: seq<QueueControl>, ghost queues: seq<Queue>, ghost repr: set<object>,
                     ghost q: nat, holder: Option<nat>)
    requires QueuesRep(qcs, queues, repr) && q < |qcs| && qc == qcs[q]
    modifies qc`holder
    ensures QueuesRep(qcs, queues[q := queues[q].(holder := holder)], repr)
  {
    assert QueueRep(qcs[q], queues[q], repr);
    qc.holder := holder;
    forall i | 0 <= i < |qcs| && i != q ensures QueueRep(qcs[i], queues[i], repr) {
      assert old(QueueRep(qcs[i], queues[i], repr));
    }
  }

  /** Put an item into one queue's storage, and all the queues after it. */
  method Store(qc: QueueControl, ghost qcs: seq<QueueControl>, ghost queues: seq<Queue>, ghost repr: set<object>,
               ghost q: nat, item: Item, front: bool)
    requires QueuesRep(qcs, queues, repr) && q < |qcs| && qc == qcs[q]
    requires |item| == queues[q].itemSize && |queues[q].contents| < queues[q].length
    modifies qc.bytes, qc.bytes.store
    ensures var contents := if front then [item] + queues[q].contents else queues[q].contents + [item];
            QueuesRep(qcs, queues[q := queues[q].(contents := contents)], repr)
  {
    assert QueueRep(qcs[q], queues[q], repr);
    if front {
      qc.bytes.PutFront(item);
    } else {
      qc.bytes.PutBack(item);
    }
    forall i | 0 <= i < |qcs| && i != q ensures QueueRep(qcs[i], queues[i], repr) {
      assert old(QueueRep(qcs[i], queues[i], repr));
    }
  }
}
