/** Exactly what every step of the kernel does to every task: who is woken, who goes
    to sleep, whose priority changes, and that nothing else does. */
module KernelEffects {
  import opened Common
  import opened Rings
  import opened KernelState
  import opened KernelInvariant
  import opened KernelSteps
  import opened KernelRuns
  import opened KernelQueues
  import opened KernelSchedule

  /** The step wakes t: its time has come, or it heads the receivers of a queue that
      takes an item in, or the senders of a queue that hands one out. */
  ghost predicate Wakes(k: State, step: Step, t: nat)
    requires t < |k.tasks|
  {
    || (step.TickInterrupt? && k.tasks[t].home == Some(Delayed) && k.tasks[t].value <= k.tick + 1)
    || (step.TrySend? && Accepts(k, step, step.q) && IsHead(k, Receivers(step.q), t))
    || (step.TryReceive? && Delivers(k, step, step.q) && IsHead(k, Senders(step.q), t))
  }

  /** The running task t goes to sleep. */
  ghost predicate Parks(k: State, step: Step, t: nat) {
    k.current == Some(t) && (step.BlockToSend? || step.BlockToReceive? || (step.DelayFor? && step.ticks > 0))
  }

  /** The running task is about to wait for a mutex that t holds. */
  ghost predicate Lifts(k: State, step: Step, t: nat) {
    && step.BlockToReceive? && step.q < |k.queues| && k.queues[step.q].mutex && k.queues[step.q].holder == Some(t)
    && k.inherit && k.current.Some? && k.current.value < |k.tasks|
  }

  ghost function PrioAfter(k: State, step: Step, t: nat): nat
    requires t < |k.tasks|
  {
    if GivesMutexOf(k, step, t) then k.tasks[t].base
    else if Lifts(k, step, t) && k.tasks[t].prio < k.tasks[k.current.value].prio then k.tasks[k.current.value].prio
    else k.tasks[t].prio
  }

  /** The record of a task that goes to sleep at tick `now` by the step. */
  ghost predicate Parked(b: Task, step: Step, now: nat) {
    match step
    case DelayFor(ticks) => b.home == Some(Delayed) && b.value == now + ticks && b.wait == None
    case BlockToSend(q, wait) => b.wait == Some(Senders(q)) && ParkedFor(b, wait, now)
    case BlockToReceive(q, wait) => b.wait == Some(Receivers(q)) && ParkedFor(b, wait, now)
    case _ => false
  }

  ghost predicate ParkedFor(b: Task, wait: nat, now: nat) {
    if wait == 0xFFFF_FFFF then b.home == Some(Suspended) else b.home == Some(Delayed) && b.value == now + wait
  }

  /** Task t after the step. */
  ghost predicate After(k: State, step: Step, t: nat, b: Task)
    requires t < |k.tasks|
  {
    var a := k.tasks[t];
    && b.base == a.base && b.prio == PrioAfter(k, step, t)
    && if Wakes(k, step, t) then MadeReady(b)
       else if Parks(k, step, t) then Parked(b, step, k.tick)
       else
         && b.wait == a.wait
         && if a.home == Some(Ready(a.prio)) then b.home == Some(Ready(b.prio))
            else b.home == a.home && b.value == a.value
  }

  // ----- Step by step ----------------------------------------------------------------------

  lemma SendAfter(k: State, step: Step, t: nat)
    requires Inv(k) && Enabled(k, step) && step.TrySend? && t < |k.tasks|
    ensures var k' := Apply(k, step); |k'.tasks| == |k.tasks| && After(k, step, t, k'.tasks[t])
  {
    hide Placed, Sorted, TasksOk, BoostsOk, IdleOk, Deposit, WakeWaiter, QueuesOk;
    InvBasics(k);
    var q := step.q;
    HolderExists(k, q);
    EventLists(k, q);
    if Accepts(k, step, q) {
      DepositOk(k, q, step.item, step.front);
      DepositLists(k, q, step.item, step.front);
      WakeWaiterOk(Deposit(k, q, step.item, step.front), Receivers(q));
    }
  }

  lemma ReceiveAfter(k: State, step: Step, t: nat)
    requires Inv(k) && Enabled(k, step) && step.TryReceive? && t < |k.tasks|
    ensures var k' := Apply(k, step); |k'.tasks| == |k.tasks| && After(k, step, t, k'.tasks[t])
  {
    hide Placed, ListSorted, TaskOk, WakeWaiter, BoostsOk, QueuesOk, IdleOk;
    InvBasics(k);
    EventLists(k, step.q);
    var queue := k.queues[step.q];
    if queue.contents != [] {
      var k1 := SetQueue(k, step.q, queue.(contents := queue.contents[1..],
                                           holder := if queue.mutex then k.current else queue.holder));
      SameTasksKeepOrder(k, k1);
      WakeWaiterOk(k1, Senders(step.q));
    }
  }

  lemma SendParkAfter(k: State, step: Step, t: nat)
    requires Inv(k) && Enabled(k, step) && (step.BlockToSend? || step.DelayFor?) && t < |k.tasks|
    ensures var k' := Apply(k, step); |k'.tasks| == |k.tasks| && After(k, step, t, k'.tasks[t])
  {
    hide Placed, ListSorted, TaskOk, Block, Sleep, QueuesOk, BoostsOk;
    InvBasics(k);
    CallerReady(k);
    if step.DelayFor? {
      if step.ticks > 0 { SleepOk(k, k.current.value, step.ticks); }
    } else {
      EventLists(k, step.q);
      BlockOk(k, k.current.value, Senders(step.q), step.wait);
    }
  }

  lemma ReceiveParkAfter(k: State, step: Step, t: nat)
    requires Inv(k) && Enabled(k, step) && step.BlockToReceive? && t < |k.tasks|
    ensures var k' := Apply(k, step); |k'.tasks| == |k.tasks| && After(k, step, t, k'.tasks[t])
  {
    hide Placed, ListSorted, TaskOk, Block, Inherit, QueuesOk, BoostsOk, IdleOk;
    InvBasics(k);
    CallerReady(k);
    HolderExists(k, step.q);
    var holder := k.queues[step.q].holder;
    InheritOk(k, holder);
    InheritPrio(k, holder);
    var k1 := if k.queues[step.q].mutex then Inherit(k, holder) else k;
    EventLists(k1, step.q);
    BlockOk(k1, k.current.value, Receivers(step.q), step.wait);
  }

  lemma InheritPrio(k: State, holder: Option<nat>)
    requires Placed(k) && PriosOk(k) && (holder.Some? ==> holder.value < |k.tasks|)
    requires k.current.Some? && k.current.value < |k.tasks|
    ensures holder.Some? ==>
              var h, p := k.tasks[holder.value].prio, k.tasks[k.current.value].prio;
              var k' := Inherit(k, holder);
              |k'.tasks| == |k.tasks| && k'.tasks[holder.value].prio == if k.inherit && h < p then p else h
  {
    hide Placed;
  }

  /** Every step does to every task exactly what is said above. */
  lemma StepChangesTask(k: State, step: Step, t: nat)
    requires Inv(k) && Enabled(k, step) && t < |k.tasks|
    ensures var k' := Apply(k, step); t < |k'.tasks| && After(k, step, t, k'.tasks[t])
  {
    hide Inv, Enabled, Apply, After;
    match step
    case Create(_, _) => BirthAfter(k, step, t);
    case Start => BirthAfter(k, step, t);
    case DelayFor(_) => SendParkAfter(k, step, t);
    case TrySend(_, _, _) => SendAfter(k, step, t);
    case BlockToSend(_, _) => SendParkAfter(k, step, t);
    case TryReceive(_) => ReceiveAfter(k, step, t);
    case BlockToReceive(_, _) => ReceiveParkAfter(k, step, t);
    case TickInterrupt => TickAfterwards(k, t);
    case _ => OtherAfter(k, step, t);
  }

  lemma BirthAfter(k: State, step: Step, t: nat)
    requires Inv(k) && Enabled(k, step) && (step.Create? || step.Start?) && t < |k.tasks|
    ensures var k' := Apply(k, step); t < |k'.tasks| && After(k, step, t, k'.tasks[t])
  {
    hide Placed, Sorted, TasksOk, QueuesOk, BoostsOk, CreateTask;
    InvBasics(k);
    CreateTaskEffect(k, if step.Create? then step.prio else 0);
  }

  lemma TickAfterwards(k: State, t: nat)
    requires Inv(k) && Enabled(k, TickInterrupt) && t < |k.tasks|
    ensures var k' := Apply(k, TickInterrupt); t < |k'.tasks| && After(k, TickInterrupt, t, k'.tasks[t])
  {
    hide Placed, Sorted, TasksOk, QueuesOk, BoostsOk, Tick, BeforeWake;
    InvBasics(k);
    TickBegins(k);
    TickEffect(k);
  }

  lemma OtherAfter(k: State, step: Step, t: nat)
    requires Inv(k) && Enabled(k, step) && t < |k.tasks|
    requires step.SwitchContext? || step.CreateQueue? || step.CreateCounting? || step.CreateMutex?
             || step.SetInheritance?
    ensures var k' := Apply(k, step); t < |k'.tasks| && After(k, step, t, k'.tasks[t])
  {
    hide Placed, Sorted, TasksOk, QueuesOk, BoostsOk, CurrentOk, PriosOk;
    InvBasics(k);
    if step.SwitchContext? { IdleReady(k); }
    if step.CreateMutex? { MutexStartsAvailable(k); }
  }

  /** After the step a task is ready if and only if it was and does not go to sleep, or
      the step wakes it; then it waits for nothing. */
  lemma ReadyAfter(k: State, step: Step, t: nat)
    requires Inv(k) && Enabled(k, step) && t < |k.tasks|
    ensures var k' := Apply(k, step);
            && (IsReady(k', t) <==> (IsReady(k, t) && !Parks(k, step, t)) || Wakes(k, step, t))
            && (Wakes(k, step, t) ==>
                  IsReady(k', t) && forall l :: l in k'.lists && l.IsEvent() ==> t !in k'.lists[l].items)
  {
    hide Apply, Sorted, QueuesOk, BoostsOk, IdleOk, CurrentOk;
    StepChangesTask(k, step, t);
    StepKeepsInv(k, step);
    var k' := Apply(k, step);
    forall l | l in k'.lists && l.IsEvent() && t in k'.lists[l].items ensures In(k', t, l) {
    }
  }

  // ----- What comes into being ---------------------------------------------------------------

  /** The step creates a queue, semaphore or mutex. */
  ghost predicate Founds(step: Step) {
    || (step.CreateQueue? && step.length > 0 && step.memory)
    || (step.CreateCounting? && step.max > 0 && step.memory)
    || (step.CreateMutex? && step.memory)
  }

  ghost function LengthOf(step: Step): nat {
    match step
    case CreateQueue(length, _, _) => length
    case CreateCounting(max, _, _) => max
    case _ => 1
  }

  /** How many items, all of them empty, the new queue begins with. */
  ghost function FirstCount(step: Step): nat {
    match step
    case CreateCounting(_, initial, _) => initial
    case CreateMutex(_) => 1
    case _ => 0
  }

  ghost predicate IsFounded(queue: Queue, step: Step) {
    && queue.length == LengthOf(step) && queue.itemSize == (if step.CreateQueue? then step.itemSize else 0)
    && |queue.contents| == FirstCount(step) && (forall i :: 0 <= i < |queue.contents| ==> queue.contents[i] == [])
    && (queue.mutex <==> step.CreateMutex?) && queue.holder == None
  }

  /** The step creates a task. */
  ghost predicate Bears(step: Step) {
    (step.Create? && step.memory) || step.Start?
  }

  /** A task of priority p, at most the highest there is, ready to run. */
  ghost predicate IsBorn(task: Task, p: nat) {
    task.prio == task.base == (if p < 31 then p else 31) && MadeReady(task)
  }

  /** What a step does besides changing tasks and queues that were there. */
  ghost predicate Rest(k: State, step: Step, k': State) {
    && |k'.queues| == |k.queues| + (if Founds(step) then 1 else 0)
    && (Founds(step) ==> IsFounded(k'.queues[|k.queues|], step))
    && |k'.tasks| == |k.tasks| + (if Bears(step) then 1 else 0)
    && (Bears(step) ==> IsBorn(k'.tasks[|k.tasks|], if step.Create? then step.prio else 0))
    && (step != SwitchContext ==>
          && (k'.yielding <==> k.yielding || (k.current.Some? && Parks(k, step, k.current.value)))
          && k'.current == (if k.current == None && Bears(step) then Some(|k.tasks|) else k.current))
    && (step == SwitchContext ==> !k'.yielding)
  }

  lemma CallRest(k: State, step: Step)
    requires Inv(k) && Enabled(k, step) && (step.TrySend? || step.TryReceive?)
    ensures Rest(k, step, Apply(k, step))
  {
    hide Placed, ListSorted, TaskOk, BoostsOk, IdleOk, Deposit, WakeWaiter, QueuesOk;
    InvBasics(k);
    var q := step.q;
    HolderExists(k, q);
    EventLists(k, q);
    if step.TrySend? {
      if Accepts(k, step, q) {
        DepositOk(k, q, step.item, step.front);
        DepositLists(k, q, step.item, step.front);
        WakeWaiterOk(Deposit(k, q, step.item, step.front), Receivers(q));
      }
    } else if k.queues[q].contents != [] {
      var queue := k.queues[q];
      var k1 := SetQueue(k, q, queue.(contents := queue.contents[1..],
                                      holder := if queue.mutex then k.current else queue.holder));
      SameTasksKeepOrder(k, k1);
      WakeWaiterOk(k1, Senders(q));
    }
  }

  lemma ParkRest(k: State, step: Step)
    requires Inv(k) && Enabled(k, step) && (step.BlockToSend? || step.BlockToReceive? || step.DelayFor?)
    ensures Rest(k, step, Apply(k, step))
  {
    hide Placed, ListSorted, TaskOk, Block, Inherit, Sleep, QueuesOk, BoostsOk, IdleOk;
    InvBasics(k);
    CallerReady(k);
    if step.DelayFor? {
      if step.ticks > 0 { SleepOk(k, k.current.value, step.ticks); }
    } else {
      HolderExists(k, step.q);
      InheritOk(k, k.queues[step.q].holder);
      EventLists(k, step.q);
      EventLists(Inherit(k, k.queues[step.q].holder), step.q);
      if step.BlockToSend? { BlockOk(k, k.current.value, Senders(step.q), step.wait); }
      else {
        BlockOk(if k.queues[step.q].mutex then Inherit(k, k.queues[step.q].holder) else k, k.current.value,
                Receivers(step.q), step.wait);
      }
    }
  }

  lemma BirthRest(k: State, step: Step)
    requires Inv(k) && Enabled(k, step) && (step.Create? || step.Start?)
    ensures Rest(k, step, Apply(k, step))
  {
    hide Placed, Sorted, QueuesOk, BoostsOk, CreateTask;
    InvBasics(k);
    var p := if step.Create? then step.prio else 0;
    CreateTaskEffect(k, p);
    assert TaskOk(CreateTask(k, p).tasks[|k.tasks|], CreateTask(k, p).top, k.tick);
  }

  /** Exactly the creating steps, when they get their memory, add a queue or a task,
      and these begin as asked for. */
  lemma StepCreates(k: State, step: Step)
    requires Inv(k) && Enabled(k, step)
    ensures Rest(k, step, Apply(k, step))
  {
    hide Inv, Enabled, Apply, Rest;
    match step
    case Create(_, _) => BirthRest(k, step);
    case Start => BirthRest(k, step);
    case DelayFor(_) => ParkRest(k, step);
    case TrySend(_, _, _) => CallRest(k, step);
    case BlockToSend(_, _) => ParkRest(k, step);
    case TryReceive(_) => CallRest(k, step);
    case BlockToReceive(_, _) => ParkRest(k, step);
    case TickInterrupt => TickRest(k);
    case _ => OtherRest(k, step);
  }

  lemma TickRest(k: State)
    requires Inv(k) && Enabled(k, TickInterrupt)
    ensures Rest(k, TickInterrupt, Apply(k, TickInterrupt))
  {
    hide Placed, Sorted, TasksOk, QueuesOk, BoostsOk, Tick, BeforeWake;
    InvBasics(k);
    TickBegins(k);
    TickEffect(k);
  }

  lemma OtherRest(k: State, step: Step)
    requires Inv(k) && Enabled(k, step)
    requires step.SwitchContext? || step.CreateQueue? || step.CreateCounting? || step.CreateMutex?
             || step.SetInheritance?
    ensures Rest(k, step, Apply(k, step))
  {
    hide Placed, Sorted, TasksOk, QueuesOk, BoostsOk, CurrentOk, PriosOk;
    InvBasics(k);
    if step.SwitchContext? { IdleReady(k); }
    if step.CreateMutex? { MutexStartsAvailable(k); }
  }

  // ----- A queue is what its calls make of it --------------------------------------------------

  /** The contents of queue q after the calls from `from` to n, worked out from the
      calls alone: an item goes in if there is room and comes out if there is one. */
  ghost function Played(steps: seq<Step>, q: nat, length: nat, first: seq<Item>, from: nat, n: nat): seq<Item>
    requires from <= n <= |steps|
  {
    if n == from then first
    else
      var contents, step := Played(steps, q, length, first, from, n - 1), steps[n - 1];
      if step.TrySend? && step.q == q && |contents| < length then
        if step.front then [step.item] + contents else contents + [step.item]
      else if step.TryReceive? && step.q == q && contents != [] then contents[1..]
      else contents
  }

  /** In every run, from its creation on, what a queue, semaphore or mutex holds is
      what the calls to it make of its first contents, whatever else happens. */
  lemma {:induction false} QueueIsItsCalls(trace: seq<State>, steps: seq<Step>, c: nat, n: nat)
    requires IsRun(trace, steps) && Inv(trace[0]) && c < n < |trace| && Founds(steps[c])
    ensures var q := |trace[c].queues|;
            && q < |trace[n].queues| && trace[n].queues[q].length == LengthOf(steps[c])
            && trace[n].queues[q].contents
               == Played(steps, q, LengthOf(steps[c]), seq(FirstCount(steps[c]), _ => []), c + 1, n)
  {
    hide Inv, Apply, IsRun, StepTo, QueueAfter;
    RunLength(trace, steps);
    var q, first := |trace[c].queues|, seq(FirstCount(steps[c]), _ => []);
    RunStep(trace, steps, n - 1);
    if n == c + 1 {
      StepCreates(trace[c], steps[c]);
      assert trace[n].queues[q].contents == first;
    } else {
      QueueIsItsCalls(trace, steps, c, n - 1);
      QueueStep(trace[n - 1], steps[n - 1], q);
      PlayedStep(trace[n - 1], steps, q, LengthOf(steps[c]), first, c + 1, n);
    }
  }

  lemma RunStep(trace: seq<State>, steps: seq<Step>, i: nat)
    requires IsRun(trace, steps) && Inv(trace[0]) && i < |steps|
    ensures Inv(trace[i]) && Enabled(trace[i], steps[i]) && trace[i + 1] == Apply(trace[i], steps[i])
  {
    RunKeepsInv(trace, steps, i);
    assert StepTo(trace[i], steps[i], trace[i + 1]);
    hide Inv, Enabled, Apply;
  }

  lemma PlayedStep(k: State, steps: seq<Step>, q: nat, length: nat, first: seq<Item>, from: nat, n: nat)
    requires from < n <= |steps| && q < |k.queues| && k.queues[q].length == length
    requires k.queues[q].contents == Played(steps, q, length, first, from, n - 1)
    ensures QueueAfter(k, steps[n - 1], q).contents == Played(steps, q, length, first, from, n)
    ensures QueueAfter(k, steps[n - 1], q).length == length
  {
  }
}
