/** A run of the kernel in which an inherited priority is lost although the task it
    was inherited from still waits. */
module KernelLostLift {
  import opened Common
  import opened Rings
  import opened KernelState
  import opened KernelInvariant
  import opened KernelSteps
  import opened KernelRuns
  import opened KernelQueues
  import opened KernelSchedule

  /** Task 0 is created at priority 1 and task 1 at priority 5. Task 0 takes both
      mutexes, task 1 blocks on mutex 0, and task 0 gives mutex 1. */
  const Scenario: seq<Step> := [
    Create(1, true), Create(5, true), CreateMutex(true), CreateMutex(true), Start, TryReceive(0), TryReceive(1),
    SwitchContext, BlockToReceive(0, MaxDelay), SwitchContext, TrySend(1, [], false)]

  ghost predicate IsTask(task: Task, prio: nat, base: nat, home: ListId, wait: Option<ListId>) {
    task.prio == prio && task.base == base && task.home == Some(home) && task.wait == wait
  }

  function Mutex(holder: Option<nat>): Queue {
    Queue(1, 0, if holder == None then [[]] else [], true, holder)
  }

  /** Nobody waits for anything. */
  ghost predicate NobodyWaits(k: State) {
    forall t :: 0 <= t < |k.tasks| ==> k.tasks[t].wait == None
  }

  /** The scheduler runs with both tasks ready and the idle task, and the mutexes
      are held as given. */
  ghost predicate AllReady(k: State, a: Option<nat>, b: Option<nat>, current: nat) {
    && Inv(k) && |k.tasks| == 3 && k.idle == Some(2) && k.current == Some(current) && k.inherit && !k.yielding
    && IsTask(k.tasks[0], 1, 1, Ready(1), None) && IsTask(k.tasks[1], 5, 5, Ready(5), None)
    && IsTask(k.tasks[2], 0, 0, Ready(0), None)
    && k.queues == [Mutex(a), Mutex(b)]
  }

  /** Task 1 waits for mutex 0, whose holder, task 0, has inherited its priority. */
  ghost predicate Lifted(k: State) {
    && Inv(k) && |k.tasks| == 3 && k.idle == Some(2)
    && k.tasks[0].base == 1 && k.tasks[0].prio >= 5 && IsReady(k, 0)
    && k.tasks[1].prio >= 5 && k.tasks[1].wait == Some(Receivers(0)) && !IsReady(k, 1)
    && k.tasks[2].prio == 0
    && k.queues == [Mutex(Some(0)), Mutex(Some(0))]
  }

  // ----- Before the scheduler starts -----------------------------------------------------

  lemma Creates(k: State, prio: nat)
    requires Inv(k) && prio < MaxPriorities
    ensures var k' := Apply(k, Create(prio, true));
            && Inv(k') && k'.queues == k.queues && k'.idle == k.idle && k'.inherit == k.inherit
            && k'.yielding == k.yielding
            && k'.current == (if k.current == None then Some(|k.tasks|) else k.current)
            && |k'.tasks| == |k.tasks| + 1 && (forall t :: 0 <= t < |k.tasks| ==> k'.tasks[t] == k.tasks[t])
            && IsTask(k'.tasks[|k.tasks|], prio, prio, Ready(prio), None)
  {
    hide Placed, Sorted, QueuesOk, BoostsOk, CreateTask;
    InvBasics(k);
    CreateTaskEffect(k, prio);
    StepKeepsInv(k, Create(prio, true));
    var k' := Apply(k, Create(prio, true));
    assert TaskOk(k'.tasks[|k.tasks|], k'.top, k'.tick);
  }

  lemma AddsMutex(k: State)
    requires Inv(k)
    ensures var k' := Apply(k, CreateMutex(true));
            Inv(k') && k' == k.(queues := k.queues + [Mutex(None)], lists := k'.lists)
  {
    hide Inv, Placed, PriosOk;
    MutexStartsAvailable(k);
    StepKeepsInv(k, CreateMutex(true));
    InvBasics(k);
  }

  lemma Starts(k: State)
    requires Inv(k) && k.idle == None && k.current.Some?
    ensures var k' := Apply(k, Start);
            && Inv(k') && k'.queues == k.queues && k'.idle == Some(|k.tasks|) && k'.inherit == k.inherit
            && k'.yielding == k.yielding && k'.current == k.current
            && |k'.tasks| == |k.tasks| + 1 && (forall t :: 0 <= t < |k.tasks| ==> k'.tasks[t] == k.tasks[t])
            && IsTask(k'.tasks[|k.tasks|], 0, 0, Ready(0), None)
  {
    hide Placed, Sorted, QueuesOk, BoostsOk, CreateTask;
    InvBasics(k);
    CreateTaskEffect(k, 0);
    StepKeepsInv(k, Start);
    var k' := Apply(k, Start);
    assert TaskOk(k'.tasks[|k.tasks|], k'.top, k'.tick);
  }

  // ----- Taking, switching, blocking -----------------------------------------------------

  /** Taking from a queue nobody waits on changes that queue alone. */
  lemma TakesQuietly(k: State, q: nat)
    requires Inv(k) && Calling(k) && NobodyWaits(k) && q < |k.queues| && k.queues[q] == Mutex(None)
    ensures var k' := Apply(k, TryReceive(q));
            Inv(k') && k' == k.(queues := k.queues[q := Queue(1, 0, [], true, k.current)])
  {
    hide Sorted, QueuesOk, BoostsOk, Inv;
    StepKeepsInv(k, TryReceive(q));
    InvBasics(k);
    EventListIsEmpty(k, q);
    hide Placed, PriosOk;
    assert k.queues[q].contents[1..] == [];
  }

  lemma EventListIsEmpty(k: State, q: nat)
    requires Inv(k) && NobodyWaits(k) && q < |k.queues|
    ensures Senders(q) in k.lists && k.lists[Senders(q)].items == []
  {
    EventLists(k, q);
    HeadIsIn(k, Senders(q));
  }

  lemma SwitchOnce(k: State)
    requires Inv(k) && k.idle.Some?
    ensures var k' := Apply(k, SwitchContext);
            && Inv(k') && k' == k.(current := k'.current, lists := k'.lists, top := k'.top, yielding := false)
            && k'.current.Some? && IsReady(k, k'.current.value)
            && (forall t: nat :: IsReady(k, t) ==> k.tasks[t].prio <= k.tasks[k'.current.value].prio)
  {
    SwitchSelectsHighest(k);
    StepKeepsInv(k, SwitchContext);
    hide Placed, TasksOk, Sorted, QueuesOk, BoostsOk;
    IdleReady(k);
  }

  lemma SwitchesToOne(k: State)
    requires AllReady(k, Some(0), Some(0), 0)
    ensures AllReady(Apply(k, SwitchContext), Some(0), Some(0), 1)
  {
    hide Inv, Apply;
    SwitchOnce(k);
    assert IsReady(k, 1);
  }

  lemma BlocksOnZero(k: State)
    requires AllReady(k, Some(0), Some(0), 1)
    ensures Enabled(k, BlockToReceive(0, MaxDelay)) && Lifted(Apply(k, BlockToReceive(0, MaxDelay)))
  {
    var step := BlockToReceive(0, MaxDelay);
    BlockedTasks(k);
    hide Placed, TasksOk, Sorted, Inherit, Block, QueuesOk, BoostsOk, PriosOk, Apply;
    StepKeepsInv(k, step);
    BlockQueues(k, step);
    BlockingLiftsHolder(k, 0, MaxDelay);
  }

  /** The holder is in the ready list of its new priority, the waiter in none. */
  lemma BlockedTasks(k: State)
    requires AllReady(k, Some(0), Some(0), 1)
    ensures var k' := Apply(k, BlockToReceive(0, MaxDelay));
            && |k'.tasks| == 3 && k'.idle == Some(2) && IsReady(k', 0) && !IsReady(k', 1)
            && k'.tasks[0].base == 1 && k'.tasks[2] == k.tasks[2]
  {
    hide Placed, TaskOk, ListSorted, Inherit, Block, QueuesOk, BoostsOk;
    InvBasics(k);
    InheritOk(k, Some(0));
    EventLists(Inherit(k, Some(0)), 0);
    BlockOk(Inherit(k, Some(0)), 1, Receivers(0), MaxDelay);
  }

  lemma SwitchesToZero(k: State)
    requires Lifted(k)
    ensures var k' := Apply(k, SwitchContext); Lifted(k') && k'.current == Some(0) && !k'.yielding
  {
    hide Inv, Apply;
    SwitchOnce(k);
    assert IsReady(k, 0);
  }

  // ----- The run -------------------------------------------------------------------------

  lemma OneMore(trace: seq<State>, steps: seq<Step>, step: Step)
    requires IsRun(trace, steps) && Inv(trace[|steps|]) && Enabled(trace[|steps|], step)
    ensures IsRun(trace + [Apply(trace[|steps|], step)], steps + [step])
  {
    hide Inv, Enabled, Apply;
    var trace', steps' := trace + [Apply(trace[|steps|], step)], steps + [step];
    forall i | 0 <= i < |steps'| ensures StepTo(trace'[i], steps'[i], trace'[i + 1]) {
      if i < |steps| { assert StepTo(trace[i], steps[i], trace[i + 1]); }
    }
  }

  /** The first five steps: two tasks, two mutexes, the scheduler started. */
  lemma Prepared(k: State) returns (trace: seq<State>)
    requires IsInitial(k)
    ensures IsRun(trace, Scenario[..5]) && trace[0] == k && AllReady(trace[5], None, None, 0)
  {
    hide Inv, Apply;
    InitialInv(k);
    Creates(k, 1);
    var k1 := Apply(k, Create(1, true));
    Creates(k1, 5);
    var k2 := Apply(k1, Create(5, true));
    AddsMutex(k2);
    var k3 := Apply(k2, CreateMutex(true));
    AddsMutex(k3);
    var k4 := Apply(k3, CreateMutex(true));
    Starts(k4);
    trace := [k, k1, k2, k3, k4, Apply(k4, Start)];
    assert Scenario[..5] == [Create(1, true), Create(5, true), CreateMutex(true), CreateMutex(true), Start];
  }

  /** Up to the block: task 0 takes both mutexes, task 1 runs and blocks on one, and
      task 0, lifted, runs again. */
  lemma LiftedRun(k: State) returns (trace: seq<State>)
    requires IsInitial(k)
    ensures IsRun(trace, Scenario[..10]) && trace[0] == k
    ensures Lifted(trace[10]) && trace[10].current == Some(0) && !trace[10].yielding
  {
    hide Inv, Apply, IsRun;
    trace := Prepared(k);
    RunLength(trace, Scenario[..5]);
    TakesQuietly(trace[5], 0);
    trace := Continued(trace, 5);
    TakesQuietly(trace[6], 1);
    trace := Continued(trace, 6);
    SwitchesToOne(trace[7]);
    trace := Continued(trace, 7);
    BlocksOnZero(trace[8]);
    trace := Continued(trace, 8);
    SwitchesToZero(trace[9]);
    trace := Continued(trace, 9);
  }

  lemma Continued(trace: seq<State>, n: nat) returns (longer: seq<State>)
    requires n < |Scenario| && IsRun(trace, Scenario[..n]) && |trace| == n + 1
    requires Inv(trace[n]) && Enabled(trace[n], Scenario[n])
    ensures |longer| == n + 2 && longer[..n + 1] == trace && longer[n + 1] == Apply(trace[n], Scenario[n])
    ensures IsRun(longer, Scenario[..n + 1])
  {
    hide Inv, Enabled, Apply, IsRun;
    longer := trace + [Apply(trace[n], Scenario[n])];
    assert Scenario[..n + 1] == Scenario[..n] + [Scenario[n]];
    OneMore(trace, Scenario[..n], Scenario[n]);
  }

  /** From the initial state the scenario is a run of the kernel, and at its end task
      0 is back at priority 1 and still holds mutex 0, for which task 1 of priority 5
      or more still waits: the lift does not last as long as the waiter waits. */
  lemma LiftIsLost(k: State) returns (trace: seq<State>)
    requires IsInitial(k)
    ensures IsRun(trace, Scenario) && trace[0] == k
    ensures var last := trace[|Scenario|];
            && |last.queues| == 2 && last.queues[0].mutex && last.queues[0].holder == Some(0)
            && |last.tasks| >= 3 && last.tasks[0].prio == last.tasks[0].base == 1
            && last.tasks[1].prio >= 5 && last.tasks[1].wait == Some(Receivers(0))
  {
    hide Inv, Apply, IsRun;
    trace := LiftedRun(k);
    RunLength(trace, Scenario[..10]);
    var step := TrySend(1, [], false);
    GivingAnotherDrops(trace[10], 0, 1, 0, 1, false);
    StepFrame(trace[10], step);
    QueueStep(trace[10], step, 0);
    SameQueueCount(trace[10], step);
    trace := Continued(trace, 10);
    assert Scenario[..11] == Scenario;
  }
}
