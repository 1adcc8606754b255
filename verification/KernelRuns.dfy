/** What holds along every run of the kernel. */
module KernelRuns {
  import opened Common
  import opened Rings
  import opened KernelState
  import opened KernelInvariant
  import opened KernelSteps

  /** The kernel after prvInitialiseTaskLists: no task, no queue, empty lists. */
  ghost predicate IsInitial(k: State) {
    && k == State([], k.lists, [], 0, 0, None, None, false, true)
    && (forall l :: l in k.lists <==> ListExists(k, l))
    && (forall l :: l in k.lists ==> k.lists[l] == Ring([], 0))
  }

  /** One step. Nothing is assumed of a state outside the invariant. */
  ghost predicate StepTo(k: State, step: Step, k': State) {
    Inv(k) ==> Enabled(k, step) && k' == Apply(k, step)
  }

  ghost predicate IsRun(trace: seq<State>, steps: seq<Step>) {
    && |trace| == |steps| + 1
    && forall i :: 0 <= i < |steps| ==> StepTo(trace[i], steps[i], trace[i + 1])
  }

  lemma InitialInv(k: State)
    requires IsInitial(k)
    ensures Inv(k)
  {
  }

  /** Every state of every interleaving satisfies the invariant. */
  lemma {:induction false} RunKeepsInv(trace: seq<State>, steps: seq<Step>, i: nat)
    requires IsRun(trace, steps) && Inv(trace[0]) && i < |trace|
    ensures Inv(trace[i])
  {
    if i > 0 {
      RunKeepsInv(trace, steps, i - 1);
      assert StepTo(trace[i - 1], steps[i - 1], trace[i]);
      StepKeepsInv(trace[i - 1], steps[i - 1]);
    }
  }

  // ----- What a step leaves alone -----------------------------------------------

  ghost function TickAfter(k: State, step: Step): int {
    if step.TickInterrupt? then k.tick + 1 else if step.Start? then 0 else k.tick
  }

  /** Task t's mutex is given: the only thing that lowers its priority. */
  ghost predicate GivesMutexOf(k: State, step: Step, t: nat) {
    && step.TrySend? && step.q < |k.queues|
    && k.queues[step.q].mutex && k.queues[step.q].holder == Some(t)
    && |k.queues[step.q].contents| < k.queues[step.q].length
  }

  /** Priorities after a step: back to base when a mutex of the task is given, and
      not lowered otherwise. */
  ghost predicate PriosAfter(k: State, step: Step, k': State) {
    && |k.tasks| <= |k'.tasks|
    && forall t :: 0 <= t < |k.tasks| ==>
         && k'.tasks[t].base == k.tasks[t].base
         && (if GivesMutexOf(k, step, t) then k'.tasks[t].prio == k.tasks[t].base
             else k'.tasks[t].prio >= k.tasks[t].prio)
  }

  /** Time, the idle task, the inheritance switch and, but for context switches and
      the first task created, the running task are what they were. */
  ghost predicate Framed(k: State, step: Step, k': State) {
    && k'.tick == TickAfter(k, step)
    && k'.idle == (if step.Start? then Some(|k.tasks|) else k.idle)
    && k'.inherit == (if step.SetInheritance? then step.on else k.inherit)
    && (k.current.Some? && step != SwitchContext ==> k'.current == k.current)
    && PriosAfter(k, step, k')
  }

  lemma HolderExists(k: State, q: nat)
    requires QueuesOk(k) && q < |k.queues|
    ensures k.queues[q].holder.Some? ==> k.queues[q].holder.value < |k.tasks|
  {
    assert QueueOk(k.queues[q], |k.tasks|);
  }

  lemma SendFrame(k: State, step: Step)
    requires Inv(k) && Enabled(k, step) && step.TrySend?
    ensures Framed(k, step, Apply(k, step))
  {
    hide Placed, Sorted, TasksOk, BoostsOk, IdleOk, CurrentOk, PriosOk, Homed, Deposit, WakeWaiter, QueuesOk;
    InvBasics(k);
    var q := step.q;
    HolderExists(k, q);
    if |k.queues[q].contents| < k.queues[q].length {
      DepositOk(k, q, step.item, step.front);
      EventLists(Deposit(k, q, step.item, step.front), q);
      WakeWaiterOk(Deposit(k, q, step.item, step.front), Receivers(q));
    }
  }

  lemma ReceiveFrame(k: State, step: Step)
    requires Inv(k) && Enabled(k, step) && step.TryReceive?
    ensures Framed(k, step, Apply(k, step))
  {
    hide Placed, ListSorted, TaskOk, WakeWaiter;
    InvBasics(k);
    var queue := k.queues[step.q];
    if queue.contents != [] {
      var k1 := SetQueue(k, step.q, queue.(contents := queue.contents[1..],
                                           holder := if queue.mutex then k.current else queue.holder));
      SameTasksKeepOrder(k, k1);
      EventLists(k1, step.q);
      WakeWaiterOk(k1, Senders(step.q));
    }
  }

  lemma BlockFrame(k: State, step: Step)
    requires Inv(k) && Enabled(k, step) && (step.BlockToSend? || step.BlockToReceive? || step.DelayFor?)
    ensures Framed(k, step, Apply(k, step))
  {
    hide Placed, ListSorted, TaskOk, Block, Inherit, Sleep;
    InvBasics(k);
    CallerReady(k);
    var t := k.current.value;
    if step.DelayFor? {
      if step.ticks > 0 { SleepOk(k, t, step.ticks); }
    } else {
      EventLists(k, step.q);
      if step.BlockToSend? {
        BlockOk(k, t, Senders(step.q), step.wait);
      } else {
        assert QueueOk(k.queues[step.q], |k.tasks|);
        InheritOk(k, k.queues[step.q].holder);
        InheritRaises(k, k.queues[step.q].holder);
        EventLists(Inherit(k, k.queues[step.q].holder), step.q);
        BlockOk(if k.queues[step.q].mutex then Inherit(k, k.queues[step.q].holder) else k, t, Receivers(step.q),
                step.wait);
      }
    }
  }

  lemma InheritRaises(k: State, holder: Option<nat>)
    requires Placed(k) && PriosOk(k) && (holder.Some? ==> holder.value < |k.tasks|)
    requires k.current.Some? ==> k.current.value < |k.tasks|
    ensures var k' := Inherit(k, holder);
            && |k'.tasks| == |k.tasks|
            && (forall t :: 0 <= t < |k.tasks| ==> k'.tasks[t].prio >= k.tasks[t].prio)
            && (k.inherit && holder.Some? && k.current.Some? ==>
                  k'.tasks[holder.value].prio >= k.tasks[k.current.value].prio)
  {
    hide Placed;
  }

  lemma OtherFrame(k: State, step: Step)
    requires Inv(k) && Enabled(k, step)
    requires step.CreateQueue? || step.CreateCounting? || step.CreateMutex? || step.SetInheritance?
             || step.SwitchContext?
    ensures Framed(k, step, Apply(k, step))
  {
    hide Placed, TasksOk, Sorted, QueuesOk, BoostsOk, CurrentOk;
    InvBasics(k);
    if step.CreateMutex? { MutexStartsAvailable(k); }
    if step.SwitchContext? { IdleReady(k); }
  }

  lemma CreateFrame(k: State, step: Step)
    requires Inv(k) && Enabled(k, step) && (step.Create? || step.Start?)
    ensures Framed(k, step, Apply(k, step))
  {
    hide Placed, TasksOk, Sorted, QueuesOk, BoostsOk, CreateTask;
    InvBasics(k);
    CreateTaskEffect(k, if step.Create? then step.prio else 0);
  }

  lemma TickFrame(k: State)
    requires Inv(k) && Enabled(k, TickInterrupt)
    ensures Framed(k, TickInterrupt, Apply(k, TickInterrupt))
  {
    hide Placed, BeforeWake, Sorted, TasksOk, QueuesOk, BoostsOk, Tick, ListSorted;
    InvBasics(k);
    TickBegins(k);
    TickEffect(k);
  }

  /** The frame of every step. */
  lemma StepFrame(k: State, step: Step)
    requires Inv(k) && Enabled(k, step)
    ensures Framed(k, step, Apply(k, step))
  {
    hide Inv, Enabled, Apply, Framed;
    match step
    case Create(_, _) => CreateFrame(k, step);
    case Start => CreateFrame(k, step);
    case TickInterrupt => TickFrame(k);
    case TrySend(_, _, _) => SendFrame(k, step);
    case TryReceive(_) => ReceiveFrame(k, step);
    case BlockToSend(_, _) => BlockFrame(k, step);
    case BlockToReceive(_, _) => BlockFrame(k, step);
    case DelayFor(_) => BlockFrame(k, step);
    case _ => OtherFrame(k, step);
  }

  // ----- Who may touch a blocked task ------------------------------------------

  /** The task is where it was; at most its priority was inherited or given back. */
  ghost predicate StillBlocked(a: Task, b: Task) {
    b == a.(prio := b.prio)
  }

  ghost predicate MadeReady(b: Task) {
    b.home == Some(Ready(b.prio)) && b.wait == None
  }

  ghost predicate IsHead(k: State, l: ListId, t: nat) {
    l in k.lists && k.lists[l].items != [] && k.lists[l].items[0] == t
  }

  /** The only ways out of the delayed and suspended lists. */
  ghost predicate WokenBy(k: State, step: Step, t: nat)
    requires t < |k.tasks|
  {
    || (step.TickInterrupt? && k.tasks[t].home == Some(Delayed) && k.tasks[t].value <= k.tick + 1)
    || (step.TrySend? && IsHead(k, Receivers(step.q), t))
    || (step.TryReceive? && IsHead(k, Senders(step.q), t))
  }

  ghost predicate BlockedStep(k: State, step: Step, t: nat, k': State)
    requires t < |k.tasks|
  {
    && t < |k'.tasks|
    && (StillBlocked(k.tasks[t], k'.tasks[t]) || (MadeReady(k'.tasks[t]) && WokenBy(k, step, t)))
    && (step.TickInterrupt? && k.tasks[t].home == Some(Delayed) && k.tasks[t].value <= k.tick + 1
        ==> MadeReady(k'.tasks[t]))
  }

  // ----- Step by step ------------------------------------------------------------

  /** Priority changes move tasks between ready lists only. */
  ghost predicate SameBlockedLists(k: State, k': State) {
    && k'.lists.Keys == k.lists.Keys
    && forall l :: l in k.lists && !l.Ready? ==> k'.lists[l] == k.lists[l]
  }

  lemma ReprioritiseLists(k: State, t: nat, p: nat)
    requires Placed(k) && PriosOk(k) && t < |k.tasks| && k.tasks[t].base <= p < MaxPriorities
    ensures SameBlockedLists(k, Reprioritise(k, t, p))
  {
  }

  lemma DepositLists(k: State, q: nat, item: Item, front: bool)
    requires Placed(k) && PriosOk(k) && q < |k.queues|
    requires k.queues[q].holder.Some? ==> k.queues[q].holder.value < |k.tasks|
    ensures SameBlockedLists(k, Deposit(k, q, item, front))
  {
    hide Placed, ListExists, Reprioritise;
    var queue := k.queues[q];
    if queue.mutex && queue.holder.Some? {
      var contents := if front then [item] + queue.contents else queue.contents + [item];
      var k1 := SetQueue(k, q, queue.(contents := contents));
      ReprioritiseLists(k1, queue.holder.value, k.tasks[queue.holder.value].base);
    }
  }

  lemma WakeBlocked(k: State, l: ListId, t: nat)
    requires Placed(k) && PriosOk(k) && Homed(k) && Sorted(k) && TasksOk(k, k.tick) && k.top < MaxPriorities
    requires l in k.lists && l.IsEvent() && t < |k.tasks|
    ensures var k' := WakeWaiter(k, l);
            && |k'.tasks| == |k.tasks|
            && (k'.tasks[t] == k.tasks[t] || (MadeReady(k'.tasks[t]) && IsHead(k, l, t)))
  {
    WakeWaiterOk(k, l);
  }

  lemma SendBlockedStep(k: State, q: nat, item: Item, front: bool, t: nat)
    requires Inv(k) && Enabled(k, TrySend(q, item, front))
    requires t < |k.tasks| && k.tasks[t].home != Some(Ready(k.tasks[t].prio))
    ensures BlockedStep(k, TrySend(q, item, front), t, Apply(k, TrySend(q, item, front)))
  {
    InvBasics(k);
    assert QueueOk(k.queues[q], |k.tasks|);
    if |k.queues[q].contents| < k.queues[q].length {
      DepositOk(k, q, item, front);
      DepositLists(k, q, item, front);
      WakeBlocked(Deposit(k, q, item, front), Receivers(q), t);
    }
  }

  lemma ReceiveBlockedStep(k: State, q: nat, t: nat)
    requires Inv(k) && Enabled(k, TryReceive(q))
    requires t < |k.tasks| && k.tasks[t].home != Some(Ready(k.tasks[t].prio))
    ensures BlockedStep(k, TryReceive(q), t, Apply(k, TryReceive(q)))
  {
    InvBasics(k);
    var queue := k.queues[q];
    if queue.contents != [] {
      var k1 := SetQueue(k, q, queue.(contents := queue.contents[1..],
                                      holder := if queue.mutex then k.current else queue.holder));
      SameTasksKeepOrder(k, k1);
      WakeBlocked(k1, Senders(q), t);
    }
  }

  lemma BlockBlockedStep(k: State, q: nat, wait: nat, send: bool, t: nat)
    requires var step := if send then BlockToSend(q, wait) else BlockToReceive(q, wait);
             Inv(k) && Enabled(k, step)
    requires t < |k.tasks| && k.tasks[t].home != Some(Ready(k.tasks[t].prio))
    ensures var step := if send then BlockToSend(q, wait) else BlockToReceive(q, wait);
            BlockedStep(k, step, t, Apply(k, step))
  {
    hide Placed, ListSorted, Block, Inherit;
    InvBasics(k);
    CallerReady(k);
    if send {
      EventLists(k, q);
      BlockOk(k, k.current.value, Senders(q), wait);
    } else {
      assert QueueOk(k.queues[q], |k.tasks|);
      InheritOk(k, k.queues[q].holder);
      EventLists(if k.queues[q].mutex then Inherit(k, k.queues[q].holder) else k, q);
      var k1 := if k.queues[q].mutex then Inherit(k, k.queues[q].holder) else k;
      BlockOk(k1, k.current.value, Receivers(q), wait);
    }
  }

  lemma TickBlockedStep(k: State, t: nat)
    requires Inv(k) && Enabled(k, TickInterrupt)
    requires t < |k.tasks| && k.tasks[t].home != Some(Ready(k.tasks[t].prio))
    ensures BlockedStep(k, TickInterrupt, t, Apply(k, TickInterrupt))
  {
    InvBasics(k);
    TickBegins(k);
    TickEffect(k);
  }

  /** In one step a blocked task stays exactly where it is, or becomes ready in
      one of three ways: its timeout expires, or it heads the event list of a
      queue that is sent to or received from. It then leaves the event list and
      the delayed or suspended list together. */
  lemma BlockedTaskStep(k: State, step: Step, t: nat)
    requires Inv(k) && Enabled(k, step)
    requires t < |k.tasks| && k.tasks[t].home != Some(Ready(k.tasks[t].prio))
    ensures BlockedStep(k, step, t, Apply(k, step))
  {
    hide Placed, Sorted, TasksOk, QueuesOk, BoostsOk;
    InvBasics(k);
    match step
    case Create(prio, _) => CreateTaskEffect(k, prio);
    case Start => CreateTaskEffect(k, 0);
    case DelayFor(ticks) =>
      CallerReady(k);
      if ticks > 0 { SleepOk(k, k.current.value, ticks); }
    case TrySend(q, item, front) => SendBlockedStep(k, q, item, front, t);
    case BlockToSend(q, wait) => BlockBlockedStep(k, q, wait, true, t);
    case TryReceive(q) => ReceiveBlockedStep(k, q, t);
    case BlockToReceive(q, wait) => BlockBlockedStep(k, q, wait, false, t);
    case TickInterrupt => TickBlockedStep(k, t);
    case SwitchContext => IdleReady(k);
    case CreateQueue(_, _, _) =>
    case CreateCounting(_, _, _) =>
    case CreateMutex(_) => MutexStartsAvailable(k);
    case SetInheritance(_) =>
  }
}
