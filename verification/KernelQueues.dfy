/** Queues, semaphores and mutexes along every run of the kernel. */
module KernelQueues {
  import opened Common
  import opened Rings
  import opened KernelState
  import opened KernelInvariant
  import opened KernelSteps
  import opened KernelRuns

  // ----- What one step does to one queue -------------------------------------------------

  ghost predicate Accepts(k: State, step: Step, q: nat) {
    step.TrySend? && step.q == q && q < |k.queues| && |k.queues[q].contents| < k.queues[q].length
  }

  ghost predicate Delivers(k: State, step: Step, q: nat) {
    step.TryReceive? && step.q == q && q < |k.queues| && k.queues[q].contents != []
  }

  /** The queue after the step, in terms of the queue before it. */
  ghost function QueueAfter(k: State, step: Step, q: nat): Queue
    requires q < |k.queues|
  {
    var queue := k.queues[q];
    if Accepts(k, step, q) then
      queue.(contents := if step.front then [step.item] + queue.contents else queue.contents + [step.item],
             holder := if queue.mutex then None else queue.holder)
    else if Delivers(k, step, q) then
      queue.(contents := queue.contents[1..], holder := if queue.mutex then k.current else queue.holder)
    else queue
  }

  lemma SendQueues(k: State, step: Step, q: nat)
    requires Inv(k) && Enabled(k, step) && step.TrySend? && q < |k.queues|
    ensures var k' := Apply(k, step); q < |k'.queues| && k'.queues[q] == QueueAfter(k, step, q)
  {
    hide Placed, Sorted, TasksOk, BoostsOk, QueuesOk, IdleOk, CurrentOk, Deposit, WakeWaiter;
    InvBasics(k);
    HolderExists(k, step.q);
    if |k.queues[step.q].contents| < k.queues[step.q].length {
      DepositOk(k, step.q, step.item, step.front);
      EventLists(Deposit(k, step.q, step.item, step.front), step.q);
      WakeWaiterOk(Deposit(k, step.q, step.item, step.front), Receivers(step.q));
    }
  }

  lemma ReceiveQueues(k: State, step: Step, q: nat)
    requires Inv(k) && Enabled(k, step) && step.TryReceive? && q < |k.queues|
    ensures var k' := Apply(k, step); q < |k'.queues| && k'.queues[q] == QueueAfter(k, step, q)
  {
    hide Placed, ListSorted, TaskOk, BoostsOk, QueuesOk, IdleOk, CurrentOk, WakeWaiter;
    InvBasics(k);
    var queue := k.queues[step.q];
    if queue.contents != [] {
      var k1 := SetQueue(k, step.q, queue.(contents := queue.contents[1..],
                                           holder := if queue.mutex then k.current else queue.holder));
      SameTasksKeepOrder(k, k1);
      EventLists(k1, step.q);
      WakeWaiterOk(k1, Senders(step.q));
    }
  }

  lemma BlockQueues(k: State, step: Step)
    requires Inv(k) && Enabled(k, step) && (step.BlockToReceive? || step.BlockToSend?)
    ensures Apply(k, step).queues == k.queues
  {
    InvBasics(k);
    CallerReady(k);
    if step.BlockToSend? {
      BlockOk(k, k.current.value, Senders(step.q), step.wait);
    } else {
      assert QueueOk(k.queues[step.q], |k.tasks|);
      InheritOk(k, k.queues[step.q].holder);
      BlockOk(if k.queues[step.q].mutex then Inherit(k, k.queues[step.q].holder) else k,
              k.current.value, Receivers(step.q), step.wait);
    }
  }

  /** Only a send or a receive on q itself changes q. */
  lemma QueueStep(k: State, step: Step, q: nat)
    requires Inv(k) && Enabled(k, step) && q < |k.queues|
    ensures var k' := Apply(k, step); q < |k'.queues| && k'.queues[q] == QueueAfter(k, step, q)
  {
    hide Placed, Sorted, TasksOk, BoostsOk, QueuesOk, IdleOk, Tick, BeforeWake;
    InvBasics(k);
    match step
    case TrySend(_, _, _) => SendQueues(k, step, q);
    case TryReceive(_) => ReceiveQueues(k, step, q);
    case BlockToSend(_, _) => BlockQueues(k, step);
    case BlockToReceive(_, _) => BlockQueues(k, step);
    case TickInterrupt => TickBegins(k); TickEffect(k);
    case CreateMutex(_) => MutexStartsAvailable(k);
    case _ =>
  }

  // ----- Histories ---------------------------------------------------------------------------

  /** The items q accepted, and the items it delivered, in the first n steps. */
  ghost function Sent(trace: seq<State>, steps: seq<Step>, q: nat, n: nat): seq<Item>
    requires n <= |steps| < |trace|
  {
    if n == 0 then []
    else Sent(trace, steps, q, n - 1)
         + if Accepts(trace[n - 1], steps[n - 1], q) then [steps[n - 1].item] else []
  }

  ghost function Received(trace: seq<State>, steps: seq<Step>, q: nat, n: nat): seq<Item>
    requires n <= |steps| < |trace|
  {
    if n == 0 then []
    else Received(trace, steps, q, n - 1)
         + if Delivers(trace[n - 1], steps[n - 1], q) then [trace[n - 1].queues[q].contents[0]] else []
  }

  lemma {:induction false} QueueLives(trace: seq<State>, steps: seq<Step>, q: nat, n: nat)
    requires IsRun(trace, steps) && Inv(trace[0]) && q < |trace[0].queues| && n < |trace|
    ensures Inv(trace[n]) && q < |trace[n].queues|
    ensures var a, b := trace[0].queues[q], trace[n].queues[q];
            b.length == a.length && b.itemSize == a.itemSize && b.mutex == a.mutex
    ensures n < |steps| ==> q < |trace[n + 1].queues| && trace[n + 1].queues[q] == QueueAfter(trace[n], steps[n], q)
  {
    RunKeepsInv(trace, steps, n);
    if n > 0 { QueueLives(trace, steps, q, n - 1); }
    if n < |steps| {
      assert StepTo(trace[n], steps[n], trace[n + 1]);
      QueueStep(trace[n], steps[n], q);
    }
  }

  lemma PushBack<T>(r: seq<T>, c: seq<T>, c0: seq<T>, s: seq<T>, x: T)
    requires r + c == c0 + s
    ensures r + (c + [x]) == c0 + (s + [x])
  {
    assert r + (c + [x]) == (r + c) + [x];
    assert c0 + (s + [x]) == (c0 + s) + [x];
  }

  lemma PopFront<T>(r: seq<T>, c: seq<T>)
    requires c != []
    ensures (r + [c[0]]) + c[1..] == r + c
  {
  }

  /** In any interleaving in which q is only sent to at the back, what has been
      received from it, followed by what it holds, is what it held at first
      followed by what was sent: the received items are a prefix of those. */
  lemma {:induction false} ReceivedIsPrefixOfSent(trace: seq<State>, steps: seq<Step>, q: nat, n: nat)
    requires IsRun(trace, steps) && Inv(trace[0]) && q < |trace[0].queues| && n < |trace|
    requires forall i :: 0 <= i < |steps| && steps[i].TrySend? && steps[i].q == q ==> !steps[i].front
    ensures q < |trace[n].queues|
    ensures Received(trace, steps, q, n) + trace[n].queues[q].contents
            == trace[0].queues[q].contents + Sent(trace, steps, q, n)
    ensures Received(trace, steps, q, n) <= trace[0].queues[q].contents + Sent(trace, steps, q, n)
  {
    hide Inv, IsRun, Sent, Received;
    RunLength(trace, steps);
    if n == 0 {
      HistoryBegins(trace, steps, q);
    } else {
      ReceivedIsPrefixOfSent(trace, steps, q, n - 1);
      QueueLives(trace, steps, q, n - 1);
      HistoryStep(trace, steps, q, n);
    }
  }

  lemma RunLength(trace: seq<State>, steps: seq<Step>)
    requires IsRun(trace, steps)
    ensures |trace| == |steps| + 1
  {
  }

  lemma HistoryBegins(trace: seq<State>, steps: seq<Step>, q: nat)
    requires |steps| < |trace| && q < |trace[0].queues|
    ensures Received(trace, steps, q, 0) + trace[0].queues[q].contents
              == trace[0].queues[q].contents + Sent(trace, steps, q, 0)
    ensures Received(trace, steps, q, 0) <= trace[0].queues[q].contents + Sent(trace, steps, q, 0)
  {
  }

  /** What one step adds to the histories balances what it does to the queue. */
  lemma HistoryStep(trace: seq<State>, steps: seq<Step>, q: nat, n: nat)
    requires 0 < n <= |steps| < |trace| && q < |trace[0].queues| && q < |trace[n - 1].queues| && q < |trace[n].queues|
    requires steps[n - 1].TrySend? && steps[n - 1].q == q ==> !steps[n - 1].front
    requires trace[n].queues[q] == QueueAfter(trace[n - 1], steps[n - 1], q)
    requires Received(trace, steps, q, n - 1) + trace[n - 1].queues[q].contents
             == trace[0].queues[q].contents + Sent(trace, steps, q, n - 1)
    ensures Received(trace, steps, q, n) + trace[n].queues[q].contents
            == trace[0].queues[q].contents + Sent(trace, steps, q, n)
    ensures Received(trace, steps, q, n) <= trace[0].queues[q].contents + Sent(trace, steps, q, n)
  {
    var c := trace[n - 1].queues[q].contents;
    var r, s := Received(trace, steps, q, n - 1), Sent(trace, steps, q, n - 1);
    var c0 := trace[0].queues[q].contents;
    if Accepts(trace[n - 1], steps[n - 1], q) {
      PushBack(r, c, c0, s, steps[n - 1].item);
    } else if Delivers(trace[n - 1], steps[n - 1], q) {
      PopFront(r, c);
    }
    assert r + [] == r && s + [] == s;
  }

  /** A semaphore's count is its initial count plus the gives minus the takes,
      and never exceeds its maximum, whichever end is used. */
  lemma {:induction false} TokensAreConserved(trace: seq<State>, steps: seq<Step>, q: nat, n: nat)
    requires IsRun(trace, steps) && Inv(trace[0]) && q < |trace[0].queues| && n < |trace|
    ensures q < |trace[n].queues|
    ensures |trace[n].queues[q].contents|
            == |trace[0].queues[q].contents| + |Sent(trace, steps, q, n)| - |Received(trace, steps, q, n)|
    ensures |trace[n].queues[q].contents| <= trace[0].queues[q].length
  {
    hide Inv, StepTo;
    QueueLives(trace, steps, q, n);
    QueueIsOk(trace[n], q);
    if n > 0 {
      TokensAreConserved(trace, steps, q, n - 1);
      QueueLives(trace, steps, q, n - 1);
    }
  }

  // ----- Mutexes -------------------------------------------------------------------------------

  /** In every state of every run: a held mutex is not available and its holder is
      a task; every priority lies between the base priority and the configured
      maximum; a task above its base priority holds some mutex; and there is a
      current task exactly when there is a task. */
  lemma RunKeepsMutexes(trace: seq<State>, steps: seq<Step>, i: nat)
    requires IsRun(trace, steps) && IsInitial(trace[0]) && i < |trace|
    ensures var k := trace[i];
            && (forall q :: 0 <= q < |k.queues| && k.queues[q].holder.Some? ==>
                  k.queues[q].mutex && k.queues[q].contents == [] && k.queues[q].holder.value < |k.tasks|)
            && (forall t :: 0 <= t < |k.tasks| ==> k.tasks[t].base <= k.tasks[t].prio < MaxPriorities)
            && (forall t :: 0 <= t < |k.tasks| && k.tasks[t].base < k.tasks[t].prio ==>
                  exists q :: 0 <= q < |k.queues| && k.queues[q].mutex && k.queues[q].holder == Some(t))
            && (k.current == None <==> k.tasks == [])
  {
    InitialInv(trace[0]);
    RunKeepsInv(trace, steps, i);
    var k := trace[i];
    InvBasics(k);
    forall q | 0 <= q < |k.queues| ensures QueueOk(k.queues[q], |k.tasks|) {
    }
    forall t | 0 <= t < |k.tasks| && k.tasks[t].base < k.tasks[t].prio
      ensures exists q :: 0 <= q < |k.queues| && k.queues[q].mutex && k.queues[q].holder == Some(t)
    {
      assert Holds(k, t);
    }
  }

  /** Every mutex is available exactly when it has no holder. */
  ghost predicate MutexesOk(k: State) {
    forall q :: 0 <= q < |k.queues| && k.queues[q].mutex ==>
        (k.queues[q].contents != [] <==> k.queues[q].holder == None)
  }

  /** A mutex is taken while there is no task to note as its holder. */
  ghost predicate TakenByNobody(k: State, step: Step) {
    step.TryReceive? && Delivers(k, step, step.q) && k.queues[step.q].mutex && k.current == None
  }

  /** Which queues there are after a step: the same, and a new one that is no
      mutex or an available mutex without a holder. */
  lemma NewQueues(k: State, step: Step)
    requires Inv(k) && Enabled(k, step)
    ensures var k' := Apply(k, step);
            && |k.queues| <= |k'.queues|
            && (forall q :: |k.queues| <= q < |k'.queues| && k'.queues[q].mutex ==>
                  k'.queues[q].contents != [] && k'.queues[q].holder == None)
  {
    InvBasics(k);
    hide Placed, TasksOk, Sorted, BoostsOk, Tick, CreateTask, Block, Inherit, Deposit, WakeWaiter, Sleep;
    match step
    case TrySend(q, item, front) => SameQueueCount(k, step);
    case TryReceive(q) => SameQueueCount(k, step);
    case BlockToSend(_, _) => BlockQueues(k, step);
    case BlockToReceive(_, _) => BlockQueues(k, step);
    case TickInterrupt => TickBegins(k); TickEffect(k);
    case Create(prio, _) => CreateTaskEffect(k, prio);
    case Start => CreateTaskEffect(k, 0);
    case DelayFor(ticks) => CallerReady(k); if ticks > 0 { SleepOk(k, k.current.value, ticks); }
    case CreateMutex(_) => MutexStartsAvailable(k);
    case _ =>
  }

  lemma SameQueueCount(k: State, step: Step)
    requires Inv(k) && Enabled(k, step) && (step.TrySend? || step.TryReceive?)
    ensures |Apply(k, step).queues| == |k.queues|
  {
    hide Placed, ListSorted, TaskOk, BoostsOk, Deposit, WakeWaiter;
    InvBasics(k);
    HolderExists(k, step.q);
    var queue := k.queues[step.q];
    if step.TrySend? && |queue.contents| < queue.length {
      DepositOk(k, step.q, step.item, step.front);
      EventLists(Deposit(k, step.q, step.item, step.front), step.q);
      WakeWaiterOk(Deposit(k, step.q, step.item, step.front), Receivers(step.q));
    }
    if step.TryReceive? && queue.contents != [] {
      var k1 := SetQueue(k, step.q, queue.(contents := queue.contents[1..],
                                           holder := if queue.mutex then k.current else queue.holder));
      SameTasksKeepOrder(k, k1);
      EventLists(k1, step.q);
      WakeWaiterOk(k1, Senders(step.q));
    }
  }

  /** One step keeps the mutexes telling who holds them, unless it takes one for
      nobody; then it does not. */
  lemma MutexStep(k: State, step: Step)
    requires Inv(k) && Enabled(k, step)
    ensures MutexesOk(k) && !TakenByNobody(k, step) ==> MutexesOk(Apply(k, step))
    ensures TakenByNobody(k, step) ==> !MutexesOk(Apply(k, step))
  {
    hide Inv, Enabled, Apply;
    NewQueues(k, step);
    var k' := Apply(k, step);
    forall q | 0 <= q < |k.queues| ensures k'.queues[q] == QueueAfter(k, step, q) && QueueOk(k.queues[q], |k.tasks|) {
      QueueStep(k, step, q);
      QueueIsOk(k, q);
    }
  }

  lemma QueueIsOk(k: State, q: nat)
    requires Inv(k) && q < |k.queues|
    ensures QueueOk(k.queues[q], |k.tasks|)
  {
  }

  /** Along a run from the start, every mutex is available exactly when it has no
      holder in each of the first n + 1 states if and only if none of the first n
      steps takes a mutex while there is no task. */
  lemma {:induction false} MutexesTellHolder(trace: seq<State>, steps: seq<Step>, n: nat)
    requires IsRun(trace, steps) && IsInitial(trace[0]) && n <= |steps|
    ensures (forall i :: 0 <= i <= n ==> MutexesOk(trace[i])) <==>
            (forall i :: 0 <= i < n ==> !TakenByNobody(trace[i], steps[i]))
  {
    hide Apply, Enabled, Inv, TakenByNobody;
    if n > 0 {
      MutexesTellHolder(trace, steps, n - 1);
      InitialInv(trace[0]);
      RunKeepsInv(trace, steps, n - 1);
      assert StepTo(trace[n - 1], steps[n - 1], trace[n]);
      MutexStep(trace[n - 1], steps[n - 1]);
    }
  }

  /** The case that fails: a mutex created and taken before there is a task is
      unavailable and has no holder. */
  lemma TakenBeforeTasks(k: State)
    requires IsInitial(k)
    ensures Inv(k)
    ensures var k1 := Apply(k, CreateMutex(true));
            && Inv(k1) && Enabled(k1, TryReceive(0)) && TakenByNobody(k1, TryReceive(0))
            && var k2 := Apply(k1, TryReceive(0));
               |k2.queues| == 1 && k2.queues[0].mutex && k2.queues[0].contents == [] && k2.queues[0].holder == None
  {
    InitialInv(k);
    StepKeepsInv(k, CreateMutex(true));
    MutexStartsAvailable(k);
    var k1 := Apply(k, CreateMutex(true));
    hide Placed, TasksOk, Sorted, BoostsOk, Inv;
    QueueStep(k1, TryReceive(0), 0);
    SameQueueCount(k1, TryReceive(0));
  }

  /** Mutual exclusion: from the step in which t takes the mutex until the step
      in which it is given, nobody else obtains it. */
  lemma {:induction false} HolderKeepsMutex(trace: seq<State>, steps: seq<Step>, q: nat, t: nat, n: nat)
    requires IsRun(trace, steps) && Inv(trace[0]) && n < |trace|
    requires q < |trace[0].queues| && trace[0].queues[q].mutex && trace[0].queues[q].holder == Some(t)
    requires forall i :: 0 <= i < n && steps[i].TrySend? ==> steps[i].q != q
    ensures q < |trace[n].queues| && trace[n].queues[q].holder == Some(t)
    ensures n < |steps| ==> !Delivers(trace[n], steps[n], q)
  {
    hide Inv, StepTo;
    QueueLives(trace, steps, q, n);
    if n > 0 {
      HolderKeepsMutex(trace, steps, q, t, n - 1);
      QueueLives(trace, steps, q, n - 1);
    }
    QueueIsOk(trace[n], q);
  }

  // ----- Priority inheritance -------------------------------------------------------------------

  /** When the running task blocks on a held mutex, the holder is lifted to its
      priority, and the running task waits on the mutex's list. */
  lemma BlockingLiftsHolder(k: State, q: nat, wait: nat)
    requires Inv(k) && Enabled(k, BlockToReceive(q, wait)) && k.inherit
    requires k.queues[q].mutex && k.queues[q].holder.Some?
    ensures var k' := Apply(k, BlockToReceive(q, wait));
            var h := k.queues[q].holder.value;
            && h < |k'.tasks| && k.current.Some? && k.current.value < |k'.tasks|
            && k'.tasks[h].prio >= k'.tasks[k.current.value].prio == k.tasks[k.current.value].prio
            && k'.tasks[k.current.value].wait == Some(Receivers(q))
  {
    InvBasics(k);
    CallerReady(k);
    HolderExists(k, q);
    hide Placed, TaskOk, ListSorted, Inherit, Block;
    var holder := k.queues[q].holder;
    InheritOk(k, holder);
    InheritRaises(k, holder);
    EventLists(Inherit(k, holder), q);
    BlockOk(Inherit(k, holder), k.current.value, Receivers(q), wait);
  }

  /** A task that is at priority p or above in state s stays there up to state n
      if and only if its base priority is at least p or nobody gives a mutex that
      it holds in between. */
  lemma {:induction false} LiftLasts(trace: seq<State>, steps: seq<Step>, h: nat, p: nat, s: nat, n: nat)
    requires IsRun(trace, steps) && Inv(trace[0]) && s <= n <= |steps|
    requires h < |trace[s].tasks| && trace[s].tasks[h].prio >= p
    ensures forall i :: s <= i <= n ==> h < |trace[i].tasks| && trace[i].tasks[h].base == trace[s].tasks[h].base
    ensures (forall i :: s <= i <= n ==> trace[i].tasks[h].prio >= p)
            <==> (trace[s].tasks[h].base >= p || forall i :: s <= i < n ==> !GivesMutexOf(trace[i], steps[i], h))
  {
    hide Apply, Enabled, Inv, GivesMutexOf;
    if n > s {
      LiftLasts(trace, steps, h, p, s, n - 1);
      RunKeepsInv(trace, steps, n - 1);
      RunKeepsInv(trace, steps, n);
      assert StepTo(trace[n - 1], steps[n - 1], trace[n]);
      StepFrame(trace[n - 1], steps[n - 1]);
      InvBasics(trace[n]);
      assert trace[n].tasks[h].base <= trace[n].tasks[h].prio;
    }
  }

  /** Priority inheritance along a run: once the running task has blocked on a
      mutex, the mutex's holder runs at no lower priority than the waiter had for
      exactly as long as nobody gives a mutex of that holder (or for ever, if the
      holder's own priority is no lower). */
  lemma InheritanceLasts(trace: seq<State>, steps: seq<Step>, q: nat, s: nat, n: nat)
    requires IsRun(trace, steps) && Inv(trace[0]) && s < n <= |steps| && trace[s].inherit
    requires steps[s].BlockToReceive? && steps[s].q == q < |trace[s].queues|
    requires trace[s].queues[q].mutex && trace[s].queues[q].holder.Some?
    ensures trace[s].current.Some? && trace[s].current.value < |trace[s].tasks|
    ensures var h, p := trace[s].queues[q].holder.value, trace[s].tasks[trace[s].current.value].prio;
            && (forall i :: s <= i <= n ==> h < |trace[i].tasks|)
            && ((forall i :: s < i <= n ==> trace[i].tasks[h].prio >= p)
                <==> (trace[s].tasks[h].base >= p || forall i :: s < i < n ==> !GivesMutexOf(trace[i], steps[i], h)))
  {
    hide Inv, StepTo, GivesMutexOf;
    RunKeepsInv(trace, steps, s);
    var k, k' := trace[s], trace[s + 1];
    BlockStepLifts(k, steps[s], k', q);
    LiftLasts(trace, steps, k.queues[q].holder.value, k.tasks[k.current.value].prio, s + 1, n);
  }

  lemma BlockStepLifts(k: State, step: Step, k': State, q: nat)
    requires Inv(k) && StepTo(k, step, k') && k.inherit && step.BlockToReceive? && step.q == q < |k.queues|
    requires k.queues[q].mutex && k.queues[q].holder.Some?
    ensures k.current.Some? && k.current.value < |k.tasks|
    ensures var h := k.queues[q].holder.value;
            && h < |k.tasks| <= |k'.tasks| && k'.tasks[h].base == k.tasks[h].base
            && k'.tasks[h].prio >= k.tasks[k.current.value].prio
  {
    BlockInherits(k, step, q);
    StepFrame(k, step);
    hide Inv, Apply, GivesMutexOf;
  }

  lemma BlockInherits(k: State, step: Step, q: nat)
    requires Inv(k) && Enabled(k, step) && k.inherit && step.BlockToReceive? && step.q == q
    requires k.queues[q].mutex && k.queues[q].holder.Some?
    ensures k.current.Some? && k.current.value < |k.tasks| && k.queues[q].holder.value < |k.tasks|
    ensures var k', h := Apply(k, step), k.queues[q].holder.value;
            h < |k'.tasks| && k'.tasks[h].prio >= k.tasks[k.current.value].prio
  {
    CallerReady(k);
    HolderExists(k, q);
    BlockingLiftsHolder(k, q, step.wait);
    hide Inv, Apply;
  }

  /** Why the condition speaks of all the holder's mutexes: a holder of two that
      gives the other one is back at its base priority, while it still holds this
      one and the waiters of this one still wait. */
  lemma GivingAnotherDrops(k: State, q: nat, r: nat, h: nat, w: nat, front: bool)
    requires Inv(k) && Enabled(k, TrySend(r, [], front)) && q < |k.queues| && r != q
    requires k.queues[q].mutex && k.queues[r].mutex && k.queues[q].holder == k.queues[r].holder == Some(h)
    requires w < |k.tasks| && k.tasks[w].wait == Some(Receivers(q))
    ensures var k' := Apply(k, TrySend(r, [], front));
            && q < |k'.queues| && k'.queues[q].holder == Some(h)
            && h < |k'.tasks| && w < |k'.tasks| && k'.tasks[h].prio == k'.tasks[h].base
            && k'.tasks[w].wait == Some(Receivers(q))
  {
    var step := TrySend(r, [], front);
    hide Inv, Apply;
    TwoMutexFacts(k, r, h, w, q);
    QueueStep(k, step, q);
    StepFrame(k, step);
    BlockedTaskStep(k, step, w);
  }

  lemma TwoMutexFacts(k: State, r: nat, h: nat, w: nat, q: nat)
    requires Inv(k) && r < |k.queues| && r != q && k.queues[r].mutex && k.queues[r].holder == Some(h)
    requires w < |k.tasks| && k.tasks[w].wait == Some(Receivers(q))
    ensures h < |k.tasks| && |k.queues[r].contents| < k.queues[r].length
    ensures k.tasks[w].home != Some(Ready(k.tasks[w].prio)) && !IsHead(k, Receivers(r), w)
  {
    assert QueueOk(k.queues[r], |k.tasks|);
    assert TaskOk(k.tasks[w], k.top, k.tick);
    EventLists(k, r);
    HeadIsIn(k, Receivers(r));
  }
}
