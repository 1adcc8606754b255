/** The kernel state of kernel/tasks.c and kernel/queue.c as a value, and every
    critical section, tick and context switch as a function on it. */
module KernelState {
  import opened Common
  import opened Rings

  /** configMAX_PRIORITIES */
  const MaxPriorities: nat := 32

  /** Which list a pointer to a List_t denotes. */
  datatype ListId = Ready(prio: nat) | Delayed | Suspended | Senders(queue: nat) | Receivers(queue: nat) {
    predicate IsEvent() { Senders? || Receivers? }
  }

  /** A TCB: `home` and `wait` are the containers of the state item and of the
      event item, `value` is the state item's ordering key. */
  datatype Task = Task(prio: nat, base: nat, value: nat, home: Option<ListId>, wait: Option<ListId>) {
    /** The container of the item that goes into lists of l's kind. */
    function Container(l: ListId): Option<ListId> {
      if l.IsEvent() then wait else home
    }
    /** The ordering key of that item; event keys are fixed at creation. */
    function Key(l: ListId): nat {
      if l.IsEvent() then if base <= MaxPriorities then MaxPriorities - base else 0 else value
    }
    function Move(l: ListId, to: Option<ListId>): Task {
      if l.IsEvent() then this.(wait := to) else this.(home := to)
    }
  }

  datatype Queue = Queue(length: nat, itemSize: nat, contents: seq<Item>, mutex: bool, holder: Option<nat>)

  /** `yielding`: the running task has blocked itself and not been switched out
      yet. `idle`: the idle task, once the scheduler has been started. */
  datatype State = State(
    tasks: seq<Task>,
    lists: map<ListId, Ring<nat>>,
    queues: seq<Queue>,
    top: nat,
    tick: nat,
    current: Option<nat>,
    idle: Option<nat>,
    yielding: bool,
    inherit: bool
  )

  ghost predicate ListExists(k: State, l: ListId) {
    match l
    case Ready(p) => p < MaxPriorities
    case Delayed => true
    case Suspended => true
    case Senders(q) => q < |k.queues|
    case Receivers(q) => q < |k.queues|
  }

  // ----- Structure: what the containers and rings always agree on -----------

  /** Every list is a well-formed ring, and a task is in it exactly when the
      container pointer of its item says so. */
  ghost predicate Placed(k: State) {
    && (forall l :: l in k.lists <==> ListExists(k, l))
    && (forall l :: l in k.lists ==> k.lists[l].WellFormed())
    && (forall l, t: nat :: l in k.lists ==> (t in k.lists[l].items <==> In(k, t, l)))
    && (forall t :: 0 <= t < |k.tasks| ==> ContainersExist(k, k.tasks[t]))
  }

  ghost predicate In(k: State, t: nat, l: ListId) {
    t < |k.tasks| && k.tasks[t].Container(l) == Some(l)
  }

  ghost predicate ContainersExist(k: State, task: Task) {
    && (task.home.Some? ==> task.home.value in k.lists && !task.home.value.IsEvent())
    && (task.wait.Some? ==> task.wait.value in k.lists && task.wait.value.IsEvent())
  }

  /** The event lists of a queue are there. */
  lemma EventLists(k: State, q: nat)
    requires Placed(k) && q < |k.queues|
    ensures Senders(q) in k.lists && Receivers(q) in k.lists
  {
    assert ListExists(k, Senders(q)) && ListExists(k, Receivers(q));
  }

  /** The first task of a list is in it. */
  lemma HeadIsIn(k: State, l: ListId)
    requires Placed(k) && l in k.lists
    ensures k.lists[l].items != [] ==> In(k, k.lists[l].items[0], l)
  {
    assert k.lists[l].items != [] ==> k.lists[l].items[0] in k.lists[l].items;
  }

  /** The lists that exist from the start. */
  lemma FixedLists(k: State)
    requires Placed(k)
    ensures Delayed in k.lists && Suspended in k.lists && forall p: nat :: p < MaxPriorities ==> Ready(p) in k.lists
  {
    assert ListExists(k, Delayed) && ListExists(k, Suspended);
    assert forall p: nat :: p < MaxPriorities ==> ListExists(k, Ready(p));
  }

  /** A task is in the lists its two items point to. */
  lemma IsInContainers(k: State, t: nat)
    requires Placed(k) && t < |k.tasks|
    ensures var task := k.tasks[t];
            && (task.home.Some? ==>
                  task.home.value in k.lists && !task.home.value.IsEvent() && In(k, t, task.home.value))
            && (task.wait.Some? ==>
                  task.wait.value in k.lists && task.wait.value.IsEvent() && In(k, t, task.wait.value))
  {
    assert ContainersExist(k, k.tasks[t]);
  }

  /** A task that is in no list changes none. */
  lemma UnlistedTask(k: State, k': State, task: Task)
    requires Placed(k) && task.home == None && task.wait == None
    requires k'.tasks == k.tasks + [task] && k'.lists == k.lists && k'.queues == k.queues
    ensures Placed(k')
  {
  }

  ghost predicate Indices(items: seq<nat>, tasks: seq<Task>) {
    forall i :: 0 <= i < |items| ==> items[i] < |tasks|
  }

  lemma PlacedIndices(k: State, l: ListId)
    requires Placed(k) && l in k.lists
    ensures Indices(k.lists[l].items, k.tasks)
  {
    forall i | 0 <= i < |k.lists[l].items| ensures k.lists[l].items[i] < |k.tasks| {
      assert k.lists[l].items[i] in k.lists[l].items;
    }
  }

  /** The keys of a list's items, in ring order. */
  function Keys(tasks: seq<Task>, items: seq<nat>, l: ListId): (keys: seq<nat>)
    requires Indices(items, tasks)
  {
    seq(|items|, i requires 0 <= i < |items| => tasks[items[i]].Key(l))
  }

  // ----- List operations on one item of one task ----------------------------

  /** uxListRemove on the item of task t that list l holds. */
  function Detach(k: State, t: nat, l: ListId): (k': State)
    requires Placed(k) && l in k.lists && In(k, t, l)
    ensures Placed(k')
  {
    RemoveKeeps(k.lists[l], t);
    k.(lists := k.lists[l := Remove(k.lists[l], t)],
       tasks := k.tasks[t := k.tasks[t].Move(l, None)])
  }

  /** vListInsertEnd of the task's item of l's kind. */
  function AttachEnd(k: State, t: nat, l: ListId): (k': State)
    requires Placed(k) && l in k.lists && t < |k.tasks| && k.tasks[t].Container(l) == None
    ensures Placed(k')
  {
    EndInsertKeeps(k.lists[l], t);
    k.(lists := k.lists[l := EndInsert(k.lists[l], t)],
       tasks := k.tasks[t := k.tasks[t].Move(l, Some(l))])
  }

  /** vListInsert of the task's item of l's kind. */
  function AttachSorted(k: State, t: nat, l: ListId): (k': State)
    requires Placed(k) && l in k.lists && t < |k.tasks| && k.tasks[t].Container(l) == None
    ensures Placed(k')
  {
    PlacedIndices(k, l);
    var at := InsertionPoint(Keys(k.tasks, k.lists[l].items, l), k.tasks[t].Key(l));
    InsertAtKeeps(k.lists[l], at, t);
    k.(lists := k.lists[l := InsertAt(k.lists[l], at, t)],
       tasks := k.tasks[t := k.tasks[t].Move(l, Some(l))])
  }

  /** Overwrite the key of a state item that is in no list. */
  function SetValue(k: State, t: nat, v: nat): (k': State)
    requires Placed(k) && t < |k.tasks| && k.tasks[t].home == None
    ensures Placed(k')
  {
    k.(tasks := k.tasks[t := k.tasks[t].(value := v)])
  }

  function SetPrio(k: State, t: nat, p: nat): (k': State)
    requires Placed(k) && t < |k.tasks|
    ensures Placed(k')
  {
    k.(tasks := k.tasks[t := k.tasks[t].(prio := p)])
  }

  // ----- kernel/tasks.c -------------------------------------------------------

  /** uxBasePriority <= uxPriority < configMAX_PRIORITIES, for every task. */
  ghost predicate PriosOk(k: State) {
    forall t :: 0 <= t < |k.tasks| ==> k.tasks[t].base <= k.tasks[t].prio < MaxPriorities
  }

  /** The same tasks in the same lists. */
  lemma SameStructure(k: State, k': State)
    requires Placed(k) && PriosOk(k) && k'.tasks == k.tasks && k'.lists == k.lists && |k'.queues| == |k.queues|
    ensures Placed(k') && PriosOk(k')
  {
    assert forall l :: ListExists(k', l) == ListExists(k, l);
    assert forall l, t: nat :: In(k', t, l) == In(k, t, l);
    assert forall task :: ContainersExist(k', task) == ContainersExist(k, task);
  }

  /** Every task's state item is in some list. */
  ghost predicate Homed(k: State) {
    forall t :: 0 <= t < |k.tasks| ==> k.tasks[t].home.Some?
  }

  /** prvAddTaskToReadyList */
  function AddReady(k: State, t: nat): (k': State)
    requires Placed(k) && PriosOk(k) && t < |k.tasks| && k.tasks[t].home == None
    ensures Placed(k') && PriosOk(k')
  {
    var p := k.tasks[t].prio;
    var k1 := k.(top := if p > k.top then p else k.top);
    AttachEnd(SetValue(k1, t, p), t, Ready(p))
  }

  /** prvReprioritise */
  function Reprioritise(k: State, t: nat, p: nat): (k': State)
    requires Placed(k) && PriosOk(k) && t < |k.tasks|
    requires k.tasks[t].base <= p < MaxPriorities
    ensures Placed(k') && PriosOk(k')
    ensures Homed(k) ==> Homed(k')
  {
    var l := Ready(k.tasks[t].prio);
    if k.tasks[t].home == Some(l) then AddReady(SetPrio(Detach(k, t, l), t, p), t)
    else SetPrio(k, t, p)
  }

  /** vTaskPriorityInherit: raise the holder to the running task's priority. */
  function Inherit(k: State, holder: Option<nat>): (k': State)
    requires Placed(k) && PriosOk(k)
    requires holder.Some? ==> holder.value < |k.tasks|
    requires k.current.Some? ==> k.current.value < |k.tasks|
    ensures Placed(k') && PriosOk(k')
    ensures Homed(k) ==> Homed(k')
  {
    if holder == None || k.current == None || !k.inherit then k
    else
      var p := k.tasks[k.current.value].prio;
      if k.tasks[holder.value].prio < p then Reprioritise(k, holder.value, p) else k
  }

  /** vTaskPriorityDisinherit: back to the base priority. */
  function Disinherit(k: State, holder: Option<nat>): (k': State)
    requires Placed(k) && PriosOk(k)
    requires holder.Some? ==> holder.value < |k.tasks|
    ensures Placed(k') && PriosOk(k')
    ensures Homed(k) ==> Homed(k')
  {
    if holder == None then k
    else
      var task := k.tasks[holder.value];
      if task.prio != task.base then Reprioritise(k, holder.value, task.base) else k
  }

  /** The running task's state item goes onto the delayed list. */
  function DelayUntil(k: State, t: nat, wake: nat): (k': State)
    requires Placed(k) && PriosOk(k) && t < |k.tasks| && k.tasks[t].home == None
    ensures Placed(k') && PriosOk(k')
  {
    AttachSorted(SetValue(k, t, wake), t, Delayed)
  }

  /** First half of vTaskPlaceOnEventList: out of the ready list, into the
      event list by priority. */
  function Enlist(k: State, t: nat, l: ListId): (k': State)
    requires Placed(k) && PriosOk(k) && l in k.lists && l.IsEvent()
    requires t < |k.tasks| && k.tasks[t].home.Some? && k.tasks[t].wait == None
    ensures Placed(k') && PriosOk(k')
  {
    AttachSorted(Detach(k, t, k.tasks[t].home.value), t, l)
  }

  /** Second half: park the state item, with a timeout or for ever. */
  function Park(k: State, t: nat, wait: nat): (k': State)
    requires Placed(k) && PriosOk(k) && t < |k.tasks| && k.tasks[t].home == None
    ensures Placed(k') && PriosOk(k')
  {
    if wait == MaxDelay then AttachEnd(k, t, Suspended) else DelayUntil(k, t, k.tick + wait)
  }

  /** vTaskPlaceOnEventList for task t. */
  function Block(k: State, t: nat, l: ListId, wait: nat): (k': State)
    requires Placed(k) && PriosOk(k) && l in k.lists && l.IsEvent()
    requires t < |k.tasks| && k.tasks[t].home.Some? && k.tasks[t].wait == None
    ensures Placed(k') && PriosOk(k')
  {
    Park(Enlist(k, t, l), t, wait)
  }

  /** vTaskDelay for task t. */
  function Sleep(k: State, t: nat, ticks: nat): (k': State)
    requires Placed(k) && PriosOk(k) && t < |k.tasks| && k.tasks[t].home.Some?
    ensures Placed(k') && PriosOk(k')
  {
    DelayUntil(Detach(k, t, k.tasks[t].home.value), t, k.tick + ticks)
  }

  /** xTaskRemoveFromEventList: wake the head waiter. */
  function WakeWaiter(k: State, l: ListId): (k': State)
    requires Placed(k) && PriosOk(k) && l in k.lists && l.IsEvent()
    requires Homed(k)
    ensures Placed(k') && PriosOk(k')
  {
    if k.lists[l].items == [] then k
    else
      var t := k.lists[l].items[0];
      assert t in k.lists[l].items;
      var k1 := Detach(k, t, l);
      AddReady(Detach(k1, t, k1.tasks[t].home.value), t)
  }

  /** One iteration of xTaskIncrementTick's loop: the head of the delayed list
      leaves it, and leaves its event list if it waits on one. */
  function WakeSleeper(k: State, t: nat): (k': State)
    requires Placed(k) && PriosOk(k) && In(k, t, Delayed)
    ensures Placed(k') && PriosOk(k')
    ensures |k'.lists[Delayed].items| < |k.lists[Delayed].items|
  {
    RemoveKeeps(k.lists[Delayed], t);
    var k1 := Detach(k, t, Delayed);
    var k2 := if k1.tasks[t].wait.Some? then Detach(k1, t, k1.tasks[t].wait.value) else k1;
    AddReady(k2, t)
  }

  function WakeSleepers(k: State): (k': State)
    requires Placed(k) && PriosOk(k)
    ensures Placed(k') && PriosOk(k')
    decreases |k.lists[Delayed].items|
  {
    var d := k.lists[Delayed].items;
    if d == [] then k
    else
      assert d[0] in d;
      if k.tasks[d[0]].value > k.tick then k else WakeSleepers(WakeSleeper(k, d[0]))
  }

  /** xTaskIncrementTick */
  function Tick(k: State): (k': State)
    requires Placed(k) && PriosOk(k)
    ensures Placed(k') && PriosOk(k')
  {
    WakeSleepers(k.(tick := k.tick + 1))
  }

  /** The loop of vTaskSwitchContext: the first non-empty ready list at or
      below p, or 0. */
  function TopReady(k: State, p: nat): (q: nat)
    requires Placed(k) && p < MaxPriorities
    ensures q <= p
    ensures forall r :: q < r <= p ==> k.lists[Ready(r)].items == []
    ensures q > 0 ==> k.lists[Ready(q)].items != []
  {
    if k.lists[Ready(p)].items == [] && p > 0 then TopReady(k, p - 1) else p
  }

  /** vTaskSwitchContext */
  function Switch(k: State): (k': State)
    requires Placed(k) && k.top < MaxPriorities
    requires exists p :: 0 <= p <= k.top && k.lists[Ready(p)].items != []
    ensures Placed(k')
  {
    var p := TopReady(k, k.top);
    var ring := Advance(k.lists[Ready(p)]);
    k.(top := p, lists := k.lists[Ready(p) := ring], current := Some(Served(ring)), yielding := false)
  }

  /** The critical section of xTaskCreate. */
  function CreateTask(k: State, prio: nat): (k': State)
    requires Placed(k) && PriosOk(k)
    ensures Placed(k') && PriosOk(k')
  {
    var p := if prio >= MaxPriorities then MaxPriorities - 1 else prio;
    var t := |k.tasks|;
    var k1 := k.(tasks := k.tasks + [Task(p, p, 0, None, None)],
                 current := if k.current == None then Some(t) else k.current);
    AddReady(k1, t)
  }

  // ----- kernel/queue.c -------------------------------------------------------

  /** xQueueCreate and its semaphore variants, with `contents` to begin with. */
  function AddQueue(k: State, queue: Queue): (k': State)
    requires Placed(k) && PriosOk(k)
    ensures Placed(k') && PriosOk(k')
  {
    var q := |k.queues|;
    k.(queues := k.queues + [queue],
       lists := k.lists[Senders(q) := Ring([], 0)][Receivers(q) := Ring([], 0)])
  }

  function SetQueue(k: State, q: nat, queue: Queue): (k': State)
    requires Placed(k) && PriosOk(k) && q < |k.queues|
    ensures Placed(k') && PriosOk(k')
  {
    k.(queues := k.queues[q := queue])
  }

  /** The item goes in; a mutex loses its holder, who loses what he inherited. */
  function Deposit(k: State, q: nat, item: Item, front: bool): (k': State)
    requires Placed(k) && PriosOk(k) && q < |k.queues|
    requires k.queues[q].holder.Some? ==> k.queues[q].holder.value < |k.tasks|
    ensures Placed(k') && PriosOk(k') && |k'.queues| == |k.queues|
    ensures Homed(k) ==> Homed(k')
  {
    var queue := k.queues[q];
    var contents := if front then [item] + queue.contents else queue.contents + [item];
    var k1 := SetQueue(k, q, queue.(contents := contents));
    if queue.mutex
    then SetQueue(Disinherit(k1, queue.holder), q, queue.(contents := contents, holder := None))
    else k1
  }

  ghost predicate HasRoom(k: State, q: nat) {
    q < |k.queues| && |k.queues[q].contents| < k.queues[q].length
  }

  /** The queue has an item, and this is the first. */
  ghost predicate Offers(k: State, q: nat, item: Item) {
    q < |k.queues| && k.queues[q].contents != [] && k.queues[q].contents[0] == item
  }

  /** The successful branch of prvSend's critical section. */
  function Send(k: State, q: nat, item: Item, front: bool): (k': State)
    requires Placed(k) && PriosOk(k) && Homed(k) && q < |k.queues|
    requires k.queues[q].holder.Some? ==> k.queues[q].holder.value < |k.tasks|
    ensures Placed(k') && PriosOk(k')
  {
    WakeWaiter(Deposit(k, q, item, front), Receivers(q))
  }

  /** The successful branch of xQueueReceive's critical section: copy out, take
      the mutex, wake a sender. */
  function Receive(k: State, q: nat): (k': State)
    requires Placed(k) && PriosOk(k) && Homed(k) && q < |k.queues| && k.queues[q].contents != []
    ensures Placed(k') && PriosOk(k')
  {
    var queue := k.queues[q];
    var taken := queue.(contents := queue.contents[1..],
                        holder := if queue.mutex then k.current else queue.holder);
    WakeWaiter(SetQueue(k, q, taken), Senders(q))
  }
}
