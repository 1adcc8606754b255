# FlintRTOS: a verified model

FlintRTOS is a small real-time kernel in C with an allocator, a PTP slave and an
MQTT telemetry client. This project models its stateful parts and proves what
they keep over whole runs.

**Kernel.** `Rings` is the sequence view of a kernel list, and `Lists` the linked
nodes themselves. `KernelState` states every critical section, tick and context
switch as a function on a value, `KernelInvariant` and `KernelSteps` the invariant
that every step keeps, `KernelEffects` exactly what each step does to every task and
queue, and `KernelRuns`, `KernelTiming`, `KernelOrder`, `KernelWaiting`,
`KernelTurns`, `KernelSchedule` and `KernelQueues` what follows for every interleaving;
`KernelLostLift` is one run in full, in which priority inheritance is lost.
`Scheduler`, `ByteQueue` and `QueueObjects` are the same kernel on objects: task
control blocks whose items hang in linked lists, and queues with byte storage.
Each of their methods is proved to take exactly the model's step, and a system
built from nothing to follow every run, so the results about runs hold of the
objects.

**Allocator.** `HeapSpec` describes the pool as a tiling by live and free blocks;
`HeapMemory` says how 16-byte slots of memory represent one, `Heap4` is the code on
those slots, with the application's own writes beside it, `HeapStale` what a free of a
stale pointer does, and `HeapClients` what an application sees.

**PTP slave.** `PtpClock`, `PtpServo`, `PtpDelay`, `PtpCore` and `PtpEngine` are the
clock, the servo, the delay filter and the protocol engine; `PtpLoop` is the
closed control loop, `PtpAcquisition` and `PtpLock` how it is entered, `PtpMaster` and
`PtpSelection` the choice of the master, `PtpRuns` what every message run keeps,
`PtpHistory` everything the engine stores, worked out from its events, `PtpProtocol`
when it therefore loses its master, asks for the delay and feeds the servo, and
`PtpUtc` the date arithmetic.

**Others.** `JsonText`, `JsonWriter` and `JsonParse` are the JSON writer, its ideal
output and an independent reader; `Capabilities` and `CapabilityRuns` the CNodes;
`PrioBitmap` the two-level bitmap; `CInt` C's truncating division and 64-bit words;
`Common` what several modules share.

Conventions: one critical section, one tick or one context switch is one atomic
step. Time stamps, counter readings, and whether a frame could be sent or memory be
allocated are inputs.
Integers are unbounded except where a width is written out.

Where comments and code differ the code is followed. The comment in
port/ptp/ptp_clock.h says that earlier time stays continuous at every re-anchor:
that is so for frequency changes, while a step moves the time by its delta. The
comment in kernel/tasks.c calls event lists ordered by priority: their keys are
fixed at creation, so the order is that of the base priority. The comment in
portable/MemMang/heap_4.c says that a double free is ignored: that is so as long as
the old header does not carry the allocation bit, which the data of a later owner of
that memory can set. A mutex taken before there is a task has no holder, although it
is not available.

## Model

| member | source | states |
|---|---|---|
| `Lists.List.constructor` | kernel/list.c:9-20 | an initialised list is a valid ring of one node, the end marker with key portMAX_DELAY |
| `Lists.List.InsertEnd` | kernel/list.c:32-44 | on the pointer ring, the item is linked in front of the cursor: the ring stays valid (next and previous inverse, count and containers exact, cursor a node) and its sequence is the old one with the item in that place |
| `Lists.List.FindInsertionPoint` | kernel/list.c:46-66 | the walk ends for every key, portMAX_DELAY included, behind the last key that is not larger |
| `Lists.List.Insert` | kernel/list.c:46-74 | on the pointer ring, the item is linked behind all keys not above its own |
| `Lists.ListRemove` | kernel/list.c:76-93 | the item leaves whichever ring holds it, a cursor on it steps back, the number left is returned |
| `Lists.List.NextOwner` | include/FlintRTOS/list.h:58-66 | the round-robin step moves the cursor to the next item, over the end marker, and returns its owner |
| `Rings.InsertionKeepsOrder` | kernel/list.c:46-74 | a list built by sorted insertion stays ascending, and the newcomer goes behind equal keys |
| `Rings.RoundRobin` | include/FlintRTOS/list.h:58-66 | n round-robin steps over n unchanged items serve each item exactly once and restore the service order |
| `Rings.EndInsertDelaysOnlyCursor` | kernel/list.c:32-44 | an end-insert keeps everybody's place in the service order except that of the item under the cursor |
| `Rings.RemoveKeepsOrder` | kernel/list.c:76-93 | a removal keeps the service order of all the others |
| `KernelSteps.StepKeepsInv` | kernel/tasks.c:82-91 | every atomic step (create, start, delay, queue sections before and after the scheduler starts, blocking, tick, switch, inheritance switch, creation without memory) keeps the kernel invariant: containers and rings agree, sorted lists are sorted, cached top priority bounds all ready tasks, boosted tasks hold a mutex, held mutexes are unavailable, queues are within bounds |
| `KernelRuns.RunKeepsInv` | kernel/tasks.c:213-227 | the invariant holds in every state of every interleaving of steps |
| `KernelRuns.StepFrame` | kernel/tasks.c:233-270 | every step but a context switch leaves the running task alone; time, idle task and inheritance switch change only by their own steps; and a task goes back to its base priority when a mutex it holds is given, and is lowered by nothing else |
| `KernelRuns.BlockedTaskStep` | kernel/tasks.c:366-421 | in one step a blocked task stays where it is, or is woken off both its lists together, by its timeout or as head of the event list that a send or receive serves |
| `KernelEffects.StepChangesTask` | kernel/tasks.c:233-434 | every step does to every task exactly this: woken by a tick if its time has come, as head of the receivers if an item goes in, as head of the senders if one comes out; the running task put on the list and with the time it asked for; priorities raised and given back with a mutex; all other tasks left alone |
| `KernelEffects.ReadyAfter` | kernel/tasks.c:366-421 | after a step a task is ready if and only if it was and did not go to sleep or the step wakes it, and a woken task is on no event list |
| `KernelEffects.StepCreates` | kernel/queue.c:37-65 | exactly the creating calls that get memory add a task or queue, which begins with the length, item size, count of tokens and capped priority asked for; the running task and the request to yield change only as stated |
| `KernelEffects.QueueIsItsCalls` | kernel/queue.c:106-246 | in every run, from its creation on, the contents of a queue, semaphore or mutex are what its calls alone make of its first contents: in if there is room, out if there is an item |
| `KernelSchedule.RunPlacesEveryTask` | kernel/tasks.c:342-421 | in every run each task is in exactly one of ready at its own priority, delayed or suspended; a waiting task is delayed or suspended; a suspended task waits; and the list lengths add up to the number of tasks |
| `KernelSchedule.ListsHoldEveryTask` | kernel/tasks.c:82-91 | the lengths of the ready, delayed and suspended lists sum to the task count |
| `KernelSchedule.SwitchSelectsHighest` | kernel/tasks.c:300-322 | a context switch selects a task of the highest ready priority: no ready list above it is non-empty |
| `KernelSchedule.PeersTakeTurns` | kernel/tasks.c:300-322 | in any run of any steps in which p stays the highest ready priority and only context switches touch its list, the j-th switch runs the task of number (j - 1) mod n in the service order of the n tasks, which then runs until the next switch; so every n switches run each of them exactly once |
| `KernelSchedule.TickLeavesPeers` | portable/LLVM_AArch64/port.c:218-219 | the tick that comes before every switch of the timer interrupt is such a step, if it wakes only tasks of lower priority |
| `KernelTiming.DelayIsExact` | kernel/tasks.c:388-434 | in every run a task delayed d ticks at tick t is asleep in every state before tick t+d and ready in the state that reaches it |
| `KernelTiming.TimeoutIsABound` | kernel/tasks.c:342-364 | in every run a timed event waiter is on both lists until it is woken or its tick comes, and is off both by then |
| `KernelOrder.FirstComeFirstServed` | kernel/tasks.c:342-386 | in every run, as long as a task waits on an event list, no task of lower or equal creation-time priority that came later gets in front of it |
| `KernelOrder.HeadIsHighest` | kernel/tasks.c:158-159 | the head of an event list has the greatest creation-time priority among the waiters |
| `KernelWaiting.StepMovesWaiter` | kernel/tasks.c:342-386 | a step that leaves a task waiting brings it one place forward if it serves the list and puts it back by at most one if a task created with a higher priority begins to wait |
| `KernelWaiting.WaiterIsServed` | kernel/queue.c:115-125 | nobody starves: in every run a task that waits behind p others is ready by the time its list was served more often than p times and once for everybody who overtook it |
| `KernelTurns.NobodyJumpsTheQueue` | kernel/tasks.c:82-91 | every step but a switch keeps the order of service of any two tasks of one priority that stay ready, and puts all who become ready behind the first of them |
| `KernelTurns.SwitchRotates` | kernel/tasks.c:300-322 | a switch sends the task it selects to the back of its own order and touches no other list |
| `KernelQueues.QueueStep` | kernel/queue.c:115-125 | only a send or a receive on a queue changes that queue, and by exactly its item |
| `KernelQueues.ReceivedIsPrefixOfSent` | kernel/queue.c:106-158 | in every interleaving that only sends to the back, before and after the scheduler starts, the items received followed by the contents are the first contents followed by the items sent |
| `KernelQueues.TokensAreConserved` | kernel/queue.c:227-235 | for every semaphore, initial count plus gives minus takes is the count, and stays within the maximum |
| `KernelQueues.RunKeepsMutexes` | kernel/queue.c:237-246 | in every run a held mutex is unavailable and its holder a task, no task is below its base or at an impossible priority, a task above its base priority holds a mutex, and there is a current task exactly when there is any |
| `KernelQueues.MutexesTellHolder` | kernel/queue.c:180-189 | along every run, every mutex is available exactly when it has no holder in all of the first n + 1 states if and only if none of the first n steps takes a mutex while there is no task |
| `KernelQueues.TakenBeforeTasks` | kernel/queue.c:183-186 | the case that fails: a mutex created and taken before there is a task is unavailable and has no holder |
| `KernelQueues.HolderKeepsMutex` | kernel/queue.c:170-189 | mutual exclusion: between its take and the next give of the mutex, nobody else gets it |
| `KernelQueues.BlockingLiftsHolder` | kernel/tasks.c:233-250 | when the running task blocks on a held mutex with inheritance on, the holder has at least its priority in the next state |
| `KernelQueues.InheritanceLasts` | kernel/tasks.c:233-270 | along every run from such a step on, the holder stays at or above the waiter's priority if and only if its own base priority is that high or nobody gives any mutex it holds |
| `KernelQueues.GivingAnotherDrops` | kernel/tasks.c:254-270 | a holder of two mutexes that gives one is back at its base priority while it holds the other and the waiters of that still wait |
| `KernelLostLift.LiftIsLost` | kernel/tasks.c:254-270 | from every initial state an eleven-step run in which that happens: a task created with priority 1 is back at it and still holds the mutex that a task of priority 5 or more waits for |
| `Scheduler.TCB.constructor` | kernel/tasks.c:130-159 | a new control block: both items in no list, owners set, event key fixed by the creation-time priority |
| `Scheduler.Kernel.constructor` | kernel/tasks.c:272-281 | the objects start as the model does: 32 ready lists, the delayed and the suspended list, all empty and all distinct |
| `Scheduler.Kernel.AddReady` | kernel/tasks.c:82-91 | on control blocks and linked lists, the step is exactly the model's, and every list, container pointer and cached field agrees with the model again |
| `Scheduler.Kernel.Reprioritise` | kernel/tasks.c:213-227 | moves a task between ready lists only if its item is in the ready list of its priority, as the container pointer says; otherwise only the priority changes |
| `Scheduler.Kernel.PriorityInherit` | kernel/tasks.c:233-250 | refines the model's inheritance on objects |
| `Scheduler.Kernel.PriorityDisinherit` | kernel/tasks.c:254-270 | refines the model's return to the base priority; true exactly when the priority had been raised |
| `Scheduler.Kernel.PlaceOnEventList` | kernel/tasks.c:342-361 | refines the model's blocking: out of the ready list, into the event list by key, onto the delayed or the suspended list |
| `Scheduler.Kernel.RemoveFromEventList` | kernel/tasks.c:366-386 | refines the model's wake-up of the head waiter; true exactly when it outranks the running task |
| `Scheduler.Kernel.IncrementTick` | kernel/tasks.c:388-421 | the loop over the delayed list wakes exactly the expired sleepers, as the model's tick does |
| `Scheduler.Kernel.SwitchContext` | kernel/tasks.c:300-322 | the downward search and the round-robin step select what the model's switch selects |
| `Scheduler.Kernel.Delay` | kernel/tasks.c:423-434 | refines the model's sleep; a delay of zero does nothing |
| `Scheduler.Kernel.CreateTask` | kernel/tasks.c:93-181 | refines the model's task creation, with the priority capped; without memory for stack and control block nothing changes |
| `Scheduler.Kernel.SetInheritance` | kernel/tasks.c:201-204 | switches inheritance and nothing else |
| `ByteQueue.Queue.constructor` | kernel/queue.c:45-58 | an empty ring: write position at the first slot, read position at the last |
| `ByteQueue.Queue.PutBack` | kernel/queue.c:69-93 | bytes copied at the write position, with wrap-around, append the item to the sequence the storage represents |
| `ByteQueue.Queue.PutFront` | kernel/queue.c:78-91 | bytes copied at the read position, which steps back and wraps, put the item in front |
| `ByteQueue.Queue.Take` | kernel/queue.c:95-104 | the read position steps on and wraps, and the bytes there are the first item of the sequence |
| `QueueObjects.System.TrySend` | kernel/queue.c:115-125 | on byte storage, control blocks and linked lists, the critical section of a send is exactly the model's step; it succeeds exactly when there is room, and reports a yield exactly when the receiver it woke now outranks the running task |
| `QueueObjects.System.TryReceive` | kernel/queue.c:180-189 | the critical section of a receive is exactly the model's step; it succeeds exactly when there is an item, returns the first, and reports a yield exactly when the sender it woke now outranks the running task |
| `QueueObjects.System.BlockToSend` | kernel/queue.c:135-137 | blocking to send is exactly the model's step |
| `QueueObjects.System.BlockToReceive` | kernel/queue.c:199-206 | blocking to receive, with the holder of a mutex inheriting first, is exactly the model's step |
| `QueueObjects.System.CreateQueue` | kernel/queue.c:37-65 | a new queue with its two event lists is the model's step; nothing for length zero or without memory |
| `QueueObjects.System.CreateCounting` | kernel/queue.c:227-235 | a counting semaphore with its initial tokens is the model's step; nothing without memory |
| `QueueObjects.System.CreateMutex` | kernel/queue.c:237-246 | a mutex starts available, as in the model; nothing without memory |
| `QueueObjects.System.TickInterrupt` | kernel/tasks.c:388-421 | the tick of the whole system is the model's step |
| `QueueObjects.System.SwitchContext` | kernel/tasks.c:300-322 | the context switch of the whole system is the model's step |
| `QueueObjects.System.DelayFor` | kernel/tasks.c:423-434 | vTaskDelay on the whole system is the model's step |
| `QueueObjects.System.Create` | kernel/tasks.c:93-181 | task creation on the whole system is the model's step, with and without memory |
| `QueueObjects.System.Start` | kernel/tasks.c:283-298 | starting the scheduler adds the idle task and resets the tick, as in the model |
| `QueueObjects.System.Perform` | kernel/queue.c:106-225 | for every step of the model the objects take that step, and the invariant holds again |
| `QueueObjects.PerformAll` | kernel/queue.c:106-225 | a system built from nothing follows any run of the model call by call to its last state, so that whatever is proved of runs holds of the objects |
| `HeapSpec.CanonicalUnique` | portable/MemMang/heap_4.c:46-89 | a tiling of the pool without adjacent free blocks is determined by its live blocks: the free list is a function of them alone |
| `HeapSpec.AllocateCanonical` | portable/MemMang/heap_4.c:166-189 | allocation keeps the tiling exact and without adjacent free blocks, and adds exactly one live block |
| `HeapSpec.ReleaseCanonical` | portable/MemMang/heap_4.c:204-217 | release keeps the tiling exact and without adjacent free blocks, and takes exactly one live block away |
| `HeapSpec.ReleaseUndoesAllocate` | portable/MemMang/heap_4.c:128-217 | freeing what was just allocated restores the tiling, and with it the free list, exactly |
| `HeapSpec.ReleaseAllInAnyOrder` | portable/MemMang/heap_4.c:194-217 | freeing all live blocks in any order ends in the one initial free block |
| `HeapSpec.LiveBlocksAreDisjoint` | portable/MemMang/heap_4.c:166-189 | live blocks never overlap and their payloads are aligned |
| `HeapSpec.ReleaseFree` | portable/MemMang/heap_4.c:46-89 | inserting the block into the address-ordered free list with both merges gives the free list of the tiling with the block released |
| `HeapSpec.AllocateFree` | portable/MemMang/heap_4.c:157-179 | what remains of the free list when a block is taken, with the tail that was split off put back |
| `HeapSpec.Rounded` | portable/MemMang/heap_4.c:145-150 | the block size for a request: header added, rounded up to the alignment by less than one unit |
| `HeapSpec.FirstFit` | portable/MemMang/heap_4.c:157-164 | the first free block in address order that is large enough |
| `HeapMemory.AllocationTakes` | portable/MemMang/heap_4.c:166-189 | an allocation takes the rounded size if the block is more than 32 bytes larger, otherwise the whole block; that many bytes leave the free list, and one live block of that size comes into being |
| `HeapMemory.ReleaseGives` | portable/MemMang/heap_4.c:204-217 | a release takes away the one live block at that address |
| `Heap4.Heap.constructor` | portable/MemMang/heap_4.c:91-105 | the usable pool is the aligned part of the bytes given, less the end marker |
| `Heap4.Heap.Initialise` | portable/MemMang/heap_4.c:91-126 | the headers written describe one free block over the whole pool |
| `Heap4.Heap.FindFit` | portable/MemMang/heap_4.c:157-164 | the walk over the headers stops at the first free block that is large enough, with its predecessor, or at the end marker |
| `Heap4.Heap.FindPrevious` | portable/MemMang/heap_4.c:48-56 | the walk over the headers stops at the last free block below the address |
| `Heap4.Heap.InsertBlock` | portable/MemMang/heap_4.c:46-89 | the walk and the header writes for any header in the pool that is not in the list: what is written, and that nothing else is |
| `HeapMemory.InsertionOk` | portable/MemMang/heap_4.c:46-89 | those writes link a block into the address-ordered list and merge it with both neighbours, touch no live header, and set no allocation bit |
| `Heap4.Heap.Malloc` | portable/MemMang/heap_4.c:128-192 | NULL exactly for zero, for a size with the top bit, or when no free block is as large as the rounded size; otherwise the payload of the first fit, of which it takes the rounded size, or all of it if at most 32 bytes would be left; exactly one live block of that size is added and its bytes are counted off, and the headers again describe a canonical tiling whose free bytes and low-water mark, from the first call on, are counted exactly, whatever owners have left in the memory; no slot but the new header gets the allocation bit |
| `Heap4.Heap.Free` | portable/MemMang/heap_4.c:194-217 | for NULL and for every slot of the pool: the heap is sound afterwards if and only if the slot has no allocation bit or is the header of a live block; without the bit nothing changes; a live block is released, its bytes are counted as free, and the headers again describe a canonical tiling; otherwise the slot lies inside a block and the memory represents no tiling at all |
| `Heap4.Heap.Write` | portable/MemMang/heap_4.c:166-170 | whatever an application writes into a payload it owns leaves the allocator's state sound and unchanged |
| `HeapStale.MarkedSlot` | portable/MemMang/heap_4.c:40-43 | a slot with the allocation bit is the header of a live block or lies strictly inside a block |
| `HeapStale.StaleFreeBreaks` | portable/MemMang/heap_4.c:204-217 | freeing a slot with the bit that is no live header leaves memory that no tiling of the pool describes |
| `HeapClients.AllocateUseFree` | portable/MemMang/heap_4.c:128-217 | allocate, write anything into the block, free: the blocks and the free bytes are what they were |
| `HeapClients.FreeTwice` | portable/MemMang/heap_4.c:207-210 | a second free that follows at once changes nothing |
| `HeapClients.FreeAll` | portable/MemMang/heap_4.c:194-217 | freeing all live pointers, each once and in any order, leaves the one free block over the whole pool, and counts all its bytes as free |
| `HeapClients.SecondFreeAfterReuse` | portable/MemMang/heap_4.c:207-217 | a second free that does harm: after the memory was allocated again and filled, the old header is data with the bit set, and the heap is broken |
| `PtpClock.TicksToNsExact` | port/ptp/ptp_clock.c:37-46 | the split form is the exact truncated quotient dt * 10^9 / f, for negative spans too |
| `PtpClock.ScalePpbExact` | port/ptp/ptp_clock.c:49-54 | the split form is the exact truncated quotient d * ppb / 10^9 for all signs |
| `PtpClock.TicksToNsFits` | port/ptp/ptp_clock.c:36-46 | no product of the tick conversion overflows 64 bits for counters up to 9.2 GHz and spans up to 292 years |
| `PtpClock.ScalePpbFits` | port/ptp/ptp_clock.c:48-54 | no product of the frequency scaling overflows 64 bits |
| `PtpClock.Clock.Rebase` | port/ptp/ptp_clock.c:73-78 | re-anchoring does not change the time |
| `PtpClock.Clock.Step` | port/ptp/ptp_clock.c:80-85 | a step moves the time at that moment by exactly delta and starts a new epoch |
| `PtpClock.Clock.AdjFreq` | port/ptp/ptp_clock.c:87-93 | a frequency change is clamped to 500 ppm, takes effect and leaves the time at that moment alone |
| `PtpClock.RateApplies` | port/ptp/ptp_clock.c:56-93 | from a frequency change on the clock gains the true time in whole nanoseconds and ppb billionths of it, across a wrap of the counter |
| `PtpClock.RunStaysClose` | port/ptp/ptp_clock.c:56-93 | over any run of k steps and frequency changes, across counter wrap-around, the clock gains beyond the sum of the steps a time that is never negative and within 500 ppm of the true time plus 3(k+1) ns |
| `PtpServo.Servo.DoStep` | port/ptp/ptp_servo.c:61-67 | the clock is moved by minus the offset, and the raw offset left is the delay |
| `PtpServo.Servo.Sample` | port/ptp/ptp_servo.c:69-147 | one measurement takes the servo and the clock exactly where the state machine says; drift and rate stay within 500 ppm, and the epoch changes exactly when the clock was stepped; an unlocked servo steps the clock by the measured offset and refers to that measurement; a stepped one does nothing within 125 ms of its reference, and then runs the clock against the drift and locks with a step if the delay is known, or only takes a new reference |
| `PtpServo.LockIsKeptIff` | port/ptp/ptp_servo.c:115-130 | from a fresh lock the servo stays locked over a run of measurements if and only if no three in a row are beyond 1 ms |
| `PtpServo.LockedJumps` | port/ptp/ptp_servo.c:115-130 | a locked servo steps the clock on the third outlier in a row and on no other measurement |
| `PtpServo.JumpLeavesDelay` | port/ptp/ptp_servo.c:61-67 | every step removes exactly the measured offset and remembers the path delay as reference |
| `PtpServo.StepsLockExactlyWhen` | port/ptp/ptp_servo.c:81-113 | a stepped servo locks exactly when the span is at least 125 ms and the delay is known, and without a delay it never steps the clock |
| `PtpServo.LockedFollows` | port/ptp/ptp_servo.c:131-142 | within 1 ms the drift moves by 1/20 of the offset per second and the rate is against the drift and 3/10 of the offset per second, rounded toward zero and clamped, with a second for every interval not between 0 and 8 s |
| `PtpAcquisition.FirstLock` | port/ptp/ptp_servo.c:69-113 | from power-up on, the servo is stepped after the first measurement and locked after the first that has a path delay and lies 125 ms behind the current reference, and not before |
| `PtpAcquisition.Commands` | port/ptp/ptp_servo.c:61-113 | until then the clock is told to jump by the whole offset at the first and at the locking measurement, to run against the estimated drift at every one that is far enough from the reference, and nothing at the others |
| `PtpAcquisition.LockedForGood` | port/ptp/ptp_servo.c:69-142 | from power-up to a lock for good: once the locking measurement is right within the noise, the servo stays locked and never steps the clock again |
| `PtpServo.EstimateIsClose` | port/ptp/ptp_servo.c:93-97 | the drift estimate is within 1 + 8n ppb of the oscillator's true drift when the raw offset is known within n ns |
| `PtpServo.SpanIsExact` | port/ptp/ptp_servo.c:31-37 | the span in unsigned arithmetic is the exact quotient, across a wrap of the counter |
| `PtpServo.SampleFits` | port/ptp/ptp_servo.c:94-141 | the products of the slope (while the raw offset moved by less than 9.2 s) and of the gains fit in 64 bits |
| `PtpLoop.ExactContracts` | port/ptp/ptp_servo.c:131-142 | in exact arithmetic every locked sample multiplies o^2/20 - 7oe/20 + e^2 by exactly 7/10 |
| `PtpLoop.EnergyIsDefinite` | port/ptp/ptp_servo.c:16-19 | that form is zero only at zero offset and zero frequency error |
| `PtpLoop.ExactConverges` | port/ptp/ptp_servo.c:131-142 | from every start the offset converges to zero: for every bound there is a sample after which it stays below it |
| `PtpLoop.SampledContracts` | port/ptp/ptp_servo.c:131-142 | one sample of the integer servo, with truncated gains and a measurement off by up to `noise`, leaves at most 8/10 of that form plus a disturbance |
| `PtpLoop.NoisyRunConverges` | port/ptp/ptp_servo.c:131-142 | over any run of unclamped locked samples the integer servo brings the form down geometrically to a floor set by noise and rounding; QuietRun says where all samples are such |
| `PtpLoop.NoisyOffsetIsBounded` | port/ptp/ptp_servo.c:131-142 | and with it the squared offset |
| `PtpLoop.QuietRun` | port/ptp/ptp_servo.c:115-142 | from a locked start below an energy level with margins, whatever the measurements within the noise, the servo stays locked, no sample is outlying, nothing is clamped, the energy stays below the level and comes down to that floor |
| `PtpLoop.OrdinaryStart` | port/ptp/ptp_servo.c:13-19 | one Sync a second, time stamps within 20 us, a crystal within 50 ppm and a start within 100 us and 20 ppm are below such a level |
| `PtpLock.LockLasts` | port/ptp/ptp_servo.c:81-142 | from the sample that locks a stepped servo on, with noise small enough for the level, whatever the measurements within the noise, the servo stays locked, no sample is outlying or clamped, the clock is never stepped again, and the energy comes down to the floor |
| `PtpLock.OrdinaryLock` | port/ptp/ptp_servo.c:13-19 | one Sync a second, time stamps within 5 us and a crystal within 50 ppm are small enough |
| `PtpMaster.CompareBytes` | port/ptp/ptp_core.c:67-74 | the byte loop is the lexicographic comparison |
| `PtpMaster.CompareIsLexicographic` | port/ptp/ptp_core.c:170-182 | the data set comparison is lexicographic over priority 1, class, accuracy, variance, priority 2, grandmaster, steps removed and port |
| `PtpMaster.BetterIsSmaller` | port/ptp/ptp_core.c:170-182 | the better master has the smaller value in the first of these in which the two differ |
| `PtpMaster.BetterIsTotal` | port/ptp/ptp_core.c:170-182 | of two different data sets exactly one is better, and none is better than itself |
| `PtpMaster.BetterIsTransitive` | port/ptp/ptp_core.c:170-182 | the comparison is transitive |
| `PtpSelection.SelectedIsBest` | port/ptp/ptp_core.c:210-250 | in every run the selected master is the best of all data sets announced since the last receipt timeout, and there is none if there were none, as long as every port announced one data set since then |
| `PtpSelection.OrderDoesNotMatter` | port/ptp/ptp_core.c:210-250 | two runs that since their last receipt timeouts have heard the same data sets, in any order, select the same master |
| `PtpSelection.ResetsAreFew` | port/ptp/ptp_core.c:192-201 | since the last receipt timeout the measurements started anew at most once for each port heard |
| `PtpSelection.UtcIsMasters` | port/ptp/ptp_core.c:246-249 | in every run the UTC offset and its flags come from the same Announce as the data set of the selected master, one received since the last receipt timeout |
| `PtpHistory.Remembers` | port/ptp/ptp_core.c:192-528 | in every state of every run everything the engine has stored, the master and its timeout, the waiting Sync, the last leg, the requests and the delay samples, is what a record kept from the events says |
| `PtpHistory.IntervalIs` | port/ptp/ptp_core.c:203-208 | the announce interval in milliseconds for every value of the field |
| `PtpProtocol.SilenceLosesMaster` | port/ptp/ptp_core.c:507-515 | a poll takes the master away if and only if more than three of its announce intervals and 500 ms have passed, on the 32-bit count, since the last poll before its last Announce |
| `PtpProtocol.RequestsExactlyWhen` | port/ptp/ptp_core.c:517-524 | a poll makes a Delay_Req if and only if it does not lose the master, a Sync was completed since the last one and since the last change of master, and 900 ms have passed |
| `PtpProtocol.ServoIsFed` | port/ptp/ptp_core.c:365-419 | the servo gets exactly one measurement for each completed Sync, with the clock's reading when the Sync arrived, the corrected time it was sent, and the delay in use; nothing else touches clock or servo but a change of master, which resets the servo |
| `PtpProtocol.DelayIsMedian` | port/ptp/ptp_core.c:421-439 | the delay in use is the median of the last eight samples since the last change of master, each from an answer to the outstanding request without a clock step in the exchange and within 10 ms; unknown if there is none |
| `PtpProtocol.UtcIsTold` | port/ptp/ptp_core.c:258-266 | in every run UTC is the clock less the offset of the last Announce ever taken if that had both flags, and the clock otherwise |
| `PtpRuns.SampleIsDelay` | port/ptp/ptp_core.c:421-439 | the sample of an honest response is the true path delay to the selected master, however often the clock was stepped before, but for half of what the offset moved between the halves of the exchange; exactly the delay if it did not move |
| `PtpRuns.DelaysAreTrue` | port/ptp/ptp_core.c:365-460 | in every run with symmetric constant path delays, everything stored belongs to the selected master, and every delay sample and the filtered delay is the true one within half the drift of the clock inside an exchange, rounded up |
| `PtpRuns.OffsetIsTrue` | port/ptp/ptp_core.c:365-391 | along every such run, once a delay has been measured, the offset a completed Sync gives to the servo is the true offset of the clock when the Sync arrived, within that tolerance; a negative median counts as unknown, and then the offset is too large by exactly the path delay |
| `PtpRuns.RequestsAreSpaced` | port/ptp/ptp_core.c:507-528 | between two Delay_Req a Sync has been completed and 900 ms have passed |
| `PtpRuns.SamplesStayWithin` | port/ptp/ptp_core.c:436-438 | no sample beyond 10 ms is ever kept |
| `PtpCore.LogIntervalIs` | port/ptp/ptp_core.c:203-208 | the announce interval is 2^l seconds in milliseconds, rounded down, with l limited to -7 to 6 |
| `PtpDelay.Filter.Add` | port/ptp/ptp_core.c:343-362 | the new sample goes into the ring and the filtered delay is the median of the ring |
| `PtpDelay.Filter.Sort` | port/ptp/ptp_core.c:353-359 | the in-place insertion sort produces the sorted sequence |
| `PtpDelay.SortedIsSorted` | port/ptp/ptp_core.c:353-359 | which is ascending and a permutation of the input |
| `PtpDelay.FilterIsMedianOfLast` | port/ptp/ptp_core.c:343-362 | after any run of samples the filtered delay is the median of the last eight |
| `PtpDelay.MedianIsRobust` | port/ptp/ptp_core.c:361-361 | the median lies between two bounds whenever more than half of the samples do |
| `PtpDelay.MedianIsMiddle` | port/ptp/ptp_core.c:361-361 | it is half the sum of the two middle samples, rounded toward zero, and the middle one if their number is odd |
| `PtpDelay.KthIsUnique` | port/ptp/ptp_core.c:361-361 | by counting the samples not above and not below it there is only one k-th sample |
| `PtpEngine.Engine.Rx` | port/ptp/ptp_core.c:484-505 | every received message, from the event port or the general port, takes the engine object, its filter, servo and clock exactly where the model says |
| `PtpEngine.Engine.Poll` | port/ptp/ptp_core.c:507-528 | every poll takes the engine exactly where the model says |
| `PtpEngine.Engine.UtcNow` | port/ptp/ptp_core.c:258-266 | UTC is the clock less the announced offset exactly when both flags are set |
| `PtpEngine.Engine.HandleAnnounce` | port/ptp/ptp_core.c:210-250 | refines the model: refresh, better master with reset, or ignored; timeout, UTC offset and flags are stored with the master |
| `PtpEngine.Engine.SyncComplete` | port/ptp/ptp_core.c:365-391 | refines the model: a Sync that straddles a step is dropped, and its leg is kept unless the servo stepped the clock |
| `PtpEngine.Engine.HandleSync` | port/ptp/ptp_core.c:394-412 | refines the model for one-step and two-step masters |
| `PtpEngine.Engine.HandleFollowUp` | port/ptp/ptp_core.c:414-419 | refines the model: only the Follow_Up of the Sync that waits for it |
| `PtpEngine.Engine.HandleDelayResp` | port/ptp/ptp_core.c:421-439 | refines the model: only the answer to our request, only with both halves in the current epoch |
| `PtpEngine.Engine.SendDelayReq` | port/ptp/ptp_core.c:441-460 | refines the model: the request counts as sent only if the frame left |
| `PtpEngine.Engine.ResetMeasurements` | port/ptp/ptp_core.c:192-201 | refines the model |
| `PtpEngine.FeedAll` | port/ptp/ptp_core.c:484-528 | an engine built on a clock and fed any events follows a run of the model event by event to its last state, so that whatever is proved of message runs holds of the object |
| `PtpUtc.CivilIsRight` | port/ptp/ptp_core.c:279-291 | for every day number the date is a date of the calendar and its day number is the one it came from |
| `PtpUtc.CivilAdvances` | port/ptp/ptp_core.c:279-291 | consecutive day numbers give consecutive dates |
| `PtpUtc.CivilBegins` | port/ptp/ptp_core.c:279-291 | day 0 is 1970-01-01 |
| `PtpUtc.DayNumberIsInjective` | port/ptp/ptp_core.c:279-291 | a day number belongs to only one date |
| `PtpUtc.FieldsAreRight` | port/ptp/ptp_core.c:273-299 | hour, minute, second and microsecond are in range, and all fields together are the original instant to the microsecond below, before 1970 too |
| `PtpUtc.PutNum` | port/ptp/ptp_core.c:268-271 | the digit loop writes the last digits of the number and nothing else |
| `PtpUtc.FormatUtc` | port/ptp/ptp_core.c:273-301 | the buffer holds the text of the fields with the marks between them, from which all of them can be read back for every 64-bit instant |
| `PtpUtc.TextIsReadable` | port/ptp/ptp_core.c:293-299 | every field can be read back from the text, the year if and only if it is one from 0 to 9999; otherwise the last four digits of its unsigned 32-bit value |
| `PtpUtc.YearsOfInt64` | port/ptp/ptp_core.c:273-291 | a 64-bit count of nanoseconds has a year from 1677 to 2262 |
| `PtpUtc.TextRoundTrip` | port/ptp/ptp_core.c:273-301 | for every 64-bit instant the text reads back to all fields, and they are the instant to the microsecond below |
| `JsonWriter.U64ToStr` | port/mqtt/jsonw.c:27-35 | the reversed digit loop writes the decimal text, at most 20 digits |
| `JsonWriter.Writer.PutC` | port/mqtt/jsonw.c:49-53 | the buffer holds the longest beginning of everything put so far that leaves room for the terminator, and overflow says whether that is all |
| `JsonWriter.Writer.PutEscaped` | port/mqtt/jsonw.c:60-71 | quotation marks and backslashes are escaped, control characters become spaces |
| `JsonWriter.Writer.PutKey` | port/mqtt/jsonw.c:73-83 | a comma exactly when one is due, and the key if there is one |
| `JsonWriter.Writer.WriteI64` | port/mqtt/jsonw.c:99-105 | the exact decimal text of every 64-bit integer, the smallest included |
| `JsonWriter.Perform` | port/mqtt/jsonw.c:85-114 | after any sequence of calls the buffer holds the longest beginning that fits of what the calls emit |
| `JsonText.CallsWriteText` | port/mqtt/jsonw.c:73-114 | with its one comma flag the writer emits the ideal text of every tree |
| `JsonParse.TextParses` | port/mqtt/jsonw.c:60-114 | the ideal text parses under RFC 8259 to the same tree, with control characters as spaces and every integer exact |
| `JsonParse.ValueRoundTrip` | port/mqtt/jsonw.c:60-114 | so does the text of every value inside a larger text |
| `JsonWriter.OutputMeansTree` | port/mqtt/jsonw.c:49-117 | an output that was not cut means the tree that was written; overflow is set exactly when it was cut, and then the buffer is a proper beginning |
| `Capabilities.CNode.constructor` | kernel/cap.c:18-25 | all slots empty |
| `Capabilities.Install` | kernel/cap.c:50-69 | only into an empty slot in range |
| `Capabilities.CheckDerive` | kernel/cap.c:72-99 | the checks in their order: range of source and destination, empty source, occupied destination |
| `Capabilities.CopyCap` | kernel/cap.c:101-120 | among any number of CNodes, exactly the destination slot changes, to the source's type, object and badge with exactly the rights that source and mask share; an error changes nothing |
| `Capabilities.MintCap` | kernel/cap.c:122-152 | only an endpoint or a notification with no badge yet gets one, with exactly the rights that source and mask share |
| `Capabilities.MoveCap` | kernel/cap.c:154-168 | the destination gets the capability as it is and the source slot is cleared, in the same CNode or in two; nothing else changes |
| `Capabilities.DeleteCap` | kernel/cap.c:170-188 | Ok exactly for a taken slot, which is then cleared; no other slot changes |
| `Capabilities.Reuse` | kernel/cap.c:50-188 | after a delete a second one finds the slot empty and another capability can be installed there |
| `CapabilityRuns.StepIsExact` | kernel/cap.c:101-188 | on every slot of every CNode: an operation answers Ok exactly when it can succeed, then fills the destination, clears the source of a move or delete, and leaves the rest alone; otherwise nothing changes |
| `CapabilityRuns.FailsBecause` | kernel/cap.c:72-188 | which error comes back, if and only if which check fails first |
| `CapabilityRuns.DeleteTwice` | kernel/cap.c:170-188 | a second delete of a slot finds nothing |
| `CapabilityRuns.RevokedForGood` | kernel/cap.c:101-188 | once every capability to an object has been deleted, no run of operations grants any right to it again |
| `CapabilityRuns.CopyGrants` | kernel/cap.c:101-120 | a copy does hand on the rights that source and mask share, and the source keeps its own |
| `CapabilityRuns.RunDescends` | kernel/cap.c:101-168 | in every run each capability, traced back to any earlier time, has the same type and object, no right more, and the badge if there was one |
| `CapabilityRuns.NoNewAuthority` | kernel/cap.c:101-188 | no run of copy, mint, move and delete creates a right to an object that was not there at the start |
| `CapabilityRuns.MoveBack` | kernel/cap.c:154-168 | moving back into a cleared slot undoes a move |
| `PrioBitmap.HighestBit` | kernel/prio_bitmap.c:18-29 | the five-step search returns the highest set bit of every non-zero word |
| `PrioBitmap.Bitmap.constructor` | kernel/prio_bitmap.c:31-39 | the empty set |
| `PrioBitmap.Bitmap.Set` | kernel/prio_bitmap.c:41-48 | adds the priority to the set; both levels agree with it again |
| `PrioBitmap.Bitmap.Clear` | kernel/prio_bitmap.c:50-60 | takes it out of the set; the summary bit goes exactly when the word is zero |
| `PrioBitmap.Bitmap.IsEmpty` | kernel/prio_bitmap.c:62-65 | exactly for the empty set |
| `PrioBitmap.Bitmap.Highest` | kernel/prio_bitmap.c:67-73 | the maximum of the set |

## Left out

- Tick wrap-around: there is one delayed list and no overflow list, so a delay that would wrap the tick count is a precondition of blocking steps.
- No-lost-wakeup: the test and the blocking call of a queue operation are separate critical sections, so it is not an invariant; the control flow of prvSend and xQueueReceive around the context switch is split into their sections.
- Blocking and delaying before vTaskStartScheduler, where the supervisor call has no task to switch to.
- Deleting a queue, a NULL item for a queue with items of non-zero size, and a counting semaphore with more tokens than its maximum are outside the preconditions.
- QueueObjects.System.Start: the idle task gets its memory; the code does not look whether it did.
- KernelOrder.FirstComeFirstServed: about creation-time priorities, because event keys do not follow inherited priorities.
- The alignment and size of a heap header are those of a 64-bit target: 16 bytes each.
- Heap4.Heap.Free: for slots of the pool and of xStart; what an address outside them or between two slots does is not modelled.
- Heap4.Heap.Write: whole slots of a payload; writes beyond the payload are not modelled.
- PTP messages arrive decoded; byte layouts, version and domain checks and the packing of Delay_Req are not modelled, nor are statistics and log output.
- PtpRuns.DelaysAreTrue: asks that fewer than 2^32 clock steps lie between the halves of one exchange, because the epoch counter has 32 bits.
- PtpServo.Servo.Sample: over unbounded integers; SampleFits, TicksToNsFits and ScalePpbFits say where 64 bits are enough.
- PtpLoop.NoisyRunConverges: for samples that are neither clamped nor outlying and a constant interval; QuietRun drops the first condition for starts below the level.
- PtpLoop.NoisyOffsetIsBounded: the same.
- JsonParse.TextParses: the reader has no null, no \u escapes, no fractions and no exponents, which the writer cannot produce; bytes are characters.
- The `parent` field of a capability is carried but no derivation tree is built from it, since it names a slot without its CNode.
- Board support, interrupts entry code, lwIP and coreMQTT glue, timers, event groups, stream buffers, the other heaps, stack painting and tracing.
