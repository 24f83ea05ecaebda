/** The manual-reset event: a flag guarded by a `WaitQueue`. */
module Event {
  import opened Scheduler
  import opened WaitQueue

  datatype Unit = Unit

  /** `wait` blocks while the event is not signalled. */
  function EventBlocks(signaled: bool, k: Unit): bool { !signaled }

  /** `signal` stores true and then owes its `wake_all`; `reset` stores false and wakes nobody. */
  predicate IsSignal(step: MStep<bool, Unit>) { step.ChangeStep? && step.o && step.owes }
  predicate IsReset(step: MStep<bool, Unit>) { step.ChangeStep? && !step.o && !step.owes }

  /** A run in which the event is only signalled, reset, waited for and woken, by any threads in any order. */
  ghost predicate IsEventRun(ms: seq<Machine<bool, Unit>>, steps: seq<MStep<bool, Unit>>) {
    && IsMRun(EventBlocks, ms, steps)
    && !ms[0].obj
    && forall i :: 0 <= i < |steps| && steps[i].ChangeStep? ==> IsSignal(steps[i]) || IsReset(steps[i])
  }

  /** A thread that is not already in a call on the event can signal or reset it at any moment. */
  lemma OpsAlwaysAllowed(m: Machine<bool, Unit>, c: nat)
    requires At(m, c) && PcOf(m, Me(m, c)).Outside?
    ensures MEnabled(EventBlocks, m, ChangeStep(c, true, true)) && MEnabled(EventBlocks, m, ChangeStep(c, false, false))
  {
  }

  /**
   A signalled event strands nobody: if it is signalled and a thread is parked in its wait, some signaller
   has yet to drain the queue, to unblock that thread, or to finish an `unblock` of it.
   */
  lemma StrandsNobody(ms: seq<Machine<bool, Unit>>, steps: seq<MStep<bool, Unit>>, i: nat, t: Tid)
    requires IsEventRun(ms, steps) && i < |ms| && ms[i].obj && ParkedIn(ms[i], t)
    ensures WakeInFlight(ms[i], t)
  {
    NotStranded(EventBlocks, ms, steps, i, t);
  }

  /** After a signal and without a reset the event stays signalled. */
  lemma {:induction false} SignalLasts(ms: seq<Machine<bool, Unit>>, steps: seq<MStep<bool, Unit>>, i: nat, j: nat)
    requires IsEventRun(ms, steps) && i < j < |ms| && IsSignal(steps[i])
    requires forall k :: i < k < j ==> !IsReset(steps[k])
    ensures ms[j].obj
    decreases j
  {
    if i + 1 < j {
      SignalLasts(ms, steps, i, j - 1);
    }
  }

  /** Once every signaller is done, with no reset since a signal, nobody is parked in the event's wait. */
  lemma SignalReleasesEveryone(ms: seq<Machine<bool, Unit>>, steps: seq<MStep<bool, Unit>>, i: nat, j: nat, t: Tid)
    requires IsEventRun(ms, steps) && i < j < |ms| && IsSignal(steps[i])
    requires forall k :: i < k < j ==> !IsReset(steps[k])
    requires ms[j].sched.wakers == multiset{}
    requires forall u :: u in ms[j].pcs ==> !ms[j].pcs[u].Owing? && !ms[j].pcs[u].Waking?
    ensures !ParkedIn(ms[j], t)
  {
    SignalLasts(ms, steps, i, j);
    if ParkedIn(ms[j], t) {
      StrandsNobody(ms, steps, j, t);
    }
  }
}
