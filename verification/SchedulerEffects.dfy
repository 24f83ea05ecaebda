/**
 What the locked sections do on reachable states, said without the loop of `pick_next`: who runs next, what becomes
 of the thread that leaves, and that the ready queue is first in, first out.
 */
module SchedulerEffects {
  import opened Common
  import opened Scheduler
  import opened SchedulerInvariant
  import opened SchedulerTheorems

  /** The thread that runs next on `c` if its current one gives way: the front of the queue, else the idle thread. */
  function Heir(s: Sched, c: nat): Option<Tid>
    requires c < |s.cpus|
  {
    if s.ready != [] then Some(s.ready[0]) else s.cpus[c].idle
  }

  /** Only the threads `prev` and `next` and CPU `c` have changed. */
  ghost predicate OnlyTwo(s: Sched, s': Sched, c: nat, prev: Tid, next: Tid) {
    && s'.threads.Keys == s.threads.Keys
    && (forall t :: t in s.threads && t != prev && t != next ==> s'.threads[t] == s.threads[t])
    && |s'.cpus| == |s.cpus| && (forall i :: 0 <= i < |s.cpus| && i != c ==> s'.cpus[i] == s.cpus[i])
    && s'.freed == s.freed && s'.wakers == s.wakers
  }

  /**
   CPU `c` has committed to leave `prev`, now in state `left`, for the first of those waiting: `prev` is handed off,
   the new thread is current and Running, and the queue has lost its front.
   */
  ghost predicate GivesWay(s: Sched, s': Sched, c: nat, left: State, blocking: bool)
    requires Runs(s, c)
  {
    var prev := s.cpus[c].current.value;
    && Heir(s, c).Some? && Heir(s, c).value != prev && prev in s.threads && Heir(s, c).value in s.threads
    && var next := Heir(s, c).value;
       && OnlyTwo(s, s', c, prev, next)
       && s'.threads[prev] == s.threads[prev].(state := left)
       && s'.threads[next] == s.threads[next].(state := Running)
       && s'.ready == (if s.ready == [] then [] else s.ready[1..])
       && s'.cpus[c].current == Some(next) && s'.cpus[c].handoff == Some(Handoff(prev, blocking))
       && s'.cpus[c].stage.Committed? && s'.cpus[c].idle == s.cpus[c].idle && s'.cpus[c].stack == s.cpus[c].stack
  }

  /** What `reschedule(block)` does under the lock. */
  ghost predicate Yields(s: Sched, s': Sched, c: nat, block: bool)
    requires Runs(s, c) && s.cpus[c].current.value in s.threads
  {
    var th := s.threads[s.cpus[c].current.value];
    if block && th.wakePending then s' == s
    else if s.ready == [] && th.isIdle then s' == s
    else
      && GivesWay(s, s', c, if block then Blocked else if th.isIdle then th.state else Ready, block)
      && s'.graveyard == s.graveyard
  }

  /** What `exit` does under the lock. */
  ghost predicate Dies(s: Sched, s': Sched, c: nat)
    requires Runs(s, c)
  {
    GivesWay(s, s', c, Exited, true) && s'.graveyard == s.graveyard + [s.cpus[c].current.value]
  }

  lemma HeirKnown(s: Sched, pl: Places, c: nat)
    requires Inv(s, pl) && !Locked(s) && Runs(s, c)
    ensures s.cpus[c].current.value in s.threads && Heir(s, c).value in s.threads
    ensures s.ready != [] ==> Heir(s, c).value != s.cpus[c].current.value
    ensures s.ready == [] ==>
              (Heir(s, c).value == s.cpus[c].current.value <==> s.threads[s.cpus[c].current.value].isIdle)
  {
    var prev := s.cpus[c].current.value;
    assert CpuOk(s, c, pl);
    assert ThreadOk(s, prev, pl[prev]);
    if s.ready != [] { assert pl[s.ready[0]].Queued?; }
  }

  /** On reachable states a commit switches unless a wake is pending or an idle CPU has nothing to run. */
  lemma CommitYields(s: Sched, c: nat, block: bool)
    requires Sound(s) && Enabled(s, CommitStep(c, block))
    ensures s.cpus[c].current.value in s.threads && Yields(s, Commit(s, c, block), c, block)
  {
    FrontPicked(s, c);
  }

  lemma FrontPicked(s: Sched, c: nat)
    requires Sound(s) && !Locked(s) && Closed(s) && Runs(s, c)
    ensures var prev, idle := s.cpus[c].current.value, s.cpus[c].idle.value;
            && prev in s.threads && Heir(s, c).value in s.threads
            && (Heir(s, c).value == prev <==> s.ready == [] && s.threads[prev].isIdle)
            && PickNext(s.threads, s.cpus, s.ready, idle)
               == (Heir(s, c).value, if s.ready == [] then [] else s.ready[1..])
  {
    var pl: Places :| Inv(s, pl);
    HeirKnown(s, pl, c);
    PickTakesFront(s, pl, s.threads, s.cpus);
  }

  lemma ExitDies(s: Sched, c: nat)
    requires Sound(s) && Enabled(s, ExitStep(c))
    ensures Dies(s, Exit(s, c), c)
  {
    var pl: Places :| Inv(s, pl);
    var prev := s.cpus[c].current.value;
    HeirKnown(s, pl, c);
    forall t | t in s.ready ensures t != prev {
      assert CpuOk(s, c, pl) && pl[t] != OnCpu(c);
    }
    PickTakesFront(s, pl, SetState(s.threads, prev, Exited), s.cpus[c := s.cpus[c].(current := None)]);
  }

  // ---------------------------------------------------------------- requeueing

  /** The thread the handoff names has to run again: it yielded, or its wake came while it was leaving. */
  predicate Requeues(s: Sched, h: Handoff)
    requires h.tid in s.threads
  {
    var th := s.threads[h.tid];
    !th.state.Exited? && !th.isIdle && (h.blocking ==> th.wakePending)
  }

  /** `finish_switch` up to the release: `prev` goes to the end of the queue exactly when it has to run again. */
  ghost predicate Requeued(s: Sched, s': Sched, c: nat)
    requires c < |s.cpus| && s.cpus[c].handoff.Some? && s.cpus[c].handoff.value.tid in s.threads
  {
    var h := s.cpus[c].handoff.value;
    && OnlyTwo(s, s', c, h.tid, h.tid) && s'.graveyard == s.graveyard
    && s'.cpus[c] == s.cpus[c].(handoff := None, stage := Releasing(h.tid))
    && s'.ready == (if Requeues(s, h) then s.ready + [h.tid] else s.ready)
    && s'.threads[h.tid] == (if Requeues(s, h) then s.threads[h.tid].(state := Ready) else s.threads[h.tid])
  }

  /**
   Both halves of `finish_switch`: `prev` is off its stack, and back at the end of the queue if it has to run again.
   */
  ghost predicate Finished(s: Sched, s': Sched, c: nat)
    requires c < |s.cpus| && s.cpus[c].handoff.Some? && s.cpus[c].handoff.value.tid in s.threads
  {
    var h := s.cpus[c].handoff.value;
    && OnlyTwo(s, s', c, h.tid, h.tid) && s'.graveyard == s.graveyard
    && s'.cpus[c] == s.cpus[c].(handoff := None, stage := Executing)
    && s'.ready == (if Requeues(s, h) then s.ready + [h.tid] else s.ready)
    && s'.threads[h.tid].state == (if Requeues(s, h) then Ready else s.threads[h.tid].state)
    && s'.threads[h.tid] == s.threads[h.tid].(running := false, state := s'.threads[h.tid].state)
  }

  lemma FinishFinishes(s: Sched, c: nat)
    requires Sound(s) && Enabled(s, DecideStep(c))
    ensures s.cpus[c].handoff.Some? && s.cpus[c].handoff.value.tid in s.threads
    ensures FinishDecide(s, c).cpus[c].stage.Releasing? && Finished(s, FinishRelease(FinishDecide(s, c), c), c)
  {
    DecideRequeues(s, c);
  }

  lemma DecideRequeues(s: Sched, c: nat)
    requires Sound(s) && Enabled(s, DecideStep(c))
    ensures s.cpus[c].handoff.Some? && s.cpus[c].handoff.value.tid in s.threads && Requeued(s, FinishDecide(s, c), c)
  {
    var pl: Places :| Inv(s, pl);
    assert CpuOk(s, c, pl);
    var t := s.cpus[c].handoff.value.tid;
    assert ThreadOk(s, t, pl[t]);
  }

  /** `unblock` under the lock: a parked thread goes to the end of the queue, and nothing else happens. */
  ghost predicate Woken(s: Sched, s': Sched, t: Tid)
    requires t in s.threads
  {
    var parked := s.threads[t].state.Blocked? && !s.threads[t].running;
    && s'.threads == (if parked then s.threads[t := s.threads[t].(state := Ready)] else s.threads)
    && s'.ready == (if parked then s.ready + [t] else s.ready)
    && s'.cpus == s.cpus && s'.graveyard == s.graveyard && s'.freed == s.freed && s'.wakers == s.wakers - multiset{t}
  }

  lemma WakeWakes(s: Sched, t: Tid)
    requires Sound(s) && Enabled(s, LockWakeStep(t))
    ensures Woken(s, LockWake(s, t), t)
  {
    var pl: Places :| Inv(s, pl);
    assert ThreadOk(s, t, pl[t]);
  }

  /** The ready queue is first in, first out: every step leaves it, takes its front, or adds one at its end. */
  lemma ReadyIsFifo(ss: seq<Sched>, steps: seq<Step>, k: nat)
    requires IsRun(ss, steps) && k < |steps|
    ensures var q, q' := ss[k].ready, ss[k + 1].ready;
            q' == q || (q != [] && q' == q[1..]) || exists t :: q' == q + [t]
  {
    var s := ss[k];
    RunSound(ss, steps, k);
    match steps[k]
    case SpawnStep(t) => assert ss[k + 1].ready == s.ready + [t];
    case LockWakeStep(t) => WakeWakes(s, t);
    case CommitStep(c, block) => CommitYields(s, c, block);
    case ExitStep(c) => ExitDies(s, c);
    case DecideStep(c) => DecideRequeues(s, c);
    case _ =>
  }
}
