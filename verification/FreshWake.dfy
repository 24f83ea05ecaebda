/** Exactly when every wake of a thread that has armed itself is one stored since. */
module FreshWake {
  import opened Common
  import opened Scheduler
  import opened SchedulerInvariant
  import opened SchedulerTheorems
  import opened SchedulerEffects
  import opened WaitQueue
  import opened WaitEffects

  // ---------------------------------------------------------------- a blocked thread leaves its CPU

  /** Blocked with no wake recorded, while an `unblock` of it has yet to take the lock. */
  ghost predicate Off(s: Sched, c: nat, t: Tid) {
    && Sound(s) && c < |s.cpus| && t in s.threads && t in s.wakers
    && s.threads[t].state.Blocked? && !s.threads[t].wakePending && !s.threads[t].isIdle
  }

  ghost predicate HandedOff(s: Sched, c: nat, t: Tid) {
    Off(s, c, t) && !Locked(s) && s.cpus[c].handoff == Some(Handoff(t, true))
  }

  lemma HandedClaims(s: Sched, c: nat, t: Tid)
    requires HandedOff(s, c, t) && s.cpus[c].stage.Committed?
    ensures Enabled(s, ClaimStep(c))
    ensures var s' := Next(s, ClaimStep(c)); HandedOff(s', c, t) && s'.cpus[c].stage.Claimed?
  {
    var pl: Places :| Inv(s, pl);
    InvClosed(s, pl);
    assert CpuOk(s, c, pl);
    var n := s.cpus[c].current.value;
    assert ThreadOk(s, n, pl[n]) && ThreadOk(s, t, pl[t]);
    StepSound(s, ClaimStep(c));
  }

  lemma HandedSwitches(s: Sched, c: nat, t: Tid)
    requires HandedOff(s, c, t) && s.cpus[c].stage.Claimed?
    ensures Enabled(s, SwitchStep(c))
    ensures var s' := Next(s, SwitchStep(c)); HandedOff(s', c, t) && s'.cpus[c].stage.Switched?
  {
    var pl: Places :| Inv(s, pl);
    InvClosed(s, pl);
    assert CpuOk(s, c, pl);
    var n := s.cpus[c].current.value;
    assert ThreadOk(s, n, pl[n]) && ThreadOk(s, t, pl[t]);
    StepSound(s, SwitchStep(c));
  }

  lemma HandedDecides(s: Sched, c: nat, t: Tid)
    requires HandedOff(s, c, t) && s.cpus[c].stage.Switched?
    ensures Enabled(s, DecideStep(c))
    ensures var s' := Next(s, DecideStep(c)); Off(s', c, t) && s'.cpus[c].stage == Releasing(t)
  {
    var pl: Places :| Inv(s, pl);
    InvClosed(s, pl);
    StepSound(s, DecideStep(c));
  }

  lemma HandedReleases(s: Sched, c: nat, t: Tid)
    requires Off(s, c, t) && s.cpus[c].stage == Releasing(t)
    ensures Enabled(s, ReleaseStep(c))
    ensures var s' := Next(s, ReleaseStep(c)); Off(s', c, t) && !Locked(s') && !s'.threads[t].running
  {
    var pl: Places :| Inv(s, pl);
    InvClosed(s, pl);
    StepSound(s, ReleaseStep(c));
  }

  lemma LateLockReadies(s: Sched, c: nat, t: Tid)
    requires Off(s, c, t) && !Locked(s) && !s.threads[t].running
    ensures Enabled(s, LockWakeStep(t)) && t in Next(s, LockWakeStep(t)).threads
    ensures Next(s, LockWakeStep(t)).threads[t].state.Ready?
  {
    var pl: Places :| Inv(s, pl);
    InvClosed(s, pl);
  }

  /** Whoever holds the scheduler lock can let go of it, and nobody who runs notices. */
  lemma LockClears(s: Sched) returns (c: nat)
    requires Sound(s) && Locked(s)
    ensures Enabled(s, ReleaseStep(c)) && !Locked(Next(s, ReleaseStep(c)))
    ensures var s' := Next(s, ReleaseStep(c));
            && s'.wakers == s.wakers
            && forall i :: 0 <= i < |s.cpus| && Runs(s, i) ==>
                 && Runs(s', i) && s'.cpus[i] == s.cpus[i] && s.cpus[i].current.value in s.threads
                 && s.cpus[i].current.value in s'.threads
                 && s'.threads[s.cpus[i].current.value] == s.threads[s.cpus[i].current.value]
  {
    var pl: Places :| Inv(s, pl);
    InvClosed(s, pl);
    c :| 0 <= c < |s.cpus| && s.cpus[c].stage.Releasing?;
    assert CpuOk(s, c, pl);
    forall i | 0 <= i < |s.cpus| && Runs(s, i)
      ensures s.cpus[i].current.value in s.threads && s.cpus[i].current.value != s.cpus[c].stage.prev {
      assert CpuOk(s, i, pl);
    }
  }

  // ---------------------------------------------------------------- continuations

  /** A continuation from `m` in which no wake of `t` is stored. */
  ghost predicate Quiet<O, K(!new)>(blocks: (O, K) -> bool, m: Machine<O, K>, t: Tid, ms: seq<Machine<O, K>>,
                                    steps: seq<MStep<O, K>>) {
    && |ms| == |steps| + 1 && ms[0] == m
    && forall i :: 0 <= i < |steps| ==>
         && MEnabled(blocks, ms[i], steps[i]) && ms[i + 1] == MNext(blocks, ms[i], steps[i])
         && !Stores(ms[i], steps[i], t)
  }

  /** `t` sleeps in its wait, but has been made ready. */
  ghost predicate WokenUp<O, K>(m: Machine<O, K>, t: Tid) {
    PcOf(m, t).Asleep? && t in m.sched.threads && m.sched.threads[t].state.Ready?
  }

  lemma Goes<O, K(!new)>(blocks: (O, K) -> bool, m: Machine<O, K>, t: Tid, ms: seq<Machine<O, K>>,
                         steps: seq<MStep<O, K>>, step: MStep<O, K>)
    returns (ms': seq<Machine<O, K>>, steps': seq<MStep<O, K>>)
    requires Quiet(blocks, m, t, ms, steps) && MEnabled(blocks, ms[|steps|], step) && !Stores(ms[|steps|], step, t)
    requires MInv(blocks, ms[|steps|])
    ensures Quiet(blocks, m, t, ms', steps') && ms'[|steps'|] == MNext(blocks, ms[|steps|], step)
    ensures MInv(blocks, ms'[|steps'|])
  {
    ms', steps' := ms + [MNext(blocks, ms[|steps|], step)], steps + [step];
    forall i | 0 <= i < |steps'|
      ensures MEnabled(blocks, ms'[i], steps'[i]) && ms'[i + 1] == MNext(blocks, ms'[i], steps'[i])
              && !Stores(ms'[i], steps'[i], t)
    {
      if i < |steps| { assert ms'[i] == ms[i] && ms'[i + 1] == ms[i + 1] && steps'[i] == steps[i]; }
    }
    MStepKeeps(blocks, ms[|steps|], step);
  }

  /** `t`, on `c`, has armed itself for a wait and no wake has been recorded since. */
  ghost predicate JustArmed<O, K>(m: Machine<O, K>, c: nat, t: Tid) {
    && At(m, c) && RunsWorker(m.sched, c) && Me(m, c) == t && t in m.pcs && m.pcs[t].Marked?
    && !m.sched.threads[t].wakePending
  }

  lemma ToUnlocked<O, K(!new)>(blocks: (O, K) -> bool, m: Machine<O, K>, c: nat, t: Tid)
    returns (ms: seq<Machine<O, K>>, steps: seq<MStep<O, K>>)
    requires MInv(blocks, m) && JustArmed(m, c, t) && t in m.sched.wakers
    ensures Quiet(blocks, m, t, ms, steps)
    ensures var m' := ms[|steps|];
            MInv(blocks, m') && JustArmed(m', c, t) && t in m'.sched.wakers && !Locked(m'.sched)
  {
    ms, steps := [m], [];
    if Locked(m.sched) {
      var i := LockClears(m.sched);
      ms, steps := Goes(blocks, m, t, ms, steps, EnvStep(ReleaseStep(i)));
      StaysClosed(ms[|steps|].sched);
    }
  }

  lemma StaysClosed(s: Sched)
    requires Sound(s)
    ensures Closed(s)
  {
    var pl: Places :| Inv(s, pl);
    InvClosed(s, pl);
  }

  /** Queued, `t` is about to give up its CPU. */
  ghost predicate JustQueued<O, K>(m: Machine<O, K>, c: nat, t: Tid) {
    && At(m, c) && RunsWorker(m.sched, c) && Me(m, c) == t && t in m.pcs && m.pcs[t].Enqueued?
    && !m.sched.threads[t].wakePending && t in m.sched.wakers && !Locked(m.sched)
  }

  lemma ToQueued<O, K(!new)>(blocks: (O, K) -> bool, m: Machine<O, K>, c: nat, t: Tid)
    returns (ms: seq<Machine<O, K>>, steps: seq<MStep<O, K>>)
    requires MInv(blocks, m) && JustArmed(m, c, t) && t in m.sched.wakers
    ensures Quiet(blocks, m, t, ms, steps) && MInv(blocks, ms[|steps|]) && JustQueued(ms[|steps|], c, t)
  {
    ms, steps := ToUnlocked(blocks, m, c, t);
    ms, steps := Goes(blocks, m, t, ms, steps, PushStep(c));
  }

  lemma SleepHandsOff<O, K(!new)>(blocks: (O, K) -> bool, m: Machine<O, K>, c: nat, t: Tid)
    requires MInv(blocks, m) && JustQueued(m, c, t)
    ensures MEnabled(blocks, m, SleepStep(c))
    ensures var m' := MNext(blocks, m, SleepStep(c));
            PcOf(m', t).Asleep? && HandedOff(m'.sched, c, t) && m'.sched.cpus[c].stage.Committed?
  {
    EnqueuedSleeps(blocks, m, c);
    StepSound(m.sched, CommitStep(c, true));
    CommitHandsOff(m.sched, c, t);
  }

  lemma CommitHandsOff(s: Sched, c: nat, t: Tid)
    requires Sound(s) && Enabled(s, CommitStep(c, true)) && s.cpus[c].current == Some(t) && t in s.wakers
    requires t in s.threads && !s.threads[t].wakePending && !s.threads[t].isIdle
    ensures HandedOff(Commit(s, c, true), c, t) && Commit(s, c, true).cpus[c].stage.Committed?
  {
    StepSound(s, CommitStep(c, true));
    CommitYields(s, c, true);
  }

  /** It falls asleep, still with the old `unblock` in flight. */
  lemma ToCommitted<O, K(!new)>(blocks: (O, K) -> bool, m: Machine<O, K>, c: nat, t: Tid)
    returns (ms: seq<Machine<O, K>>, steps: seq<MStep<O, K>>)
    requires MInv(blocks, m) && JustArmed(m, c, t) && t in m.sched.wakers
    ensures Quiet(blocks, m, t, ms, steps)
    ensures var m' := ms[|steps|];
            && MInv(blocks, m') && PcOf(m', t).Asleep? && HandedOff(m'.sched, c, t)
            && m'.sched.cpus[c].stage.Committed?
  {
    ms, steps := ToQueued(blocks, m, c, t);
    SleepHandsOff(blocks, ms[|steps|], c, t);
    ms, steps := Goes(blocks, m, t, ms, steps, SleepStep(c));
  }

  lemma Steps<O, K(!new)>(blocks: (O, K) -> bool, m: Machine<O, K>, t: Tid, ms: seq<Machine<O, K>>,
                          steps: seq<MStep<O, K>>, e: Step)
    returns (ms': seq<Machine<O, K>>, steps': seq<MStep<O, K>>)
    requires Quiet(blocks, m, t, ms, steps) && MInv(blocks, ms[|steps|]) && Enabled(ms[|steps|].sched, e)
    requires e.ClaimStep? || e.SwitchStep? || e.DecideStep? || e.ReleaseStep? || e.LockWakeStep?
    ensures Quiet(blocks, m, t, ms', steps') && MInv(blocks, ms'[|steps'|])
    ensures ms'[|steps'|].sched == Next(ms[|steps|].sched, e) && ms'[|steps'|].pcs == ms[|steps|].pcs
  {
    ms', steps' := Goes(blocks, m, t, ms, steps, EnvStep(e));
  }

  /** Off its CPU, it is made ready by the old `unblock`. */
  lemma ToReady<O, K(!new)>(blocks: (O, K) -> bool, m: Machine<O, K>, c: nat, t: Tid)
    returns (ms: seq<Machine<O, K>>, steps: seq<MStep<O, K>>)
    requires MInv(blocks, m) && JustArmed(m, c, t) && t in m.sched.wakers
    ensures Quiet(blocks, m, t, ms, steps) && WokenUp(ms[|steps|], t)
  {
    ms, steps := ToCommitted(blocks, m, c, t);
    HandedClaims(ms[|steps|].sched, c, t);
    ms, steps := Steps(blocks, m, t, ms, steps, ClaimStep(c));
    HandedSwitches(ms[|steps|].sched, c, t);
    ms, steps := Steps(blocks, m, t, ms, steps, SwitchStep(c));
    HandedDecides(ms[|steps|].sched, c, t);
    ms, steps := Steps(blocks, m, t, ms, steps, DecideStep(c));
    HandedReleases(ms[|steps|].sched, c, t);
    ms, steps := Steps(blocks, m, t, ms, steps, ReleaseStep(c));
    LateLockReadies(ms[|steps|].sched, c, t);
    ms, steps := Steps(blocks, m, t, ms, steps, LockWakeStep(t));
  }

  /** Armed, with no `unblock` in flight. */
  ghost predicate Unbothered<O, K(!new)>(blocks: (O, K) -> bool, m: Machine<O, K>, t: Tid) {
    MInv(blocks, m) && Armed(m, t) && t !in m.sched.wakers
  }

  lemma StaysUnbothered<O, K(!new)>(blocks: (O, K) -> bool, m: Machine<O, K>, step: MStep<O, K>, t: Tid)
    requires Unbothered(blocks, m, t) && MEnabled(blocks, m, step) && !Stores(m, step, t)
    ensures Unbothered(blocks, MNext(blocks, m, step), t)
  {
    NoneStarts(blocks, m, step, t);
    ArmedStays(blocks, m, step, t);
    MStepKeeps(blocks, m, step);
  }

  lemma NoneStarts<O, K(!new)>(blocks: (O, K) -> bool, m: Machine<O, K>, step: MStep<O, K>, t: Tid)
    requires MEnabled(blocks, m, step) && t !in m.sched.wakers && !Stores(m, step, t)
    ensures t !in MNext(blocks, m, step).sched.wakers && !Wakes(m, step, t)
  {
    UnderIs(blocks, m, step);
  }

  /** With none in flight and none stored, it stays as it is. */
  lemma {:induction false} StaysArmed<O, K(!new)>(blocks: (O, K) -> bool, m: Machine<O, K>, t: Tid,
                                                  ms: seq<Machine<O, K>>, steps: seq<MStep<O, K>>, j: nat)
    requires Unbothered(blocks, m, t) && Quiet(blocks, m, t, ms, steps) && j < |ms|
    ensures Unbothered(blocks, ms[j], t)
  {
    if j > 0 {
      var i: nat := j - 1;
      StaysArmed(blocks, m, t, ms, steps, i);
      StaysUnbothered(blocks, ms[i], steps[i], t);
      assert ms[i + 1] == ms[j];
    }
  }

  /**
   Of a thread that has just armed itself: in every continuation it is woken only by a wake stored since - if and only
   if no `unblock` of it is in flight.
   */
  lemma FreshExactly<O, K(!new)>(blocks: (O, K) -> bool, m: Machine<O, K>, c: nat, t: Tid)
    requires MInv(blocks, m) && JustArmed(m, c, t)
    ensures t !in m.sched.wakers <==>
            forall ms, steps :: Quiet(blocks, m, t, ms, steps) ==> !WokenUp(ms[|steps|], t)
  {
    if t in m.sched.wakers {
      var ms, steps := ToReady(blocks, m, c, t);
    } else {
      forall ms, steps | Quiet(blocks, m, t, ms, steps) ensures !WokenUp(ms[|steps|], t) {
        StaysArmed(blocks, m, t, ms, steps, |steps|);
      }
    }
  }
}
