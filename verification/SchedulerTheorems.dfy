/** What the scheduler guarantees in every state of every run, for any number of CPUs and threads. */
module SchedulerTheorems {
  import opened Common
  import opened Scheduler
  import opened SchedulerInvariant

  /** Some placement of the threads witnesses the invariant. */
  ghost predicate Sound(s: Sched) {
    exists pl :: Inv(s, pl)
  }

  lemma InitialSound(s: Sched)
    requires Initial(s)
    ensures Sound(s)
  {
    var pl: Places := map[];
    forall i | 0 <= i < |s.cpus| ensures CpuOk(s, i, pl) {
    }
    assert Inv(s, pl);
  }

  lemma StepSound(s: Sched, step: Step)
    requires Sound(s) && Enabled(s, step)
    ensures Sound(Next(s, step))
  {
    var pl: Places :| Inv(s, pl);
    var pl' := pl;
    match step
    case BootBspStep(c, boot, idle) => pl' := KeepBootBsp(s, pl, c, boot, idle);
    case CpuEnterStep(c, me) => pl' := KeepCpuEnter(s, pl, c, me);
    case SpawnStep(t) => pl' := KeepSpawn(s, pl, t);
    case MarkStep(c) => KeepMark(s, pl, c);
    case StoreWakeStep(t) => KeepStoreWake(s, pl, t);
    case LockWakeStep(t) => pl' := KeepLockWake(s, pl, t);
    case CommitStep(c, block) => pl' := KeepCommit(s, pl, c, block);
    case ExitStep(c) => pl' := KeepExit(s, pl, c);
    case ClaimStep(c) => KeepClaim(s, pl, c);
    case SwitchStep(c) => KeepSwitch(s, pl, c);
    case DecideStep(c) => KeepDecide(s, pl, c);
    case ReleaseStep(c) => pl' := KeepRelease(s, pl, c);
    case FreeStep(i) => KeepFree(s, pl, i);
    assert Inv(Next(s, step), pl');
  }

  /** Every state of every run is sound. */
  lemma {:induction false} RunSound(ss: seq<Sched>, steps: seq<Step>, k: nat)
    requires IsRun(ss, steps) && k < |ss|
    ensures Sound(ss[k])
  {
    if k == 0 {
      InitialSound(ss[0]);
    } else {
      RunSound(ss, steps, k - 1);
      StepSound(ss[k - 1], steps[k - 1]);
    }
  }

  // ---------------------------------------------------------------- stacks

  /** `t`'s kernel stack is in use: a CPU is on it, has claimed it, or has yet to release it. */
  ghost predicate StackInUse(s: Sched, t: Tid) {
    exists i :: StackUsedBy(s, t, i)
  }

  predicate StackUsedBy(s: Sched, t: Tid, i: nat) {
    && i < |s.cpus| && !s.cpus[i].stage.Offline?
    && (|| s.cpus[i].stack == t
        || (s.cpus[i].stage.Claimed? && s.cpus[i].current == Some(t))
        || Leaving(s.cpus[i]) == Some(t))
  }

  /** No kernel stack is in use by two CPUs, and `running` is set exactly while a stack is in use. */
  lemma StacksExclusive(ss: seq<Sched>, steps: seq<Step>, k: nat)
    requires IsRun(ss, steps) && k < |ss|
    ensures var s := ss[k];
            forall i, j :: 0 <= i < j < |s.cpus| && !s.cpus[i].stage.Offline? && !s.cpus[j].stage.Offline? ==>
              && s.cpus[i].stack != s.cpus[j].stack
              && s.cpus[i].current != s.cpus[j].current
              && Some(s.cpus[i].stack) != s.cpus[j].current
              && Some(s.cpus[j].stack) != s.cpus[i].current
              && (Leaving(s.cpus[i]).Some? ==>
                 Leaving(s.cpus[i]) != Leaving(s.cpus[j]) && Leaving(s.cpus[i]) != s.cpus[j].current)
    ensures var s := ss[k]; forall t :: t in s.threads ==> (s.threads[t].running <==> StackInUse(s, t))
  {
    RunSound(ss, steps, k);
    var s := ss[k];
    var pl: Places :| Inv(s, pl);
    forall i, j | 0 <= i < j < |s.cpus| && !s.cpus[i].stage.Offline? && !s.cpus[j].stage.Offline?
      ensures s.cpus[i].stack != s.cpus[j].stack
      ensures s.cpus[i].current != s.cpus[j].current
      ensures Some(s.cpus[i].stack) != s.cpus[j].current && Some(s.cpus[j].stack) != s.cpus[i].current
      ensures Leaving(s.cpus[i]).Some? ==>
              Leaving(s.cpus[i]) != Leaving(s.cpus[j]) && Leaving(s.cpus[i]) != s.cpus[j].current
    {
      assert CpuOk(s, i, pl) && CpuOk(s, j, pl);
    }
    forall t | t in s.threads ensures s.threads[t].running <==> StackInUse(s, t) {
      RunningIffInUse(s, pl, t);
    }
  }

  lemma RunningIffInUse(s: Sched, pl: Places, t: Tid)
    requires Inv(s, pl) && t in s.threads
    ensures s.threads[t].running <==> StackInUse(s, t)
  {
    assert ThreadOk(s, t, pl[t]);
    if s.threads[t].running {
      var i := pl[t].c;
      assert CpuOk(s, i, pl);
      assert StackUsedBy(s, t, i);
    }
    forall i | StackUsedBy(s, t, i) ensures s.threads[t].running {
      assert CpuOk(s, i, pl);
    }
  }

  /**
   A stack switch always resumes a thread whose `ctx` is a live resume point, never a stale one;
   and the claim spin that precedes it always succeeds at its first swap.
   */
  lemma ResumesLiveContext(ss: seq<Sched>, steps: seq<Step>, k: nat, c: nat)
    requires IsRun(ss, steps) && k < |ss| && c < |ss[k].cpus|
    ensures var s := ss[k];
            s.cpus[c].stage.Claimed? ==>
              && s.cpus[c].current.Some? && s.cpus[c].current.value in s.threads
              && s.threads[s.cpus[c].current.value].saved
    ensures var s := ss[k];
            s.cpus[c].stage.Committed? ==>
              && Enabled(s, ClaimStep(c)) && Claim(s, c).cpus[c].stage.Claimed?
  {
    RunSound(ss, steps, k);
    var s := ss[k];
    var pl: Places :| Inv(s, pl);
    assert CpuOk(s, c, pl);
    InvClosed(s, pl);
    if s.cpus[c].current.Some? {
      var t := s.cpus[c].current.value;
      assert ThreadOk(s, t, pl[t]);
    }
  }

  // ---------------------------------------------------------------- wakeups

  /**
   No wakeup is lost. A parked thread whose `wake_pending` is set has an `unblock` about to take the lock,
   and taking it makes the thread ready. A thread that has committed to block but is still on its stack
   with a wake pending is requeued by `finish_switch`, or has such an `unblock` too.
   */
  lemma NoLostWakeup(ss: seq<Sched>, steps: seq<Step>, k: nat, t: Tid)
    requires IsRun(ss, steps) && k < |ss| && t in ss[k].threads
    requires ss[k].threads[t].state.Blocked? && ss[k].threads[t].wakePending
    ensures var s := ss[k];
            if !s.threads[t].running then
              && t in s.wakers
              && LockWake(s, t).threads[t].state.Ready? && LockWake(s, t).ready == s.ready + [t]
            else
              exists c :: 0 <= c < |s.cpus| && Leaving(s.cpus[c]) == Some(t) &&
                (if s.cpus[c].stage.Releasing? then t in s.wakers
                 else s.cpus[c].stage.Switched? ==> t in FinishDecide(s, c).ready)
  {
    RunSound(ss, steps, k);
    var s := ss[k];
    var pl: Places :| Inv(s, pl);
    assert ThreadOk(s, t, pl[t]);
    if s.threads[t].running {
      var c := pl[t].c;
      assert CpuOk(s, c, pl);
      assert Leaving(s.cpus[c]) == Some(t);
    } else {
      assert pl[t].Parked?;
      assert t !in s.ready;
    }
  }

  /** Once no CPU is in the switch code and no `unblock` is in flight, no blocked thread has a wake pending. */
  lemma QuietMeansDelivered(ss: seq<Sched>, steps: seq<Step>, k: nat)
    requires IsRun(ss, steps) && k < |ss|
    requires ss[k].wakers == multiset{}
    requires forall i :: 0 <= i < |ss[k].cpus| ==> ss[k].cpus[i].stage.Offline? || ss[k].cpus[i].stage.Executing?
    ensures forall t :: t in ss[k].threads && ss[k].threads[t].state.Blocked? ==> !ss[k].threads[t].wakePending
  {
    var s := ss[k];
    RunSound(ss, steps, k);
    var pl: Places :| Inv(s, pl);
    forall t | t in s.threads && s.threads[t].state.Blocked? ensures !s.threads[t].wakePending {
      assert ThreadOk(s, t, pl[t]);
      if pl[t].Departing? {
        assert CpuOk(s, pl[t].c, pl);
      }
    }
  }

  // ---------------------------------------------------------------- the ready queue

  /**
   The ready queue is duplicate-free and phantom-free: outside `finish_switch` every entry is Ready, not
   `running`, current nowhere, handed off nowhere and resumable; and `pick_next` takes the front entry,
   so it never discards one.
   */
  lemma ReadyQueueClean(ss: seq<Sched>, steps: seq<Step>, k: nat)
    requires IsRun(ss, steps) && k < |ss|
    ensures var s := ss[k];
            && NoDup(s.ready)
            && (!Locked(s) ==> forall j :: 0 <= j < |s.ready| ==>
                  var t := s.ready[j];
                  && t in s.threads && s.threads[t].state.Ready? && !s.threads[t].running && s.threads[t].saved
                  && forall i :: 0 <= i < |s.cpus| ==> s.cpus[i].current != Some(t) && Leaving(s.cpus[i]) != Some(t))
            && (!Locked(s) ==> Closed(s) && forall idle ::
                  PickNext(s.threads, s.cpus, s.ready, idle) == if s.ready == [] then (idle, [])
                           else (s.ready[0], s.ready[1..]))
  {
    RunSound(ss, steps, k);
    var s := ss[k];
    var pl: Places :| Inv(s, pl);
    InvClosed(s, pl);
    if !Locked(s) {
      forall j | 0 <= j < |s.ready|
        ensures s.ready[j] in s.threads && ThreadOk(s, s.ready[j], Queued)
        ensures forall i :: 0 <= i < |s.cpus| ==>
                s.cpus[i].current != Some(s.ready[j]) && Leaving(s.cpus[i]) != Some(s.ready[j])
      {
        var t := s.ready[j];
        assert ThreadOk(s, t, pl[t]);
        forall i | 0 <= i < |s.cpus| ensures s.cpus[i].current != Some(t) && Leaving(s.cpus[i]) != Some(t) {
          assert CpuOk(s, i, pl);
        }
      }
      PickTakesFront(s, pl, s.threads, s.cpus);
    }
  }

  // ---------------------------------------------------------------- thread conservation

  predicate CurrentOn(s: Sched, t: Tid, i: nat) { i < |s.cpus| && s.cpus[i].current == Some(t) }
  predicate LeftBy(s: Sched, t: Tid, i: nat) { i < |s.cpus| && Leaving(s.cpus[i]) == Some(t) }

  ghost predicate IsCurrent(s: Sched, t: Tid) { exists i :: CurrentOn(s, t, i) }
  ghost predicate IsHandedOff(s: Sched, t: Tid) { exists i :: LeftBy(s, t, i) }
  predicate IsQueued(s: Sched, t: Tid)
    requires t in s.threads
  {
    t in s.ready && !s.threads[t].running
  }
  predicate IsParked(s: Sched, t: Tid)
    requires t in s.threads
  {
    s.threads[t].state.Blocked? && !s.threads[t].running
  }
  predicate IsGone(s: Sched, t: Tid)
    requires t in s.threads
  {
    s.threads[t].state.Exited? && !s.threads[t].running && (t in s.graveyard || t in s.freed)
  }

  /** How many of the five conditions hold. */
  ghost function Occupancy(s: Sched, t: Tid): nat
    requires t in s.threads
  {
    (if IsCurrent(s, t) then 1 else 0) + (if IsHandedOff(s, t) then 1 else 0) + (if IsQueued(s, t) then 1 else 0)
    + (if IsParked(s, t) then 1 else 0) + (if IsGone(s, t) then 1 else 0)
  }

  /** Every non-idle thread is in exactly one of: current, handed off, ready, parked, dead; and on at most one CPU. */
  lemma ThreadsConserved(ss: seq<Sched>, steps: seq<Step>, k: nat, t: Tid)
    requires IsRun(ss, steps) && k < |ss| && t in ss[k].threads && !ss[k].threads[t].isIdle
    ensures Occupancy(ss[k], t) == 1
    ensures forall i, j :: CurrentOn(ss[k], t, i) && CurrentOn(ss[k], t, j) ==> i == j
    ensures forall i, j :: LeftBy(ss[k], t, i) && LeftBy(ss[k], t, j) ==> i == j
  {
    RunSound(ss, steps, k);
    var s := ss[k];
    var pl: Places :| Inv(s, pl);
    assert ThreadOk(s, t, pl[t]);
    forall i | CurrentOn(s, t, i) ensures pl[t] == OnCpu(i) { assert CpuOk(s, i, pl); }
    forall i | LeftBy(s, t, i) ensures pl[t] == Departing(i) { assert CpuOk(s, i, pl); }
    assert pl[t].OnCpu? ==> CurrentOn(s, t, pl[t].c);
    assert pl[t].Departing? ==> LeftBy(s, t, pl[t].c);
  }

  // ---------------------------------------------------------------- exited threads

  /** An exited thread stays exited, and a freed one stays freed, through every step. */
  lemma ExitIsFinal(s: Sched, step: Step, t: Tid)
    requires Sound(s) && Enabled(s, step) && t in s.threads && s.threads[t].state.Exited?
    ensures t in Next(s, step).threads && Next(s, step).threads[t].state.Exited?
    ensures t in s.freed ==> t in Next(s, step).freed
  {
    var pl: Places :| Inv(s, pl);
    match step
    case CommitStep(c, block) => CommitKeepsExited(s, pl, c, block, t);
    case ExitStep(c) => ExitKeepsExited(s, pl, c, t);
    case _ => OthersKeepExited(s, step, t);
  }

  lemma OthersKeepExited(s: Sched, step: Step, t: Tid)
    requires Enabled(s, step) && !step.CommitStep? && !step.ExitStep?
    requires t in s.threads && s.threads[t].state.Exited?
    ensures t in Next(s, step).threads && Next(s, step).threads[t].state.Exited?
    ensures s.freed <= Next(s, step).freed
  {
  }

  lemma CommitKeepsExited(s: Sched, pl: Places, c: nat, block: bool, t: Tid)
    requires Inv(s, pl) && Enabled(s, CommitStep(c, block)) && t in s.threads && s.threads[t].state.Exited?
    ensures t in Commit(s, c, block).threads && Commit(s, c, block).threads[t].state.Exited?
  {
    PickTakesFront(s, pl, s.threads, s.cpus);
    ExitedNotNext(s, pl, c, t);
  }

  lemma ExitKeepsExited(s: Sched, pl: Places, c: nat, t: Tid)
    requires Inv(s, pl) && Enabled(s, ExitStep(c)) && t in s.threads && s.threads[t].state.Exited?
    ensures t in Exit(s, c).threads && Exit(s, c).threads[t].state.Exited?
  {
    var prev := s.cpus[c].current.value;
    ExitedNotNext(s, pl, c, t);
    assert CpuOk(s, c, pl);
    assert ThreadOk(s, prev, pl[prev]);
    PickTakesFront(s, pl, SetState(s.threads, prev, Exited), s.cpus[c := s.cpus[c].(current := None)]);
  }

  /** An exited thread is neither current, nor queued, nor an idle thread. */
  lemma ExitedNotNext(s: Sched, pl: Places, c: nat, t: Tid)
    requires Inv(s, pl) && !Locked(s) && Runs(s, c) && t in s.threads && s.threads[t].state.Exited?
    ensures s.cpus[c].current != Some(t) && s.cpus[c].idle != Some(t)
    ensures t !in s.ready
  {
    assert ThreadOk(s, t, pl[t]);
    assert CpuOk(s, c, pl);
  }

  /** From the state in which a thread has exited onwards, no CPU is ever again given it, and it is never queued. */
  lemma {:induction false} ExitedNeverRuns(ss: seq<Sched>, steps: seq<Step>, k: nat, m: nat, t: Tid)
    requires IsRun(ss, steps) && k <= m < |ss| && t in ss[k].threads && ss[k].threads[t].state.Exited?
    ensures t in ss[m].threads && ss[m].threads[t].state.Exited?
    ensures !IsCurrent(ss[m], t) && t !in ss[m].ready
    ensures t in ss[k].freed ==> t in ss[m].freed
    decreases m
  {
    if m > k {
      var j: nat := m - 1;
      ExitedNeverRuns(ss, steps, k, j, t);
      RunSound(ss, steps, j);
      assert Enabled(ss[j], steps[j]) && ss[j + 1] == Next(ss[j], steps[j]);
      ExitIsFinal(ss[j], steps[j], t);
    }
    RunSound(ss, steps, m);
    var pl: Places :| Inv(ss[m], pl);
    ExitedNotCurrent(ss[m], pl, t);
  }

  lemma ExitedNotCurrent(s: Sched, pl: Places, t: Tid)
    requires Inv(s, pl) && t in s.threads && s.threads[t].state.Exited?
    ensures !IsCurrent(s, t) && t !in s.ready
  {
    assert ThreadOk(s, t, pl[t]);
    forall i: nat ensures !CurrentOn(s, t, i) {
      if i < |s.cpus| { assert CpuOk(s, i, pl); }
    }
  }

  /**
   `reap` frees a stack only when no CPU is on it, has claimed it or has yet to release it; and none ever is again.
   */
  lemma FreedStackUnused(ss: seq<Sched>, steps: seq<Step>, k: nat, m: nat, i: nat)
    requires IsRun(ss, steps) && k < m < |ss| && steps[k] == FreeStep(i)
    ensures !StackInUse(ss[m], ss[k].graveyard[i])
    ensures ss[k].graveyard[i] in ss[m].freed && ss[k].graveyard[i] !in ss[m].wakers
  {
    var t := ss[k].graveyard[i];
    RunSound(ss, steps, k + 1);
    var pl0: Places :| Inv(ss[k + 1], pl0);
    assert t in ss[k + 1].freed && t in ss[k + 1].threads;
    assert ThreadOk(ss[k + 1], t, pl0[t]);
    ExitedNeverRuns(ss, steps, k + 1, m, t);
    RunSound(ss, steps, m);
    var pl: Places :| Inv(ss[m], pl);
    assert ThreadOk(ss[m], t, pl[t]);
    RunningIffInUse(ss[m], pl, t);
  }
}
