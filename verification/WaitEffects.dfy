/** That a wait waits: what each of its steps does, and that a thread told to block leaves only when it is woken. */
module WaitEffects {
  import opened Common
  import opened Scheduler
  import opened SchedulerInvariant
  import opened SchedulerTheorems
  import opened SchedulerEffects
  import opened WaitQueue

  // ---------------------------------------------------------------- the steps of a wait are always possible

  /** A worker outside any call, with the queue lock free. */
  ghost predicate Free<O, K>(m: Machine<O, K>, c: nat) {
    At(m, c) && RunsWorker(m.sched, c) && PcOf(m, Me(m, c)).Outside? && m.holder.None?
  }

  /** The lock is taken, and the check sends the thread on to block exactly if its condition says so. */
  lemma CheckDecides<O, K(!new)>(blocks: (O, K) -> bool, m: Machine<O, K>, c: nat, k: K)
    requires Free(m, c)
    ensures MEnabled(blocks, m, LockStep(c, k))
    ensures var m1 := MNext(blocks, m, LockStep(c, k));
            && m1.holder == Some(Me(m, c)) && MEnabled(blocks, m1, CheckStep(c))
            && var m2 := MNext(blocks, m1, CheckStep(c));
               && m2.obj == m.obj && m2.queue == m.queue && m2.sched == m.sched
               && (blocks(m.obj, k) ==> PcOf(m2, Me(m, c)) == Checked(k) && m2.holder == Some(Me(m, c)))
               && (!blocks(m.obj, k) ==> PcOf(m2, Me(m, c)).Outside? && m2.holder.None?)
  {
  }

  /** Told to block, it can always arm itself, which clears any wake recorded before. */
  lemma CheckedMarks<O, K(!new)>(blocks: (O, K) -> bool, m: Machine<O, K>, c: nat)
    requires At(m, c) && RunsWorker(m.sched, c) && PcOf(m, Me(m, c)).Checked?
    ensures MEnabled(blocks, m, WaitMarkStep(c))
    ensures var m' := MNext(blocks, m, WaitMarkStep(c));
            && At(m', c) && RunsWorker(m'.sched, c) && Me(m', c) == Me(m, c) && m'.holder == m.holder
            && PcOf(m', Me(m, c)) == Marked(PcOf(m, Me(m, c)).k) && !m'.sched.threads[Me(m, c)].wakePending
  {
    MeKnown(m, c);
  }

  /** Armed, it can always enter the queue, at its end, and give the lock back. */
  lemma MarkedPushes<O, K(!new)>(blocks: (O, K) -> bool, m: Machine<O, K>, c: nat)
    requires At(m, c) && PcOf(m, Me(m, c)).Marked?
    ensures MEnabled(blocks, m, PushStep(c))
    ensures var m' := MNext(blocks, m, PushStep(c));
            && m'.sched == m.sched && m'.holder.None? && PcOf(m', Me(m, c)) == Enqueued(PcOf(m, Me(m, c)).k)
            && m'.queue == m.queue + [Waiter(Me(m, c), PcOf(m, Me(m, c)).k)]
  {
  }

  /** In the queue, it gives up the CPU and is Blocked, unless it has been woken since it armed itself. */
  lemma EnqueuedSleeps<O, K(!new)>(blocks: (O, K) -> bool, m: Machine<O, K>, c: nat)
    requires MInv(blocks, m) && At(m, c) && RunsWorker(m.sched, c) && !Locked(m.sched) && PcOf(m, Me(m, c)).Enqueued?
    ensures MEnabled(blocks, m, SleepStep(c)) && Me(m, c) in m.sched.threads
    ensures var me, m' := Me(m, c), MNext(blocks, m, SleepStep(c));
            && m'.queue == m.queue
            && (m.sched.threads[me].wakePending ==> PcOf(m', me).Outside? && m'.sched == m.sched)
            && (!m.sched.threads[me].wakePending ==>
                  && PcOf(m', me) == Asleep(PcOf(m, me).k) && me in m'.sched.threads
                  && m'.sched.threads[me].state.Blocked? && m'.sched.cpus[c].current != Some(me))
  {
    MeKnown(m, c);
    CommitYields(m.sched, c, true);
  }

  /** The first half of a wait on a true condition, undisturbed: checked and armed, with the lock held. */
  lemma WaitArms<O, K(!new)>(blocks: (O, K) -> bool, m: Machine<O, K>, c: nat, k: K)
    returns (m1: Machine<O, K>, m2: Machine<O, K>, m3: Machine<O, K>)
    requires MInv(blocks, m) && Free(m, c) && blocks(m.obj, k)
    ensures MEnabled(blocks, m, LockStep(c, k)) && m1 == MNext(blocks, m, LockStep(c, k))
    ensures MEnabled(blocks, m1, CheckStep(c)) && m2 == MNext(blocks, m1, CheckStep(c))
    ensures MEnabled(blocks, m2, WaitMarkStep(c)) && m3 == MNext(blocks, m2, WaitMarkStep(c))
    ensures MInv(blocks, m3) && At(m3, c) && RunsWorker(m3.sched, c) && m3.sched.cpus == m.sched.cpus
    ensures Me(m3, c) == Me(m, c) && PcOf(m3, Me(m, c)) == Marked(k) && m3.queue == m.queue
    ensures !m3.sched.threads[Me(m, c)].wakePending
  {
    CheckDecides(blocks, m, c, k);
    m1 := MNext(blocks, m, LockStep(c, k));
    MStepKeeps(blocks, m, LockStep(c, k));
    m2 := MNext(blocks, m1, CheckStep(c));
    MStepKeeps(blocks, m1, CheckStep(c));
    CheckedMarks(blocks, m2, c);
    m3 := MNext(blocks, m2, WaitMarkStep(c));
    MStepKeeps(blocks, m2, WaitMarkStep(c));
  }

  /** Undisturbed, it ends in the queue, Blocked and asleep. */
  lemma WaitBlocks<O, K(!new)>(blocks: (O, K) -> bool, m: Machine<O, K>, c: nat, k: K)
    returns (m1: Machine<O, K>, m2: Machine<O, K>, m3: Machine<O, K>, m4: Machine<O, K>, m5: Machine<O, K>)
    requires MInv(blocks, m) && Free(m, c) && !Locked(m.sched) && blocks(m.obj, k)
    ensures MEnabled(blocks, m, LockStep(c, k)) && m1 == MNext(blocks, m, LockStep(c, k))
    ensures MEnabled(blocks, m1, CheckStep(c)) && m2 == MNext(blocks, m1, CheckStep(c))
    ensures MEnabled(blocks, m2, WaitMarkStep(c)) && m3 == MNext(blocks, m2, WaitMarkStep(c))
    ensures MEnabled(blocks, m3, PushStep(c)) && m4 == MNext(blocks, m3, PushStep(c))
    ensures MEnabled(blocks, m4, SleepStep(c)) && m5 == MNext(blocks, m4, SleepStep(c))
    ensures PcOf(m5, Me(m, c)) == Asleep(k) && m5.queue == m.queue + [Waiter(Me(m, c), k)]
    ensures Me(m, c) in m5.sched.threads && m5.sched.threads[Me(m, c)].state.Blocked?
  {
    m1, m2, m3 := WaitArms(blocks, m, c, k);
    MarkedPushes(blocks, m3, c);
    m4 := MNext(blocks, m3, PushStep(c));
    MStepKeeps(blocks, m3, PushStep(c));
    EnqueuedSleeps(blocks, m4, c);
    m5 := MNext(blocks, m4, SleepStep(c));
  }

  // ---------------------------------------------------------------- it leaves only when woken

  /** The step is an `unblock(t)` storing its wake. */
  ghost predicate Stores<O, K>(m: Machine<O, K>, step: MStep<O, K>, t: Tid) {
    || step == EnvStep(StoreWakeStep(t))
    || (step.UnblockStep? && At(m, step.c) && PcOf(m, Me(m, step.c)).Waking? && PcOf(m, Me(m, step.c)).drained != []
        && PcOf(m, Me(m, step.c)).drained[0] == t)
  }

  /** The step is either half of an `unblock(t)`. */
  ghost predicate Wakes<O, K>(m: Machine<O, K>, step: MStep<O, K>, t: Tid) {
    Stores(m, step, t) || step == EnvStep(LockWakeStep(t))
  }

  /** The step is `t` arming itself. */
  ghost predicate Marks<O, K>(m: Machine<O, K>, step: MStep<O, K>, t: Tid) {
    step.WaitMarkStep? && Runs(m.sched, step.c) && Me(m, step.c) == t
  }

  /** No scheduler step but an `unblock` of it wakes a thread, or records a wake for it. */
  lemma StaysUnwoken(s: Sched, step: Step, t: Tid)
    requires Sound(s) && Enabled(s, step) && t in s.threads && !s.threads[t].wakePending
    requires step != StoreWakeStep(t) && step != LockWakeStep(t)
    ensures t in Next(s, step).threads && !Next(s, step).threads[t].wakePending
    ensures s.threads[t].state.Blocked? ==> Next(s, step).threads[t].state.Blocked?
  {
    match step
    case CommitStep(c, block) => UnwokenByCommit(s, c, block, t);
    case ExitStep(c) => UnwokenByExit(s, c, t);
    case DecideStep(c) => UnwokenByDecide(s, c, t);
    case _ =>
  }

  lemma UnwokenByCommit(s: Sched, c: nat, block: bool, t: Tid)
    requires Sound(s) && Enabled(s, CommitStep(c, block)) && t in s.threads && !s.threads[t].wakePending
    ensures var s' := Commit(s, c, block);
            && t in s'.threads && !s'.threads[t].wakePending
            && (s.threads[t].state.Blocked? ==> s'.threads[t].state.Blocked?)
  {
    var pl: Places :| Inv(s, pl);
    CommitYields(s, c, block);
    HeirNotBlocked(s, pl, c);
  }

  lemma UnwokenByExit(s: Sched, c: nat, t: Tid)
    requires Sound(s) && Enabled(s, ExitStep(c)) && t in s.threads && !s.threads[t].wakePending
    ensures var s' := Exit(s, c);
            && t in s'.threads && !s'.threads[t].wakePending
            && (s.threads[t].state.Blocked? ==> s'.threads[t].state.Blocked?)
  {
    var pl: Places :| Inv(s, pl);
    ExitDies(s, c);
    HeirNotBlocked(s, pl, c);
  }

  lemma UnwokenByDecide(s: Sched, c: nat, t: Tid)
    requires Sound(s) && Enabled(s, DecideStep(c)) && t in s.threads && !s.threads[t].wakePending
    ensures var s' := FinishDecide(s, c);
            && t in s'.threads && !s'.threads[t].wakePending
            && (s.threads[t].state.Blocked? ==> s'.threads[t].state.Blocked?)
  {
    var pl: Places :| Inv(s, pl);
    DecideRequeues(s, c);
    assert CpuOk(s, c, pl);
    var prev := s.cpus[c].handoff.value.tid;
    assert ThreadOk(s, prev, pl[prev]);
  }

  lemma HeirNotBlocked(s: Sched, pl: Places, c: nat)
    requires Inv(s, pl) && !Locked(s) && Runs(s, c)
    ensures Heir(s, c).value in s.threads && !s.threads[Heir(s, c).value].state.Blocked?
    ensures s.cpus[c].current.value in s.threads && s.threads[s.cpus[c].current.value].state.Running?
  {
    HeirKnown(s, pl, c);
    assert CpuOk(s, c, pl);
    var prev, next := s.cpus[c].current.value, Heir(s, c).value;
    assert ThreadOk(s, prev, pl[prev]) && ThreadOk(s, next, pl[next]);
  }

  /** Armed and not woken since: still on its way to sleep, or asleep and Blocked. */
  ghost predicate Armed<O, K>(m: Machine<O, K>, t: Tid) {
    && t in m.pcs && (m.pcs[t].Marked? || m.pcs[t].Enqueued? || m.pcs[t].Asleep?)
    && t in m.sched.threads && !m.sched.threads[t].wakePending
    && (m.pcs[t].Asleep? ==> m.sched.threads[t].state.Blocked?)
  }

  lemma RunningNotBlocked(s: Sched, c: nat)
    requires Sound(s) && Runs(s, c)
    ensures s.cpus[c].current.value in s.threads && s.threads[s.cpus[c].current.value].state.Running?
  {
    var pl: Places :| Inv(s, pl);
    assert CpuOk(s, c, pl);
    assert ThreadOk(s, s.cpus[c].current.value, pl[s.cpus[c].current.value]);
  }

  /** The scheduler step a step of the machine takes, if any. */
  function Under<O, K>(m: Machine<O, K>, step: MStep<O, K>): Option<Step> {
    match step
    case EnvStep(e) => Some(e)
    case WaitMarkStep(c) => Some(MarkStep(c))
    case SleepStep(c) => Some(CommitStep(c, true))
    case UnblockStep(c) =>
      if Runs(m.sched, c) && PcOf(m, Me(m, c)).Waking? && PcOf(m, Me(m, c)).drained != []
      then Some(StoreWakeStep(PcOf(m, Me(m, c)).drained[0])) else None
    case _ => None
  }

  lemma UnderIs<O, K(!new)>(blocks: (O, K) -> bool, m: Machine<O, K>, step: MStep<O, K>)
    requires MEnabled(blocks, m, step)
    ensures Under(m, step).None? ==> MNext(blocks, m, step).sched == m.sched
    ensures Under(m, step).Some? ==>
              && Enabled(m.sched, Under(m, step).value)
              && MNext(blocks, m, step).sched == Next(m.sched, Under(m, step).value)
  {
  }

  lemma ArmedStays<O, K(!new)>(blocks: (O, K) -> bool, m: Machine<O, K>, step: MStep<O, K>, t: Tid)
    requires MInv(blocks, m) && MEnabled(blocks, m, step) && Armed(m, t) && !Wakes(m, step, t)
    ensures Armed(MNext(blocks, m, step), t)
  {
    UnderIs(blocks, m, step);
    if Under(m, step).Some? { StaysUnwoken(m.sched, Under(m, step).value, t); }
    if !step.EnvStep? && Me(m, step.c) == t {
      RunningNotBlocked(m.sched, step.c);
      if step.SleepStep? { CommitYields(m.sched, step.c, true); }
    }
  }

  lemma {:induction false} ArmedUntil<O, K(!new)>(blocks: (O, K) -> bool, ms: seq<Machine<O, K>>,
                                                  steps: seq<MStep<O, K>>, a: nat, j: nat, t: Tid)
    requires IsMRun(blocks, ms, steps) && a < j < |ms| && Marks(ms[a], steps[a], t)
    requires forall h :: a < h < j ==> !Wakes(ms[h], steps[h], t)
    ensures Armed(ms[j], t)
    decreases j
  {
    var i: nat := j - 1;
    MRunKeeps(blocks, ms, steps, i);
    if i == a {
      MeKnown(ms[a], steps[a].c);
    } else {
      ArmedUntil(blocks, ms, steps, a, i, t);
      ArmedStays(blocks, ms[i], steps[i], t);
    }
    assert ms[i + 1] == ms[j];
  }

  /** The check at step `i` told `t` to block. */
  ghost predicate ToldToBlock<O, K(!new)>(blocks: (O, K) -> bool, ms: seq<Machine<O, K>>, steps: seq<MStep<O, K>>,
                                          i: nat, t: Tid) {
    && i < |steps| < |ms| && steps[i].CheckStep? && At(ms[i], steps[i].c) && Me(ms[i], steps[i].c) == t
    && PcOf(ms[i], t).Holding? && blocks(ms[i].obj, PcOf(ms[i], t).k)
  }

  /** Told to block, a thread stays in the call until it arms itself. */
  lemma {:induction false} ChecksThenMarks<O, K(!new)>(blocks: (O, K) -> bool, ms: seq<Machine<O, K>>,
                                                       steps: seq<MStep<O, K>>, i: nat, j: nat, t: Tid)
    requires IsMRun(blocks, ms, steps) && ToldToBlock(blocks, ms, steps, i, t) && i < j < |ms|
    ensures PcOf(ms[j], t).Checked? || exists a :: i < a < j && Marks(ms[a], steps[a], t)
    decreases j
  {
    var h: nat := j - 1;
    if h > i {
      ChecksThenMarks(blocks, ms, steps, i, h, t);
      if PcOf(ms[h], t).Checked? && !Marks(ms[h], steps[h], t) {
        CheckedStays(blocks, ms[h], steps[h], t);
      }
    }
    assert ms[h + 1] == ms[j];
  }

  lemma CheckedStays<O, K(!new)>(blocks: (O, K) -> bool, m: Machine<O, K>, step: MStep<O, K>, t: Tid)
    requires MEnabled(blocks, m, step) && PcOf(m, t).Checked? && !Marks(m, step, t)
    ensures PcOf(MNext(blocks, m, step), t) == PcOf(m, t)
  {
  }

  /**
   In every run: a thread whose check told it to block is back outside the call only after it armed itself and, since
   then, an `unblock` of it stored its wake or took the lock.
   */
  lemma LeavesOnlyWoken<O, K(!new)>(blocks: (O, K) -> bool, ms: seq<Machine<O, K>>, steps: seq<MStep<O, K>>, i: nat,
                                    j: nat, t: Tid) returns (a: nat, h: nat)
    requires IsMRun(blocks, ms, steps) && ToldToBlock(blocks, ms, steps, i, t) && i < j < |ms|
             && PcOf(ms[j], t).Outside?
    ensures i < a < h < j && Marks(ms[a], steps[a], t) && Wakes(ms[h], steps[h], t)
  {
    ChecksThenMarks(blocks, ms, steps, i, j, t);
    a :| i < a < j && Marks(ms[a], steps[a], t);
    if forall h :: a < h < j ==> !Wakes(ms[h], steps[h], t) {
      ArmedUntil(blocks, ms, steps, a, j, t);
    }
    h :| a < h < j && Wakes(ms[h], steps[h], t);
  }

  // ---------------------------------------------------------------- late unblocks

  lemma {:induction false} NoneInFlight<O, K(!new)>(blocks: (O, K) -> bool, ms: seq<Machine<O, K>>,
                                                    steps: seq<MStep<O, K>>, a: nat, j: nat, t: Tid)
    requires IsMRun(blocks, ms, steps) && a <= j < |ms| && t !in ms[a].sched.wakers
    requires forall h :: a <= h < j ==> !Stores(ms[h], steps[h], t)
    ensures t !in ms[j].sched.wakers
    decreases j
  {
    if a < j {
      var i: nat := j - 1;
      NoneInFlight(blocks, ms, steps, a, i, t);
      UnderIs(blocks, ms[i], steps[i]);
      assert ms[i + 1] == ms[j];
    }
  }

  /**
   With no `unblock` of the thread in flight when it arms itself, the wake is one stored after that: it is never one
   that came too early.
   */
  lemma LeavesOnlyFreshlyWoken<O, K(!new)>(blocks: (O, K) -> bool, ms: seq<Machine<O, K>>, steps: seq<MStep<O, K>>,
                                           i: nat, a: nat, j: nat, t: Tid) returns (h: nat)
    requires IsMRun(blocks, ms, steps) && ToldToBlock(blocks, ms, steps, i, t)
    requires i < a < j < |ms| && Marks(ms[a], steps[a], t) && PcOf(ms[j], t).Outside? && t !in ms[a].sched.wakers
    ensures a < h < j && Stores(ms[h], steps[h], t)
  {
    if forall h :: a < h < j ==> !Stores(ms[h], steps[h], t) {
      forall h | a < h < j ensures !Wakes(ms[h], steps[h], t) { NoneInFlight(blocks, ms, steps, a, h, t); }
      ArmedUntil(blocks, ms, steps, a, j, t);
    }
    h :| a < h < j && Stores(ms[h], steps[h], t);
  }
}
