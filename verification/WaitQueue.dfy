/**
 One `WaitQueue` on top of the scheduler: `wait_if` and `wake_all`, step by step, guarding an object `O`.

 `blocks(o, k)` is the `should_block` closure of a wait of kind `k`. A thread that changes the object so
 that some closure may turn false owes a `wake_all`; changes that cannot do so owe nothing. Every other
 thread, object and timer of the kernel is the environment: it may take any scheduler step, spurious
 `unblock`s included, that the wait code's disabled interrupts allow.
 */
module WaitQueue {
  import opened Common
  import opened Scheduler
  import opened SchedulerInvariant
  import opened SchedulerTheorems

  /** Where a thread is in a call on this queue. */
  datatype Pc<K> =
    | Outside
    | Holding(k: K)   // wait_if: queue lock taken
    | Checked(k: K)   // should_block() returned true
    | Marked(k: K)    // mark_blocking done
    | Enqueued(k: K)  // pushed and unlocked, reschedule(true) still ahead
    | Asleep(k: K)    // reschedule(true) committed the block
    | Owing           // changed the object, wake_all still ahead
    | Waking(drained: seq<Tid>)  // wake_all: drained, these unblocks still ahead

  datatype Waiter<K> = Waiter(t: Tid, k: K)

  datatype Machine<O, K> = Machine(sched: Sched, obj: O, holder: Option<Tid>, queue: seq<Waiter<K>>, pcs: map<Tid,
    Pc<K>>)

  function PcOf<O, K>(m: Machine<O, K>, t: Tid): Pc<K> {
    if t in m.pcs then m.pcs[t] else Outside
  }

  function Tids<K>(q: seq<Waiter<K>>): seq<Tid> {
    seq(|q|, i requires 0 <= i < |q| => q[i].t)
  }

  datatype MStep<O, K> =
    | EnvStep(step: Step)
    | LockStep(c: nat, k: K)
    | CheckStep(c: nat)
    | WaitMarkStep(c: nat)
    | PushStep(c: nat)
    | SleepStep(c: nat)
    | ResumeStep(c: nat)
    | ChangeStep(c: nat, o: O, owes: bool)
    | DrainStep(c: nat)
    | UnblockStep(c: nat)
    | DoneStep(c: nat)

  /** A change that turns no `should_block` from true to false. */
  ghost predicate Harmless<O, K(!new)>(blocks: (O, K) -> bool, o: O, o': O) {
    forall k :: blocks(o, k) ==> blocks(o', k)
  }

  /** The thread running on `c` outside the switch code. */
  function Me<O, K>(m: Machine<O, K>, c: nat): Tid
    requires Runs(m.sched, c)
  {
    m.sched.cpus[c].current.value
  }

  ghost predicate At<O, K>(m: Machine<O, K>, c: nat) {
    Closed(m.sched) && Runs(m.sched, c)
  }

  /** Some reference on this queue keeps the thread object alive. */
  ghost predicate Referenced<O, K>(m: Machine<O, K>, t: Tid) {
    || (exists i :: 0 <= i < |m.queue| && m.queue[i].t == t)
    || (exists u :: u in m.pcs && m.pcs[u].Waking? && t in m.pcs[u].drained)
  }

  /**
   Scheduler steps other code may take. The wait code runs with interrupts off, so its CPU is not
   preempted there; a thread inside a wake may be preempted but does not block, arm a wait or exit;
   and a corpse a queue still refers to is not freed.
   */
  ghost predicate EnvOk<O, K>(m: Machine<O, K>, step: Step) {
    match step
    case CommitStep(c, block) =>
      Runs(m.sched, c) ==>
        var pc := PcOf(m, Me(m, c)); pc.Outside? || (!block && (pc.Owing? || pc.Waking?))
    case ExitStep(c) => Runs(m.sched, c) ==> PcOf(m, Me(m, c)).Outside?
    case MarkStep(c) => Runs(m.sched, c) ==> PcOf(m, Me(m, c)).Outside?
    case FreeStep(i) => i < |m.sched.graveyard| ==> !Referenced(m, m.sched.graveyard[i])
    case _ => true
  }

  ghost predicate MEnabled<O, K(!new)>(blocks: (O, K) -> bool, m: Machine<O, K>, step: MStep<O, K>) {
    match step
    case EnvStep(e) => Enabled(m.sched, e) && EnvOk(m, e)
    case LockStep(c, k) => At(m, c) && PcOf(m, Me(m, c)).Outside? && m.holder.None?
    case CheckStep(c) => At(m, c) && PcOf(m, Me(m, c)).Holding?
    case WaitMarkStep(c) => Enabled(m.sched, MarkStep(c)) && PcOf(m, Me(m, c)).Checked?
    case PushStep(c) => At(m, c) && PcOf(m, Me(m, c)).Marked?
    case SleepStep(c) => Enabled(m.sched, CommitStep(c, true)) && PcOf(m, Me(m, c)).Enqueued?
    case ResumeStep(c) => At(m, c) && PcOf(m, Me(m, c)).Asleep?
    case ChangeStep(c, o, owes) => At(m, c) && PcOf(m, Me(m, c)).Outside? && (owes || Harmless(blocks, m.obj, o))
    case DrainStep(c) => At(m, c) && PcOf(m, Me(m, c)).Owing? && m.holder.None?
    case UnblockStep(c) =>
      At(m, c) && PcOf(m, Me(m, c)).Waking? && PcOf(m, Me(m, c)).drained != []
      && Enabled(m.sched, StoreWakeStep(PcOf(m, Me(m, c)).drained[0]))
    case DoneStep(c) => At(m, c) && PcOf(m, Me(m, c)) == Waking([])
  }

  ghost function Goto<O, K>(m: Machine<O, K>, c: nat, pc: Pc<K>): Machine<O, K>
    requires Runs(m.sched, c)
  {
    m.(pcs := m.pcs[Me(m, c) := pc])
  }

  ghost function MNext<O, K(!new)>(blocks: (O, K) -> bool, m: Machine<O, K>, step: MStep<O, K>): Machine<O, K>
    requires MEnabled(blocks, m, step)
  {
    match step
    case EnvStep(e) => m.(sched := Next(m.sched, e))
    case LockStep(c, k) => Goto(m, c, Holding(k)).(holder := Some(Me(m, c)))
    case CheckStep(c) =>
      var k := PcOf(m, Me(m, c)).k;
      if blocks(m.obj, k) then Goto(m, c, Checked(k)) else Goto(m, c, Outside).(holder := None)
    case WaitMarkStep(c) => Goto(m, c, Marked(PcOf(m, Me(m, c)).k)).(sched := MarkBlocking(m.sched, c))
    case PushStep(c) =>
      var k := PcOf(m, Me(m, c)).k;
      Goto(m, c, Enqueued(k)).(holder := None, queue := m.queue + [Waiter(Me(m, c), k)])
    case SleepStep(c) =>
      // A pending wake makes reschedule(true) return at once.
      var pending := m.sched.threads[Me(m, c)].wakePending;
      Goto(m, c, if pending then Outside else Asleep(PcOf(m, Me(m, c)).k)).(sched := Commit(m.sched, c, true))
    case ResumeStep(c) => Goto(m, c, Outside)
    case ChangeStep(c, o, owes) => Goto(m, c, if owes then Owing else Outside).(obj := o)
    case DrainStep(c) => Goto(m, c, Waking(Tids(m.queue))).(queue := [])
    case UnblockStep(c) =>
      var l := PcOf(m, Me(m, c)).drained;
      Goto(m, c, Waking(l[1..])).(sched := StoreWake(m.sched, l[0]))
    case DoneStep(c) => Goto(m, c, Outside)
  }

  predicate MInitial<O, K>(m: Machine<O, K>) {
    Initial(m.sched) && m.holder.None? && m.queue == [] && m.pcs == map[]
  }

  ghost predicate IsMRun<O, K(!new)>(blocks: (O, K) -> bool, ms: seq<Machine<O, K>>, steps: seq<MStep<O, K>>) {
    && |ms| == |steps| + 1
    && MInitial(ms[0])
    && forall i :: 0 <= i < |steps| ==> MEnabled(blocks, ms[i], steps[i]) && ms[i + 1] == MNext(blocks, ms[i], steps[i])
  }

  // ---------------------------------------------------------------- the invariant

  predicate HoldsLock<K>(pc: Pc<K>) { pc.Holding? || pc.Checked? || pc.Marked? }
  predicate Committing<K>(pc: Pc<K>) { pc.Checked? || pc.Marked? }
  predicate Waiting<K>(pc: Pc<K>) { pc.Enqueued? || pc.Asleep? }

  /** Some thread has yet to drain the queue. */
  ghost predicate SomeoneOwes<O, K>(m: Machine<O, K>) {
    exists u :: u in m.pcs && m.pcs[u].Owing?
  }

  ghost predicate BeingWoken<O, K>(m: Machine<O, K>, t: Tid) {
    exists u :: u in m.pcs && m.pcs[u].Waking? && t in m.pcs[u].drained
  }

  /** A waiting thread is queued, is about to be unblocked, or has its wake recorded. */
  ghost predicate WaiterOk<O, K>(m: Machine<O, K>, t: Tid)
    requires t in m.pcs && t in m.sched.threads
  {
    Waiting(m.pcs[t]) ==>
      Waiter(t, m.pcs[t].k) in m.queue || BeingWoken(m, t) || m.sched.threads[t].wakePending
  }

  /** Whoever decided to block, or is queued, on a condition that is false now is owed a drain. */
  ghost predicate DebtOk<O, K>(blocks: (O, K) -> bool, m: Machine<O, K>) {
    && (forall t {:trigger m.pcs[t]} :: t in m.pcs && Committing(m.pcs[t]) && !blocks(m.obj, m.pcs[t].k) ==>
       SomeoneOwes(m))
    && (forall w {:trigger w in m.queue} :: w in m.queue && !blocks(m.obj, w.k) ==> SomeoneOwes(m))
  }

  /** Threads the queue refers to exist and have not been freed. */
  ghost predicate RefsOk<O, K>(m: Machine<O, K>) {
    && (forall i :: 0 <= i < |m.queue| ==> m.queue[i].t in m.sched.threads && m.queue[i].t !in m.sched.freed)
    && (forall u, j :: u in m.pcs && m.pcs[u].Waking? && 0 <= j < |m.pcs[u].drained| ==>
          m.pcs[u].drained[j] in m.sched.threads && m.pcs[u].drained[j] !in m.sched.freed)
  }

  ghost predicate MInv<O, K(!new)>(blocks: (O, K) -> bool, m: Machine<O, K>) {
    && Sound(m.sched)
    && (forall t :: t in m.pcs ==> t in m.sched.threads)
    && (forall t :: t in m.pcs ==> (HoldsLock(m.pcs[t]) <==> m.holder == Some(t)))
    && (m.holder.Some? ==> m.holder.value in m.pcs)
    && (forall t {:trigger WaiterOk(m, t)} :: t in m.pcs ==> WaiterOk(m, t))
    && RefsOk(m)
    && DebtOk(blocks, m)
  }

  // ---------------------------------------------------------------- every step keeps it

  /** Scheduler steps lose no recorded wake, except that a thread arming a wait clears its own. */
  lemma WakePendingStays(s: Sched, step: Step, t: Tid)
    requires Enabled(s, step) && t in s.threads && s.threads[t].wakePending
    requires step.MarkStep? ==> s.cpus[step.c].current != Some(t)
    ensures t in Next(s, step).threads && Next(s, step).threads[t].wakePending
  {
  }

  lemma ThreadsStay(s: Sched, step: Step)
    requires Enabled(s, step)
    ensures s.threads.Keys <= Next(s, step).threads.Keys
    ensures Next(s, step).freed == if step.FreeStep? then s.freed + {s.graveyard[step.i]} else s.freed
  {
  }

  lemma EnvKeepsRefs<O, K>(m: Machine<O, K>, e: Step)
    requires RefsOk(m) && Enabled(m.sched, e) && EnvOk(m, e)
    ensures RefsOk(m.(sched := Next(m.sched, e)))
  {
    ThreadsStay(m.sched, e);
  }

  lemma RunningNotFreed(s: Sched, c: nat)
    requires Sound(s) && Runs(s, c)
    ensures s.cpus[c].current.value !in s.freed
  {
    var pl: Places :| Inv(s, pl);
    assert CpuOk(s, c, pl);
  }

  lemma KeepEnv<O, K(!new)>(blocks: (O, K) -> bool, m: Machine<O, K>, e: Step)
    requires MInv(blocks, m) && MEnabled(blocks, m, EnvStep(e))
    ensures MInv(blocks, MNext(blocks, m, EnvStep(e)))
  {
    var m' := MNext(blocks, m, EnvStep(e));
    StepSound(m.sched, e);
    ThreadsStay(m.sched, e);
    EnvKeepsRefs(m, e);
    forall t | t in m'.pcs ensures WaiterOk(m', t) {
      assert WaiterOk(m, t);
      if Waiting(m.pcs[t]) && m.sched.threads[t].wakePending {
        WakePendingStays(m.sched, e, t);
      }
      assert BeingWoken(m, t) ==> BeingWoken(m', t);
    }
    assert SomeoneOwes(m) ==> SomeoneOwes(m');
  }

  /** The thread running on a CPU is a known one. */
  lemma MeKnown<O, K>(m: Machine<O, K>, c: nat)
    requires At(m, c)
    ensures Me(m, c) in m.sched.threads
  {
    assert Known(m.sched, m.sched.cpus[c].current);
  }

  /** Wakes and debts of everybody but `me` survive a step of `me`. */
  lemma OthersStay<O, K>(m: Machine<O, K>, m': Machine<O, K>, me: Tid)
    requires forall u :: u in m.pcs && u != me ==> u in m'.pcs && m'.pcs[u] == m.pcs[u]
    requires PcOf(m, me).Waking? ==> PcOf(m, me).drained == []
    ensures forall t {:trigger BeingWoken(m', t)} :: BeingWoken(m, t) ==> BeingWoken(m', t)
    ensures SomeoneOwes(m) && !PcOf(m, me).Owing? ==> SomeoneOwes(m')
  {
    forall t | BeingWoken(m, t) ensures BeingWoken(m', t) {
      var u :| u in m.pcs && m.pcs[u].Waking? && t in m.pcs[u].drained;
      assert m'.pcs[u] == m.pcs[u];
    }
    if SomeoneOwes(m) && !PcOf(m, me).Owing? {
      var u :| u in m.pcs && m.pcs[u].Owing?;
      assert m'.pcs[u].Owing?;
    }
  }

  /** Taking the queue lock and asking the condition leave the scheduler alone. */
  lemma KeepAsk<O, K(!new)>(blocks: (O, K) -> bool, m: Machine<O, K>, step: MStep<O, K>)
    requires MInv(blocks, m) && MEnabled(blocks, m, step) && (step.LockStep? || step.CheckStep?)
    ensures MInv(blocks, MNext(blocks, m, step))
  {
    var m' := MNext(blocks, m, step);
    var me := Me(m, step.c);
    OthersStay(m, m', me);
    MeKnown(m, step.c);
    forall t | t in m'.pcs ensures WaiterOk(m', t) {
      if t != me { assert WaiterOk(m, t); }
    }
  }

  /** So do returning from a wait or a wake. */
  lemma KeepReturn<O, K(!new)>(blocks: (O, K) -> bool, m: Machine<O, K>, step: MStep<O, K>)
    requires MInv(blocks, m) && MEnabled(blocks, m, step) && (step.ResumeStep? || step.DoneStep?)
    ensures MInv(blocks, MNext(blocks, m, step))
  {
    var m' := MNext(blocks, m, step);
    var me := Me(m, step.c);
    OthersStay(m, m', me);
    MeKnown(m, step.c);
    forall t | t in m'.pcs ensures WaiterOk(m', t) {
      if t != me { assert WaiterOk(m, t); }
    }
  }

  lemma KeepPush<O, K(!new)>(blocks: (O, K) -> bool, m: Machine<O, K>, c: nat)
    requires MInv(blocks, m) && MEnabled(blocks, m, PushStep(c))
    ensures MInv(blocks, MNext(blocks, m, PushStep(c)))
  {
    var m' := MNext(blocks, m, PushStep(c));
    var me := Me(m, c);
    OthersStay(m, m', me);
    MeKnown(m, c);
    RunningNotFreed(m.sched, c);
    forall t | t in m'.pcs ensures WaiterOk(m', t) {
      assert WaiterOk(m, t);
    }
  }

  lemma KeepChange<O, K(!new)>(blocks: (O, K) -> bool, m: Machine<O, K>, c: nat, o: O, owes: bool)
    requires MInv(blocks, m) && MEnabled(blocks, m, ChangeStep(c, o, owes))
    ensures MInv(blocks, MNext(blocks, m, ChangeStep(c, o, owes)))
  {
    var m' := MNext(blocks, m, ChangeStep(c, o, owes));
    var me := Me(m, c);
    OthersStay(m, m', me);
    MeKnown(m, c);
    forall t | t in m'.pcs ensures WaiterOk(m', t) {
      if t != me { assert WaiterOk(m, t); }
    }
    if owes {
      assert m'.pcs[me].Owing?;
    }
  }

  lemma KeepDrain<O, K(!new)>(blocks: (O, K) -> bool, m: Machine<O, K>, c: nat)
    requires MInv(blocks, m) && MEnabled(blocks, m, DrainStep(c))
    ensures MInv(blocks, MNext(blocks, m, DrainStep(c)))
  {
    var m' := MNext(blocks, m, DrainStep(c));
    var me := Me(m, c);
    OthersStay(m, m', me);
    MeKnown(m, c);
    forall t | t in m'.pcs ensures WaiterOk(m', t) {
      if t != me {
        assert WaiterOk(m, t);
        if Waiting(m.pcs[t]) && Waiter(t, m.pcs[t].k) in m.queue {
          var i :| 0 <= i < |m.queue| && m.queue[i] == Waiter(t, m.pcs[t].k);
          assert m'.pcs[me].drained[i] == t;
        }
      }
    }
  }

  lemma KeepWaitMark<O, K(!new)>(blocks: (O, K) -> bool, m: Machine<O, K>, c: nat)
    requires MInv(blocks, m) && MEnabled(blocks, m, WaitMarkStep(c))
    ensures MInv(blocks, MNext(blocks, m, WaitMarkStep(c)))
  {
    var m' := MNext(blocks, m, WaitMarkStep(c));
    var me := Me(m, c);
    OthersStay(m, m', me);
    StepSound(m.sched, MarkStep(c));
    forall t | t in m'.pcs ensures WaiterOk(m', t) {
      assert WaiterOk(m, t);
    }
  }

  lemma KeepSleep<O, K(!new)>(blocks: (O, K) -> bool, m: Machine<O, K>, c: nat)
    requires MInv(blocks, m) && MEnabled(blocks, m, SleepStep(c))
    ensures MInv(blocks, MNext(blocks, m, SleepStep(c)))
  {
    var m' := MNext(blocks, m, SleepStep(c));
    var me := Me(m, c);
    OthersStay(m, m', me);
    StepSound(m.sched, CommitStep(c, true));
    ThreadsStay(m.sched, CommitStep(c, true));
    forall t | t in m'.pcs ensures WaiterOk(m', t) {
      assert WaiterOk(m, t);
      if Waiting(m.pcs[t]) && m.sched.threads[t].wakePending {
        WakePendingStays(m.sched, CommitStep(c, true), t);
      }
    }
  }

  lemma KeepUnblock<O, K(!new)>(blocks: (O, K) -> bool, m: Machine<O, K>, c: nat)
    requires MInv(blocks, m) && MEnabled(blocks, m, UnblockStep(c))
    ensures MInv(blocks, MNext(blocks, m, UnblockStep(c)))
  {
    var m' := MNext(blocks, m, UnblockStep(c));
    var me := Me(m, c);
    var l := PcOf(m, me).drained;
    StepSound(m.sched, StoreWakeStep(l[0]));
    forall t | t in m'.pcs ensures WaiterOk(m', t) {
      assert WaiterOk(m, t);
      if Waiting(m.pcs[t]) && BeingWoken(m, t) && t != l[0] {
        var u :| u in m.pcs && m.pcs[u].Waking? && t in m.pcs[u].drained;
        assert t in m'.pcs[u].drained;
      }
    }
    assert SomeoneOwes(m) ==> SomeoneOwes(m') by {
      if u :| u in m.pcs && m.pcs[u].Owing? { assert m'.pcs[u].Owing?; }
    }
  }

  lemma MStepKeeps<O, K(!new)>(blocks: (O, K) -> bool, m: Machine<O, K>, step: MStep<O, K>)
    requires MInv(blocks, m) && MEnabled(blocks, m, step)
    ensures MInv(blocks, MNext(blocks, m, step))
  {
    match step
    case EnvStep(e) => KeepEnv(blocks, m, e);
    case WaitMarkStep(c) => KeepWaitMark(blocks, m, c);
    case PushStep(c) => KeepPush(blocks, m, c);
    case SleepStep(c) => KeepSleep(blocks, m, c);
    case ChangeStep(c, o, owes) => KeepChange(blocks, m, c, o, owes);
    case DrainStep(c) => KeepDrain(blocks, m, c);
    case UnblockStep(c) => KeepUnblock(blocks, m, c);
    case LockStep(_, _) => KeepAsk(blocks, m, step);
    case CheckStep(_) => KeepAsk(blocks, m, step);
    case ResumeStep(_) => KeepReturn(blocks, m, step);
    case DoneStep(_) => KeepReturn(blocks, m, step);
  }

  lemma {:induction false} MRunKeeps<O, K(!new)>(blocks: (O, K) -> bool, ms: seq<Machine<O, K>>, steps: seq<MStep<O,
                                          K>>, i: nat)
    requires IsMRun(blocks, ms, steps) && i < |ms|
    ensures MInv(blocks, ms[i])
  {
    if i == 0 {
      InitialSound(ms[0].sched);
    } else {
      MRunKeeps(blocks, ms, steps, i - 1);
      MStepKeeps(blocks, ms[i - 1], steps[i - 1]);
    }
  }

  // ---------------------------------------------------------------- nobody is stranded

  /** The thread is off the CPU for good unless somebody makes it ready. */
  predicate ParkedIn<O, K>(m: Machine<O, K>, t: Tid) {
    && t in m.sched.threads && m.sched.threads[t].state.Blocked? && !m.sched.threads[t].running
    && PcOf(m, t).Asleep?
  }

  /** Somebody has yet to drain the queue, to start unblocking `t`, or to finish an `unblock(t)`. */
  ghost predicate WakeInFlight<O, K>(m: Machine<O, K>, t: Tid) {
    SomeoneOwes(m) || BeingWoken(m, t) || t in m.sched.wakers
  }

  /** A parked thread is still queued, about to be unblocked, or has an `unblock` about to take the lock. */
  lemma ParkedIsFindable<O, K(!new)>(blocks: (O, K) -> bool, ms: seq<Machine<O, K>>, steps: seq<MStep<O, K>>, i: nat,
                              t: Tid)
    requires IsMRun(blocks, ms, steps) && i < |ms| && ParkedIn(ms[i], t)
    ensures Waiter(t, PcOf(ms[i], t).k) in ms[i].queue || BeingWoken(ms[i], t) || t in ms[i].sched.wakers
  {
    var m := ms[i];
    MRunKeeps(blocks, ms, steps, i);
    assert WaiterOk(m, t);
    if m.sched.threads[t].wakePending {
      var pl: Places :| Inv(m.sched, pl);
      assert ThreadOk(m.sched, t, pl[t]);
    }
  }

  /** In every run: a thread parked in a wait whose condition no longer asks it to block has a wake in flight. */
  lemma NotStranded<O, K(!new)>(blocks: (O, K) -> bool, ms: seq<Machine<O, K>>, steps: seq<MStep<O, K>>, i: nat, t: Tid)
    requires IsMRun(blocks, ms, steps) && i < |ms|
    requires ParkedIn(ms[i], t) && !blocks(ms[i].obj, PcOf(ms[i], t).k)
    ensures WakeInFlight(ms[i], t)
  {
    ParkedIsFindable(blocks, ms, steps, i, t);
    MRunKeeps(blocks, ms, steps, i);
  }

  /** A waker that has drained the queue can always go on: nobody it still has to unblock was freed under it. */
  lemma WakerNeverStuck<O, K(!new)>(blocks: (O, K) -> bool, ms: seq<Machine<O, K>>, steps: seq<MStep<O, K>>, i: nat,
                             c: nat)
    requires IsMRun(blocks, ms, steps) && i < |ms| && At(ms[i], c)
    requires PcOf(ms[i], Me(ms[i], c)).Waking?
    ensures MEnabled(blocks, ms[i], if PcOf(ms[i], Me(ms[i], c)).drained == [] then DoneStep(c) else UnblockStep(c))
  {
    MRunKeeps(blocks, ms, steps, i);
  }
}
