/**
 A run in which a thread leaves a wait without a wake stored since it armed itself: an `unblock` that had stored its
 wake before takes the scheduler lock only once the thread is asleep.
 */
module LateWake {
  import opened Common
  import opened Scheduler
  import opened WaitQueue
  import opened WaitEffects

  /** One CPU with a worker, thread 0, and its idle thread 1. */
  function Two(b: Thread, i: Thread, ready: seq<Tid>, cpu: Cpu, wakers: multiset<Tid>): Sched {
    Sched(map[0 := b, 1 := i], ready, [cpu], [], {}, wakers)
  }

  /** On its stack, between switches, running `t`. */
  function On(t: Tid): Cpu { Cpu(Some(t), Some(1), None, Executing, t) }

  /** On the way from `prev` to `next`. */
  function Going(prev: Tid, next: Tid, blocking: bool, stage: Stage, stack: Tid): Cpu {
    Cpu(Some(next), Some(1), Some(Handoff(prev, blocking)), stage, stack)
  }

  function Letting(prev: Tid, next: Tid): Cpu { Cpu(Some(next), Some(1), None, Releasing(prev), next) }

  // ---------------------------------------------------------------- the steps on such a machine

  lemma Boots()
    ensures var s := Sched(map[], [], [Cpu(None, None, None, Offline, 0)], [], {}, multiset{});
            && Initial(s) && Enabled(s, BootBspStep(0, 0, 1))
            && Next(s, BootBspStep(0, 0, 1))
               == Two(Worker(Running, true, false, false), Idle(Ready, false, true), [], On(0), multiset{})
  {
    var s := Sched(map[], [], [Cpu(None, None, None, Offline, 0)], [], {}, multiset{});
    assert !Locked(s);
  }

  lemma Open(b: Thread, i: Thread, ready: seq<Tid>, cpu: Cpu, w: multiset<Tid>)
    requires forall t :: t in ready ==> t < 2
    requires (cpu.current.Some? ==> cpu.current.value < 2) && (cpu.idle.Some? ==> cpu.idle.value < 2)
    requires Leaving(cpu).Some? ==> Leaving(cpu).value < 2
    ensures Closed(Two(b, i, ready, cpu, w)) && (Locked(Two(b, i, ready, cpu, w)) <==> cpu.stage.Releasing?)
  {
    var s := Two(b, i, ready, cpu, w);
    forall k | 0 <= k < |ready| ensures ready[k] in s.threads { assert ready[k] in ready; }
    assert s.cpus[0] == cpu;
  }

  lemma Blocks(b: Thread, i: Thread, w: multiset<Tid>)
    requires !b.wakePending && !b.isIdle
    ensures var s := Two(b, i, [], On(0), w);
            && Enabled(s, CommitStep(0, true))
            && Next(s, CommitStep(0, true))
               == Two(b.(state := Blocked), i.(state := Running), [], Going(0, 1, true, Committed, 0), w)
  {
    Open(b, i, [], On(0), w);
  }

  lemma IdleGivesWay(b: Thread, i: Thread, w: multiset<Tid>)
    requires i.isIdle && b.state.Ready? && !b.running
    ensures var s := Two(b, i, [0], On(1), w);
            && Enabled(s, CommitStep(0, false))
            && Next(s, CommitStep(0, false)) == Two(b.(state := Running), i, [], Going(1, 0, false, Committed, 1), w)
  {
    Open(b, i, [0], On(1), w);
    var s := Two(b, i, [0], On(1), w);
    assert !CurrentSomewhere(s.cpus, 0);
    assert [0][1..] == [];
  }

  lemma Claims(b: Thread, i: Thread, prev: Tid, next: Tid, blocking: bool, w: multiset<Tid>)
    requires prev < 2 && next < 2 && !(if next == 0 then b else i).running
    ensures var s := Two(b, i, [], Going(prev, next, blocking, Committed, prev), w);
            && Enabled(s, ClaimStep(0))
            && Next(s, ClaimStep(0))
               == Two(if next == 0 then b.(running := true) else b, if next == 0 then i else i.(running := true), [],
                      Going(prev, next, blocking, Claimed, prev), w)
  {
    Open(b, i, [], Going(prev, next, blocking, Committed, prev), w);
  }

  lemma SwitchesToIdle(b: Thread, i: Thread, w: multiset<Tid>)
    requires !b.state.Exited?
    ensures var s := Two(b, i, [], Going(0, 1, true, Claimed, 0), w);
            && Enabled(s, SwitchStep(0))
            && Next(s, SwitchStep(0))
               == Two(b.(saved := true), i.(saved := false), [], Going(0, 1, true, Switched, 1), w)
  {
    Open(b, i, [], Going(0, 1, true, Claimed, 0), w);
  }

  lemma SwitchesToWorker(b: Thread, i: Thread, w: multiset<Tid>)
    requires !i.state.Exited?
    ensures var s := Two(b, i, [], Going(1, 0, false, Claimed, 1), w);
            && Enabled(s, SwitchStep(0))
            && Next(s, SwitchStep(0))
               == Two(b.(saved := false), i.(saved := true), [], Going(1, 0, false, Switched, 0), w)
  {
    Open(b, i, [], Going(1, 0, false, Claimed, 1), w);
  }

  /** Neither a blocked thread without a wake nor an idle thread is requeued. */
  lemma Decides(b: Thread, i: Thread, prev: Tid, next: Tid, blocking: bool, w: multiset<Tid>)
    requires prev < 2 && next < 2 && (prev == 0 ==> blocking && !b.wakePending) && (prev == 1 ==> i.isIdle)
    ensures var s := Two(b, i, [], Going(prev, next, blocking, Switched, next), w);
            && Enabled(s, DecideStep(0)) && Next(s, DecideStep(0)) == Two(b, i, [], Letting(prev, next), w)
  {
    Open(b, i, [], Going(prev, next, blocking, Switched, next), w);
  }

  lemma Releases(b: Thread, i: Thread, prev: Tid, next: Tid, w: multiset<Tid>)
    requires prev < 2 && next < 2
    ensures var s := Two(b, i, [], Letting(prev, next), w);
            && Enabled(s, ReleaseStep(0))
            && Next(s, ReleaseStep(0))
               == Two(if prev == 0 then b.(running := false) else b, if prev == 0 then i else i.(running := false), [],
                      On(next), w)
  {
    Open(b, i, [], Letting(prev, next), w);
  }

  lemma Stored(b: Thread, i: Thread)
    ensures var s := Two(b, i, [], On(0), multiset{});
            && Enabled(s, StoreWakeStep(0))
            && Next(s, StoreWakeStep(0)) == Two(b.(wakePending := true), i, [], On(0), multiset{0})
  {
    Open(b, i, [], On(0), multiset{});
    assert multiset{} + multiset{0} == multiset{0};
  }

  lemma Clears(b: Thread, i: Thread)
    requires !b.isIdle
    ensures var s := Two(b, i, [], On(0), multiset{0});
            && Enabled(s, MarkStep(0)) && MarkBlocking(s, 0) == Two(b.(wakePending := false), i, [], On(0), multiset{0})
  {
    Open(b, i, [], On(0), multiset{0});
  }

  lemma LateLock(b: Thread, i: Thread)
    requires b.state.Blocked? && !b.running
    ensures var s := Two(b, i, [], On(1), multiset{0});
            && Enabled(s, LockWakeStep(0))
            && Next(s, LockWakeStep(0)) == Two(b.(state := Ready), i, [0], On(1), multiset{})
  {
    Open(b, i, [], On(1), multiset{0});
    assert multiset{0} - multiset{0} == multiset{};
  }

  // ---------------------------------------------------------------- telling the story

  /** A run whose step 3 told thread 0 to block, and in which no wake of it has been stored since. */
  ghost predicate Story<O, K(!new)>(blocks: (O, K) -> bool, ms: seq<Machine<O, K>>, steps: seq<MStep<O, K>>) {
    && IsMRun(blocks, ms, steps) && ToldToBlock(blocks, ms, steps, 3, 0)
    && forall h :: 3 < h < |steps| ==> !Stores(ms[h], steps[h], 0)
  }

  lemma Extend<O, K(!new)>(blocks: (O, K) -> bool, ms: seq<Machine<O, K>>, steps: seq<MStep<O, K>>, step: MStep<O, K>)
    returns (ms': seq<Machine<O, K>>, steps': seq<MStep<O, K>>)
    requires IsMRun(blocks, ms, steps) && MEnabled(blocks, ms[|steps|], step)
    ensures IsMRun(blocks, ms', steps') && |steps'| == |steps| + 1 && ms'[|steps'|] == MNext(blocks, ms[|steps|], step)
    ensures steps' == steps + [step] && ms' == ms + [ms'[|steps'|]]
    ensures Story(blocks, ms, steps) && !Stores(ms[|steps|], step, 0) ==> Story(blocks, ms', steps')
  {
    ms', steps' := ms + [MNext(blocks, ms[|steps|], step)], steps + [step];
    forall i | 0 <= i < |steps'|
      ensures MEnabled(blocks, ms'[i], steps'[i]) && ms'[i + 1] == MNext(blocks, ms'[i], steps'[i]) {
      if i < |steps| { assert ms'[i] == ms[i] && ms'[i + 1] == ms[i + 1] && steps'[i] == steps[i]; }
    }
  }

  lemma Goes<O, K(!new)>(blocks: (O, K) -> bool, ms: seq<Machine<O, K>>, steps: seq<MStep<O, K>>, e: Step, s: Sched)
    returns (ms': seq<Machine<O, K>>, steps': seq<MStep<O, K>>)
    requires Story(blocks, ms, steps) && Enabled(ms[|steps|].sched, e) && EnvOk(ms[|steps|], e)
             && Next(ms[|steps|].sched, e) == s
    requires e != StoreWakeStep(0)
    ensures Story(blocks, ms', steps') && |steps'| == |steps| + 1 && ms'[|steps'|] == ms[|steps|].(sched := s)
  {
    ms', steps' := Extend(blocks, ms, steps, EnvStep(e));
  }

  // ---------------------------------------------------------------- the run

  function Worker(state: State, running: bool, wakePending: bool, saved: bool): Thread {
    Thread(state, false, running, wakePending, saved)
  }

  function Idle(state: State, running: bool, saved: bool): Thread { Thread(state, true, running, false, saved) }

  function There<O, K>(s: Sched, o: O, holder: Option<Tid>, queue: seq<Waiter<K>>, pc: Pc<K>): Machine<O, K> {
    Machine(s, o, holder, queue, map[0 := pc])
  }

  lemma Arms<O, K(!new)>(blocks: (O, K) -> bool, b: Thread, i: Thread, o: O, k: K)
    requires !b.isIdle
    ensures var m := There(Two(b, i, [], On(0), multiset{0}), o, Some(0), [], Checked(k));
            && MEnabled(blocks, m, WaitMarkStep(0))
            && MNext(blocks, m, WaitMarkStep(0))
               == There(Two(b.(wakePending := false), i, [], On(0), multiset{0}), o, Some(0), [], Marked(k))
  {
    Clears(b, i);
  }

  lemma Pushes<O, K(!new)>(blocks: (O, K) -> bool, b: Thread, i: Thread, o: O, k: K)
    ensures var m := There(Two(b, i, [], On(0), multiset{0}), o, Some(0), [], Marked(k));
            && MEnabled(blocks, m, PushStep(0))
            && MNext(blocks, m, PushStep(0))
               == There(Two(b, i, [], On(0), multiset{0}), o, None, [Waiter(0, k)], Enqueued(k))
  {
    Open(b, i, [], On(0), multiset{0});
  }

  lemma Sleeps<O, K(!new)>(blocks: (O, K) -> bool, b: Thread, i: Thread, o: O, k: K, q: seq<Waiter<K>>)
    requires !b.wakePending && !b.isIdle
    ensures var m := There(Two(b, i, [], On(0), multiset{0}), o, None, q, Enqueued(k));
            && MEnabled(blocks, m, SleepStep(0))
            && MNext(blocks, m, SleepStep(0))
               == There(Two(b.(state := Blocked), i.(state := Running), [],
                            Going(0, 1, true, Committed, 0), multiset{0}), o, None, q, Asleep(k))
  {
    Blocks(b, i, multiset{0});
  }

  lemma Asks<O, K(!new)>(blocks: (O, K) -> bool, b: Thread, i: Thread, o: O, k: K)
    requires blocks(o, k)
    ensures var s := Two(b, i, [], On(0), multiset{0});
            var m := Machine(s, o, None, [], map[]);
            && MEnabled(blocks, m, LockStep(0, k))
            && MNext(blocks, m, LockStep(0, k)) == There(s, o, Some(0), [], Holding(k))
            && MEnabled(blocks, There(s, o, Some(0), [], Holding(k)), CheckStep(0))
            && MNext(blocks, There(s, o, Some(0), [], Holding(k)), CheckStep(0)) == There(s, o, Some(0), [], Checked(k))
            && At(There(s, o, Some(0), [], Holding(k)), 0) && Me(There(s, o, Some(0), [], Holding(k)), 0) == 0
  {
    Open(b, i, [], On(0), multiset{0});
  }

  lemma ToTheStore<O, K(!new)>(blocks: (O, K) -> bool, o: O)
    returns (ms: seq<Machine<O, K>>, steps: seq<MStep<O, K>>)
    ensures IsMRun(blocks, ms, steps) && |steps| == 2
    ensures ms[2] == Machine(Two(Worker(Running, true, true, false), Idle(Ready, false, true), [], On(0), multiset{0}),
                            o, None, [], map[])
  {
    var s := Sched(map[], [], [Cpu(None, None, None, Offline, 0)], [], {}, multiset{});
    Boots();
    ms, steps := [Machine(s, o, None, [], map[])], [];
    ms, steps := Extend(blocks, ms, steps, EnvStep(BootBspStep(0, 0, 1)));
    Stored(Worker(Running, true, false, false), Idle(Ready, false, true));
    ms, steps := Extend(blocks, ms, steps, EnvStep(StoreWakeStep(0)));
  }

  /** Up to the check: the wake is already stored, its `unblock` has yet to take the lock. */
  lemma ToTheCheck<O, K(!new)>(blocks: (O, K) -> bool, o: O, k: K)
    returns (ms: seq<Machine<O, K>>, steps: seq<MStep<O, K>>)
    requires blocks(o, k)
    ensures Story(blocks, ms, steps) && |steps| == 4
    ensures ms[4] == There(Two(Worker(Running, true, true, false), Idle(Ready, false, true), [], On(0), multiset{0}), o,
                           Some(0), [], Checked(k))
  {
    ms, steps := ToTheStore(blocks, o);
    Asks(blocks, Worker(Running, true, true, false), Idle(Ready, false, true), o, k);
    ms, steps := Extend(blocks, ms, steps, LockStep(0, k));
    var before := ms[3];
    ms, steps := Extend(blocks, ms, steps, CheckStep(0));
    assert ms[3] == before;
  }

  /** On to sleep: arming clears the stored wake. */
  lemma ToSleep<O, K(!new)>(blocks: (O, K) -> bool, o: O, k: K)
    returns (ms: seq<Machine<O, K>>, steps: seq<MStep<O, K>>)
    requires blocks(o, k)
    ensures Story(blocks, ms, steps) && |steps| == 7
    ensures ms[7] == There(Two(Worker(Blocked, true, false, false), Idle(Running, false, true), [],
                               Going(0, 1, true, Committed, 0), multiset{0}), o, None, [Waiter(0, k)], Asleep(k))
  {
    ms, steps := ToTheCheck(blocks, o, k);
    var b, i := Worker(Running, true, true, false), Idle(Ready, false, true);
    Arms(blocks, b, i, o, k);
    ms, steps := Extend(blocks, ms, steps, WaitMarkStep(0));
    b := b.(wakePending := false);
    Pushes(blocks, b, i, o, k);
    ms, steps := Extend(blocks, ms, steps, PushStep(0));
    Sleeps(blocks, b, i, o, k, [Waiter(0, k)]);
    ms, steps := Extend(blocks, ms, steps, SleepStep(0));
  }

  /** The idle thread takes over, and the late `unblock` requeues the sleeper. */
  lemma ToTheLock<O, K(!new)>(blocks: (O, K) -> bool, o: O, k: K)
    returns (ms: seq<Machine<O, K>>, steps: seq<MStep<O, K>>)
    requires blocks(o, k)
    ensures Story(blocks, ms, steps) && |steps| == 12
    ensures ms[12] == There(Two(Worker(Ready, false, false, true), Idle(Running, true, false), [0], On(1), multiset{}),
                            o, None, [Waiter(0, k)], Asleep(k))
  {
    ms, steps := ToSleep(blocks, o, k);
    var b, i, w := Worker(Blocked, true, false, false), Idle(Running, false, true), multiset{0};
    Claims(b, i, 0, 1, true, w);
    ms, steps := Goes(blocks, ms, steps, ClaimStep(0),
      Two(b, i.(running := true), [], Going(0, 1, true, Claimed, 0), w));
    SwitchesToIdle(b, i.(running := true), w);
    i := Idle(Running, true, false);
    b := b.(saved := true);
    ms, steps := Goes(blocks, ms, steps, SwitchStep(0), Two(b, i, [], Going(0, 1, true, Switched, 1), w));
    Decides(b, i, 0, 1, true, w);
    ms, steps := Goes(blocks, ms, steps, DecideStep(0), Two(b, i, [], Letting(0, 1), w));
    Releases(b, i, 0, 1, w);
    b := b.(running := false);
    ms, steps := Goes(blocks, ms, steps, ReleaseStep(0), Two(b, i, [], On(1), w));
    LateLock(b, i);
    ms, steps := Goes(blocks, ms, steps, LockWakeStep(0), Two(b.(state := Ready), i, [0], On(1), multiset{}));
  }

  /** The requeued thread gets the CPU back. */
  lemma ToTheWorker<O, K(!new)>(blocks: (O, K) -> bool, o: O, k: K)
    returns (ms: seq<Machine<O, K>>, steps: seq<MStep<O, K>>)
    requires blocks(o, k)
    ensures Story(blocks, ms, steps) && |steps| == 17
    ensures ms[17] == There(Two(Worker(Running, true, false, false), Idle(Running, false, true), [], On(0), multiset{}),
                            o, None, [Waiter(0, k)], Asleep(k))
  {
    ms, steps := ToTheLock(blocks, o, k);
    var b, i, w := Worker(Ready, false, false, true), Idle(Running, true, false), multiset{};
    IdleGivesWay(b, i, w);
    assert Me(ms[12], 0) == 1 && PcOf(ms[12], 1).Outside?;
    b := b.(state := Running);
    ms, steps := Goes(blocks, ms, steps, CommitStep(0, false), Two(b, i, [], Going(1, 0, false, Committed, 1), w));
    Claims(b, i, 1, 0, false, w);
    b := b.(running := true);
    ms, steps := Goes(blocks, ms, steps, ClaimStep(0), Two(b, i, [], Going(1, 0, false, Claimed, 1), w));
    SwitchesToWorker(b, i, w);
    b, i := b.(saved := false), i.(saved := true);
    ms, steps := Goes(blocks, ms, steps, SwitchStep(0), Two(b, i, [], Going(1, 0, false, Switched, 0), w));
    Decides(b, i, 1, 0, false, w);
    ms, steps := Goes(blocks, ms, steps, DecideStep(0), Two(b, i, [], Letting(1, 0), w));
    Releases(b, i, 1, 0, w);
    ms, steps := Goes(blocks, ms, steps, ReleaseStep(0), Two(b, i.(running := false), [], On(0), w));
  }

  /**
   Whatever the closure, as long as it can be true: some run tells a thread to block and lets it out of the call with
   the closure true all along and no wake of it stored since the check. The condition of `LeavesOnlyFreshlyWoken`, that
   no `unblock` was in flight when it armed itself, cannot be dropped.
   */
  lemma LeavesLateWoken<O, K(!new)>(blocks: (O, K) -> bool, o: O, k: K)
    returns (ms: seq<Machine<O, K>>, steps: seq<MStep<O, K>>)
    requires blocks(o, k)
    ensures IsMRun(blocks, ms, steps) && |steps| == 18 && ToldToBlock(blocks, ms, steps, 3, 0)
    ensures PcOf(ms[18], 0).Outside? && blocks(ms[18].obj, k)
    ensures forall h :: 3 < h < 18 ==> !Stores(ms[h], steps[h], 0)
  {
    ms, steps := ToTheWorker(blocks, o, k);
    Open(Worker(Running, true, false, false), Idle(Running, false, true), [], On(0), multiset{});
    ms, steps := Extend(blocks, ms, steps, ResumeStep(0));
  }
}
