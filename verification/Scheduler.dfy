/**
 The SMP kernel-thread scheduler as a state machine over its interleavable steps.

 Every section that runs under the `SCHED` lock is one step, except `finish_switch`, which is split
 where it reads `wake_pending` and where it clears `running`: the lock is held between the two, so
 only lock-free steps (a waker's store, another CPU's claim or stack switch) fall in between.
 The lock-free accesses of a context switch and of `unblock` are steps of their own.
 */
module Scheduler {
  import opened Common

  /** Identity of a thread object. */
  type Tid = nat

  datatype State = Ready | Running | Blocked | Exited

  /**
   One thread's flags. `saved` says that the thread's `ctx` holds the point where it must resume:
   true for a fresh stack, false from the moment a CPU enters the stack until it is left again.
   */
  datatype Thread = Thread(state: State, isIdle: bool, running: bool, wakePending: bool, saved: bool)

  datatype Handoff = Handoff(tid: Tid, blocking: bool)

  /**
   How far a CPU is in the switch code, interrupts being off from Committed to Releasing.
   Releasing(prev) is `finish_switch` holding the lock with `prev` taken out of the handoff slot.
   */
  datatype Stage = Offline | Executing | Committed | Claimed | Switched | Releasing(prev: Tid)

  /** One CPU: its scheduler slot, its stage, and the thread whose kernel stack it is on. */
  datatype Cpu = Cpu(current: Option<Tid>, idle: Option<Tid>, handoff: Option<Handoff>,
                     stage: Stage, stack: Tid)

  /** `wakers` holds one entry for every `unblock` that has stored `wake_pending` and not yet taken the lock. */
  datatype Sched = Sched(threads: map<Tid, Thread>, ready: seq<Tid>, cpus: seq<Cpu>,
                         graveyard: seq<Tid>, freed: set<Tid>, wakers: multiset<Tid>)

  // ---------------------------------------------------------------- reading the state

  predicate Known(s: Sched, t: Option<Tid>) {
    t.Some? ==> t.value in s.threads
  }

  /** The thread a CPU has switched away from, or is about to, and has not released. */
  function Leaving(c: Cpu): Option<Tid> {
    if c.stage.Releasing? then Some(c.stage.prev)
    else if c.handoff.Some? then Some(c.handoff.value.tid)
    else None
  }

  /** Every thread a scheduler structure names exists. */
  ghost predicate Closed(s: Sched) {
    && (forall k :: 0 <= k < |s.ready| ==> s.ready[k] in s.threads)
    && (forall k :: 0 <= k < |s.graveyard| ==> s.graveyard[k] in s.threads)
    && (forall i :: 0 <= i < |s.cpus| ==>
          Known(s, s.cpus[i].current) && Known(s, s.cpus[i].idle) && Known(s, Leaving(s.cpus[i])))
  }

  /** A CPU that is running a thread outside the switch code. */
  predicate Runs(s: Sched, c: nat) {
    c < |s.cpus| && s.cpus[c].stage.Executing? && s.cpus[c].current.Some? && s.cpus[c].idle.Some?
  }

  /** Some CPU is inside the locked part of `finish_switch`. */
  ghost predicate Locked(s: Sched) {
    exists i :: 0 <= i < |s.cpus| && s.cpus[i].stage.Releasing?
  }

  predicate CurrentSomewhere(cpus: seq<Cpu>, t: Tid) {
    exists i :: 0 <= i < |cpus| && cpus[i].current == Some(t)
  }

  // ---------------------------------------------------------------- the code's own steps

  function SetState(threads: map<Tid, Thread>, t: Tid, st: State): map<Tid, Thread>
    requires t in threads
  {
    threads[t := threads[t].(state := st)]
  }

  predicate Stale(threads: map<Tid, Thread>, cpus: seq<Cpu>, t: Tid)
    requires t in threads
  {
    threads[t].state.Running? || threads[t].state.Exited? || threads[t].running || CurrentSomewhere(cpus, t)
  }

  /** `pick_next`: the first entry that is not stale and the queue after it, else the idle thread. */
  function PickNext(threads: map<Tid, Thread>, cpus: seq<Cpu>, ready: seq<Tid>, idle: Tid): (Tid, seq<Tid>)
    requires forall k :: 0 <= k < |ready| ==> ready[k] in threads
  {
    if ready == [] then (idle, [])
    else if Stale(threads, cpus, ready[0]) then PickNext(threads, cpus, ready[1..], idle)
    else (ready[0], ready[1..])
  }

  lemma PickNextKnown(threads: map<Tid, Thread>, cpus: seq<Cpu>, ready: seq<Tid>, idle: Tid)
    requires idle in threads
    requires forall k :: 0 <= k < |ready| ==> ready[k] in threads
    ensures PickNext(threads, cpus, ready, idle).0 in threads
  {
  }

  /** `init_bsp`: the boot thread is adopted, the idle thread gets a fresh stack. */
  function BootBsp(s: Sched, c: nat, boot: Tid, idle: Tid): Sched
    requires c < |s.cpus|
  {
    s.(threads := s.threads[boot := Thread(Running, false, true, false, false)]
                           [idle := Thread(Ready, true, false, false, true)],
       cpus := s.cpus[c := Cpu(Some(boot), Some(idle), None, Executing, boot)])
  }

  /** `cpu_enter`: the executing context becomes the CPU's idle thread. */
  function CpuEnter(s: Sched, c: nat, me: Tid): Sched
    requires c < |s.cpus|
  {
    s.(threads := s.threads[me := Thread(Running, true, true, false, false)],
       cpus := s.cpus[c := Cpu(Some(me), Some(me), None, Executing, me)])
  }

  function Spawn(s: Sched, t: Tid): Sched {
    s.(threads := s.threads[t := Thread(Ready, false, false, false, true)], ready := s.ready + [t])
  }

  /** `mark_blocking` by the thread running on `c`. */
  function MarkBlocking(s: Sched, c: nat): Sched
    requires Runs(s, c) && s.cpus[c].current.value in s.threads
  {
    var t := s.cpus[c].current.value;
    s.(threads := s.threads[t := s.threads[t].(wakePending := false)])
  }

  /** `unblock` before the lock. */
  function StoreWake(s: Sched, t: Tid): Sched
    requires t in s.threads
  {
    s.(threads := s.threads[t := s.threads[t].(wakePending := true)], wakers := s.wakers + multiset{t})
  }

  /** `unblock` under the lock. */
  function LockWake(s: Sched, t: Tid): Sched
    requires t in s.threads && t in s.wakers
  {
    var s1 := s.(wakers := s.wakers - multiset{t});
    if !s.threads[t].state.Blocked? || s.threads[t].running then s1
    else s1.(threads := SetState(s.threads, t, Ready), ready := if t in s.ready then s.ready else s.ready + [t])
  }

  /** `reschedule(block)` under the lock, up to the decision to switch. */
  function Commit(s: Sched, c: nat, block: bool): Sched
    requires Closed(s) && Runs(s, c)
  {
    var prev := s.cpus[c].current.value;
    if block && s.threads[prev].wakePending then s
    else
      var (next, rest) := PickNext(s.threads, s.cpus, s.ready, s.cpus[c].idle.value);
      PickNextKnown(s.threads, s.cpus, s.ready, s.cpus[c].idle.value);
      if next == prev then s.(ready := rest)
      else
        var t1 := if block then SetState(s.threads, prev, Blocked)
                  else if !s.threads[prev].isIdle then SetState(s.threads, prev, Ready)
                  else s.threads;
        s.(threads := SetState(t1, next, Running), ready := rest,
           cpus := s.cpus[c := s.cpus[c].(current := Some(next), handoff := Some(Handoff(prev, block)),
                                          stage := Committed)])
  }

  /** `exit()` under the lock: the slot is emptied before the next thread is picked. */
  function Exit(s: Sched, c: nat): Sched
    requires Closed(s) && Runs(s, c)
  {
    var prev := s.cpus[c].current.value;
    var t1 := SetState(s.threads, prev, Exited);
    var taken := s.cpus[c := s.cpus[c].(current := None)];
    var (next, rest) := PickNext(t1, taken, s.ready, s.cpus[c].idle.value);
    PickNextKnown(t1, taken, s.ready, s.cpus[c].idle.value);
    s.(threads := SetState(t1, next, Running), ready := rest,
       cpus := s.cpus[c := s.cpus[c].(current := Some(next), handoff := Some(Handoff(prev, true)), stage := Committed)],
       graveyard := s.graveyard + [prev])
  }

  /** One `running.swap(true)` of the claim loop; the CPU moves on only if it saw `false`. */
  function Claim(s: Sched, c: nat): Sched
    requires c < |s.cpus| && s.cpus[c].stage.Committed? && s.cpus[c].current.Some?
    requires s.cpus[c].current.value in s.threads
  {
    var next := s.cpus[c].current.value;
    s.(threads := s.threads[next := s.threads[next].(running := true)],
       cpus := if s.threads[next].running then s.cpus else s.cpus[c := s.cpus[c].(stage := Claimed)])
  }

  /** `thos_ctx_switch`: an exiting thread saves into a scratch word, any other into its own `ctx`. */
  function SwitchStack(s: Sched, c: nat): Sched
    requires c < |s.cpus| && s.cpus[c].stage.Claimed? && s.cpus[c].current.Some?
    requires s.cpus[c].current.value in s.threads && s.cpus[c].stack in s.threads
  {
    var prev := s.cpus[c].stack;
    var next := s.cpus[c].current.value;
    var t1 := if s.threads[prev].state.Exited? then s.threads
              else s.threads[prev := s.threads[prev].(saved := true)];
    s.(threads := t1[next := t1[next].(saved := false)],
       cpus := s.cpus[c := s.cpus[c].(stage := Switched, stack := next)])
  }

  /** `finish_switch` up to the requeue; without a handoff there is nothing to do. */
  function FinishDecide(s: Sched, c: nat): Sched
    requires c < |s.cpus| && s.cpus[c].stage.Switched?
    requires s.cpus[c].handoff.Some? ==> s.cpus[c].handoff.value.tid in s.threads
  {
    if s.cpus[c].handoff.None? then s.(cpus := s.cpus[c := s.cpus[c].(stage := Executing)])
    else
      var prev := s.cpus[c].handoff.value.tid;
      var th := s.threads[prev];
      var requeue := if th.state.Exited? || th.isIdle then false
                     else if !s.cpus[c].handoff.value.blocking then true
                     else th.wakePending;
      var s1 := s.(cpus := s.cpus[c := s.cpus[c].(handoff := None, stage := Releasing(prev))]);
      if requeue && prev !in s.ready
      then s1.(threads := SetState(s.threads, prev, Ready), ready := s.ready + [prev])
      else s1
  }

  /** `finish_switch` clearing the claim and dropping the lock. */
  function FinishRelease(s: Sched, c: nat): Sched
    requires c < |s.cpus| && s.cpus[c].stage.Releasing? && s.cpus[c].stage.prev in s.threads
  {
    var prev := s.cpus[c].stage.prev;
    s.(threads := s.threads[prev := s.threads[prev].(running := false)],
       cpus := s.cpus[c := s.cpus[c].(stage := Executing)])
  }

  /** `reap` dropping the corpse at index `i`. */
  function Free(s: Sched, i: nat): Sched
    requires i < |s.graveyard|
  {
    s.(graveyard := SwapRemove(s.graveyard, i), freed := s.freed + {s.graveyard[i]})
  }

  // ---------------------------------------------------------------- the transition system

  datatype Step =
    | BootBspStep(c: nat, boot: Tid, idle: Tid)
    | CpuEnterStep(c: nat, me: Tid)
    | SpawnStep(t: Tid)
    | MarkStep(c: nat)
    | StoreWakeStep(t: Tid)
    | LockWakeStep(t: Tid)
    | CommitStep(c: nat, block: bool)
    | ExitStep(c: nat)
    | ClaimStep(c: nat)
    | SwitchStep(c: nat)
    | DecideStep(c: nat)
    | ReleaseStep(c: nat)
    | FreeStep(i: nat)

  predicate RunsWorker(s: Sched, c: nat) {
    Runs(s, c) && s.cpus[c].current.value in s.threads && !s.threads[s.cpus[c].current.value].isIdle
  }

  /**
   When a step can be taken. The idle loops only halt, so an idle thread never arms a wait, blocks
   or exits. Freeing asks only that the claim is clear and no pending `unblock` holds a reference;
   that no other structure holds one is proved, not assumed.
   */
  ghost predicate Enabled(s: Sched, step: Step) {
    && Closed(s)
    && match step
       case BootBspStep(c, boot, idle) =>
         !Locked(s) && c < |s.cpus| && s.cpus[c].stage.Offline? && boot !in s.threads && idle !in s.threads
           && boot != idle
       case CpuEnterStep(c, me) =>
         !Locked(s) && c < |s.cpus| && s.cpus[c].stage.Offline? && me !in s.threads
       case SpawnStep(t) => !Locked(s) && t !in s.threads
       case MarkStep(c) => RunsWorker(s, c)
       case StoreWakeStep(t) => t in s.threads && t !in s.freed
       case LockWakeStep(t) => !Locked(s) && t in s.threads && t in s.wakers
       case CommitStep(c, block) => !Locked(s) && Runs(s, c) && (block ==> RunsWorker(s, c))
       case ExitStep(c) => !Locked(s) && RunsWorker(s, c)
       case ClaimStep(c) => c < |s.cpus| && s.cpus[c].stage.Committed? && s.cpus[c].current.Some?
       case SwitchStep(c) =>
         c < |s.cpus| && s.cpus[c].stage.Claimed? && s.cpus[c].current.Some? && s.cpus[c].stack in s.threads
       case DecideStep(c) => !Locked(s) && c < |s.cpus| && s.cpus[c].stage.Switched?
       case ReleaseStep(c) => c < |s.cpus| && s.cpus[c].stage.Releasing?
       case FreeStep(i) =>
         !Locked(s) && i < |s.graveyard| && !s.threads[s.graveyard[i]].running && s.graveyard[i] !in s.wakers
  }

  ghost function Next(s: Sched, step: Step): Sched
    requires Enabled(s, step)
  {
    match step
    case BootBspStep(c, boot, idle) => BootBsp(s, c, boot, idle)
    case CpuEnterStep(c, me) => CpuEnter(s, c, me)
    case SpawnStep(t) => Spawn(s, t)
    case MarkStep(c) => MarkBlocking(s, c)
    case StoreWakeStep(t) => StoreWake(s, t)
    case LockWakeStep(t) => LockWake(s, t)
    case CommitStep(c, block) => Commit(s, c, block)
    case ExitStep(c) => Exit(s, c)
    case ClaimStep(c) => Claim(s, c)
    case SwitchStep(c) => SwitchStack(s, c)
    case DecideStep(c) => FinishDecide(s, c)
    case ReleaseStep(c) => FinishRelease(s, c)
    case FreeStep(i) => Free(s, i)
  }

  /** Nothing has started: every CPU is offline and no thread exists. */
  predicate Initial(s: Sched) {
    && s.threads == map[] && s.ready == [] && s.graveyard == [] && s.freed == {} && s.wakers == multiset{}
    && forall i :: 0 <= i < |s.cpus| ==>
       s.cpus[i].stage.Offline? && s.cpus[i].current.None? && s.cpus[i].idle.None? && s.cpus[i].handoff.None?
  }

  /** `ss` is a run: it starts initial and each state follows from the one before by an enabled step. */
  ghost predicate IsRun(ss: seq<Sched>, steps: seq<Step>) {
    && |ss| == |steps| + 1
    && Initial(ss[0])
    && forall k :: 0 <= k < |steps| ==> Enabled(ss[k], steps[k]) && ss[k + 1] == Next(ss[k], steps[k])
  }
}
