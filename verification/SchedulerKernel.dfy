/**
 The locked sections of the scheduler as the code runs them: fields updated in place, `pick_next` and `reap`
 as loops. Each method is proved to compute the corresponding step of the state machine.
 */
module SchedulerKernel {
  import opened Common
  import opened Scheduler
  import opened SchedulerInvariant
  import opened SchedulerTheorems
  import opened SchedulerEffects

  class Kernel {
    var threads: map<Tid, Thread>
    var ready: seq<Tid>
    var cpus: seq<Cpu>
    var graveyard: seq<Tid>
    ghost var freed: set<Tid>
    ghost var wakers: multiset<Tid>

    ghost function State(): Sched
      reads this
    {
      Sched(threads, ready, cpus, graveyard, freed, wakers)
    }

    constructor (n: nat)
      ensures Initial(State()) && |cpus| == n
    {
      threads, ready, graveyard, freed, wakers := map[], [], [], {}, multiset{};
      cpus := seq(n, _ => Cpu(None, None, None, Offline, 0));
    }

    method SetThreadState(t: Tid, st: State)
      requires t in threads
      modifies this`threads
      ensures threads == SetState(old(threads), t, st)
    {
      threads := threads[t := threads[t].(state := st)];
    }

    /** `pick_next`: pop until an entry is not stale. */
    method PickNextReady(c: nat) returns (next: Tid)
      requires c < |cpus| && cpus[c].idle.Some?
      requires forall k :: 0 <= k < |ready| ==> ready[k] in threads
      modifies this`ready
      ensures (next, ready) == PickNext(threads, cpus, old(ready), cpus[c].idle.value)
    {
      while ready != []
        invariant |ready| <= |old(ready)|
        invariant forall k :: 0 <= k < |ready| ==> ready[k] in threads
        invariant PickNext(threads, cpus, ready, cpus[c].idle.value)
                  == PickNext(threads, cpus, old(ready), cpus[c].idle.value)
        decreases |ready|
      {
        var t := ready[0];
        ready := ready[1..];
        var stale := threads[t].state.Running? || threads[t].state.Exited? || threads[t].running;
        var i := 0;
        while i < |cpus|
          invariant 0 <= i <= |cpus|
          invariant stale <==>
                    threads[t].state.Running? || threads[t].state.Exited? || threads[t].running
                      || CurrentSomewhere(cpus[..i], t)
        {
          assert cpus[..i + 1] == cpus[..i] + [cpus[i]];
          if cpus[i].current == Some(t) {
            assert cpus[..i + 1][i].current == Some(t);
            stale := true;
          }
          i := i + 1;
        }
        assert cpus[..i] == cpus;
        if !stale { return t; }
      }
      next := cpus[c].idle.value;
    }

    /** `reschedule` under the lock. Returns whether a switch was committed. */
    method Reschedule(c: nat, block: bool) returns (switched: bool)
      requires Closed(State()) && Runs(State(), c)
      modifies this`threads, this`ready, this`cpus
      ensures State() == Commit(old(State()), c, block)
      ensures old(Sound(State()) && Enabled(State(), CommitStep(c, block))) ==>
                cpus[c].current.Some? && old(cpus[c].current.value in threads)
                  && Yields(old(State()), State(), c, block)
      ensures switched <==> cpus[c].stage.Committed?
    {
      ghost var s := State();
      if Sound(s) && Enabled(s, CommitStep(c, block)) { CommitYields(s, c, block); }
      var prev := cpus[c].current.value;
      if block && threads[prev].wakePending { return false; }
      PickNextKnown(threads, cpus, ready, cpus[c].idle.value);
      var next := PickNextReady(c);
      if next == prev { return false; }
      if block {
        SetThreadState(prev, Blocked);
      } else if !threads[prev].isIdle {
        SetThreadState(prev, Ready);
      }
      SetThreadState(next, Running);
      cpus := cpus[c := cpus[c].(current := Some(next), handoff := Some(Handoff(prev, block)), stage := Committed)];
      return true;
    }

    /** `exit` under the lock. */
    method ExitCurrent(c: nat)
      requires Closed(State()) && Runs(State(), c)
      modifies this`threads, this`ready, this`cpus, this`graveyard
      ensures State() == Exit(old(State()), c)
      ensures old(Sound(State()) && Enabled(State(), ExitStep(c))) ==> Dies(old(State()), State(), c)
    {
      ghost var s := State();
      if Sound(s) && Enabled(s, ExitStep(c)) { ExitDies(s, c); }
      var prev := cpus[c].current.value;
      cpus := cpus[c := cpus[c].(current := None)];
      SetThreadState(prev, Exited);
      PickNextKnown(threads, cpus, ready, cpus[c].idle.value);
      var next := PickNextReady(c);
      SetThreadState(next, Running);
      cpus := cpus[c := cpus[c].(current := Some(next), handoff := Some(Handoff(prev, true)), stage := Committed)];
      graveyard := graveyard + [prev];
    }

    /** `finish_switch`, both halves, when no lock-free step falls between them. */
    method FinishSwitch(c: nat)
      requires Closed(State()) && c < |cpus| && cpus[c].stage.Switched?
      modifies this`threads, this`ready, this`cpus
      ensures var mid := FinishDecide(old(State()), c);
              State() == if mid.cpus[c].stage.Releasing? then FinishRelease(mid, c) else mid
      ensures old(Sound(State()) && Enabled(State(), DecideStep(c))) ==>
                old(cpus[c].handoff.Some? && cpus[c].handoff.value.tid in threads) && Finished(old(State()), State(), c)
    {
      ghost var s := State();
      if Sound(s) && Enabled(s, DecideStep(c)) { FinishFinishes(s, c); }
      assert Known(State(), Leaving(cpus[c]));
      if cpus[c].handoff.None? {
        cpus := cpus[c := cpus[c].(stage := Executing)];
        return;
      }
      var prev, blocking := cpus[c].handoff.value.tid, cpus[c].handoff.value.blocking;
      cpus := cpus[c := cpus[c].(handoff := None, stage := Releasing(prev))];
      var requeue := if threads[prev].state.Exited? || threads[prev].isIdle then false
                     else if !blocking then true else threads[prev].wakePending;
      if requeue && prev !in ready {
        SetThreadState(prev, Ready);
        ready := ready + [prev];
      }
      threads := threads[prev := threads[prev].(running := false)];
      cpus := cpus[c := cpus[c].(stage := Executing)];
    }

    /** `unblock` under the lock. */
    method UnblockLocked(t: Tid)
      requires t in threads && t in wakers
      modifies this
      ensures State() == LockWake(old(State()), t)
      ensures old(Sound(State()) && Enabled(State(), LockWakeStep(t))) ==> Woken(old(State()), State(), t)
    {
      ghost var s := State();
      if Sound(s) && Enabled(s, LockWakeStep(t)) { WakeWakes(s, t); }
      wakers := wakers - multiset{t};
      if !threads[t].state.Blocked? || threads[t].running { return; }
      SetThreadState(t, Ready);
      if t !in ready { ready := ready + [t]; }
    }

    /**
     `reap`: a `swap_remove` scan. `held` are the threads some other reference keeps alive, pending `unblock`s
     among them. Exactly the corpses that are off every stack and not held are freed, each by a free step of the
     machine; the rest stay, each once.
     */
    method Reap(held: set<Tid>) returns (ghost ss: seq<Sched>, ghost frees: seq<nat>)
      requires NoDup(graveyard) && Closed(State()) && !Locked(State()) && forall t :: t in wakers ==> t in held
      modifies this`graveyard, this`freed
      ensures NoDup(graveyard)
      ensures forall t :: t in graveyard <==> t in old(graveyard) && (threads[t].running || t in held)
      ensures freed == old(freed) + set t | t in old(graveyard) && !threads[t].running && t !in held
      ensures FreeRun(ss, frees) && ss[0] == old(State()) && ss[|frees|] == State()
    {
      var i := 0;
      ss, frees := [State()], [];
      ReapingStarts(State(), held);
      while i < |graveyard|
        invariant Reaping(old(State()), State(), held, i) && FreeRun(ss, frees) && ss[0] == old(State())
                  && ss[|frees|] == State()
        decreases |graveyard| - i
      {
        var t := graveyard[i];
        if !threads[t].running && t !in held {
          ReapingFrees(old(State()), State(), held, i);
          FreeRunStep(ss, frees, State(), i);
          ss, frees := ss + [Free(State(), i)], frees + [i];
          graveyard := SwapRemove(graveyard, i);
          freed := freed + {t};
        } else {
          i := i + 1;
        }
      }
      ReapingEnds(old(State()), State(), held);
    }
  }

  /** How far the scan has come: the first `i` corpses stay, and those dropped so far are freed. */
  ghost predicate Reaping(s0: Sched, s: Sched, held: set<Tid>, i: nat) {
    && s == s0.(graveyard := s.graveyard, freed := s.freed) && Closed(s) && !Locked(s)
    && i <= |s.graveyard| && NoDup(s.graveyard)
    && (forall t :: t in s.graveyard ==> t in s0.graveyard)
    && (forall k :: 0 <= k < i ==> s.threads[s.graveyard[k]].running || s.graveyard[k] in held)
    && (forall t :: t in s0.graveyard ==> t in s.threads && (t in s.graveyard || (!s.threads[t].running && t !in held)))
    && s.freed == s0.freed + set t | t in s0.graveyard && t !in s.graveyard
  }

  lemma ReapingStarts(s: Sched, held: set<Tid>)
    requires NoDup(s.graveyard) && Closed(s) && !Locked(s)
    ensures Reaping(s, s, held, 0)
  {
  }

  lemma ReapingEnds(s0: Sched, s: Sched, held: set<Tid>)
    requires Reaping(s0, s, held, |s.graveyard|)
    ensures NoDup(s.graveyard) && forall t :: t in s0.graveyard ==> t in s.threads
    ensures forall t :: t in s.graveyard <==> t in s0.graveyard && (s.threads[t].running || t in held)
    ensures s.freed == s0.freed + set t | t in s0.graveyard && !s.threads[t].running && t !in held
  {
    forall t | t in s.graveyard ensures s.threads[t].running || t in held {
      var k :| 0 <= k < |s.graveyard| && s.graveyard[k] == t;
    }
    assert (set t | t in s0.graveyard && t !in s.graveyard) == set t | t in s0.graveyard && !s.threads[t].running
      && t !in held;
  }

  lemma ReapingFrees(s0: Sched, s: Sched, held: set<Tid>, i: nat)
    requires Reaping(s0, s, held, i) && i < |s.graveyard| && !s.threads[s.graveyard[i]].running
             && s.graveyard[i] !in held
    ensures Reaping(s0, Free(s, i), held, i)
  {
    var s', t := Free(s, i), s.graveyard[i];
    SwapRemoveMembers(s.graveyard, i);
    forall k | 0 <= k < |s'.graveyard| ensures s'.graveyard[k] in s.threads { assert s'.graveyard[k] in s'.graveyard; }
    assert (set u | u in s0.graveyard && u !in s'.graveyard) == (set u | u in s0.graveyard && u !in s.graveyard) + {t};
  }

  /** A sequence of free steps of the machine. */
  ghost predicate FreeRun(ss: seq<Sched>, frees: seq<nat>) {
    && |ss| == |frees| + 1
    && forall k :: 0 <= k < |frees| ==>
       Enabled(ss[k], FreeStep(frees[k])) && ss[k + 1] == Next(ss[k], FreeStep(frees[k]))
  }

  lemma FreeRunStep(ss: seq<Sched>, frees: seq<nat>, s: Sched, i: nat)
    requires FreeRun(ss, frees) && ss[|frees|] == s && NoDup(s.graveyard) && Enabled(s, FreeStep(i))
    ensures FreeRun(ss + [Free(s, i)], frees + [i]) && Closed(Free(s, i)) && !Locked(Free(s, i))
  {
    SwapRemoveMembers(s.graveyard, i);
    var s' := Free(s, i);
    forall k | 0 <= k < |s'.graveyard| ensures s'.graveyard[k] in s.threads {
      assert s'.graveyard[k] in s'.graveyard;
    }
  }
}
