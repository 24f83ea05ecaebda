/**
 The inductive invariant of the scheduler. Its witness is a map that puts every thread in exactly one
 place; "at most one CPU" and "in exactly one of" then follow because a map has one value per key.
 */
module SchedulerInvariant {
  import opened Common
  import opened Scheduler

  datatype Place =
    | OnCpu(c: nat)      // current on `c`
    | Departing(c: nat)  // handed off by `c`, not yet released
    | Queued             // in the ready queue
    | Parked             // blocked, off every stack
    | Dead               // exited, off every stack
    | Resting(c: nat)    // the idle thread of `c`, off the CPU

  type Places = map<Tid, Place>

  /** What the flags of a departing thread can be at each stage of the CPU that leaves it. */
  ghost predicate DepartingOk(s: Sched, t: Tid, c: nat)
    requires t in s.threads && c < |s.cpus|
  {
    var th, cpu := s.threads[t], s.cpus[c];
    && th.running
    && (th.saved <==> (cpu.stage.Switched? || cpu.stage.Releasing?) && !th.state.Exited?)
    && (th.isIdle ==> th.state.Running? && (cpu.handoff.Some? ==> !cpu.handoff.value.blocking))
    && (!th.isIdle && cpu.handoff.Some? ==>
          if cpu.handoff.value.blocking then th.state.Exited? || th.state.Blocked? else th.state.Ready?)
    && (cpu.stage.Releasing? ==> (t in s.ready <==> th.state.Ready? && !th.isIdle))
    && (!th.isIdle && cpu.stage.Releasing? ==>
          || th.state.Exited?
          || th.state.Ready?
          || (th.state.Blocked? && (th.wakePending ==> t in s.wakers)))
  }

  ghost predicate ThreadOk(s: Sched, t: Tid, p: Place)
    requires t in s.threads
  {
    var th := s.threads[t];
    && (match p
        case OnCpu(c) =>
          c < |s.cpus| && s.cpus[c].current == Some(t) && th.state.Running?
          && (th.running <==> !s.cpus[c].stage.Committed?)
          && (th.saved <==> s.cpus[c].stage.Committed? || s.cpus[c].stage.Claimed?)
          && (th.isIdle ==> s.cpus[c].idle == Some(t))
        case Departing(c) =>
          c < |s.cpus| && Leaving(s.cpus[c]) == Some(t) && DepartingOk(s, t, c)
          && (th.isIdle ==> s.cpus[c].idle == Some(t))
        case Queued => t in s.ready && th.state.Ready? && !th.running && !th.isIdle && th.saved
        case Parked =>
          th.state.Blocked? && !th.running && !th.isIdle && th.saved && (th.wakePending ==> t in s.wakers)
        case Dead => th.state.Exited? && !th.running && !th.isIdle && !th.saved
        case Resting(c) =>
          c < |s.cpus| && s.cpus[c].idle == Some(t) && th.isIdle && !th.running && th.saved
          && (th.state.Ready? || th.state.Running?))
    && (th.state.Exited? ==> t in s.graveyard || t in s.freed)
  }

  ghost predicate CpuOk(s: Sched, i: nat, pl: Places)
    requires i < |s.cpus|
  {
    var c := s.cpus[i];
    && (c.stage.Offline? ==> c.current.None? && c.idle.None? && c.handoff.None?)
    && (!c.stage.Offline? ==>
          && c.current.Some? && c.current.value in pl && pl[c.current.value] == OnCpu(i)
          && c.idle.Some? && c.idle.value in pl && c.idle.value in s.threads && s.threads[c.idle.value].isIdle
          && pl[c.idle.value] in {OnCpu(i), Departing(i), Resting(i)})
    && (Leaving(c).Some? ==> Leaving(c).value in pl && pl[Leaving(c).value] == Departing(i))
    && (c.stage.Executing? ==> c.handoff.None? && c.current == Some(c.stack))
    && (c.stage.Committed? || c.stage.Claimed? ==> c.handoff.Some? && c.stack == c.handoff.value.tid)
    && (c.stage.Switched? ==> c.handoff.Some? && c.current == Some(c.stack))
    && (c.stage.Releasing? ==> c.handoff.None? && c.current == Some(c.stack))
  }

  ghost predicate ReadyOk(s: Sched, pl: Places) {
    && NoDup(s.ready)
    && forall k :: 0 <= k < |s.ready| ==>
         && s.ready[k] in pl
         && (pl[s.ready[k]].Queued?
             || (pl[s.ready[k]].Departing? && pl[s.ready[k]].c < |s.cpus| && s.cpus[pl[s.ready[k]].c].stage.Releasing?))
  }

  ghost predicate GraveOk(s: Sched, pl: Places) {
    && NoDup(s.graveyard)
    && (forall k :: 0 <= k < |s.graveyard| ==>
          s.graveyard[k] in s.threads && s.threads[s.graveyard[k]].state.Exited? && s.graveyard[k] !in s.freed)
    && (forall t :: t in s.freed ==> t in pl && pl[t].Dead? && t !in s.wakers)
  }

  ghost predicate Inv(s: Sched, pl: Places) {
    && pl.Keys == s.threads.Keys
    && (forall t {:trigger ThreadOk(s, t, pl[t])} :: t in pl ==> ThreadOk(s, t, pl[t]))
    && (forall i {:trigger CpuOk(s, i, pl)} :: 0 <= i < |s.cpus| ==> CpuOk(s, i, pl))
    && ReadyOk(s, pl)
    && GraveOk(s, pl)
    && OneLock(s)
  }

  lemma InvClosed(s: Sched, pl: Places)
    requires Inv(s, pl)
    ensures Closed(s)
  {
    forall i | 0 <= i < |s.cpus|
      ensures Known(s, s.cpus[i].current) && Known(s, s.cpus[i].idle) && Known(s, Leaving(s.cpus[i]))
    {
      assert CpuOk(s, i, pl);
    }
  }

  // ---------------------------------------------------------------- the ready queue holds no phantom

  /** `pick_next` never discards an entry: it takes the front, or idles on an empty queue. */
  lemma {:induction false} PickTakesFront(s: Sched, pl: Places, threads: map<Tid, Thread>, cpus: seq<Cpu>)
    requires Inv(s, pl) && !Locked(s)
    requires threads.Keys == s.threads.Keys
    requires forall t :: t in s.threads && t in s.ready ==> threads[t] == s.threads[t]
    requires |cpus| == |s.cpus|
    requires forall i :: 0 <= i < |cpus| ==> cpus[i].current == s.cpus[i].current || cpus[i].current.None?
    requires forall k :: 0 <= k < |s.ready| ==> s.ready[k] in threads
    ensures forall idle :: PickNext(threads, cpus, s.ready, idle)
                           == if s.ready == [] then (idle, []) else (s.ready[0], s.ready[1..])
  {
    if s.ready != [] {
      var t := s.ready[0];
      assert pl[t].Queued?;
      assert ThreadOk(s, t, pl[t]);
      forall i | 0 <= i < |cpus| ensures cpus[i].current != Some(t) {
        assert CpuOk(s, i, pl);
      }
      assert !Stale(threads, cpus, t);
    }
  }

  // ---------------------------------------------------------------- what a step leaves alone

  /** The CPU a place names reads the same to the thread in that place. */
  ghost predicate SameCpu(s: Sched, s': Sched, p: Place) {
    && |s.cpus| == |s'.cpus|
    && ((p.OnCpu? || p.Departing?) && p.c < |s.cpus| ==> s.cpus[p.c] == s'.cpus[p.c])
    && (p.Resting? && p.c < |s.cpus| ==> s.cpus[p.c].idle == s'.cpus[p.c].idle)
  }

  /** A thread the step does not touch stays well placed. */
  lemma FrameThread(s: Sched, s': Sched, u: Tid, p: Place)
    requires u in s.threads && u in s'.threads && s'.threads[u] == s.threads[u]
    requires ThreadOk(s, u, p) && SameCpu(s, s', p)
    requires u in s.ready <==> u in s'.ready
    requires u in s.wakers ==> u in s'.wakers
    requires u in s.graveyard || u in s.freed ==> u in s'.graveyard || u in s'.freed
    ensures ThreadOk(s', u, p)
  {
  }

  /** A CPU the step does not touch stays well formed, as long as its own threads keep their places. */
  lemma FrameCpu(s: Sched, s': Sched, i: nat, pl: Places, pl': Places)
    requires i < |s.cpus| && i < |s'.cpus| && s.cpus[i] == s'.cpus[i]
    requires CpuOk(s, i, pl)
    requires forall u :: u in pl && pl[u] in {OnCpu(i), Departing(i), Resting(i)} ==> u in pl' && pl'[u] == pl[u]
    requires forall u :: u in s.threads ==> u in s'.threads && s'.threads[u].isIdle == s.threads[u].isIdle
    ensures CpuOk(s', i, pl')
  {
  }

  /** A place that is not tied to a CPU other than `c`. */
  predicate Near(p: Place, c: nat) {
    (p.OnCpu? || p.Departing? || p.Resting?) ==> p.c == c
  }

  /** At most one CPU is inside the locked part of `finish_switch`. */
  ghost predicate OneLock(s: Sched) {
    forall i, j ::
      0 <= i < |s.cpus| && 0 <= j < |s.cpus| && s.cpus[i].stage.Releasing? && s.cpus[j].stage.Releasing? ==> i == j
  }

  /** The step changed CPU `c` and the threads `prev` and `next`, and lost nobody else's queue entries. */
  ghost predicate Local(s: Sched, s': Sched, c: nat, prev: Tid, next: Tid) {
    && c < |s.cpus| == |s'.cpus|
    && (forall i :: 0 <= i < |s.cpus| && i != c ==> s'.cpus[i] == s.cpus[i])
    && s'.cpus[c].idle == s.cpus[c].idle
    && s.cpus[c].current in {None, Some(prev), Some(next)}
    && Leaving(s.cpus[c]) in {None, Some(prev), Some(next)}
    && s'.threads.Keys == s.threads.Keys
    && prev in s.threads && next in s.threads
    && s'.threads[prev].isIdle == s.threads[prev].isIdle
    && s'.threads[next].isIdle == s.threads[next].isIdle
    && (forall u :: u in s.threads && u != prev && u != next ==>
          && s'.threads[u] == s.threads[u]
          && (u in s.ready <==> u in s'.ready)
          && (u in s.graveyard ==> u in s'.graveyard))
    && s.wakers <= s'.wakers && s.freed <= s'.freed
  }

  /** A local step keeps the invariant if it does so for the CPU and the two threads it changed. */
  lemma Assemble(s: Sched, pl: Places, s': Sched, pl': Places, c: nat, prev: Tid, next: Tid)
    requires Inv(s, pl) && Local(s, s', c, prev, next)
    requires Near(pl[prev], c) && Near(pl[next], c)
    requires pl'.Keys == pl.Keys
    requires forall u :: u in pl && u != prev && u != next ==> pl'[u] == pl[u]
    requires ThreadOk(s', prev, pl'[prev]) && ThreadOk(s', next, pl'[next]) && CpuOk(s', c, pl')
    requires ReadyOk(s', pl') && GraveOk(s', pl') && OneLock(s')
    ensures Inv(s', pl')
  {
    AssembleThreads(s, pl, s', pl', c, prev, next);
    AssembleCpus(s, pl, s', pl', c, prev, next);
  }

  lemma AssembleThreads(s: Sched, pl: Places, s': Sched, pl': Places, c: nat, prev: Tid, next: Tid)
    requires Inv(s, pl) && Local(s, s', c, prev, next)
    requires pl'.Keys == pl.Keys
    requires forall u :: u in pl && u != prev && u != next ==> pl'[u] == pl[u]
    ensures forall u {:trigger ThreadOk(s', u, pl'[u])} :: u in pl' && u != prev && u != next ==>
            ThreadOk(s', u, pl'[u])
  {
    forall u | u in pl' && u != prev && u != next ensures ThreadOk(s', u, pl'[u]) {
      assert ThreadOk(s, u, pl[u]);
      FrameThread(s, s', u, pl[u]);
    }
  }

  lemma AssembleCpus(s: Sched, pl: Places, s': Sched, pl': Places, c: nat, prev: Tid, next: Tid)
    requires Inv(s, pl) && Local(s, s', c, prev, next)
    requires Near(pl[prev], c) && Near(pl[next], c)
    requires pl'.Keys == pl.Keys
    requires forall u :: u in pl && u != prev && u != next ==> pl'[u] == pl[u]
    ensures forall i {:trigger CpuOk(s', i, pl')} :: 0 <= i < |s'.cpus| && i != c ==> CpuOk(s', i, pl')
  {
    forall i | 0 <= i < |s'.cpus| && i != c ensures CpuOk(s', i, pl') {
      assert CpuOk(s, i, pl);
      FrameCpu(s, s', i, pl, pl');
    }
  }

  // ---------------------------------------------------------------- every step keeps the invariant

  lemma KeepBootBsp(s: Sched, pl: Places, c: nat, boot: Tid, idle: Tid) returns (pl': Places)
    requires Inv(s, pl) && Enabled(s, BootBspStep(c, boot, idle))
    ensures Inv(BootBsp(s, c, boot, idle), pl')
  {
    pl' := pl[boot := OnCpu(c)][idle := Resting(c)];
    var s' := BootBsp(s, c, boot, idle);
    forall t | t in pl' ensures ThreadOk(s', t, pl'[t]) {
      if t in pl {
        assert CpuOk(s, c, pl);
        FrameThread(s, s', t, pl[t]);
      }
    }
    forall i | 0 <= i < |s'.cpus| ensures CpuOk(s', i, pl') { assert CpuOk(s, i, pl); }
  }

  lemma KeepCpuEnter(s: Sched, pl: Places, c: nat, me: Tid) returns (pl': Places)
    requires Inv(s, pl) && Enabled(s, CpuEnterStep(c, me))
    ensures Inv(CpuEnter(s, c, me), pl')
  {
    pl' := pl[me := OnCpu(c)];
    var s' := CpuEnter(s, c, me);
    forall t | t in pl' ensures ThreadOk(s', t, pl'[t]) {
      if t in pl {
        assert CpuOk(s, c, pl);
        FrameThread(s, s', t, pl[t]);
      }
    }
    forall i | 0 <= i < |s'.cpus| ensures CpuOk(s', i, pl') { assert CpuOk(s, i, pl); }
  }

  lemma KeepSpawn(s: Sched, pl: Places, t: Tid) returns (pl': Places)
    requires Inv(s, pl) && Enabled(s, SpawnStep(t))
    ensures Inv(Spawn(s, t), pl')
  {
    pl' := pl[t := Queued];
    var s' := Spawn(s, t);
    forall u | u in pl' ensures ThreadOk(s', u, pl'[u]) {
      if u in pl { assert ThreadOk(s, u, pl[u]); }
    }
    forall i | 0 <= i < |s'.cpus| ensures CpuOk(s', i, pl') { assert CpuOk(s, i, pl); }
  }

  lemma KeepMark(s: Sched, pl: Places, c: nat)
    requires Inv(s, pl) && Enabled(s, MarkStep(c))
    ensures Inv(MarkBlocking(s, c), pl)
  {
    var s' := MarkBlocking(s, c);
    forall u | u in pl ensures ThreadOk(s', u, pl[u]) { assert ThreadOk(s, u, pl[u]); }
    forall i | 0 <= i < |s'.cpus| ensures CpuOk(s', i, pl) { assert CpuOk(s, i, pl); }
  }

  lemma KeepStoreWake(s: Sched, pl: Places, t: Tid)
    requires Inv(s, pl) && Enabled(s, StoreWakeStep(t))
    ensures Inv(StoreWake(s, t), pl)
  {
    var s' := StoreWake(s, t);
    forall u | u in pl ensures ThreadOk(s', u, pl[u]) { assert ThreadOk(s, u, pl[u]); }
    forall i | 0 <= i < |s'.cpus| ensures CpuOk(s', i, pl) { assert CpuOk(s, i, pl); }
  }

  lemma KeepLockWake(s: Sched, pl: Places, t: Tid) returns (pl': Places)
    requires Inv(s, pl) && Enabled(s, LockWakeStep(t))
    ensures Inv(LockWake(s, t), pl')
  {
    var s' := LockWake(s, t);
    assert ThreadOk(s, t, pl[t]);
    pl' := if s.threads[t].state.Blocked? && !s.threads[t].running then pl[t := Queued] else pl;
    forall u | u in pl' ensures ThreadOk(s', u, pl'[u]) {
      assert ThreadOk(s, u, pl[u]);
    }
    forall i | 0 <= i < |s'.cpus| ensures CpuOk(s', i, pl') { assert CpuOk(s, i, pl); }
  }

  /** The places after `c` has committed to leave `prev` for `next`. */
  ghost function Leave(pl: Places, c: nat, prev: Tid, next: Tid): Places {
    pl[prev := Departing(c)][next := OnCpu(c)]
  }

  /** What `reschedule` and `exit` share: `c` leaves `prev` for `next`, the front of the queue or its idle thread. */
  ghost predicate Leaves(s: Sched, s': Sched, c: nat, prev: Tid, next: Tid, blocking: bool) {
    && Runs(s, c) && s.cpus[c].current == Some(prev)
    && prev in s.threads && next in s.threads && prev != next
    && next == (if s.ready == [] then s.cpus[c].idle.value else s.ready[0])
    && s'.threads.Keys == s.threads.Keys
    && (forall u :: u in s.threads && u != prev && u != next ==> s'.threads[u] == s.threads[u])
    && s'.threads[next] == s.threads[next].(state := Running)
    && s'.threads[prev] == s.threads[prev].(state := s'.threads[prev].state)
    && (if s.threads[prev].isIdle then s'.threads[prev].state == s.threads[prev].state && !blocking
        else if blocking then s'.threads[prev].state.Blocked? || s'.threads[prev].state.Exited?
        else s'.threads[prev].state.Ready?)
    && s'.ready == (if s.ready == [] then [] else s.ready[1..])
    && s'.cpus == s.cpus[c := s.cpus[c].(current := Some(next), handoff := Some(Handoff(prev, blocking)), stage :=
       Committed)]
    && s'.graveyard == (if s'.threads[prev].state.Exited? then s.graveyard + [prev] else s.graveyard)
    && s'.freed == s.freed && s'.wakers == s.wakers
  }

  lemma KeepLeave(s: Sched, pl: Places, c: nat, prev: Tid, next: Tid, blocking: bool, s': Sched)
    requires Inv(s, pl) && !Locked(s) && Leaves(s, s', c, prev, next, blocking)
    ensures Inv(s', Leave(pl, c, prev, next))
  {
    LeaveLocal(s, pl, c, prev, next, blocking, s');
    LeaveReady(s, pl, prev, next, s'.ready);
    LeaveGrave(s, pl, c, prev, next, blocking, s');
    Assemble(s, pl, s', Leave(pl, c, prev, next), c, prev, next);
  }

  lemma LeaveLocal(s: Sched, pl: Places, c: nat, prev: Tid, next: Tid, blocking: bool, s': Sched)
    requires Inv(s, pl) && !Locked(s) && Leaves(s, s', c, prev, next, blocking)
    ensures pl[prev] == OnCpu(c) && (pl[next].Queued? || pl[next] == Resting(c))
    ensures var pl' := Leave(pl, c, prev, next);
            && Local(s, s', c, prev, next) && CpuOk(s', c, pl')
            && ThreadOk(s', prev, pl'[prev]) && ThreadOk(s', next, pl'[next])
  {
    assert CpuOk(s, c, pl);
    assert ThreadOk(s, prev, pl[prev]);
    assert ThreadOk(s, next, pl[next]);
    assert pl[prev] == OnCpu(c);
    LeaveReady(s, pl, prev, next, s'.ready);
  }

  lemma LeaveGrave(s: Sched, pl: Places, c: nat, prev: Tid, next: Tid, blocking: bool, s': Sched)
    requires Inv(s, pl) && !Locked(s) && Leaves(s, s', c, prev, next, blocking)
    ensures GraveOk(s', Leave(pl, c, prev, next))
  {
    assert CpuOk(s, c, pl);
    assert ThreadOk(s, prev, pl[prev]) && ThreadOk(s, next, pl[next]);
    assert prev !in s.graveyard && next !in s.graveyard;
    assert prev !in s.freed && next !in s.freed;
  }

  lemma LeaveReady(s: Sched, pl: Places, prev: Tid, next: Tid, rest: seq<Tid>)
    requires Inv(s, pl) && !Locked(s)
    requires s.ready != [] ==> s.ready[0] == next
    requires rest == if s.ready == [] then [] else s.ready[1..]
    requires prev in pl && !pl[prev].Queued?
    ensures forall u :: u != next ==> (u in s.ready <==> u in rest)
    ensures next !in rest && prev !in rest
    ensures forall k :: 0 <= k < |rest| ==> rest[k] in pl && pl[rest[k]].Queued?
    ensures NoDup(rest)
  {
    forall u | u in s.ready && u != next ensures u in rest {
      var k :| 0 <= k < |s.ready| && s.ready[k] == u;
      assert rest[k - 1] == u;
    }
    forall k | 0 <= k < |rest| ensures rest[k] in pl && pl[rest[k]].Queued? && rest[k] != next {
      assert rest[k] == s.ready[k + 1];
    }
  }

  lemma KeepCommit(s: Sched, pl: Places, c: nat, block: bool) returns (pl': Places)
    requires Inv(s, pl) && Enabled(s, CommitStep(c, block))
    ensures Inv(Commit(s, c, block), pl')
  {
    var prev, idle := s.cpus[c].current.value, s.cpus[c].idle.value;
    PickTakesFront(s, pl, s.threads, s.cpus);
    assert CpuOk(s, c, pl);
    assert ThreadOk(s, prev, pl[prev]);
    var s' := Commit(s, c, block);
    if block && s.threads[prev].wakePending {
      pl' := pl;
    } else if s.ready == [] && idle == prev {
      pl' := pl;
      assert s' == s;
    } else {
      var next := if s.ready == [] then idle else s.ready[0];
      assert s.ready != [] ==> pl[next].Queued?;
      pl' := Leave(pl, c, prev, next);
      KeepLeave(s, pl, c, prev, next, block, s');
    }
  }

  lemma KeepExit(s: Sched, pl: Places, c: nat) returns (pl': Places)
    requires Inv(s, pl) && Enabled(s, ExitStep(c))
    ensures Inv(Exit(s, c), pl')
  {
    var prev, idle := s.cpus[c].current.value, s.cpus[c].idle.value;
    assert CpuOk(s, c, pl);
    assert ThreadOk(s, prev, pl[prev]);
    forall t | t in s.ready ensures t != prev {
      assert pl[t] != OnCpu(c);
    }
    PickTakesFront(s, pl, SetState(s.threads, prev, Exited), s.cpus[c := s.cpus[c].(current := None)]);
    var s' := Exit(s, c);
    var next := if s.ready == [] then idle else s.ready[0];
    pl' := Leave(pl, c, prev, next);
    KeepLeave(s, pl, c, prev, next, true, s');
  }

  lemma KeepClaim(s: Sched, pl: Places, c: nat)
    requires Inv(s, pl) && Enabled(s, ClaimStep(c))
    ensures Inv(Claim(s, c), pl)
  {
    var s' := Claim(s, c);
    assert CpuOk(s, c, pl);
    forall u | u in pl ensures ThreadOk(s', u, pl[u]) { assert ThreadOk(s, u, pl[u]); }
    forall i | 0 <= i < |s'.cpus| ensures CpuOk(s', i, pl) { assert CpuOk(s, i, pl); }
  }

  lemma KeepSwitch(s: Sched, pl: Places, c: nat)
    requires Inv(s, pl) && Enabled(s, SwitchStep(c))
    ensures Inv(SwitchStack(s, c), pl)
  {
    var prev, next := SwitchLocal(s, pl, c);
    Assemble(s, pl, SwitchStack(s, c), pl, c, prev, next);
  }

  lemma SwitchLocal(s: Sched, pl: Places, c: nat) returns (prev: Tid, next: Tid)
    requires Inv(s, pl) && Enabled(s, SwitchStep(c))
    ensures var s' := SwitchStack(s, c);
            && Local(s, s', c, prev, next) && CpuOk(s', c, pl)
            && Near(pl[prev], c) && Near(pl[next], c)
            && ThreadOk(s', prev, pl[prev]) && ThreadOk(s', next, pl[next])
  {
    prev, next := s.cpus[c].stack, s.cpus[c].current.value;
    assert CpuOk(s, c, pl);
    assert ThreadOk(s, prev, pl[prev]) && ThreadOk(s, next, pl[next]);
    assert pl[prev] == Departing(c) && pl[next] == OnCpu(c);
  }

  lemma KeepDecide(s: Sched, pl: Places, c: nat)
    requires Inv(s, pl) && Enabled(s, DecideStep(c))
    ensures Inv(FinishDecide(s, c), pl)
  {
    var prev, next := DecideLocal(s, pl, c);
    DecideReady(s, pl, c);
    Assemble(s, pl, FinishDecide(s, c), pl, c, prev, next);
  }

  lemma DecideLocal(s: Sched, pl: Places, c: nat) returns (prev: Tid, next: Tid)
    requires Inv(s, pl) && Enabled(s, DecideStep(c))
    ensures var s' := FinishDecide(s, c);
            && Local(s, s', c, prev, next) && CpuOk(s', c, pl)
            && Near(pl[prev], c) && Near(pl[next], c)
            && ThreadOk(s', prev, pl[prev]) && ThreadOk(s', next, pl[next])
  {
    assert CpuOk(s, c, pl);
    prev, next := s.cpus[c].handoff.value.tid, s.cpus[c].current.value;
    assert ThreadOk(s, prev, pl[prev]) && ThreadOk(s, next, pl[next]);
    assert pl[prev] == Departing(c) && pl[next] == OnCpu(c);
    assert prev !in s.ready;
  }

  lemma DecideReady(s: Sched, pl: Places, c: nat)
    requires Inv(s, pl) && Enabled(s, DecideStep(c))
    ensures var s' := FinishDecide(s, c); ReadyOk(s', pl) && GraveOk(s', pl) && OneLock(s')
  {
    assert CpuOk(s, c, pl);
    var prev := s.cpus[c].handoff.value.tid;
    assert ThreadOk(s, prev, pl[prev]);
    var s' := FinishDecide(s, c);
    assert s'.ready == s.ready || s'.ready == s.ready + [prev];
  }

  lemma KeepRelease(s: Sched, pl: Places, c: nat) returns (pl': Places)
    requires Inv(s, pl) && Enabled(s, ReleaseStep(c))
    ensures Inv(FinishRelease(s, c), pl')
  {
    var prev, next;
    pl', prev, next := ReleaseLocal(s, pl, c);
    ReleaseReady(s, pl, c, prev);
    Assemble(s, pl, FinishRelease(s, c), pl', c, prev, next);
  }

  lemma ReleaseLocal(s: Sched, pl: Places, c: nat) returns (pl': Places, prev: Tid, next: Tid)
    requires Inv(s, pl) && Enabled(s, ReleaseStep(c))
    ensures prev == s.cpus[c].stage.prev && prev in pl && pl[prev] == Departing(c)
    ensures prev in pl' && pl' == pl[prev := pl'[prev]]
    ensures var s' := FinishRelease(s, c);
            && Local(s, s', c, prev, next) && CpuOk(s', c, pl')
            && Near(pl[next], c) && next in pl'
            && ThreadOk(s', prev, pl'[prev]) && ThreadOk(s', next, pl'[next])
    ensures s.threads[prev].state.Ready? && !s.threads[prev].isIdle ==> pl'[prev].Queued?
    ensures s.threads[prev].state.Exited? && !s.threads[prev].isIdle ==> pl'[prev].Dead?
  {
    assert CpuOk(s, c, pl);
    prev, next := s.cpus[c].stage.prev, s.cpus[c].current.value;
    var th := s.threads[prev];
    assert ThreadOk(s, prev, pl[prev]) && ThreadOk(s, next, pl[next]);
    assert pl[prev] == Departing(c) && pl[next] == OnCpu(c);
    pl' := pl[prev := if th.isIdle then Resting(c) else if th.state.Exited? then Dead
                      else if th.state.Ready? then Queued else Parked];
  }

  /** While `c` holds the lock, `prev` is the only queued thread that is not yet off its stack. */
  lemma ReleaseReady(s: Sched, pl: Places, c: nat, prev: Tid)
    requires Inv(s, pl) && c < |s.cpus| && s.cpus[c].stage == Releasing(prev)
    ensures forall k :: 0 <= k < |s.ready| ==> s.ready[k] == prev || pl[s.ready[k]].Queued?
    ensures prev in s.ready ==> prev in pl && s.threads[prev].state.Ready? && !s.threads[prev].isIdle
  {
    forall k | 0 <= k < |s.ready| ensures s.ready[k] == prev || pl[s.ready[k]].Queued? {
      var t := s.ready[k];
      assert ThreadOk(s, t, pl[t]);
    }
    assert CpuOk(s, c, pl);
    assert ThreadOk(s, prev, pl[prev]);
  }

  lemma SwapRemoveMembers<T>(v: seq<T>, i: nat)
    requires i < |v| && NoDup(v)
    ensures NoDup(SwapRemove(v, i))
    ensures forall x :: x in SwapRemove(v, i) <==> x in v && x != v[i]
  {
    var r := SwapRemove(v, i);
    forall x | x in v && x != v[i] ensures x in r {
      var k :| 0 <= k < |v| && v[k] == x;
      if k == |v| - 1 { assert r[i] == x; } else { assert r[k] == x; }
    }
  }

  lemma KeepFree(s: Sched, pl: Places, i: nat)
    requires Inv(s, pl) && Enabled(s, FreeStep(i))
    ensures Inv(Free(s, i), pl)
  {
    var s' := Free(s, i);
    var t := s.graveyard[i];
    assert ThreadOk(s, t, pl[t]);
    SwapRemoveMembers(s.graveyard, i);
    forall u | u in pl ensures ThreadOk(s', u, pl[u]) { assert ThreadOk(s, u, pl[u]); }
    forall k | 0 <= k < |s'.cpus| ensures CpuOk(s', k, pl) { assert CpuOk(s, k, pl); }
    forall k | 0 <= k < |s'.graveyard| ensures s'.graveyard[k] in s.graveyard && s'.graveyard[k] != t {
      assert s'.graveyard[k] in s'.graveyard;
    }
  }
}
