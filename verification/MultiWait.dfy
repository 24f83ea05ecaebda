/** A wait on several queues at once, with everybody else going about their business in between. */
module MultiWait {
  import opened Common
  import opened LockOrder
  import opened Timer

  /** The waiters of every queue, by address, and the timer wheel. */
  datatype World = World(queues: map<nat, seq<Thread>>, wheel: seq<Sleeper>)

  function Waiters(w: World, q: nat): seq<Thread> { if q in w.queues then w.queues[q] else [] }

  /** One step of the waiting thread: all queues at once under all their locks, the wheel, then the clean-up. */
  datatype Move = Enqueue(qs: seq<nat>) | Arm(deadline: nat) | Remove(q: nat) | Disarm

  function PushAll(w: World, qs: seq<nat>, me: Thread): World {
    if qs == [] then w
    else
      var w' := PushAll(w, qs[..|qs| - 1], me);
      var q := qs[|qs| - 1];
      w'.(queues := w'.queues[q := Waiters(w', q) + [me]])
  }

  /** `retain`: everybody but this thread. */
  function Without(s: seq<Thread>, me: Thread): seq<Thread> {
    if s == [] then [] else Without(s[..|s| - 1], me) + if s[|s| - 1] == me then [] else [s[|s| - 1]]
  }

  lemma {:induction false} WithoutMembers(s: seq<Thread>, me: Thread, x: Thread)
    ensures x in Without(s, me) <==> x in s && x != me
  {
    if s != [] {
      assert s == s[..|s| - 1] + [s[|s| - 1]];
      WithoutMembers(s[..|s| - 1], me, x);
    }
  }

  /** The first entry of the thread is taken off the wheel. */
  function FirstEntry(s: seq<Sleeper>, me: Thread): (i: nat)
    ensures i <= |s| && (i < |s| ==> s[i].thread == me) && forall j :: 0 <= j < i ==> s[j].thread != me
  {
    if s == [] then 0 else if s[0].thread == me then 0 else 1 + FirstEntry(s[1..], me)
  }

  function Do(w: World, m: Move, me: Thread): World {
    match m
    case Enqueue(qs) => PushAll(w, Ranked(qs), me)
    case Arm(d) => w.(wheel := w.wheel + [Sleeper(d, me)])
    case Remove(q) => w.(queues := w.queues[q := Without(Waiters(w, q), me)])
    case Disarm =>
      var i := FirstEntry(w.wheel, me);
      if i < |w.wheel| then w.(wheel := SwapRemove(w.wheel, i)) else w
  }

  function Removes(qs: seq<nat>): seq<Move> { if qs == [] then [] else [Remove(qs[0])] + Removes(qs[1..]) }

  /** `wait_any_until`, once it has decided to block. */
  function Moves(qs: seq<nat>, deadline: Option<nat>): seq<Move> {
    var arm, disarm := if deadline.Some? then [Arm(deadline.value)] else [], if deadline.Some? then [Disarm] else [];
    [Enqueue(qs)] + arm + Removes(qs) + disarm
  }

  /** Others may do anything to the queues and the wheel except enqueue or arm this thread. */
  ghost predicate Others(w: World, w': World, me: Thread) {
    && (forall q :: me in Waiters(w', q) ==> me in Waiters(w, q))
    && Entries(w'.wheel, me) <= Entries(w.wheel, me)
  }

  /**
   A call in progress from `w0`: the moves made so far are the first `done` of them. Where the thread stands, its
   removal is still to come or it stood there before the call in a queue that is not on the list; and it has at most
   one wheel entry more than before the call, which is still to be disarmed.
   */
  ghost predicate Progress(w0: World, w: World, me: Thread, qs: seq<nat>, moves: seq<Move>, done: nat) {
    && done <= |moves|
    && (forall q :: me in Waiters(w, q) ==>
          (done > 0 && Remove(q) in moves[done..]) || (me in Waiters(w0, q) && (done > 0 ==> q !in qs)))
    && Entries(w.wheel, me) <= Entries(w0.wheel, me) + Pending(moves, done)
  }

  /** Whether the wheel has been armed and not yet disarmed. */
  ghost function Pending(moves: seq<Move>, done: nat): nat
    requires done <= |moves|
  {
    if done > 1 && Disarm in moves[done..] then 1 else 0
  }

  /** One interleaving, from any world: at every point either the thread makes its next move or somebody else acts. */
  ghost predicate IsCall(ws: seq<World>, dones: seq<nat>, me: Thread, moves: seq<Move>) {
    && |ws| == |dones| > 0 && dones[0] == 0
    && forall i :: 0 <= i < |ws| - 1 ==> CallStep(ws[i], ws[i + 1], dones[i], dones[i + 1], me, moves)
  }

  ghost predicate CallStep(w: World, w': World, done: nat, done': nat, me: Thread, moves: seq<Move>) {
    || (done' == done && Others(w, w', me))
    || (done < |moves| && done' == done + 1 && w' == Do(w, moves[done], me))
  }

  // ---------------------------------------------------------------- the moves

  lemma {:induction false} RemovesAt(qs: seq<nat>, q: nat)
    ensures Remove(q) in Removes(qs) <==> q in qs
    ensures Disarm !in Removes(qs) && forall i :: 0 <= i < |Removes(qs)| ==> Removes(qs)[i].Remove?
    decreases |qs|
  {
    if qs != [] {
      RemovesAt(qs[1..], q);
      assert qs == [qs[0]] + qs[1..];
    }
  }

  /**
   What follows a move: clean-up for every queue after the enqueue, the wheel's clean-up after arming and only then.
   */
  lemma MovesShape(qs: seq<nat>, deadline: Option<nat>, k: nat)
    requires k < |Moves(qs, deadline)|
    ensures var ms := Moves(qs, deadline);
            && (ms[k].Enqueue? <==> k == 0)
               && (k == 0 ==> ms[k].qs == qs && forall q :: q in qs ==> Remove(q) in ms[k + 1..])
            && (ms[k].Arm? ==> k == 1 && Disarm in ms[k + 1..])
            && (ms[k].Disarm? ==> k > 1 && k + 1 == |ms|)
            && (ms[k].Remove? && k == 1 ==> Disarm !in ms[k + 1..])
            && (forall q :: Remove(q) in ms ==> q in qs)
  {
    var ms := Moves(qs, deadline);
    var rs := Removes(qs);
    var start := if deadline.Some? then 2 else 1;
    RemovesAt(qs, 0);
    assert forall i :: start <= i < start + |rs| ==> ms[i] == rs[i - start];
    if deadline.Some? { assert ms[|ms| - 1] == Disarm; }
    if k == 0 {
      forall q | q in qs ensures Remove(q) in ms[k + 1..] {
        RemovesAt(qs, q);
        var i :| 0 <= i < |rs| && rs[i] == Remove(q);
        assert ms[k + 1..][start + i - 1] == Remove(q);
      }
    } else if k == 1 && deadline.Some? {
      assert ms[k + 1..][|ms| - 1 - (k + 1)] == Disarm;
    } else {
      assert ms[k].Remove? || ms[k].Disarm?;
    }
    forall q | Remove(q) in ms ensures q in qs { RemovesAt(qs, q); }
  }

  lemma {:induction false} PushAllMembers(w: World, qs: seq<nat>, me: Thread, q: nat)
    ensures PushAll(w, qs, me).wheel == w.wheel
    ensures me in Waiters(PushAll(w, qs, me), q) <==> me in Waiters(w, q) || q in qs
    decreases |qs|
  {
    if qs != [] {
      var n := |qs| - 1;
      assert qs == qs[..n] + [qs[n]];
      PushAllMembers(w, qs[..n], me, q);
    }
  }

  /** Which later moves there are shrinks by the one just made. */
  lemma LaterMoves(ms: seq<Move>, k: nat, m: Move)
    requires k < |ms| && m in ms[k..] && m != ms[k]
    ensures m in ms[k + 1..]
  {
    assert ms[k..] == [ms[k]] + ms[k + 1..];
  }

  lemma EnqueueKeeps(w0: World, w: World, me: Thread, qs: seq<nat>, deadline: Option<nat>)
    requires Progress(w0, w, me, qs, Moves(qs, deadline), 0)
    ensures Progress(w0, Do(w, Moves(qs, deadline)[0], me), me, qs, Moves(qs, deadline), 1)
  {
    var ms := Moves(qs, deadline);
    MovesShape(qs, deadline, 0);
    RankedAscends(qs);
    forall q | me in Waiters(Do(w, ms[0], me), q) ensures Remove(q) in ms[1..] || (me in Waiters(w0, q) && q !in qs) {
      PushAllMembers(w, Ranked(qs), me, q);
    }
    PushAllMembers(w, Ranked(qs), me, 0);
  }

  lemma RemoveKeeps(w0: World, w: World, me: Thread, qs: seq<nat>, ms: seq<Move>, k: nat)
    requires Progress(w0, w, me, qs, ms, k) && 0 < k < |ms| && ms[k].Remove? && (k == 1 ==> Disarm !in ms[k + 1..])
    ensures Progress(w0, Do(w, ms[k], me), me, qs, ms, k + 1)
  {
    var w' := Do(w, ms[k], me);
    forall q | me in Waiters(w', q) ensures Remove(q) in ms[k + 1..] || (me in Waiters(w0, q) && q !in qs) {
      if q == ms[k].q {
        WithoutMembers(Waiters(w, q), me, me);
      } else if Remove(q) in ms[k..] {
        LaterMoves(ms, k, Remove(q));
      }
    }
    if k > 1 && Disarm in ms[k..] { LaterMoves(ms, k, Disarm); }
  }

  lemma DisarmKeeps(w0: World, w: World, me: Thread, qs: seq<nat>, ms: seq<Move>, k: nat)
    requires Progress(w0, w, me, qs, ms, k) && 1 < k && k + 1 == |ms| && ms[k].Disarm?
    ensures Progress(w0, Do(w, ms[k], me), me, qs, ms, k + 1)
  {
    var w' := Do(w, ms[k], me);
    forall q | me in Waiters(w', q) ensures me in Waiters(w0, q) && q !in qs {
      if Remove(q) in ms[k..] { LaterMoves(ms, k, Remove(q)); }
    }
    var i := FirstEntry(w.wheel, me);
    if i < |w.wheel| { EntriesRemoved(w.wheel, i, me); }
    EntriesZero(w.wheel, me);
  }

  lemma ArmKeeps(w0: World, w: World, me: Thread, qs: seq<nat>, deadline: Option<nat>)
    requires |Moves(qs, deadline)| > 1 && Moves(qs, deadline)[1].Arm? && Progress(w0, w, me, qs, Moves(qs, deadline), 1)
    ensures Progress(w0, Do(w, Moves(qs, deadline)[1], me), me, qs, Moves(qs, deadline), 2)
  {
    var ms := Moves(qs, deadline);
    MovesShape(qs, deadline, 1);
    var w' := Do(w, ms[1], me);
    assert w'.wheel[..|w.wheel|] == w.wheel;
    forall q | me in Waiters(w', q) ensures Remove(q) in ms[2..] || (me in Waiters(w0, q) && q !in qs) {
      if Remove(q) in ms[1..] { LaterMoves(ms, 1, Remove(q)); }
    }
  }

  lemma MoveKeeps(w0: World, w: World, me: Thread, qs: seq<nat>, deadline: Option<nat>, k: nat)
    requires k < |Moves(qs, deadline)| && Progress(w0, w, me, qs, Moves(qs, deadline), k)
    ensures Progress(w0, Do(w, Moves(qs, deadline)[k], me), me, qs, Moves(qs, deadline), k + 1)
  {
    var ms := Moves(qs, deadline);
    MovesShape(qs, deadline, k);
    match ms[k] {
      case Enqueue(_) => EnqueueKeeps(w0, w, me, qs, deadline);
      case Arm(_) => ArmKeeps(w0, w, me, qs, deadline);
      case Remove(_) => RemoveKeeps(w0, w, me, qs, ms, k);
      case Disarm => DisarmKeeps(w0, w, me, qs, ms, k);
    }
  }

  lemma {:induction false} CallKeeps(ws: seq<World>, dones: seq<nat>, me: Thread, qs: seq<nat>, deadline: Option<nat>,
                                     i: nat)
    requires IsCall(ws, dones, me, Moves(qs, deadline)) && i < |ws|
    ensures Progress(ws[0], ws[i], me, qs, Moves(qs, deadline), dones[i])
  {
    if i > 0 {
      var j: nat := i - 1;
      CallKeeps(ws, dones, me, qs, deadline, j);
      assert CallStep(ws[j], ws[j + 1], dones[j], dones[j + 1], me, Moves(qs, deadline));
      if !(dones[j + 1] == dones[j] && Others(ws[j], ws[j + 1], me)) {
        MoveKeeps(ws[0], ws[j], me, qs, deadline, dones[j]);
      }
    }
  }

  // ---------------------------------------------------------------- what is left behind

  /** The call has made all its moves by state `i`. */
  ghost predicate Returned(ws: seq<World>, dones: seq<nat>, me: Thread, qs: seq<nat>, deadline: Option<nat>, i: nat) {
    IsCall(ws, dones, me, Moves(qs, deadline)) && i < |ws| && dones[i] == |Moves(qs, deadline)|
  }

  /**
   A multi-wait that returns has left its thread in no queue of its list, and nowhere else where it did not stand
   before the call, and with no wheel entry more than before - whatever list of queues it waited on (repeated handles
   included), whatever woke it, whatever everybody else did meanwhile, and from any world.
   */
  lemma NothingAdded(ws: seq<World>, dones: seq<nat>, me: Thread, qs: seq<nat>, deadline: Option<nat>, i: nat)
    requires Returned(ws, dones, me, qs, deadline, i)
    ensures forall q :: me in Waiters(ws[i], q) ==> q !in qs && me in Waiters(ws[0], q)
    ensures Entries(ws[i].wheel, me) <= Entries(ws[0].wheel, me)
  {
    CallKeeps(ws, dones, me, qs, deadline, i);
    assert Moves(qs, deadline)[dones[i]..] == [];
  }

  /** The thread is in no queue and not on the wheel. */
  ghost predicate Absent(w: World, me: Thread) { (forall q :: me !in Waiters(w, q)) && Entries(w.wheel, me) == 0 }

  /** So a thread that enters with no entry in any other queue and none on the wheel leaves with none at all. */
  lemma NothingLeftBehind(ws: seq<World>, dones: seq<nat>, me: Thread, qs: seq<nat>, deadline: Option<nat>, i: nat)
    requires Returned(ws, dones, me, qs, deadline, i)
    requires (forall q :: q !in qs ==> me !in Waiters(ws[0], q)) && Entries(ws[0].wheel, me) == 0
    ensures Absent(ws[i], me)
  {
    NothingAdded(ws, dones, me, qs, deadline, i);
  }

  /** The call undisturbed: the states after each of its moves. */
  function Alone(w: World, me: Thread, moves: seq<Move>, n: nat): World
    requires n <= |moves|
  {
    if n == 0 then w else Do(Alone(w, me, moves, n - 1), moves[n - 1], me)
  }

  /** The undisturbed call is one of the interleavings. */
  lemma AloneRun(w: World, me: Thread, qs: seq<nat>, deadline: Option<nat>) returns (ws: seq<World>, dones: seq<nat>)
    ensures Returned(ws, dones, me, qs, deadline, |Moves(qs, deadline)|) && |ws| == |Moves(qs, deadline)| + 1
            && ws[0] == w
    ensures ws[|ws| - 1] == Alone(w, me, Moves(qs, deadline), |Moves(qs, deadline)|)
  {
    var ms := Moves(qs, deadline);
    ws := seq(|ms| + 1, j requires 0 <= j <= |ms| => Alone(w, me, ms, j));
    dones := seq(|ms| + 1, (j: nat) => j);
    forall i | 0 <= i < |ws| - 1 ensures CallStep(ws[i], ws[i + 1], dones[i], dones[i + 1], me, ms) { }
  }

  lemma {:induction false} AloneFar(w: World, me: Thread, qs: seq<nat>, deadline: Option<nat>, n: nat, q: nat)
    requires n <= |Moves(qs, deadline)| && q !in qs
    ensures Waiters(Alone(w, me, Moves(qs, deadline), n), q) == Waiters(w, q)
  {
    if n > 0 {
      var ms, j: nat := Moves(qs, deadline), n - 1;
      AloneFar(w, me, qs, deadline, j, q);
      MovesShape(qs, deadline, j);
      assert ms[j] in ms;
      RankedAscends(qs);
      if j == 0 { PushAllFar(Alone(w, me, ms, 0), Ranked(qs), me, q); }
      assert Alone(w, me, ms, n) == Do(Alone(w, me, ms, j), ms[j], me);
    }
  }

  lemma {:induction false} PushAllFar(w: World, qs: seq<nat>, me: Thread, q: nat)
    requires q !in qs
    ensures Waiters(PushAll(w, qs, me), q) == Waiters(w, q)
    decreases |qs|
  {
    if qs != [] {
      var n := |qs| - 1;
      assert qs == qs[..n] + [qs[n]];
      PushAllFar(w, qs[..n], me, q);
    }
  }

  lemma MovesLayout(qs: seq<nat>, deadline: Option<nat>)
    ensures var ms := Moves(qs, deadline);
            && ms[0].Enqueue? && (deadline.None? ==> forall i :: 1 <= i < |ms| ==> ms[i].Remove?)
            && (deadline.Some? ==> |ms| > 2 && ms[1].Arm? && ms[|ms| - 1].Disarm? && forall i :: 2 <= i < |ms| - 1 ==>
               ms[i].Remove?)
  {
    RemovesAt(qs, 0);
    var rs, start := Removes(qs), if deadline.Some? then 2 else 1;
    assert forall i :: start <= i < start + |rs| ==> Moves(qs, deadline)[i] == rs[i - start];
  }

  /** What a move does to the thread's wheel entries. */
  lemma MoveEntries(w: World, m: Move, me: Thread)
    ensures m.Enqueue? || m.Remove? ==> Do(w, m, me).wheel == w.wheel
    ensures m.Arm? ==> Entries(Do(w, m, me).wheel, me) == Entries(w.wheel, me) + 1
    ensures m.Disarm? && Entries(w.wheel, me) > 0 ==> Entries(Do(w, m, me).wheel, me) == Entries(w.wheel, me) - 1
  {
    match m {
      case Enqueue(qs) => PushAllMembers(w, Ranked(qs), me, 0);
      case Arm(d) => assert (w.wheel + [Sleeper(d, me)])[..|w.wheel|] == w.wheel;
      case Remove(_) =>
      case Disarm =>
        EntriesZero(w.wheel, me);
        var i := FirstEntry(w.wheel, me);
        if i < |w.wheel| { EntriesRemoved(w.wheel, i, me); }
    }
  }

  /** The undisturbed call adds one entry while it is armed, and none before or after. */
  lemma {:induction false} AloneEntries(w: World, me: Thread, qs: seq<nat>, deadline: Option<nat>, n: nat)
    requires n <= |Moves(qs, deadline)|
    ensures Entries(Alone(w, me, Moves(qs, deadline), n).wheel, me)
            == Entries(w.wheel, me) + if 1 < n < |Moves(qs, deadline)| && deadline.Some? then 1 else 0
  {
    if n > 0 {
      var j: nat := n - 1;
      var ms := Moves(qs, deadline);
      AloneEntries(w, me, qs, deadline, j);
      MovesLayout(qs, deadline);
      MoveEntries(Alone(w, me, ms, j), ms[j], me);
    }
  }

  /**
   "In no queue and not on the wheel" at return holds of every interleaving if and only if the thread entered with no
   entry in a queue outside the list and none on the wheel: the undisturbed call keeps all of those.
   */
  lemma CleanExactly(w: World, me: Thread, qs: seq<nat>, deadline: Option<nat>)
    ensures (forall ws: seq<World>, dones: seq<nat>, i: nat ::
               Returned(ws, dones, me, qs, deadline, i) && ws[0] == w ==> Absent(ws[i], me))
            <==> (forall q :: q !in qs ==> me !in Waiters(w, q)) && Entries(w.wheel, me) == 0
  {
    if (forall q :: q !in qs ==> me !in Waiters(w, q)) && Entries(w.wheel, me) == 0 {
      forall ws: seq<World>, dones: seq<nat>, i: nat | Returned(ws, dones, me, qs, deadline, i) && ws[0] == w
        ensures Absent(ws[i], me)
      {
        NothingLeftBehind(ws, dones, me, qs, deadline, i);
      }
    } else {
      var n := |Moves(qs, deadline)|;
      var ws, dones := AloneRun(w, me, qs, deadline);
      AloneEntries(w, me, qs, deadline, n);
      if Entries(w.wheel, me) == 0 {
        var q :| q !in qs && me in Waiters(w, q);
        AloneFar(w, me, qs, deadline, n, q);
        assert me in Waiters(ws[n], q);
      }
    }
  }

  /**
   A stale entry: `wait_if` does not take its thread out of the queue, so a thread woken by a late `unblock` can enter
   a multi-wait while it still stands in the queue it waited on before. It then stands there when the call returns.
   */
  lemma StaleEntryStays()
    ensures var me, w := 7, World(map[1 := [7]], []);
            exists ws: seq<World>, dones: seq<nat>, i: nat ::
              Returned(ws, dones, me, [2], None, i) && ws[0] == w && me in Waiters(ws[i], 1)
  {
    var me, w := 7, World(map[1 := [7]], []);
    var ws, dones := AloneRun(w, me, [2], None);
    AloneFar(w, me, [2], None, |Moves([2], None)|, 1);
    assert me in Waiters(ws[|ws| - 1], 1);
  }

  // ---------------------------------------------------------------- enqueueing once

  function Count(s: seq<Thread>, t: Thread): nat {
    if s == [] then 0 else Count(s[..|s| - 1], t) + if s[|s| - 1] == t then 1 else 0
  }

  lemma {:induction false} PushAllOnce(w: World, qs: seq<nat>, me: Thread, q: nat)
    requires Ascending(qs)
    ensures Count(Waiters(PushAll(w, qs, me), q), me) == Count(Waiters(w, q), me) + if q in qs then 1 else 0
    decreases |qs|
  {
    if qs != [] {
      var n := |qs| - 1;
      var w' := PushAll(w, qs[..n], me);
      assert qs == qs[..n] + [qs[n]];
      assert qs[n] !in qs[..n];
      PushAllOnce(w, qs[..n], me, q);
      assert (Waiters(w', qs[n]) + [me])[..|Waiters(w', qs[n])|] == Waiters(w', qs[n]);
    }
  }

  /** The thread stands in every queue of the list exactly once more than before, and in no other. */
  lemma EnqueuedOnce(w: World, qs: seq<nat>, me: Thread, q: nat)
    ensures Count(Waiters(Do(w, Enqueue(qs), me), q), me) == Count(Waiters(w, q), me) + if q in qs then 1 else 0
  {
    RankedAscends(qs);
    PushAllOnce(w, Ranked(qs), me, q);
  }
}
