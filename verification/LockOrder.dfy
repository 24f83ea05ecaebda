/**
 The locks behind waiting and waking. Queues are locked in ascending address order and each only once, the timer
 wheel after them and the scheduler last, so no set of concurrent calls can wait for each other in a circle.
 */
module LockOrder {
  import opened Common

  /** A wait queue by its address, the timer wheel, the scheduler. */
  datatype Lock = Queue(addr: nat) | Wheel | Sched

  predicate Below(a: Lock, b: Lock) {
    match (a, b)
    case (Queue(x), Queue(y)) => x < y
    case (Queue(_), _) => true
    case (Wheel, Sched) => true
    case _ => false
  }

  datatype Op = Acquire(lock: Lock) | Release(lock: Lock)

  /** Holding `held`, the rest of a program only takes locks above all it holds and ends with none. */
  ghost predicate Disciplined(held: set<Lock>, prog: seq<Op>)
    decreases |prog|
  {
    if prog == [] then held == {}
    else match prog[0]
      case Acquire(l) => (forall h :: h in held ==> Below(h, l)) && Disciplined(held + {l}, prog[1..])
      case Release(l) => l in held && Disciplined(held - {l}, prog[1..])
  }

  // ---------------------------------------------------------------- many threads

  /** Who holds which lock, and what every thread has left to do. */
  datatype System = System(owner: map<Lock, nat>, progs: seq<seq<Op>>)

  function Held(s: System, t: nat): set<Lock> { set l | l in s.owner && s.owner[l] == t }

  /** A thread can move unless it spins on a lock somebody holds. */
  predicate Enabled(s: System, t: nat) {
    t < |s.progs| && s.progs[t] != [] && (s.progs[t][0].Acquire? ==> s.progs[t][0].lock !in s.owner)
  }

  function Step(s: System, t: nat): System
    requires Enabled(s, t)
  {
    var progs := s.progs[t := s.progs[t][1..]];
    match s.progs[t][0]
    case Acquire(l) => System(s.owner[l := t], progs)
    case Release(l) => System(s.owner - {l}, progs)
  }

  ghost predicate Orderly(s: System) {
    && (forall t :: 0 <= t < |s.progs| ==> Disciplined(Held(s, t), s.progs[t]))
    && (forall l :: l in s.owner ==> s.owner[l] < |s.progs|)
  }

  lemma StepOrderly(s: System, t: nat)
    requires Orderly(s) && Enabled(s, t)
    ensures Orderly(Step(s, t))
  {
    var s' := Step(s, t);
    assert Disciplined(Held(s, t), s.progs[t]);
    forall u | 0 <= u < |s'.progs| ensures Disciplined(Held(s', u), s'.progs[u]) {
      if u == t {
        match s.progs[t][0] {
          case Acquire(l) => assert Held(s', t) == Held(s, t) + {l};
          case Release(l) => assert Held(s', t) == Held(s, t) - {l};
        }
      } else {
        assert Disciplined(Held(s, u), s.progs[u]);
        if s.progs[t][0].Release? { assert s.progs[t][0].lock in Held(s, t); }
        assert Held(s', u) == Held(s, u);
      }
    }
  }

  /** All states of all interleavings. */
  ghost predicate IsRun(ss: seq<System>, ts: seq<nat>) {
    && |ss| == |ts| + 1
    && forall i :: 0 <= i < |ts| ==> Enabled(ss[i], ts[i]) && ss[i + 1] == Step(ss[i], ts[i])
  }

  lemma {:induction false} RunOrderly(ss: seq<System>, ts: seq<nat>, i: nat)
    requires IsRun(ss, ts) && Orderly(ss[0]) && i < |ss|
    ensures Orderly(ss[i])
  {
    if i > 0 {
      RunOrderly(ss, ts, i - 1);
      StepOrderly(ss[i - 1], ts[i - 1]);
    }
  }

  /** Thread `t` spins on a lock held by thread `u`. */
  ghost predicate SpinsOn(s: System, t: nat, u: nat) {
    t < |s.progs| && s.progs[t] != [] && s.progs[t][0].Acquire? && s.progs[t][0].lock in s.owner
      && s.owner[s.progs[t][0].lock] == u
  }

  /** Whoever the lock's holder spins on, that lock ranks higher. */
  lemma SpinsUpward(s: System, t: nat, u: nat, v: nat)
    requires Orderly(s) && SpinsOn(s, t, u) && SpinsOn(s, u, v)
    ensures Below(s.progs[t][0].lock, s.progs[u][0].lock)
  {
    assert s.progs[t][0].lock in Held(s, u);
    assert Disciplined(Held(s, u), s.progs[u]);
  }

  lemma BelowTransitive(a: Lock, b: Lock, c: Lock)
    requires Below(a, b) && Below(b, c)
    ensures Below(a, c) && a != c
  {
  }

  /** A chain of threads each spinning on a lock of the next. */
  ghost predicate Chain(s: System, ts: seq<nat>) {
    forall i :: 0 <= i < |ts| - 1 ==> SpinsOn(s, ts[i], ts[i + 1])
  }

  lemma {:induction false} ChainUpward(s: System, ts: seq<nat>, i: nat)
    requires Orderly(s) && Chain(s, ts) && 0 < i < |ts| - 1
    ensures SpinsOn(s, ts[0], ts[1]) && SpinsOn(s, ts[i], ts[i + 1])
            && Below(s.progs[ts[0]][0].lock, s.progs[ts[i]][0].lock)
  {
    assert SpinsOn(s, ts[i - 1], ts[i]) && SpinsOn(s, ts[i], ts[i + 1]) && SpinsOn(s, ts[0], ts[1]);
    SpinsUpward(s, ts[i - 1], ts[i], ts[i + 1]);
    if i > 1 {
      ChainUpward(s, ts, i - 1);
      BelowTransitive(s.progs[ts[0]][0].lock, s.progs[ts[i - 1]][0].lock, s.progs[ts[i]][0].lock);
    }
  }

  /** No circle of lock holders, in any state of any run. */
  lemma NoCircle(ss: seq<System>, ts: seq<nat>, i: nat, chain: seq<nat>)
    requires IsRun(ss, ts) && Orderly(ss[0]) && i < |ss| && |chain| > 1 && Chain(ss[i], chain)
    ensures chain[|chain| - 1] != chain[0]
  {
    var s := ss[i];
    RunOrderly(ss, ts, i);
    if chain[|chain| - 1] == chain[0] {
      var n := |chain| - 2;
      assert SpinsOn(s, chain[n], chain[n + 1]) && SpinsOn(s, chain[0], chain[1]);
      SpinsUpward(s, chain[n], chain[0], chain[1]);
      if n > 0 { ChainUpward(s, chain, n); }
    }
  }

  // ---------------------------------------------------------------- progress

  /** A number for every lock that respects the order, given a bound on the addresses. */
  function Rank(l: Lock, top: nat): nat {
    match l
    case Queue(a) => a
    case Wheel => top
    case Sched => top + 1
  }

  ghost predicate AddressesBelow(s: System, top: nat) {
    forall l :: l in s.owner && l.Queue? ==> l.addr < top
  }

  /** Following the holders upward from a blocked thread ends at one that can move. */
  lemma {:induction false} SomebodyMoves(s: System, t: nat, top: nat) returns (u: nat)
    requires Orderly(s) && AddressesBelow(s, top) && t < |s.progs| && s.progs[t] != []
    ensures Enabled(s, u)
    decreases if Enabled(s, t) then 0 else top + 2 - Rank(s.progs[t][0].lock, top)
  {
    if Enabled(s, t) {
      u := t;
    } else {
      var l := s.progs[t][0].lock;
      var h := s.owner[l];
      assert l in Held(s, h);
      assert Disciplined(Held(s, h), s.progs[h]);
      u := SomebodyMoves(s, h, top);
    }
  }

  lemma {:induction false} TopAddress(locks: set<Lock>) returns (top: nat)
    ensures forall l :: l in locks && l.Queue? ==> l.addr < top
    decreases |locks|
  {
    if locks == {} {
      top := 0;
    } else {
      var l :| l in locks;
      top := TopAddress(locks - {l});
      if l.Queue? && l.addr >= top { top := l.addr + 1; }
      forall m | m in locks && m.Queue? ensures m.addr < top { if m != l { assert m in locks - {l}; } }
    }
  }

  /** Deadlock freedom: as long as any call is unfinished, some thread can move. */
  lemma NoDeadlock(ss: seq<System>, ts: seq<nat>, i: nat, t: nat)
    requires IsRun(ss, ts) && Orderly(ss[0]) && i < |ss| && t < |ss[i].progs| && ss[i].progs[t] != []
    ensures exists u :: Enabled(ss[i], u)
  {
    RunOrderly(ss, ts, i);
    var top := TopAddress(ss[i].owner.Keys);
    var u := SomebodyMoves(ss[i], t, top);
  }

  // ---------------------------------------------------------------- the calls

  function Insert(a: nat, s: seq<nat>): seq<nat> {
    if s == [] || a < s[0] then [a] + s else if a == s[0] then s else [s[0]] + Insert(a, s[1..])
  }

  /** Sorted by address, every queue once. */
  function Ranked(qs: seq<nat>): seq<nat> { if qs == [] then [] else Insert(qs[0], Ranked(qs[1..])) }

  ghost predicate Ascending(s: seq<nat>) { forall i, j :: 0 <= i < j < |s| ==> s[i] < s[j] }

  lemma {:induction false} InsertAscends(a: nat, s: seq<nat>)
    requires Ascending(s)
    ensures Ascending(Insert(a, s)) && forall x :: x in Insert(a, s) <==> x == a || x in s
  {
    if s != [] && a > s[0] {
      InsertAscends(a, s[1..]);
      assert s == [s[0]] + s[1..];
      forall i | 0 <= i < |Insert(a, s[1..])| ensures s[0] < Insert(a, s[1..])[i] {
        var x := Insert(a, s[1..])[i];
        assert x in Insert(a, s[1..]);
        if x != a { assert x in s[1..]; }
      }
    }
  }

  /** `sort_by_key` and `dedup_by_key`: strictly ascending, and the same queues. */
  lemma {:induction false} RankedAscends(qs: seq<nat>)
    ensures Ascending(Ranked(qs)) && forall x :: x in Ranked(qs) <==> x in qs
  {
    if qs != [] {
      RankedAscends(qs[1..]);
      InsertAscends(qs[0], Ranked(qs[1..]));
      assert qs == [qs[0]] + qs[1..];
    }
  }

  /**
   The calls of the wait layer. `blocks` is what the condition said under the locks, `found` whether the queue
   had a waiter, `n` how many waiters were drained or expired, `timed` whether there is a deadline.
   */
  datatype Call =
    | Wait(q: nat)
    | WaitIf(q: nat, blocks: bool)
    | WaitUntil(q: nat, blocks: bool)
    | WaitAny(qs: seq<nat>, blocks: bool, timed: bool)
    | WakeOne(q: nat, found: bool)
    | WakeOneOr(q: nat, found: bool)
    | WakeAll(q: nat, n: nat)
    | Tick(n: nat)

  function Once(l: Lock): seq<Op> { [Acquire(l), Release(l)] }

  function Times(n: nat, ops: seq<Op>): seq<Op> { if n == 0 then [] else ops + Times(n - 1, ops) }

  function AcquireAll(qs: seq<nat>): seq<Op> { if qs == [] then [] else [Acquire(Queue(qs[0]))] + AcquireAll(qs[1..]) }

  function ReleaseAll(qs: seq<nat>): seq<Op> { if qs == [] then [] else [Release(Queue(qs[0]))] + ReleaseAll(qs[1..]) }

  /** Removing the thread from every queue of the list, repeated handles included. */
  function RemoveAll(qs: seq<nat>): seq<Op> { if qs == [] then [] else Once(Queue(qs[0])) + RemoveAll(qs[1..]) }

  /** `block_current`: the scheduler lock to commit the switch, and again to finish it. */
  function Park(): seq<Op> { Once(Sched) + Once(Sched) }

  /** Holding the queue, ask the scheduler something or nothing. */
  function Guarded(q: nat, asks: bool): seq<Op> {
    [Acquire(Queue(q))] + ((if asks then Once(Sched) else []) + [Release(Queue(q))])
  }

  /** The wheel, for a call with a deadline. */
  function OnWheel(timed: bool): seq<Op> { if timed then Once(Wheel) else [] }

  /** The locks a call takes and gives back, in order. */
  function Program(c: Call): seq<Op> {
    match c
    case Wait(q) => Once(Sched) + (Once(Queue(q)) + Park())
    case WaitIf(q, blocks) => Guarded(q, blocks) + (if blocks then Park() else [])
    case WaitUntil(q, blocks) =>
      Guarded(q, blocks) + (if blocks then Once(Wheel) + (Park() + (Once(Queue(q)) + Once(Wheel))) else [])
    case WaitAny(qs, blocks, timed) =>
      (AcquireAll(Ranked(qs)) + ((if blocks then Once(Sched) else []) + ReleaseAll(Ranked(qs))))
      + (if blocks then OnWheel(timed) + (Park() + (RemoveAll(qs) + OnWheel(timed))) else [])
    case WakeOne(q, found) => Guarded(q, found)
    case WakeOneOr(q, found) => Once(Queue(q)) + (if found then Once(Sched) else [])
    case WakeAll(q, n) => Once(Queue(q)) + Times(n, Once(Sched))
    case Tick(n) => [Acquire(Wheel)] + (Times(n, Once(Sched)) + [Release(Wheel)])
  }

  /** A program that starts and ends without locks, before another. */
  lemma {:induction false} ThenDisciplined(held: set<Lock>, a: seq<Op>, b: seq<Op>)
    requires Disciplined(held, a) && Disciplined({}, b)
    ensures Disciplined(held, a + b)
    decreases |a|
  {
    if a == [] {
      assert a + b == b;
    } else {
      assert (a + b)[0] == a[0] && (a + b)[1..] == a[1..] + b;
      match a[0] {
        case Acquire(l) => ThenDisciplined(held + {l}, a[1..], b);
        case Release(l) => ThenDisciplined(held - {l}, a[1..], b);
      }
    }
  }

  /** Taking and giving back one lock above all held leaves the rest as it was. */
  lemma OnceThen(held: set<Lock>, l: Lock, rest: seq<Op>)
    requires (forall h :: h in held ==> Below(h, l)) && Disciplined(held, rest) && l !in held
    ensures Disciplined(held, Once(l) + rest)
  {
    var p := Once(l) + rest;
    assert p[1..] == [Release(l)] + rest && p[1..][1..] == rest;
    assert (held + {l}) - {l} == held;
  }

  lemma OnceAlone(l: Lock)
    ensures Disciplined({}, Once(l))
  {
    OnceThen({}, l, []);
    assert Once(l) + [] == Once(l);
  }

  lemma {:induction false} TimesThen(held: set<Lock>, n: nat, rest: seq<Op>)
    requires (forall h :: h in held ==> Below(h, Sched)) && Disciplined(held, rest) && Sched !in held
    ensures Disciplined(held, Times(n, Once(Sched)) + rest)
  {
    if n == 0 {
      assert Times(0, Once(Sched)) + rest == rest;
    } else {
      TimesThen(held, n - 1, rest);
      OnceThen(held, Sched, Times(n - 1, Once(Sched)) + rest);
      ConcatAssoc(Once(Sched), Times(n - 1, Once(Sched)), rest);
    }
  }

  function Queues(qs: seq<nat>): set<Lock> { set a | a in qs :: Queue(a) }

  lemma {:induction false} ReleaseAllOk(qs: seq<nat>)
    requires Ascending(qs)
    ensures Disciplined(Queues(qs), ReleaseAll(qs))
    decreases |qs|
  {
    if qs == [] {
      assert Queues(qs) == {};
    } else {
      var rest := qs[1..];
      ReleaseAllOk(rest);
      assert qs == [qs[0]] + rest;
      assert qs[0] !in rest;
      assert Queues(qs) - {Queue(qs[0])} == Queues(rest);
      assert Queue(qs[0]) in Queues(qs);
      assert ReleaseAll(qs)[1..] == ReleaseAll(rest);
    }
  }

  lemma {:induction false} AcquireAllOk(done: seq<nat>, qs: seq<nat>, rest: seq<Op>)
    requires Ascending(done + qs) && Disciplined(Queues(done + qs), rest)
    ensures Disciplined(Queues(done), AcquireAll(qs) + rest)
    decreases |qs|
  {
    if qs == [] {
      assert done + qs == done && AcquireAll(qs) + rest == rest;
    } else {
      var a, tail := qs[0], qs[1..];
      assert (done + [a]) + tail == done + qs;
      AcquireAllOk(done + [a], tail, rest);
      var p := AcquireAll(qs) + rest;
      assert p[0] == Acquire(Queue(a)) && p[1..] == AcquireAll(tail) + rest;
      assert Queues(done + [a]) == Queues(done) + {Queue(a)};
      forall h | h in Queues(done) ensures Below(h, Queue(a)) {
        var i :| 0 <= i < |done| && done[i] == h.addr;
        assert (done + qs)[i] < (done + qs)[|done|];
      }
    }
  }

  lemma {:induction false} RemoveAllOk(qs: seq<nat>, rest: seq<Op>)
    requires Disciplined({}, rest)
    ensures Disciplined({}, RemoveAll(qs) + rest)
    decreases |qs|
  {
    if qs == [] {
      assert RemoveAll(qs) + rest == rest;
    } else {
      RemoveAllOk(qs[1..], rest);
      OnceThen({}, Queue(qs[0]), RemoveAll(qs[1..]) + rest);
      ConcatAssoc(Once(Queue(qs[0])), RemoveAll(qs[1..]), rest);
    }
  }

  lemma ParkOk()
    ensures Disciplined({}, Park())
  {
    OnceAlone(Sched);
    OnceThen({}, Sched, Once(Sched));
  }

  lemma WheelOk(timed: bool)
    ensures Disciplined({}, OnWheel(timed))
  {
    if timed { OnceAlone(Wheel); }
  }

  lemma GuardedOk(q: nat, asks: bool)
    ensures Disciplined({}, Guarded(q, asks))
  {
    var l := Queue(q);
    assert {l} - {l} == {} && [Release(l)][1..] == [];
    assert Disciplined({l}, [Release(l)]);
    var tail := (if asks then Once(Sched) else []) + [Release(l)];
    if asks { OnceThen({l}, Sched, [Release(l)]); } else { assert tail == [Release(l)]; }
    var p := [Acquire(l)] + tail;
    assert p[1..] == tail && {} + {l} == {l};
  }

  lemma AllGuardsOk(qs: seq<nat>, asks: bool)
    ensures var r := Ranked(qs); Disciplined({}, AcquireAll(r) + ((if asks then Once(Sched) else []) + ReleaseAll(r)))
  {
    var r := Ranked(qs);
    RankedAscends(qs);
    ReleaseAllOk(r);
    var tail := (if asks then Once(Sched) else []) + ReleaseAll(r);
    if asks { OnceThen(Queues(r), Sched, ReleaseAll(r)); } else { assert tail == ReleaseAll(r); }
    assert [] + r == r && Queues([]) == {};
    AcquireAllOk([], r, tail);
  }

  lemma WaitAnyOk(qs: seq<nat>, blocks: bool, timed: bool)
    ensures Disciplined({}, Program(WaitAny(qs, blocks, timed)))
  {
    AllGuardsOk(qs, blocks);
    WheelOk(timed);
    ParkOk();
    RemoveAllOk(qs, OnWheel(timed));
    var after := RemoveAll(qs) + OnWheel(timed);
    ThenDisciplined({}, Park(), after);
    ThenDisciplined({}, OnWheel(timed), Park() + after);
    var r := Ranked(qs);
    ThenDisciplined({}, AcquireAll(r) + ((if blocks then Once(Sched) else []) + ReleaseAll(r)), if blocks
                    then OnWheel(timed) + (Park() + after) else []);
  }

  lemma TickOk(n: nat)
    ensures Disciplined({}, Program(Tick(n)))
  {
    assert {Wheel} - {Wheel} == {} && [Release(Wheel)][1..] == [];
    assert Disciplined({Wheel}, [Release(Wheel)]);
    TimesThen({Wheel}, n, [Release(Wheel)]);
    var tail := Times(n, Once(Sched)) + [Release(Wheel)];
    var p := [Acquire(Wheel)] + tail;
    assert p[1..] == tail && {} + {Wheel} == {Wheel};
  }

  lemma WaitUntilOk(q: nat, blocks: bool)
    ensures Disciplined({}, Program(WaitUntil(q, blocks)))
  {
    OnceAlone(Wheel);
    ParkOk();
    OnceThen({}, Queue(q), Once(Wheel));
    ThenDisciplined({}, Park(), Once(Queue(q)) + Once(Wheel));
    OnceThen({}, Wheel, Park() + (Once(Queue(q)) + Once(Wheel)));
    GuardedOk(q, blocks);
    ThenDisciplined({}, Guarded(q, blocks), if blocks then Once(Wheel) + (Park() + (Once(Queue(q)) + Once(Wheel)))
                    else []);
  }

  lemma WaitOk(q: nat, blocks: bool)
    ensures Disciplined({}, Program(Wait(q))) && Disciplined({}, Program(WaitIf(q, blocks)))
  {
    ParkOk();
    OnceThen({}, Queue(q), Park());
    OnceThen({}, Sched, Once(Queue(q)) + Park());
    GuardedOk(q, blocks);
    ThenDisciplined({}, Guarded(q, blocks), if blocks then Park() else []);
  }

  lemma WakeOk(q: nat, found: bool, n: nat)
    ensures Disciplined({}, Program(WakeOneOr(q, found))) && Disciplined({}, Program(WakeAll(q, n)))
  {
    OnceAlone(Sched);
    OnceThen({}, Queue(q), if found then Once(Sched) else []);
    TimesThen({}, n, []);
    assert Times(n, Once(Sched)) + [] == Times(n, Once(Sched));
    OnceThen({}, Queue(q), Times(n, Once(Sched)));
  }

  /** Every call of the wait layer keeps the discipline, for every list of queues. */
  lemma CallsDisciplined(c: Call)
    ensures Disciplined({}, Program(c))
  {
    match c {
      case Wait(q) => WaitOk(q, true);
      case WaitIf(q, blocks) => WaitOk(q, blocks);
      case WaitUntil(q, blocks) => WaitUntilOk(q, blocks);
      case WaitAny(qs, blocks, timed) => WaitAnyOk(qs, blocks, timed);
      case WakeOne(q, found) => GuardedOk(q, found);
      case WakeOneOr(q, found) => WakeOk(q, found, 0);
      case WakeAll(q, n) => WakeOk(q, true, n);
      case Tick(n) => TickOk(n);
    }
  }

  /** What a thread runs: one call after another. */
  function Script(cs: seq<Call>): seq<Op> { if cs == [] then [] else Program(cs[0]) + Script(cs[1..]) }

  lemma {:induction false} ScriptDisciplined(cs: seq<Call>)
    ensures Disciplined({}, Script(cs))
    decreases |cs|
  {
    if cs != [] {
      CallsDisciplined(cs[0]);
      ScriptDisciplined(cs[1..]);
      ThenDisciplined({}, Program(cs[0]), Script(cs[1..]));
    }
  }

  /** Any number of threads making any calls: whatever the interleaving, an unfinished call never means a deadlock. */
  lemma WaitLayerNeverDeadlocks(scripts: seq<seq<Call>>, ss: seq<System>, ts: seq<nat>, i: nat, t: nat)
    requires IsRun(ss, ts) && ss[0].owner == map[] && |ss[0].progs| == |scripts|
    requires forall u :: 0 <= u < |scripts| ==> ss[0].progs[u] == Script(scripts[u])
    requires i < |ss| && t < |ss[i].progs| && ss[i].progs[t] != []
    ensures exists u :: Enabled(ss[i], u)
  {
    forall u | 0 <= u < |scripts| ensures Disciplined(Held(ss[0], u), ss[0].progs[u]) {
      assert Held(ss[0], u) == {};
      ScriptDisciplined(scripts[u]);
    }
    NoDeadlock(ss, ts, i, t);
  }

  // ---------------------------------------------------------------- what a call locks

  /** How often a program takes a lock. */
  function Acquires(prog: seq<Op>, l: Lock): nat {
    if prog == [] then 0 else (if prog[0] == Acquire(l) then 1 else 0) + Acquires(prog[1..], l)
  }

  lemma {:induction false} AcquiresConcat(a: seq<Op>, b: seq<Op>, l: Lock)
    ensures Acquires(a + b, l) == Acquires(a, l) + Acquires(b, l)
  {
    if a == [] {
      assert a + b == b;
    } else {
      assert (a + b)[0] == a[0] && (a + b)[1..] == a[1..] + b;
      AcquiresConcat(a[1..], b, l);
    }
  }

  function One(b: bool): nat { if b then 1 else 0 }

  lemma AcquiresOnce(m: Lock, l: Lock)
    ensures Acquires([Acquire(m)], l) == One(m == l) && Acquires([Release(m)], l) == 0
    ensures Acquires(Once(m), l) == One(m == l)
  {
    assert [Acquire(m)] + [Release(m)] == Once(m);
    AcquiresConcat([Acquire(m)], [Release(m)], l);
  }

  lemma {:induction false} AcquiresTimes(n: nat, l: Lock)
    ensures Acquires(Times(n, Once(Sched)), l) == if l == Sched then n else 0
  {
    if n > 0 {
      AcquiresTimes(n - 1, l);
      AcquiresOnce(Sched, l);
      AcquiresConcat(Once(Sched), Times(n - 1, Once(Sched)), l);
    }
  }

  lemma {:induction false} AcquiresAll(qs: seq<nat>, l: Lock)
    ensures Acquires(AcquireAll(qs), l) == if l.Queue? then multiset(qs)[l.addr] else 0
    ensures Acquires(ReleaseAll(qs), l) == 0
    ensures Acquires(RemoveAll(qs), l) == if l.Queue? then multiset(qs)[l.addr] else 0
  {
    if qs != [] {
      var q, rest := qs[0], qs[1..];
      assert qs == [q] + rest;
      AcquiresAll(rest, l);
      AcquiresOnce(Queue(q), l);
      AcquiresConcat([Acquire(Queue(q))], AcquireAll(rest), l);
      AcquiresConcat([Release(Queue(q))], ReleaseAll(rest), l);
      AcquiresConcat(Once(Queue(q)), RemoveAll(rest), l);
    }
  }

  lemma {:induction false} AscendingOnce(s: seq<nat>, a: nat)
    requires Ascending(s)
    ensures multiset(s)[a] == One(a in s)
  {
    if s != [] {
      AscendingOnce(s[1..], a);
      assert s == [s[0]] + s[1..];
    }
  }

  lemma AcquiresPark(l: Lock)
    ensures Acquires(Park(), l) == if l == Sched then 2 else 0
  {
    AcquiresOnce(Sched, l);
    AcquiresConcat(Once(Sched), Once(Sched), l);
  }

  lemma AcquiresIf(b: bool, m: Lock, l: Lock)
    ensures Acquires(if b then Once(m) else [], l) == One(b && m == l)
  {
    AcquiresOnce(m, l);
  }

  lemma AcquiresGuarded(q: nat, asks: bool, l: Lock)
    ensures Acquires(Guarded(q, asks), l) == One(l == Queue(q)) + One(asks && l == Sched)
  {
    var ask := if asks then Once(Sched) else [];
    AcquiresIf(asks, Sched, l);
    AcquiresOnce(Queue(q), l);
    AcquiresConcat(ask, [Release(Queue(q))], l);
    AcquiresConcat([Acquire(Queue(q))], ask + [Release(Queue(q))], l);
  }

  /**
   How often each lock is taken: a wait that blocks asks the scheduler three times, to mark, to commit and to finish,
   and locks every queue once to enqueue and, timed or multiple, once per handle to clean up; a wake locks its queue
   once and the scheduler once for each thread woken.
   */
  function Takes(c: Call, l: Lock): nat {
    match c
    case Wait(q) => if l == Sched then 3 else One(l == Queue(q))
    case WaitIf(q, blocks) => One(l == Queue(q)) + if blocks && l == Sched then 3 else 0
    case WaitUntil(q, blocks) =>
      if !blocks then One(l == Queue(q)) else if l == Sched then 3 else if l == Wheel || l == Queue(q) then 2 else 0
    case WaitAny(qs, blocks, timed) =>
      (match l
       case Sched => if blocks then 3 else 0
       case Wheel => if blocks && timed then 2 else 0
       case Queue(a) => One(a in qs) + if blocks then multiset(qs)[a] else 0)
    case WakeOne(q, found) => One(l == Queue(q)) + One(found && l == Sched)
    case WakeOneOr(q, found) => One(l == Queue(q)) + One(found && l == Sched)
    case WakeAll(q, n) => if l == Sched then n else One(l == Queue(q))
    case Tick(n) => if l == Sched then n else One(l == Wheel)
  }

  lemma WaitTakes(q: nat, l: Lock)
    ensures Acquires(Program(Wait(q)), l) == Takes(Wait(q), l)
  {
    AcquiresOnce(Sched, l);
    AcquiresOnce(Queue(q), l);
    AcquiresPark(l);
    AcquiresConcat(Once(Queue(q)), Park(), l);
    AcquiresConcat(Once(Sched), Once(Queue(q)) + Park(), l);
  }

  lemma WaitIfTakes(q: nat, blocks: bool, l: Lock)
    ensures Acquires(Program(WaitIf(q, blocks)), l) == Takes(WaitIf(q, blocks), l)
  {
    AcquiresGuarded(q, blocks, l);
    AcquiresPark(l);
    AcquiresConcat(Guarded(q, blocks), if blocks then Park() else [], l);
  }

  lemma WaitUntilTakes(q: nat, blocks: bool, l: Lock)
    ensures Acquires(Program(WaitUntil(q, blocks)), l) == Takes(WaitUntil(q, blocks), l)
  {
    AcquiresGuarded(q, blocks, l);
    AcquiresPark(l);
    AcquiresOnce(Wheel, l);
    AcquiresOnce(Queue(q), l);
    var clean := Once(Queue(q)) + Once(Wheel);
    AcquiresConcat(Once(Queue(q)), Once(Wheel), l);
    AcquiresConcat(Park(), clean, l);
    AcquiresConcat(Once(Wheel), Park() + clean, l);
    AcquiresConcat(Guarded(q, blocks), if blocks then Once(Wheel) + (Park() + clean) else [], l);
  }

  lemma WaitAnyTakes(qs: seq<nat>, blocks: bool, timed: bool, l: Lock)
    ensures Acquires(Program(WaitAny(qs, blocks, timed)), l) == Takes(WaitAny(qs, blocks, timed), l)
  {
    var r, mark := Ranked(qs), if blocks then Once(Sched) else [];
    RankedAscends(qs);
    if l.Queue? { AscendingOnce(r, l.addr); }
    AcquiresAll(r, l);
    AcquiresIf(blocks, Sched, l);
    AcquiresConcat(mark, ReleaseAll(r), l);
    var lock := AcquireAll(r) + (mark + ReleaseAll(r));
    AcquiresConcat(AcquireAll(r), mark + ReleaseAll(r), l);
    var rest := if blocks then OnWheel(timed) + (Park() + (RemoveAll(qs) + OnWheel(timed))) else [];
    AfterTakes(qs, timed, l);
    AcquiresConcat(lock, rest, l);
  }

  lemma AfterTakes(qs: seq<nat>, timed: bool, l: Lock)
    ensures Acquires(OnWheel(timed) + (Park() + (RemoveAll(qs) + OnWheel(timed))), l)
         == match l
            case Sched => 2
            case Wheel => 2 * One(timed)
            case Queue(a) => multiset(qs)[a]
  {
    AcquiresIf(timed, Wheel, l);
    AcquiresPark(l);
    AcquiresAll(qs, l);
    AcquiresConcat(RemoveAll(qs), OnWheel(timed), l);
    AcquiresConcat(Park(), RemoveAll(qs) + OnWheel(timed), l);
    AcquiresConcat(OnWheel(timed), Park() + (RemoveAll(qs) + OnWheel(timed)), l);
  }

  lemma WakeTakes(q: nat, found: bool, n: nat, l: Lock)
    ensures Acquires(Program(WakeOne(q, found)), l) == Takes(WakeOne(q, found), l)
    ensures Acquires(Program(WakeOneOr(q, found)), l) == Takes(WakeOneOr(q, found), l)
    ensures Acquires(Program(WakeAll(q, n)), l) == Takes(WakeAll(q, n), l)
  {
    AcquiresGuarded(q, found, l);
    AcquiresOnce(Queue(q), l);
    AcquiresIf(found, Sched, l);
    AcquiresTimes(n, l);
    AcquiresConcat(Once(Queue(q)), if found then Once(Sched) else [], l);
    AcquiresConcat(Once(Queue(q)), Times(n, Once(Sched)), l);
  }

  lemma TickTakes(n: nat, l: Lock)
    ensures Acquires(Program(Tick(n)), l) == Takes(Tick(n), l)
  {
    AcquiresOnce(Wheel, l);
    AcquiresTimes(n, l);
    AcquiresConcat(Times(n, Once(Sched)), [Release(Wheel)], l);
    AcquiresConcat([Acquire(Wheel)], Times(n, Once(Sched)) + [Release(Wheel)], l);
  }

  lemma CallTakes(c: Call, l: Lock)
    ensures Acquires(Program(c), l) == Takes(c, l)
  {
    match c
    case Wait(q) => WaitTakes(q, l);
    case WaitIf(q, blocks) => WaitIfTakes(q, blocks, l);
    case WaitUntil(q, blocks) => WaitUntilTakes(q, blocks, l);
    case WaitAny(qs, blocks, timed) => WaitAnyTakes(qs, blocks, timed, l);
    case WakeOne(q, found) => WakeTakes(q, found, 0, l);
    case WakeOneOr(q, found) => WakeTakes(q, found, 0, l);
    case WakeAll(q, n) => WakeTakes(q, false, n, l);
    case Tick(n) => TickTakes(n, l);
  }

  /** The locks held after the first `n` operations. */
  function HeldAfter(prog: seq<Op>, n: nat): set<Lock>
    requires n <= |prog|
  {
    if n == 0 then {}
    else match prog[n - 1]
      case Acquire(l) => HeldAfter(prog, n - 1) + {l}
      case Release(l) => HeldAfter(prog, n - 1) - {l}
  }

  lemma {:induction false} AcquiredSoFar(qs: seq<nat>, rest: seq<Op>, n: nat)
    requires n <= |qs|
    ensures |AcquireAll(qs)| == |qs| && HeldAfter(AcquireAll(qs) + rest, n) == Queues(qs[..n])
    ensures n < |qs| ==> (AcquireAll(qs) + rest)[n] == Acquire(Queue(qs[n]))
  {
    AcquireAt(qs, n);
    if n > 0 {
      AcquiredSoFar(qs, rest, n - 1);
      assert qs[..n] == qs[..n - 1] + [qs[n - 1]];
      assert Queues(qs[..n]) == Queues(qs[..n - 1]) + {Queue(qs[n - 1])};
    }
  }

  lemma {:induction false} AcquireAt(qs: seq<nat>, n: nat)
    ensures |AcquireAll(qs)| == |qs| && (n < |qs| ==> AcquireAll(qs)[n] == Acquire(Queue(qs[n])))
  {
    if qs != [] { AcquireAt(qs[1..], if n > 0 then n - 1 else 0); }
  }

  /**
   A multi-wait evaluates its condition, and marks itself blocking, with every queue of the list locked at once:
   the `|Ranked(qs)|` operations before that leave it holding exactly these, whatever the condition says.
   */
  lemma AllHeldAtOnce(qs: seq<nat>, blocks: bool, timed: bool)
    ensures var p, n := Program(WaitAny(qs, blocks, timed)), |Ranked(qs)|;
            n <= |p| && HeldAfter(p, n) == Queues(qs) && (blocks ==> n < |p| && p[n] == Acquire(Sched))
  {
    var r, mark := Ranked(qs), if blocks then Once(Sched) else [];
    var after := if blocks then OnWheel(timed) + (Park() + (RemoveAll(qs) + OnWheel(timed))) else [];
    RankedAscends(qs);
    var rest := (mark + ReleaseAll(r)) + after;
    ConcatAssoc(AcquireAll(r), mark + ReleaseAll(r), after);
    AcquiredSoFar(r, rest, |r|);
    assert r[..|r|] == r;
    assert Queues(r) == Queues(qs);
  }
}
