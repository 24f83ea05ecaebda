/** The tick clock and its wheel of sleepers. */
module Timer {
  import opened Common

  type Thread = nat

  /** A thread to be unblocked once the clock reaches `deadline`. */
  datatype Sleeper = Sleeper(deadline: nat, thread: Thread)

  lemma SwapRemoveCounts(s: seq<Sleeper>, i: nat)
    requires i < |s|
    ensures multiset(SwapRemove(s, i)) + multiset{s[i]} == multiset(s)
  {
    var n := |s| - 1;
    assert s == s[..n] + [s[n]];
    if i < n { assert multiset(s[..n][i := s[n]]) == multiset(s[..n]) - multiset{s[i]} + multiset{s[n]}; }
  }

  /** How often a thread is on the wheel. */
  function Entries(s: seq<Sleeper>, t: Thread): nat {
    if s == [] then 0 else Entries(s[..|s| - 1], t) + if s[|s| - 1].thread == t then 1 else 0
  }

  lemma {:induction false} EntriesUpdate(s: seq<Sleeper>, i: nat, x: Sleeper, t: Thread)
    requires i < |s|
    ensures Entries(s[i := x], t) == Entries(s, t) - (if s[i].thread == t then 1 else 0) + (if x.thread == t then 1
            else 0)
  {
    var n := |s| - 1;
    if i < n {
      assert s[i := x][..n] == s[..n][i := x];
      EntriesUpdate(s[..n], i, x, t);
    } else {
      assert s[i := x][..n] == s[..n];
    }
  }

  lemma EntriesRemoved(s: seq<Sleeper>, i: nat, t: Thread)
    requires i < |s|
    ensures Entries(SwapRemove(s, i), t) == Entries(s, t) - if s[i].thread == t then 1 else 0
  {
    var n := |s| - 1;
    if i < n { EntriesUpdate(s[..n], i, s[n], t); }
  }

  lemma {:induction false} EntriesZero(s: seq<Sleeper>, t: Thread)
    ensures Entries(s, t) == 0 <==> forall i :: 0 <= i < |s| ==> s[i].thread != t
  {
    if s != [] { EntriesZero(s[..|s| - 1], t); }
  }

  class Clock {
    var ticks: nat
    var wheel: seq<Sleeper>

    constructor ()
      ensures ticks == 0 && wheel == []
    {
      ticks, wheel := 0, [];
    }

    /**
     `tick`: advance the clock and take every expired sleeper off the wheel. Nobody is woken early, nobody whose
     deadline has come stays, and nobody is lost or woken twice.
     */
    method Tick() returns (woken: seq<Sleeper>)
      modifies this
      ensures ticks == old(ticks) + 1
      ensures multiset(wheel) + multiset(woken) == multiset(old(wheel))
      ensures forall i :: 0 <= i < |woken| ==> woken[i].deadline <= ticks
      ensures forall i :: 0 <= i < |wheel| ==> ticks < wheel[i].deadline
    {
      ticks := ticks + 1;
      woken := [];
      var i := 0;
      while i < |wheel|
        invariant 0 <= i <= |wheel| && ticks == old(ticks) + 1
        invariant multiset(wheel) + multiset(woken) == multiset(old(wheel))
        invariant forall j :: 0 <= j < |woken| ==> woken[j].deadline <= ticks
        invariant forall j :: 0 <= j < i ==> ticks < wheel[j].deadline
        decreases |wheel| - i
      {
        if wheel[i].deadline <= ticks {
          SwapRemoveCounts(wheel, i);
          woken := woken + [wheel[i]];
          wheel := SwapRemove(wheel, i);
        } else {
          i := i + 1;
        }
      }
    }

    /** `arm`. */
    method Arm(deadline: nat, t: Thread)
      modifies this
      ensures ticks == old(ticks) && wheel == old(wheel) + [Sleeper(deadline, t)]
    {
      wheel := wheel + [Sleeper(deadline, t)];
    }

    /** `disarm`: drop the thread's first entry, if it has one; everybody else keeps theirs. */
    method Disarm(t: Thread)
      modifies this
      ensures ticks == old(ticks)
      ensures forall u ::
              Entries(wheel, u) == if u == t
                      && Entries(old(wheel), t) > 0 then Entries(old(wheel), t) - 1 else Entries(old(wheel), u)
      ensures multiset(wheel) <= multiset(old(wheel))
    {
      var i := 0;
      while i < |wheel|
        invariant 0 <= i <= |wheel| && wheel == old(wheel) && ticks == old(ticks)
        invariant forall j :: 0 <= j < i ==> wheel[j].thread != t
      {
        if wheel[i].thread == t {
          EntriesZero(wheel, t);
          forall u ensures Entries(SwapRemove(wheel, i), u) == Entries(wheel, u) - if u == t then 1 else 0 {
            EntriesRemoved(wheel, i, u);
          }
          SwapRemoveCounts(wheel, i);
          wheel := SwapRemove(wheel, i);
          return;
        }
        i := i + 1;
      }
      EntriesZero(wheel, t);
    }
  }
}
