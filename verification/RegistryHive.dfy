/** Rebuilding a hive from its own records: exactly when it works. */
module RegistryHive {
  import opened Common
  import opened Registry
  import opened RegistryPaths

  function Dropped(cs: seq<Change>): seq<Change> {
    if cs == [] then [] else [Change(DropRegistry(cs[0].path), cs[0].act)] + Dropped(cs[1..])
  }

  lemma {:induction false} MatchDecoded(recs: seq<Rec>, cs: seq<Change>)
    requires Match(recs, [], cs)
    ensures Decoded(recs) == Dropped(cs)
    decreases |recs|
  {
    if recs != [] {
      assert ReadsAs(recs[0], [], cs[0]);
      assert [] + cs[0].path == cs[0].path;
      forall j | 0 <= j < |recs[1..]| ensures ReadsAs(recs[1..][j], [], cs[1..][j]) {
        assert ReadsAs(recs[j + 1], [], cs[j + 1]);
      }
      MatchDecoded(recs[1..], cs[1..]);
    }
  }

  /** What the parser sees of a hive. */
  lemma HiveSeen(k: Key)
    requires Held(k)
    ensures Decoded(Walk(k, [])) == Dropped(Changes(k))
  {
    WalkMatch(k, []);
    assert Join([]) == [];
    MatchDecoded(Walk(k, []), Changes(k));
  }

  // ---------------------------------------------------------------- without a child called `registry`

  ghost predicate StartsIn(k: Key, c: Change) {
    c.path == [] || exists i :: 0 <= i < |k.subkeys| && k.subkeys[i].name == c.path[0]
  }

  ghost predicate AllStartIn(k: Key, cs: seq<Change>) {
    forall j :: 0 <= j < |cs| ==> StartsIn(k, cs[j])
  }

  lemma {:induction false} SubsStartIn(k: Key, i: nat)
    requires i <= |k.subkeys|
    ensures AllStartIn(k, SubChanges(k, i))
    decreases i
  {
    if i > 0 {
      var e := k.subkeys[i - 1];
      SubsStartIn(k, i - 1);
      UnderAt(e.name, Changes(e.key));
      var more := [Change([e.name], Touch)] + Under(e.name, Changes(e.key));
      forall j | 0 <= j < |more| ensures StartsIn(k, more[j]) {
        assert more[j].path[0] == e.name;
      }
    }
  }

  lemma {:induction false} ValuesAtKey(vals: seq<Val>)
    ensures forall j :: 0 <= j < |ValueChanges(vals)| ==> ValueChanges(vals)[j].path == []
    decreases |vals|
  {
    if vals != [] { ValuesAtKey(vals[..|vals| - 1]); }
  }

  /** Every change addresses the key itself or goes through one of its children. */
  lemma ChangesStartIn(k: Key)
    ensures AllStartIn(k, Changes(k))
  {
    SubsStartIn(k, |k.subkeys|);
    ValuesAtKey(k.values);
  }

  ghost predicate HasRegistryChild(k: Key) { exists i :: 0 <= i < |k.subkeys| && k.subkeys[i].name == REGISTRY }

  lemma {:induction false} NothingDropped(k: Key, cs: seq<Change>)
    requires !HasRegistryChild(k) && AllStartIn(k, cs)
    ensures Dropped(cs) == cs
    decreases |cs|
  {
    if cs != [] {
      assert StartsIn(k, cs[0]);
      forall j | 0 <= j < |cs[1..]| ensures StartsIn(k, cs[1..][j]) { assert StartsIn(k, cs[j + 1]); }
      NothingDropped(k, cs[1..]);
    }
  }

  // ---------------------------------------------------------------- with one

  /** `d` keys called `registry`, one inside the other. */
  predicate HasChain(k: Key, d: nat)
    decreases d
  {
    d == 0 || (GetSub(k.subkeys, REGISTRY).Some? && HasChain(GetSub(k.subkeys, REGISTRY).value, d - 1))
  }

  /** Leading components called `registry`. */
  function Lead(path: seq<Str>): nat
    decreases |path|
  {
    if path != [] && path[0] == REGISTRY then 1 + Lead(path[1..]) else 0
  }

  lemma {:induction false} GetAfterSet(subs: seq<Entry>, n: Str, key: Key, m: Str)
    ensures GetSub(SetSub(subs, n, key), m) == if m == n then Some(key) else GetSub(subs, m)
    decreases |subs|
  {
    if subs != [] && !Less(n, subs[0].name) && subs[0].name != n { GetAfterSet(subs[1..], n, key, m); }
  }

  /** A change along a path cannot make the chain longer than the path's own lead. */
  lemma {:induction false} ModifyChain(k: Key, path: seq<Str>, a: Action, d: nat)
    requires !HasChain(k, d) && Lead(path) < d
    ensures !HasChain(Modify(k, path, a), d)
    decreases |path|
  {
    if path != [] {
      var c := GetSub(k.subkeys, path[0]);
      var child := if c.Some? then c.value else EMPTY;
      GetAfterSet(k.subkeys, path[0], Modify(child, path[1..], a), REGISTRY);
      if path[0] == REGISTRY { ModifyChain(child, path[1..], a, d - 1); }
    }
  }

  ghost predicate ShortLeads(cs: seq<Change>, d: nat) {
    forall j :: 0 <= j < |cs| ==> Lead(cs[j].path) < d
  }

  lemma {:induction false} RunChain(k: Key, cs: seq<Change>, d: nat)
    requires !HasChain(k, d) && ShortLeads(cs, d)
    ensures !HasChain(Run(k, cs), d)
    decreases |cs|
  {
    if cs != [] {
      ModifyChain(k, cs[0].path, cs[0].act, d);
      RunChain(Modify(k, cs[0].path, cs[0].act), cs[1..], d);
    }
  }

  /** Every change of a tree leads no deeper into `registry` keys than the tree goes. */
  ghost predicate LeadsInside(k: Key, cs: seq<Change>) {
    forall j :: 0 <= j < |cs| ==> HasChain(k, Lead(cs[j].path))
  }

  lemma {:induction false} GetAt(subs: seq<Entry>, i: nat)
    requires i < |subs| && forall a, b :: 0 <= a < b < |subs| ==> Less(subs[a].name, subs[b].name)
    ensures GetSub(subs, subs[i].name) == Some(subs[i].key)
    decreases |subs|
  {
    if i > 0 {
      LessOneWay(subs[0].name, subs[i].name);
      GetAt(subs[1..], i - 1);
    }
  }

  lemma ChildLeads(k: Key, i: nat)
    requires Sorted(k) && i < |k.subkeys| && LeadsInside(k.subkeys[i].key, Changes(k.subkeys[i].key))
    ensures var e := k.subkeys[i]; LeadsInside(k, [Change([e.name], Touch)] + Under(e.name, Changes(e.key)))
  {
    var e := k.subkeys[i];
    var cs := Changes(e.key);
    GetAt(k.subkeys, i);
    UnderAt(e.name, cs);
    var more := [Change([e.name], Touch)] + Under(e.name, cs);
    assert [e.name][1..] == [];
    forall j | 0 <= j < |more| ensures HasChain(k, Lead(more[j].path)) {
      if j > 0 {
        assert HasChain(e.key, Lead(cs[j - 1].path));
        assert more[j].path == [e.name] + cs[j - 1].path && more[j].path[1..] == cs[j - 1].path;
      }
    }
  }

  lemma LeadsConcat(k: Key, a: seq<Change>, b: seq<Change>)
    requires LeadsInside(k, a) && LeadsInside(k, b)
    ensures LeadsInside(k, a + b)
  {
  }

  lemma OneMoreLeads(k: Key, j: nat)
    requires j < |k.subkeys| && LeadsInside(k, SubChanges(k, j))
    requires var e := k.subkeys[j]; LeadsInside(k, [Change([e.name], Touch)] + Under(e.name, Changes(e.key)))
    ensures LeadsInside(k, SubChanges(k, j + 1))
  {
    var e := k.subkeys[j];
    var more := [Change([e.name], Touch)] + Under(e.name, Changes(e.key));
    LeadsConcat(k, SubChanges(k, j), more);
    assert SubChanges(k, j + 1) == SubChanges(k, j) + more;
  }

  lemma {:induction false} SubsLead(k: Key, i: nat)
    requires Sorted(k) && i <= |k.subkeys|
    ensures LeadsInside(k, SubChanges(k, i))
    decreases k, i
  {
    if i > 0 {
      var j: nat := i - 1;
      SubsLead(k, j);
      ChangesLead(k.subkeys[j].key);
      ChildLeads(k, j);
      OneMoreLeads(k, j);
    }
  }

  lemma {:induction false} ChangesLead(k: Key)
    requires Sorted(k)
    ensures LeadsInside(k, Changes(k))
    decreases k, |k.subkeys| + 1
  {
    SubsLead(k, |k.subkeys|);
    ValuesAtKey(k.values);
  }

  lemma {:induction false} ChainShorter(k: Key, d: nat, e: nat)
    requires HasChain(k, d) && e <= d
    ensures HasChain(k, e)
    decreases d
  {
    if e > 0 { ChainShorter(GetSub(k.subkeys, REGISTRY).value, d - 1, e - 1); }
  }

  lemma {:induction false} GetSmaller(subs: seq<Entry>, n: Str) returns (i: nat)
    requires GetSub(subs, n).Some?
    ensures i < |subs| && subs[i].name == n && GetSub(subs, n) == Some(subs[i].key)
    decreases |subs|
  {
    if subs[0].name == n {
      i := 0;
    } else {
      i := GetSmaller(subs[1..], n);
      i := i + 1;
    }
  }

  /** Chains in a finite tree are bounded. */
  lemma {:induction false} LongestChain(k: Key) returns (d: nat)
    ensures HasChain(k, d) && !HasChain(k, d + 1)
    decreases k
  {
    d := 0;
    if GetSub(k.subkeys, REGISTRY).Some? {
      var i := GetSmaller(k.subkeys, REGISTRY);
      d := LongestChain(k.subkeys[i].key);
      d := d + 1;
    }
  }

  lemma {:induction false} DroppedLeads(k: Key, cs: seq<Change>, d: nat)
    requires d > 0 && LeadsInside(k, cs) && !HasChain(k, d + 1)
    ensures ShortLeads(Dropped(cs), d)
    decreases |cs|
  {
    if cs != [] {
      assert HasChain(k, Lead(cs[0].path));
      if Lead(cs[0].path) > d { ChainShorter(k, Lead(cs[0].path), d + 1); }
      forall j | 0 <= j < |cs[1..]| ensures HasChain(k, Lead(cs[1..][j].path)) {
        assert HasChain(k, Lead(cs[j + 1].path));
      }
      DroppedLeads(k, cs[1..], d);
    }
  }

  /** With such a child the rebuilt tree has a shorter chain of `registry` keys, so it is not the same tree. */
  lemma RegistryLost(k: Key)
    requires Sorted(k) && HasRegistryChild(k)
    ensures Run(EMPTY, Dropped(Changes(k))) != k
  {
    var i :| 0 <= i < |k.subkeys| && k.subkeys[i].name == REGISTRY;
    GetAt(k.subkeys, i);
    assert HasChain(k.subkeys[i].key, 0) && HasChain(k, 1);
    var d := LongestChain(k);
    ChangesLead(k);
    DroppedLeads(k, Changes(k), d);
    RunChain(EMPTY, Dropped(Changes(k)), d);
  }

  // ---------------------------------------------------------------- the round trip

  /**
   Replaying the records of a hive on an empty key rebuilds the hive exactly - subkeys, values, types, data and
   owners - if and only if no direct child of its root is called `registry`.
   */
  lemma HiveRecords(k: Key)
    requires Held(k) && Sorted(k)
    ensures Run(EMPTY, Decoded(Walk(k, []))) == k <==> !HasRegistryChild(k)
  {
    HiveSeen(k);
    if HasRegistryChild(k) {
      RegistryLost(k);
    } else {
      ChangesStartIn(k);
      NothingDropped(k, Changes(k));
      Rebuilt(k);
    }
  }
}
