/** The registry tree, its path-addressed records, and rebuilding a tree from them. */
module Registry {
  import opened Common

  /** Strings as their bytes. */
  type Str = seq<byte>

  datatype Value = Value(ty: nat, data: seq<byte>)
  datatype Val = Val(name: Str, value: Value)
  datatype Entry = Entry(name: Str, key: Key)

  /** A key; both lists are kept in ascending order of names. */
  datatype Key = Key(subkeys: seq<Entry>, values: seq<Val>, owner: nat)

  const EMPTY: Key := Key([], [], 0)

  // ---------------------------------------------------------------- ordered maps

  predicate Less(a: Str, b: Str) {
    b != [] && (a == [] || a[0] < b[0] || (a[0] == b[0] && Less(a[1..], b[1..])))
  }

  lemma {:induction false} LessOneWay(a: Str, b: Str)
    requires Less(a, b)
    ensures !Less(b, a) && a != b
  {
    if a != [] && a[0] == b[0] { LessOneWay(a[1..], b[1..]); }
  }

  function GetSub(subs: seq<Entry>, n: Str): Option<Key> {
    if subs == [] then None else if subs[0].name == n then Some(subs[0].key) else GetSub(subs[1..], n)
  }

  function SetSub(subs: seq<Entry>, n: Str, key: Key): seq<Entry> {
    if subs == [] || Less(n, subs[0].name) then [Entry(n, key)] + subs
    else if subs[0].name == n then [Entry(n, key)] + subs[1..]
    else [subs[0]] + SetSub(subs[1..], n, key)
  }

  function SetVal(vals: seq<Val>, n: Str, value: Value): seq<Val> {
    if vals == [] || Less(n, vals[0].name) then [Val(n, value)] + vals
    else if vals[0].name == n then [Val(n, value)] + vals[1..]
    else [vals[0]] + SetVal(vals[1..], n, value)
  }

  ghost predicate SubsBelow(subs: seq<Entry>, n: Str) {
    forall i :: 0 <= i < |subs| ==> Less(subs[i].name, n)
  }

  ghost predicate ValsBelow(vals: seq<Val>, n: Str) {
    forall i :: 0 <= i < |vals| ==> Less(vals[i].name, n)
  }

  /** A name above all others is added at the end, and found and replaced there. */
  lemma {:induction false} SubAtEnd(subs: seq<Entry>, n: Str, old_: Key, key: Key)
    requires SubsBelow(subs, n)
    ensures GetSub(subs, n).None? && SetSub(subs, n, key) == subs + [Entry(n, key)]
    ensures GetSub(subs + [Entry(n, old_)], n) == Some(old_)
            && SetSub(subs + [Entry(n, old_)], n, key) == subs + [Entry(n, key)]
  {
    if subs == [] {
      assert [] + [Entry(n, old_)] == [Entry(n, old_)];
      if Less(n, n) { LessOneWay(n, n); }
    } else {
      LessOneWay(subs[0].name, n);
      SubAtEnd(subs[1..], n, old_, key);
      assert (subs + [Entry(n, old_)])[1..] == subs[1..] + [Entry(n, old_)];
    }
  }

  lemma {:induction false} ValAtEnd(vals: seq<Val>, n: Str, value: Value)
    requires ValsBelow(vals, n)
    ensures SetVal(vals, n, value) == vals + [Val(n, value)]
  {
    if vals != [] {
      LessOneWay(vals[0].name, n);
      ValAtEnd(vals[1..], n, value);
    }
  }

  // ---------------------------------------------------------------- addressed changes

  datatype Action = Touch | SetOwner(uid: nat) | SetValue(name: Str, value: Value)

  function Act(k: Key, a: Action): Key {
    match a
    case Touch => k
    case SetOwner(uid) => k.(owner := uid)
    case SetValue(n, v) => k.(values := SetVal(k.values, n, v))
  }

  /** `make` followed by a change: walk the path, creating what is missing, and act at its end. */
  function Modify(k: Key, path: seq<Str>, a: Action): Key
    decreases |path|
  {
    if path == [] then Act(k, a)
    else
      var c := GetSub(k.subkeys, path[0]);
      k.(subkeys := SetSub(k.subkeys, path[0], Modify(if c.Some? then c.value else EMPTY, path[1..], a)))
  }

  datatype Change = Change(path: seq<Str>, act: Action)

  function Run(k: Key, cs: seq<Change>): Key
    decreases |cs|
  {
    if cs == [] then k else Run(Modify(k, cs[0].path, cs[0].act), cs[1..])
  }

  lemma {:induction false} RunConcat(k: Key, a: seq<Change>, b: seq<Change>)
    ensures Run(k, a + b) == Run(Run(k, a), b)
    decreases |a|
  {
    if a == [] {
      assert a + b == b;
    } else {
      assert (a + b)[1..] == a[1..] + b;
      RunConcat(Modify(k, a[0].path, a[0].act), a[1..], b);
    }
  }

  /** The changes as seen from one level up. */
  function Under(n: Str, cs: seq<Change>): seq<Change> {
    if cs == [] then [] else [Change([n] + cs[0].path, cs[0].act)] + Under(n, cs[1..])
  }

  /** Changes below the last child change that child only. */
  lemma {:induction false} RunUnder(k: Key, subs: seq<Entry>, n: Str, child: Key, cs: seq<Change>)
    requires SubsBelow(subs, n) && k.subkeys == subs + [Entry(n, child)]
    ensures Run(k, Under(n, cs)) == k.(subkeys := subs + [Entry(n, Run(child, cs))])
    decreases |cs|
  {
    if cs != [] {
      var child' := Modify(child, cs[0].path, cs[0].act);
      var k' := k.(subkeys := subs + [Entry(n, child')]);
      SubAtEnd(subs, n, child, child');
      assert ([n] + cs[0].path)[1..] == cs[0].path;
      assert Modify(k, [n] + cs[0].path, cs[0].act) == k';
      var us := Under(n, cs);
      assert us[0] == Change([n] + cs[0].path, cs[0].act) && us[1..] == Under(n, cs[1..]);
      RunUnder(k', subs, n, child', cs[1..]);
    }
  }

  // ---------------------------------------------------------------- a tree as changes

  /** The values of a key, one change each. */
  function ValueChanges(vals: seq<Val>): seq<Change> {
    if vals == [] then []
    else ValueChanges(vals[..|vals| - 1]) + [Change([], SetValue(vals[|vals| - 1].name, vals[|vals| - 1].value))]
  }

  function OwnerChange(owner: nat): seq<Change> { if owner == 0 then [] else [Change([], SetOwner(owner))] }

  /** Owner, values, then every subkey followed by what is below it. */
  function Changes(k: Key): seq<Change>
    decreases k, |k.subkeys| + 1
  {
    OwnerChange(k.owner) + ValueChanges(k.values) + SubChanges(k, |k.subkeys|)
  }

  function SubChanges(k: Key, i: nat): seq<Change>
    requires i <= |k.subkeys|
    decreases k, i
  {
    if i == 0 then []
    else
      var e := k.subkeys[i - 1];
      SubChanges(k, i - 1) + ([Change([e.name], Touch)] + Under(e.name, Changes(e.key)))
  }

  /** Names stand in ascending order, at every level. */
  ghost predicate Sorted(k: Key)
    decreases k
  {
    && (forall i, j :: 0 <= i < j < |k.subkeys| ==> Less(k.subkeys[i].name, k.subkeys[j].name))
    && (forall i, j :: 0 <= i < j < |k.values| ==> Less(k.values[i].name, k.values[j].name))
    && (forall i :: 0 <= i < |k.subkeys| ==> Sorted(k.subkeys[i].key))
  }

  lemma {:induction false} RunValues(k: Key, vals: seq<Val>)
    requires k.values == [] && forall i, j :: 0 <= i < j < |vals| ==> Less(vals[i].name, vals[j].name)
    ensures Run(k, ValueChanges(vals)) == k.(values := vals)
    decreases |vals|
  {
    if vals != [] {
      var n := |vals| - 1;
      var v := vals[n];
      RunValues(k, vals[..n]);
      var last := Change([], SetValue(v.name, v.value));
      RunConcat(k, ValueChanges(vals[..n]), [last]);
      RunOne(k.(values := vals[..n]), last);
      ValAtEnd(vals[..n], v.name, v.value);
      assert vals[..n] + [v] == vals;
    }
  }

  lemma RunOne(k: Key, c: Change)
    ensures Run(k, [c]) == Modify(k, c.path, c.act)
  {
    assert [c][1..] == [];
    assert Run(Modify(k, c.path, c.act), []) == Modify(k, c.path, c.act);
  }

  lemma RunOwner(owner: nat)
    ensures Run(EMPTY, OwnerChange(owner)) == Key([], [], owner)
  {
    if owner != 0 { RunOne(EMPTY, Change([], SetOwner(owner))); }
  }

  /** A subkey's line creates it at the end; the lines below fill it in. */
  lemma RunSub(mid: Key, e: Entry)
    requires SubsBelow(mid.subkeys, e.name) && Run(EMPTY, Changes(e.key)) == e.key
    ensures Run(mid, [Change([e.name], Touch)] + Under(e.name, Changes(e.key))) == mid.(subkeys := mid.subkeys + [e])
  {
    var touch, below := Change([e.name], Touch), Under(e.name, Changes(e.key));
    RunConcat(mid, [touch], below);
    RunOne(mid, touch);
    TouchNew(mid, e.name);
    RunUnder(mid.(subkeys := mid.subkeys + [Entry(e.name, EMPTY)]), mid.subkeys, e.name, EMPTY, Changes(e.key));
  }

  lemma TouchNew(mid: Key, n: Str)
    requires SubsBelow(mid.subkeys, n)
    ensures Modify(mid, [n], Touch) == mid.(subkeys := mid.subkeys + [Entry(n, EMPTY)])
  {
    SubAtEnd(mid.subkeys, n, EMPTY, EMPTY);
    assert [n][1..] == [];
    assert Modify(EMPTY, [], Touch) == EMPTY;
  }

  lemma {:induction false} RunSubs(k: Key, i: nat)
    requires Sorted(k) && i <= |k.subkeys|
    ensures Run(Key([], k.values, k.owner), SubChanges(k, i)) == Key(k.subkeys[..i], k.values, k.owner)
    decreases k, i
  {
    if i > 0 {
      var base := Key([], k.values, k.owner);
      var e := k.subkeys[i - 1];
      var mid := Key(k.subkeys[..i - 1], k.values, k.owner);
      RunSubs(k, i - 1);
      RunConcat(base, SubChanges(k, i - 1), [Change([e.name], Touch)] + Under(e.name, Changes(e.key)));
      Rebuilt(e.key);
      RunSub(mid, e);
      assert k.subkeys[..i - 1] + [e] == k.subkeys[..i];
    }
  }

  /** Replaying a tree's changes on an empty key gives the tree. */
  lemma {:induction false} Rebuilt(k: Key)
    requires Sorted(k)
    ensures Run(EMPTY, Changes(k)) == k
    decreases k, |k.subkeys| + 1
  {
    var own, vals := OwnerChange(k.owner), ValueChanges(k.values);
    RunConcat(EMPTY, own + vals, SubChanges(k, |k.subkeys|));
    RunConcat(EMPTY, own, vals);
    RunOwner(k.owner);
    RunValues(Key([], [], k.owner), k.values);
    RunSubs(k, |k.subkeys|);
    assert k.subkeys[..|k.subkeys|] == k.subkeys;
  }
}
