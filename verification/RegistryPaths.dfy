/** Paths as strings: joining, splitting, and the records of a hive. */
module RegistryPaths {
  import opened Common
  import opened Registry
  import Utf8

  const BACKSLASH: byte := 92
  const SLASH: byte := 47

  /** `registry`, the one leading component that is dropped. */
  const REGISTRY: Str := [114, 101, 103, 105, 115, 116, 114, 121]

  predicate IsSep(b: byte) { b == BACKSLASH || b == SLASH }

  function LowerByte(b: byte): byte { if 65 <= b <= 90 then b + 32 else b }

  /** `to_ascii_lowercase`. */
  function Lower(s: Str): (r: Str)
    ensures |r| == |s|
  {
    if s == [] then [] else [LowerByte(s[0])] + Lower(s[1..])
  }

  /** `split` on either separator; always at least one piece. */
  function Pieces(s: Str): (r: seq<Str>)
    ensures r != []
  {
    if s == [] then [[]]
    else if IsSep(s[0]) then [[]] + Pieces(s[1..])
    else
      var rest := Pieces(s[1..]);
      [[s[0]] + rest[0]] + rest[1..]
  }

  /** Empty pieces dropped, the others lower-cased. */
  function Normalised(ps: seq<Str>): seq<Str> {
    if ps == [] then []
    else if ps[0] == [] then Normalised(ps[1..])
    else [Lower(ps[0])] + Normalised(ps[1..])
  }

  function DropRegistry(c: seq<Str>): seq<Str> { if c != [] && c[0] == REGISTRY then c[1..] else c }

  /** `components`. */
  function Components(path: Str): seq<Str> { DropRegistry(Normalised(Pieces(path))) }

  /** A subkey name as the tree holds it. */
  ghost predicate Normal(n: Str) {
    n != [] && Lower(n) == n && forall i :: 0 <= i < |n| ==> !IsSep(n[i])
  }

  ghost predicate AllNormal(ns: seq<Str>) {
    forall i :: 0 <= i < |ns| ==> Normal(ns[i])
  }

  /** The path of a subkey, from its parent's. */
  function ChildPath(prefix: Str, name: Str): Str { if prefix == [] then name else prefix + [BACKSLASH] + name }

  function Join(ns: seq<Str>): Str {
    if ns == [] then [] else ChildPath(Join(ns[..|ns| - 1]), ns[|ns| - 1])
  }

  lemma JoinSnoc(at: seq<Str>, n: Str)
    ensures Join(at + [n]) == ChildPath(Join(at), n)
  {
    assert (at + [n])[..|at|] == at;
  }

  lemma {:induction false} PiecesPlain(n: Str)
    requires forall i :: 0 <= i < |n| ==> !IsSep(n[i])
    ensures Pieces(n) == [n]
  {
    if n != [] {
      PiecesPlain(n[1..]);
      assert [n[0]] + n[1..] == n;
    }
  }

  lemma {:induction false} PiecesJoin(a: Str, sep: byte, b: Str)
    requires IsSep(sep)
    ensures Pieces(a + [sep] + b) == Pieces(a) + Pieces(b)
  {
    var s := a + [sep] + b;
    if a == [] {
      assert s[1..] == b && s[0] == sep;
    } else {
      assert s[0] == a[0] && s[1..] == a[1..] + [sep] + b;
      PiecesJoin(a[1..], sep, b);
      LongerFirst(a[0], Pieces(a[1..]), Pieces(b));
    }
  }

  /** Lengthening the first piece does not reach the pieces behind. */
  lemma LongerFirst(c: byte, ra: seq<Str>, rb: seq<Str>)
    requires ra != []
    ensures [[c] + (ra + rb)[0]] + (ra + rb)[1..] == ([[c] + ra[0]] + ra[1..]) + rb
    ensures ([[]] + ra) + rb == [[]] + (ra + rb)
  {
    assert (ra + rb)[1..] == ra[1..] + rb;
  }

  lemma {:induction false} PiecesOfJoin(ns: seq<Str>)
    requires AllNormal(ns) && ns != []
    ensures Pieces(Join(ns)) == ns && Join(ns) != []
    decreases |ns|
  {
    var m := |ns| - 1;
    PiecesPlain(ns[m]);
    assert ns == ns[..m] + [ns[m]];
    if m > 0 {
      PiecesOfJoin(ns[..m]);
      PiecesJoin(Join(ns[..m]), BACKSLASH, ns[m]);
    } else {
      assert ns[..m] == [];
    }
  }

  lemma {:induction false} NormalisedIs(ns: seq<Str>)
    requires AllNormal(ns)
    ensures Normalised(ns) == ns
  {
    if ns != [] { NormalisedIs(ns[1..]); }
  }

  /** Splitting what was joined, up to a leading `registry`. */
  lemma ComponentsOfJoin(ns: seq<Str>)
    requires AllNormal(ns)
    ensures Components(Join(ns)) == DropRegistry(ns)
  {
    if ns == [] {
      var one: seq<Str> := [[]];
      assert Pieces([]) == one && one[1..] == [];
    } else {
      PiecesOfJoin(ns);
      NormalisedIs(ns);
    }
  }

  // ---------------------------------------------------------------- hive records

  /** One line of a hive: an existing key, an owner, or a value, at a path. */
  datatype Rec = Rec(path: Str, act: Action)

  function ValueRecs(prefix: Str, vals: seq<Val>): seq<Rec> {
    if vals == [] then []
    else ValueRecs(prefix, vals[..|vals| - 1]) + [Rec(prefix, SetValue(vals[|vals| - 1].name, vals[|vals| - 1].value))]
  }

  function OwnerRec(prefix: Str, owner: nat): seq<Rec> { if owner == 0 then [] else [Rec(prefix, SetOwner(owner))] }

  /** `walk` of `serialize_hive`. */
  function Walk(k: Key, prefix: Str): seq<Rec>
    decreases k, |k.subkeys| + 1
  {
    OwnerRec(prefix, k.owner) + ValueRecs(prefix, k.values) + WalkSubs(k, prefix, |k.subkeys|)
  }

  function WalkSubs(k: Key, prefix: Str, i: nat): seq<Rec>
    requires i <= |k.subkeys|
    decreases k, i
  {
    if i == 0 then []
    else
      var e := k.subkeys[i - 1];
      var child := ChildPath(prefix, e.name);
      WalkSubs(k, prefix, i - 1) + ([Rec(child, Touch)] + Walk(e.key, child))
  }

  function LowerAct(a: Action): Action {
    match a
    case SetValue(n, v) => SetValue(Lower(n), v)
    case _ => a
  }

  /** What the parser makes of a line: the path is split again, value names are lower-cased again. */
  function Decoded(recs: seq<Rec>): seq<Change> {
    if recs == [] then [] else [Change(Components(recs[0].path), LowerAct(recs[0].act))] + Decoded(recs[1..])
  }

  /** The parser reads line `r`, written for a key below `at`, as change `c`, up to a dropped leading `registry`. */
  ghost predicate ReadsAs(r: Rec, at: seq<Str>, c: Change) {
    Components(r.path) == DropRegistry(at + c.path) && LowerAct(r.act) == c.act
  }

  ghost predicate Match(recs: seq<Rec>, at: seq<Str>, cs: seq<Change>) {
    |recs| == |cs| && forall j :: 0 <= j < |recs| ==> ReadsAs(recs[j], at, cs[j])
  }

  lemma MatchConcat(at: seq<Str>, a: seq<Rec>, b: seq<Rec>, c: seq<Change>, d: seq<Change>)
    requires Match(a, at, c) && Match(b, at, d)
    ensures Match(a + b, at, c + d)
  {
    forall j | 0 <= j < |a| + |b| ensures ReadsAs((a + b)[j], at, (c + d)[j]) {
      assert if j < |a| then ReadsAs(a[j], at, c[j]) else ReadsAs(b[j - |a|], at, d[j - |a|]);
    }
  }

  lemma {:induction false} UnderAt(n: Str, cs: seq<Change>)
    ensures |Under(n, cs)| == |cs|
    ensures forall j :: 0 <= j < |cs| ==> Under(n, cs)[j] == Change([n] + cs[j].path, cs[j].act)
    decreases |cs|
  {
    if cs != [] { UnderAt(n, cs[1..]); }
  }

  lemma MatchUnder(recs: seq<Rec>, at: seq<Str>, n: Str, cs: seq<Change>)
    requires Match(recs, at + [n], cs)
    ensures Match(recs, at, Under(n, cs))
  {
    UnderAt(n, cs);
    forall j | 0 <= j < |recs| ensures ReadsAs(recs[j], at, Under(n, cs)[j]) {
      assert ReadsAs(recs[j], at + [n], cs[j]);
      ConcatAssoc(at, [n], cs[j].path);
    }
  }

  /** A hive as it is held in memory: subkey names normalised, value names lower-case, both text; 32-bit numbers. */
  ghost predicate Held(k: Key)
    decreases k
  {
    && k.owner < TWO32
    && (forall i :: 0 <= i < |k.values| ==> HeldVal(k.values[i]))
    && (forall i :: 0 <= i < |k.subkeys| ==> HeldName(k.subkeys[i].name) && Held(k.subkeys[i].key))
  }

  ghost predicate HeldVal(v: Val) { Lower(v.name) == v.name && Utf8.Valid(v.name) && v.value.ty < TWO32 }

  ghost predicate HeldName(n: Str) { Normal(n) && Utf8.Valid(n) }

  lemma HeldSub(k: Key, i: nat)
    requires Held(k) && i < |k.subkeys|
    ensures Normal(k.subkeys[i].name) && Utf8.Valid(k.subkeys[i].name) && Held(k.subkeys[i].key)
  {
    assert HeldName(k.subkeys[i].name);
  }

  lemma AtKey(at: seq<Str>, act: Action)
    requires AllNormal(at) && LowerAct(act) == act
    ensures Match([Rec(Join(at), act)], at, [Change([], act)])
  {
    ComponentsOfJoin(at);
    assert at + [] == at;
    assert ReadsAs(Rec(Join(at), act), at, Change([], act));
  }

  lemma {:induction false} ValuesMatch(at: seq<Str>, vals: seq<Val>)
    requires AllNormal(at) && forall i :: 0 <= i < |vals| ==> Lower(vals[i].name) == vals[i].name
    ensures Match(ValueRecs(Join(at), vals), at, ValueChanges(vals))
    decreases |vals|
  {
    if vals != [] {
      var n := |vals| - 1;
      var act := SetValue(vals[n].name, vals[n].value);
      ValuesMatch(at, vals[..n]);
      AtKey(at, act);
      MatchConcat(at, ValueRecs(Join(at), vals[..n]), [Rec(Join(at), act)], ValueChanges(vals[..n]), [Change([], act)]);
    }
  }

  lemma OwnerMatch(at: seq<Str>, owner: nat)
    requires AllNormal(at)
    ensures Match(OwnerRec(Join(at), owner), at, OwnerChange(owner))
  {
    if owner != 0 { AtKey(at, SetOwner(owner)); }
  }

  lemma TouchMatch(at: seq<Str>, n: Str)
    requires AllNormal(at) && Normal(n)
    ensures Match([Rec(ChildPath(Join(at), n), Touch)], at, [Change([n], Touch)])
  {
    JoinSnoc(at, n);
    ComponentsOfJoin(at + [n]);
    assert ReadsAs(Rec(Join(at + [n]), Touch), at, Change([n], Touch));
  }

  /** One subkey's lines. */
  lemma SubMatch(at: seq<Str>, e: Entry)
    requires AllNormal(at) && Normal(e.name) && WalkMatches(e.key, at + [e.name])
    ensures var child := ChildPath(Join(at), e.name);
            Match([Rec(child, Touch)] + Walk(e.key, child), at,
                  [Change([e.name], Touch)] + Under(e.name, Changes(e.key)))
  {
    JoinSnoc(at, e.name);
    var child := ChildPath(Join(at), e.name);
    TouchMatch(at, e.name);
    MatchUnder(Walk(e.key, child), at, e.name, Changes(e.key));
    MatchConcat(at, [Rec(child, Touch)], Walk(e.key, child), [Change([e.name], Touch)], Under(e.name, Changes(e.key)));
  }

  ghost predicate WalkMatches(k: Key, at: seq<Str>) {
    Match(Walk(k, Join(at)), at, Changes(k))
  }

  ghost predicate SubsMatch(k: Key, at: seq<Str>, i: nat)
    requires i <= |k.subkeys|
  {
    Match(WalkSubs(k, Join(at), i), at, SubChanges(k, i))
  }

  lemma OneMoreMatch(k: Key, at: seq<Str>, j: nat)
    requires j < |k.subkeys| && AllNormal(at) && Normal(k.subkeys[j].name)
    requires SubsMatch(k, at, j) && WalkMatches(k.subkeys[j].key, at + [k.subkeys[j].name])
    ensures SubsMatch(k, at, j + 1)
  {
    var e := k.subkeys[j];
    SubMatch(at, e);
    var child := ChildPath(Join(at), e.name);
    MatchConcat(at, WalkSubs(k, Join(at), j), [Rec(child, Touch)] + Walk(e.key, child),
                SubChanges(k, j), [Change([e.name], Touch)] + Under(e.name, Changes(e.key)));
  }

  lemma NormalSnoc(at: seq<Str>, n: Str)
    requires AllNormal(at) && Normal(n)
    ensures AllNormal(at + [n])
  {
  }

  lemma {:induction false} AllSubsMatch(k: Key, at: seq<Str>, i: nat)
    requires Held(k) && AllNormal(at) && i <= |k.subkeys|
    ensures SubsMatch(k, at, i)
    decreases k, i
  {
    if i > 0 {
      var j: nat := i - 1;
      AllSubsMatch(k, at, j);
      ChildMatches(k, at, j);
      OneMoreMatch(k, at, j);
    }
  }

  lemma {:induction false} ChildMatches(k: Key, at: seq<Str>, j: nat)
    requires Held(k) && AllNormal(at) && j < |k.subkeys|
    ensures Normal(k.subkeys[j].name) && WalkMatches(k.subkeys[j].key, at + [k.subkeys[j].name])
    decreases k, j
  {
    HeldSub(k, j);
    NormalSnoc(at, k.subkeys[j].name);
    WalkMatch(k.subkeys[j].key, at + [k.subkeys[j].name]);
  }

  /** Parsing the lines of a walk gives back the tree's own changes, up to a dropped leading `registry`. */
  lemma {:induction false} WalkMatch(k: Key, at: seq<Str>)
    requires Held(k) && AllNormal(at)
    ensures WalkMatches(k, at)
    decreases k, |k.subkeys| + 1
  {
    var p := Join(at);
    var o, v, s := OwnerRec(p, k.owner), ValueRecs(p, k.values), WalkSubs(k, p, |k.subkeys|);
    OwnerMatch(at, k.owner);
    ValuesMatch(at, k.values);
    AllSubsMatch(k, at, |k.subkeys|);
    MatchConcat(at, o, v, OwnerChange(k.owner), ValueChanges(k.values));
    MatchConcat(at, o + v, s, OwnerChange(k.owner) + ValueChanges(k.values), SubChanges(k, |k.subkeys|));
  }
}
