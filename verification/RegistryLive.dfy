/** The registry in memory: every tree its operations build is ordered and normalised, so its hives come back. */
module RegistryLive {
  import opened Common
  import opened Registry
  import opened RegistryPaths
  import opened RegistryHive
  import opened RegistryText
  import Utf8

  // ---------------------------------------------------------------- names

  lemma {:induction false} LessTrans(a: Str, b: Str, c: Str)
    requires Less(a, b) && Less(b, c)
    ensures Less(a, c)
  {
    if a != [] && a[0] == b[0] == c[0] { LessTrans(a[1..], b[1..], c[1..]); }
  }

  lemma {:induction false} LessTotal(a: Str, b: Str)
    ensures Less(a, b) || a == b || Less(b, a)
  {
    if a != [] && b != [] && a[0] == b[0] {
      LessTotal(a[1..], b[1..]);
      assert a == [a[0]] + a[1..] && b == [b[0]] + b[1..];
    }
  }

  lemma {:induction false} LowerAt(s: Str, i: nat)
    requires i < |s|
    ensures Lower(s)[i] == LowerByte(s[i])
  {
    if i > 0 { LowerAt(s[1..], i - 1); }
  }

  lemma {:induction false} LowerTwice(s: Str)
    ensures Lower(Lower(s)) == Lower(s)
  {
    if s != [] { LowerTwice(s[1..]); }
  }

  lemma LowerWidth(s: Str)
    ensures Utf8.CharLen(Lower(s)) == Utf8.CharLen(s)
  {
    forall i | 0 <= i < |s| ensures Lower(s)[i] == LowerByte(s[i]) { LowerAt(s, i); }
  }

  lemma {:induction false} LowerDrop(s: Str, n: nat)
    requires n <= |s|
    ensures Lower(s)[n..] == Lower(s[n..])
  {
    if n > 0 {
      LowerDrop(s[1..], n - 1);
      assert Lower(s)[1..] == Lower(s[1..]) && s[1..][n - 1..] == s[n..];
    }
  }

  /** Lower-casing touches ASCII letters only, so it keeps text well formed. */
  lemma {:induction false} LowerValid(s: Str)
    requires Utf8.Valid(s)
    ensures Utf8.Valid(Lower(s))
  {
    if s != [] {
      var n := Utf8.CharLen(s);
      LowerWidth(s);
      LowerDrop(s, n);
      LowerValid(s[n..]);
    }
  }

  ghost predicate Plain(n: Str) { forall i :: 0 <= i < |n| ==> !IsSep(n[i]) }

  ghost predicate AllPlain(ps: seq<Str>) { forall i :: 0 <= i < |ps| ==> Plain(ps[i]) }

  ghost predicate AllText(ps: seq<Str>) { forall i :: 0 <= i < |ps| ==> Utf8.Valid(ps[i]) }

  lemma {:induction false} PiecesPlainAll(s: Str)
    ensures AllPlain(Pieces(s))
  {
    if s != [] { PiecesPlainAll(s[1..]); }
  }

  /** A stretch without separators goes to the first piece whole. */
  lemma {:induction false} PiecesAfter(c: Str, s: Str)
    requires Plain(c)
    ensures Pieces(c + s) == [c + Pieces(s)[0]] + Pieces(s)[1..]
  {
    if c == [] {
      assert c + s == s && [] + Pieces(s)[0] == Pieces(s)[0];
      assert [Pieces(s)[0]] + Pieces(s)[1..] == Pieces(s);
    } else {
      PiecesAfter(c[1..], s);
      assert (c + s)[1..] == c[1..] + s && (c + s)[0] == c[0];
      assert [c[0]] + (c[1..] + Pieces(s)[0]) == c + Pieces(s)[0];
    }
  }

  /** Separators are ASCII, so splitting well-formed text gives well-formed pieces. */
  lemma {:induction false} PiecesText(s: Str)
    requires Utf8.Valid(s)
    ensures AllText(Pieces(s))
  {
    if s != [] {
      var n := Utf8.CharLen(s);
      PiecesText(s[n..]);
      if IsSep(s[0]) {
        assert s[1..] == s[n..];
      } else {
        CharPlain(s);
        PiecesAfter(s[..n], s[n..]);
        assert s[..n] + s[n..] == s;
        Utf8.CharAlone(s);
        Utf8.ValidConcat(s[..n], Pieces(s[n..])[0]);
      }
    }
  }

  lemma CharPlain(s: Str)
    requires Utf8.CharLen(s) > 0 && !IsSep(s[0])
    ensures Plain(s[..Utf8.CharLen(s)])
  {
    var n := Utf8.CharLen(s);
    forall i | 0 <= i < n ensures !IsSep(s[i]) {
      if i > 0 { Utf8.CharTail(s, i); }
    }
  }

  lemma LowerNormal(n: Str)
    requires n != [] && Plain(n)
    ensures Normal(Lower(n))
  {
    LowerTwice(n);
    forall i | 0 <= i < |n| ensures !IsSep(Lower(n)[i]) { LowerAt(n, i); }
  }

  lemma {:induction false} NormalisedNormal(ps: seq<Str>)
    requires AllPlain(ps) && AllText(ps)
    ensures AllNormal(Normalised(ps)) && AllText(Normalised(ps))
  {
    if ps != [] {
      assert Plain(ps[0]) && Utf8.Valid(ps[0]);
      NormalisedNormal(ps[1..]);
      if ps[0] != [] {
        LowerNormal(ps[0]);
        LowerValid(ps[0]);
      }
    }
  }

  /** The components of a path are names as the tree holds them. */
  lemma ComponentsNormal(path: Str)
    requires Utf8.Valid(path)
    ensures AllNormal(Components(path)) && AllText(Components(path))
  {
    PiecesPlainAll(path);
    PiecesText(path);
    NormalisedNormal(Pieces(path));
    DropNormal(Normalised(Pieces(path)));
  }

  lemma DropNormal(c: seq<Str>)
    requires AllNormal(c) && AllText(c)
    ensures AllNormal(DropRegistry(c)) && AllText(DropRegistry(c))
  {
  }

  // ---------------------------------------------------------------- ordered maps stay ordered

  ghost predicate SubsInOrder(subs: seq<Entry>) {
    forall i, j :: 0 <= i < j < |subs| ==> Less(subs[i].name, subs[j].name)
  }

  ghost predicate ValsInOrder(vals: seq<Val>) {
    forall i, j :: 0 <= i < j < |vals| ==> Less(vals[i].name, vals[j].name)
  }

  ghost predicate SubsAbove(subs: seq<Entry>, n: Str) { forall i :: 0 <= i < |subs| ==> Less(n, subs[i].name) }

  ghost predicate ValsAbove(vals: seq<Val>, n: Str) { forall i :: 0 <= i < |vals| ==> Less(n, vals[i].name) }

  lemma SubsCons(e: Entry, subs: seq<Entry>)
    requires SubsInOrder(subs) && SubsAbove(subs, e.name)
    ensures SubsInOrder([e] + subs)
  {
  }

  lemma ValsCons(v: Val, vals: seq<Val>)
    requires ValsInOrder(vals) && ValsAbove(vals, v.name)
    ensures ValsInOrder([v] + vals)
  {
  }

  lemma SubsRaise(subs: seq<Entry>, n: Str)
    requires SubsInOrder(subs) && (subs == [] || Less(n, subs[0].name))
    ensures SubsAbove(subs, n)
  {
    forall i | 0 <= i < |subs| ensures Less(n, subs[i].name) {
      if i > 0 { LessTrans(n, subs[0].name, subs[i].name); }
    }
  }

  lemma ValsRaise(vals: seq<Val>, n: Str)
    requires ValsInOrder(vals) && (vals == [] || Less(n, vals[0].name))
    ensures ValsAbove(vals, n)
  {
    forall i | 0 <= i < |vals| ensures Less(n, vals[i].name) {
      if i > 0 { LessTrans(n, vals[0].name, vals[i].name); }
    }
  }

  lemma {:induction false} SetSubOrder(subs: seq<Entry>, n: Str, key: Key, low: Str)
    requires SubsInOrder(subs)
    ensures SubsInOrder(SetSub(subs, n, key))
    ensures SubsAbove(subs, low) && Less(low, n) ==> SubsAbove(SetSub(subs, n, key), low)
  {
    if subs == [] || Less(n, subs[0].name) {
      SubsRaise(subs, n);
      SubsCons(Entry(n, key), subs);
    } else {
      LessTotal(n, subs[0].name);
      assert SubsAbove(subs[1..], subs[0].name);
      if subs[0].name == n {
        SubsCons(Entry(n, key), subs[1..]);
      } else {
        SetSubOrder(subs[1..], n, key, subs[0].name);
        SetSubOrder(subs[1..], n, key, low);
        SubsCons(subs[0], SetSub(subs[1..], n, key));
      }
    }
  }

  lemma {:induction false} SetValOrder(vals: seq<Val>, n: Str, value: Value, low: Str)
    requires ValsInOrder(vals)
    ensures ValsInOrder(SetVal(vals, n, value))
    ensures ValsAbove(vals, low) && Less(low, n) ==> ValsAbove(SetVal(vals, n, value), low)
  {
    if vals == [] || Less(n, vals[0].name) {
      ValsRaise(vals, n);
      ValsCons(Val(n, value), vals);
    } else {
      LessTotal(n, vals[0].name);
      assert ValsAbove(vals[1..], vals[0].name);
      if vals[0].name == n {
        ValsCons(Val(n, value), vals[1..]);
      } else {
        SetValOrder(vals[1..], n, value, vals[0].name);
        SetValOrder(vals[1..], n, value, low);
        ValsCons(vals[0], SetVal(vals[1..], n, value));
      }
    }
  }

  // ---------------------------------------------------------------- well-kept trees

  /** Ordered and held, at every level. */
  ghost predicate Kept(k: Key) { Sorted(k) && Held(k) }

  ghost predicate SubsKept(subs: seq<Entry>) {
    SubsInOrder(subs) && AllSubsOk(subs)
  }

  ghost predicate ValsKept(vals: seq<Val>) { ValsInOrder(vals) && AllValsOk(vals) }

  lemma KeptIs(k: Key)
    ensures Kept(k) <==> SubsKept(k.subkeys) && ValsKept(k.values) && k.owner < TWO32
  {
  }

  ghost predicate SubOk(e: Entry) { HeldName(e.name) && Kept(e.key) }

  ghost predicate AllSubsOk(subs: seq<Entry>) { forall i :: 0 <= i < |subs| ==> SubOk(subs[i]) }

  ghost predicate AllValsOk(vals: seq<Val>) { forall i :: 0 <= i < |vals| ==> HeldVal(vals[i]) }

  lemma {:induction false} SetSubMembers(subs: seq<Entry>, n: Str, key: Key)
    requires AllSubsOk(subs) && HeldName(n) && Kept(key)
    ensures AllSubsOk(SetSub(subs, n, key))
  {
    assert SubOk(Entry(n, key));
    if subs != [] && !Less(n, subs[0].name) && subs[0].name != n { SetSubMembers(subs[1..], n, key); }
  }

  lemma {:induction false} SetValMembers(vals: seq<Val>, n: Str, value: Value)
    requires AllValsOk(vals) && HeldVal(Val(n, value))
    ensures AllValsOk(SetVal(vals, n, value))
  {
    if vals != [] && !Less(n, vals[0].name) && vals[0].name != n { SetValMembers(vals[1..], n, value); }
  }

  lemma SetSubKeeps(k: Key, n: Str, key: Key)
    requires Kept(k) && HeldName(n) && Kept(key)
    ensures Kept(k.(subkeys := SetSub(k.subkeys, n, key)))
  {
    KeptIs(k);
    SetSubOrder(k.subkeys, n, key, []);
    SetSubMembers(k.subkeys, n, key);
    KeptIs(k.(subkeys := SetSub(k.subkeys, n, key)));
  }

  lemma SetValKeeps(k: Key, n: Str, value: Value)
    requires Kept(k) && HeldVal(Val(n, value))
    ensures Kept(k.(values := SetVal(k.values, n, value)))
  {
    KeptIs(k);
    SetValOrder(k.values, n, value, []);
    SetValMembers(k.values, n, value);
    KeptIs(k.(values := SetVal(k.values, n, value)));
  }

  lemma {:induction false} GetSubKept(subs: seq<Entry>, n: Str)
    requires AllSubsOk(subs)
    ensures GetSub(subs, n).Some? ==> Kept(GetSub(subs, n).value)
  {
    if subs != [] {
      assert SubOk(subs[0]);
      if subs[0].name != n { GetSubKept(subs[1..], n); }
    }
  }

  lemma ChildKept(k: Key, n: Str)
    requires Kept(k)
    ensures GetSub(k.subkeys, n).Some? ==> Kept(GetSub(k.subkeys, n).value)
  {
    KeptIs(k);
    GetSubKept(k.subkeys, n);
  }

  ghost predicate Names(path: seq<Str>) { forall i :: 0 <= i < |path| ==> HeldName(path[i]) }

  ghost predicate ActionOk(a: Action) {
    match a
    case Touch => true
    case SetOwner(uid) => uid < TWO32
    case SetValue(n, v) => HeldVal(Val(n, v))
  }

  lemma ActKeeps(k: Key, a: Action)
    requires Kept(k) && ActionOk(a)
    ensures Kept(Act(k, a))
  {
    match a {
      case Touch =>
      case SetOwner(uid) =>
        KeptIs(k);
        KeptIs(Act(k, a));
      case SetValue(n, v) => SetValKeeps(k, n, v);
    }
  }

  /** Replaying a change keeps the tree ordered and normalised. */
  lemma {:induction false} ModifyKeeps(k: Key, path: seq<Str>, a: Action)
    requires Kept(k) && Names(path) && ActionOk(a)
    ensures Kept(Modify(k, path, a))
    decreases |path|
  {
    if path == [] {
      ActKeeps(k, a);
    } else {
      var c := GetSub(k.subkeys, path[0]);
      var child := if c.Some? then c.value else EMPTY;
      ChildKept(k, path[0]);
      KeptIs(EMPTY);
      ModifyKeeps(child, path[1..], a);
      SetSubKeeps(k, path[0], Modify(child, path[1..], a));
    }
  }

  // ---------------------------------------------------------------- the operations

  /** `find`. */
  function Find(k: Key, path: seq<Str>): Option<Key>
    decreases |path|
  {
    if path == [] then Some(k)
    else
      var c := GetSub(k.subkeys, path[0]);
      if c.None? then None else Find(c.value, path[1..])
  }

  /** `make`: every key created on the way belongs to `uid`. */
  function Make(k: Key, path: seq<Str>, uid: nat): Key
    decreases |path|
  {
    if path == [] then k
    else
      var c := GetSub(k.subkeys, path[0]);
      k.(subkeys := SetSub(k.subkeys, path[0], Make(if c.Some? then c.value else Key([], [], uid), path[1..], uid)))
  }

  function RemoveSub(subs: seq<Entry>, n: Str): seq<Entry> {
    if subs == [] then [] else if subs[0].name == n then subs[1..] else [subs[0]] + RemoveSub(subs[1..], n)
  }

  /** A key's child taken away, the key being found by its path. */
  function Cut(k: Key, path: seq<Str>): Key
    requires path != []
    decreases |path|
  {
    if |path| == 1 then k.(subkeys := RemoveSub(k.subkeys, path[0]))
    else
      var c := GetSub(k.subkeys, path[0]);
      if c.None? then k else k.(subkeys := SetSub(k.subkeys, path[0], Cut(c.value, path[1..])))
  }

  /** The key at `path`, made if missing, replaced. */
  function Graft(k: Key, path: seq<Str>, key: Key): Key
    decreases |path|
  {
    if path == [] then key
    else
      var c := GetSub(k.subkeys, path[0]);
      k.(subkeys := SetSub(k.subkeys, path[0], Graft(if c.Some? then c.value else EMPTY, path[1..], key)))
  }

  datatype Edit =
    | Create(path: Str, uid: nat)
    | Put(path: Str, name: Str, value: Value)
    | Delete(path: Str)
    | Load(path: Str, file: Str)

  /** `create_owned`, `set_value`, which needs the key to exist, `delete_key`, and one hive of `load_hives`. */
  function Edited(k: Key, e: Edit): Key {
    var comps := Components(e.path);
    match e
    case Create(_, uid) => Make(k, comps, uid)
    case Put(_, name, value) => if Find(k, comps).None? then k else Modify(k, comps, SetValue(Lower(name), value))
    case Delete(_) => if comps == [] then k else Cut(k, comps)
    case Load(_, file) => Graft(k, comps, Loaded(EMPTY, file))
  }

  /** What the callers' types guarantee: strings are text, numbers fit 32 bits. A file may hold any bytes. */
  ghost predicate Typed(e: Edit) {
    && Utf8.Valid(e.path)
    && match e
       case Create(_, uid) => uid < TWO32
       case Put(_, name, value) => Utf8.Valid(name) && value.ty < TWO32
       case Delete(_) => true
       case Load(_, _) => true
  }

  lemma {:induction false} MakeKeeps(k: Key, path: seq<Str>, uid: nat)
    requires Kept(k) && Names(path) && uid < TWO32
    ensures Kept(Make(k, path, uid))
    decreases |path|
  {
    if path != [] {
      var c := GetSub(k.subkeys, path[0]);
      var child := if c.Some? then c.value else Key([], [], uid);
      ChildKept(k, path[0]);
      KeptIs(Key([], [], uid));
      MakeKeeps(child, path[1..], uid);
      SetSubKeeps(k, path[0], Make(child, path[1..], uid));
    }
  }

  lemma {:induction false} RemoveSubKept(subs: seq<Entry>, n: Str, low: Str)
    requires SubsKept(subs)
    ensures SubsKept(RemoveSub(subs, n)) && (SubsAbove(subs, low) ==> SubsAbove(RemoveSub(subs, n), low))
  {
    if subs != [] && subs[0].name != n {
      assert SubsAbove(subs[1..], subs[0].name) && SubOk(subs[0]);
      RemoveSubKept(subs[1..], n, subs[0].name);
      RemoveSubKept(subs[1..], n, low);
      SubsCons(subs[0], RemoveSub(subs[1..], n));
    }
  }

  lemma {:induction false} CutKeeps(k: Key, path: seq<Str>)
    requires Kept(k) && Names(path) && path != []
    ensures Kept(Cut(k, path))
    decreases |path|
  {
    KeptIs(k);
    if |path| == 1 {
      RemoveSubKept(k.subkeys, path[0], []);
      KeptIs(Cut(k, path));
    } else if GetSub(k.subkeys, path[0]).Some? {
      var child := GetSub(k.subkeys, path[0]).value;
      ChildKept(k, path[0]);
      CutKeeps(child, path[1..]);
      SetSubKeeps(k, path[0], Cut(child, path[1..]));
    }
  }

  lemma {:induction false} GraftKeeps(k: Key, path: seq<Str>, key: Key)
    requires Kept(k) && Names(path) && Kept(key)
    ensures Kept(Graft(k, path, key))
    decreases |path|
  {
    if path != [] {
      var c := GetSub(k.subkeys, path[0]);
      var child := if c.Some? then c.value else EMPTY;
      ChildKept(k, path[0]);
      KeptIs(EMPTY);
      GraftKeeps(child, path[1..], key);
      SetSubKeeps(k, path[0], Graft(child, path[1..], key));
    }
  }

  ghost predicate ChangeOk(c: Change) { Names(c.path) && ActionOk(c.act) }

  lemma {:induction false} RunKeeps(k: Key, cs: seq<Change>)
    requires Kept(k) && forall i :: 0 <= i < |cs| ==> ChangeOk(cs[i])
    ensures Kept(Run(k, cs))
    decreases |cs|
  {
    if cs != [] {
      assert ChangeOk(cs[0]);
      ModifyKeeps(k, cs[0].path, cs[0].act);
      RunKeeps(Modify(k, cs[0].path, cs[0].act), cs[1..]);
    }
  }

  /** A line that is not skipped has text and 32-bit numbers in it. */
  lemma ParsedFits(line: Str)
    ensures ParseLine(line).Some? ==> Fits(ParseLine(line).value)
  {
  }

  lemma {:induction false} AllParsedFit(ls: seq<Str>)
    ensures AllFit(ParseLines(ls))
  {
    if ls != [] {
      ParsedFits(ls[0]);
      AllParsedFit(ls[1..]);
    }
  }

  lemma DecodedOk(r: Rec)
    requires Fits(r)
    ensures ChangeOk(Change(Components(r.path), LowerAct(r.act)))
  {
    ComponentNames(r.path);
    if r.act.SetValue? {
      LowerTwice(r.act.name);
      LowerValid(r.act.name);
    }
  }

  lemma {:induction false} AllDecodedOk(recs: seq<Rec>)
    requires AllFit(recs)
    ensures forall i :: 0 <= i < |Decoded(recs)| ==> ChangeOk(Decoded(recs)[i])
    decreases |recs|
  {
    if recs != [] {
      DecodedOk(recs[0]);
      AllDecodedOk(recs[1..]);
    }
  }

  /** Whatever is in the file, what it loads as is ordered and normalised. */
  lemma LoadedKept(file: Str)
    ensures Kept(Loaded(EMPTY, file))
  {
    KeptIs(EMPTY);
    AllParsedFit(Lines(file));
    AllDecodedOk(ParseLines(Lines(file)));
    RunKeeps(EMPTY, Decoded(ParseLines(Lines(file))));
  }

  lemma ComponentNames(path: Str)
    requires Utf8.Valid(path)
    ensures Names(Components(path))
  {
    ComponentsNormal(path);
    forall i | 0 <= i < |Components(path)| ensures HeldName(Components(path)[i]) {
      assert Normal(Components(path)[i]) && Utf8.Valid(Components(path)[i]);
    }
  }

  /** Each operation keeps the tree ordered and normalised. */
  lemma EditKeeps(k: Key, e: Edit)
    requires Kept(k) && Typed(e)
    ensures Kept(Edited(k, e))
  {
    ComponentNames(e.path);
    match e {
      case Create(_, uid) => MakeKeeps(k, Components(e.path), uid);
      case Put(_, name, value) =>
        LowerTwice(name);
        LowerValid(name);
        ModifyKeeps(k, Components(e.path), SetValue(Lower(name), value));
      case Delete(_) => if Components(e.path) != [] { CutKeeps(k, Components(e.path)); }
      case Load(_, file) =>
        LoadedKept(file);
        GraftKeeps(k, Components(e.path), Loaded(EMPTY, file));
    }
  }

  function EditedBy(k: Key, es: seq<Edit>): Key
    decreases |es|
  {
    if es == [] then k else EditedBy(Edited(k, es[0]), es[1..])
  }

  lemma {:induction false} EditsKeep(k: Key, es: seq<Edit>)
    requires Kept(k) && forall i :: 0 <= i < |es| ==> Typed(es[i])
    ensures Kept(EditedBy(k, es))
    decreases |es|
  {
    if es != [] {
      EditKeeps(k, es[0]);
      EditsKeep(Edited(k, es[0]), es[1..]);
    }
  }

  lemma {:induction false} FindKept(k: Key, path: seq<Str>)
    requires Kept(k)
    ensures Find(k, path).Some? ==> Kept(Find(k, path).value)
    decreases |path|
  {
    if path != [] {
      ChildKept(k, path[0]);
      if GetSub(k.subkeys, path[0]).Some? { FindKept(GetSub(k.subkeys, path[0]).value, path[1..]); }
    }
  }

  /** Written out and loaded again, the hive comes back exactly. */
  ghost predicate Survives(hive: Key) { Loaded(EMPTY, Serialize(hive)) == hive }

  /**
   Whatever operations built the registry, any hive in it that is written out and loaded again comes back exactly -
   if and only if it has no direct child called `registry`.
   */
  lemma LiveRoundTrip(es: seq<Edit>, at: seq<Str>)
    requires (forall i :: 0 <= i < |es| ==> Typed(es[i])) && Find(EditedBy(EMPTY, es), at).Some?
    ensures Survives(Find(EditedBy(EMPTY, es), at).value) <==> !HasRegistryChild(Find(EditedBy(EMPTY, es), at).value)
  {
    KeptIs(EMPTY);
    EditsKeep(EMPTY, es);
    FindKept(EditedBy(EMPTY, es), at);
    HiveRoundTrip(Find(EditedBy(EMPTY, es), at).value);
  }

  // ---------------------------------------------------------------- the failing hive is reachable

  /** Creating the key `registry` directly below any other key makes a hive of that key that does not come back. */
  lemma LostHiveReachable(a: Str)
    requires HeldName(a) && a != REGISTRY
    ensures LostAfter(Create(Join([a, REGISTRY]), 0), a)
  {
    RegistryIsNormal();
    LostBelow(a, REGISTRY);
  }

  /** The one operation builds a hive at `a` that does not come back. */
  ghost predicate LostAfter(e: Edit, a: Str) {
    var hive := Find(EditedBy(EMPTY, [e]), [a]);
    Typed(e) && hive.Some? && !Survives(hive.value)
  }

  lemma LostBelow(a: Str, b: Str)
    requires HeldName(a) && HeldName(b) && a != REGISTRY && b == REGISTRY
    ensures LostAfter(Create(Join([a, b]), 0), a)
  {
    OneCreate(a, b, Create(Join([a, b]), 0));
    LostIf(Create(Join([a, b]), 0), a);
  }

  lemma LostIf(e: Edit, a: Str)
    requires Typed(e) && Find(EditedBy(EMPTY, [e]), [a]).Some?
             && HasRegistryChild(Find(EditedBy(EMPTY, [e]), [a]).value)
    ensures LostAfter(e, a)
  {
    LiveRoundTrip([e], [a]);
  }

  lemma OneCreate(a: Str, b: Str, e: Edit)
    requires HeldName(a) && HeldName(b) && a != REGISTRY && b == REGISTRY && e == Create(Join([a, b]), 0)
    ensures Typed(e) && Find(EditedBy(EMPTY, [e]), [a]).Some? && HasRegistryChild(Find(EditedBy(EMPTY, [e]), [a]).value)
  {
    TwoNames(a, b);
    TwoKeys(a, b);
    OneEdit(EMPTY, e);
  }

  lemma OneEdit(k: Key, e: Edit)
    ensures EditedBy(k, [e]) == Edited(k, e)
  {
    assert [e][1..] == [];
    assert EditedBy(Edited(k, e), []) == Edited(k, e);
  }

  lemma TwoNames(a: Str, b: Str)
    requires HeldName(a) && HeldName(b) && a != REGISTRY
    ensures Utf8.Valid(Join([a, b])) && Components(Join([a, b])) == [a, b]
  {
    JoinSnoc([], a);
    JoinSnoc([a], b);
    assert [] + [a] == [a] && [a] + [b] == [a, b];
    ChildText(a, b);
    ComponentsOfJoin([a, b]);
  }

  lemma TwoKeys(a: Str, b: Str)
    ensures var hive := Find(Make(EMPTY, [a, b], 0), [a]);
            hive.Some? && (b == REGISTRY ==> HasRegistryChild(hive.value))
  {
    var inner := Key([Entry(b, EMPTY)], [], 0);
    assert [a, b][1..] == [b] && [b][1..] == [];
    assert Make(EMPTY, [b], 0) == inner;
    assert Make(EMPTY, [a, b], 0) == Key([Entry(a, inner)], [], 0);
    assert [a][1..] == [];
    assert Find(Key([Entry(a, inner)], [], 0), [a]) == Some(inner);
    assert inner.subkeys[0].name == b;
  }
}
