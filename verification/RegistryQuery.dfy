/** What a reader of the registry sees after each operation. */
module RegistryQuery {
  import opened Common
  import opened Registry
  import opened RegistryPaths
  import opened RegistryHive
  import opened RegistryText
  import opened RegistryLive

  // ---------------------------------------------------------------- reading

  function GetVal(vals: seq<Val>, n: Str): Option<Value> {
    if vals == [] then None else if vals[0].name == n then Some(vals[0].value) else GetVal(vals[1..], n)
  }

  /** The value called `n` on the key at `path`. */
  function ValueAt(k: Key, path: seq<Str>, n: Str): Option<Value> {
    var key := Find(k, path);
    if key.None? then None else GetVal(key.value.values, n)
  }

  /** The owner of the key at `path`, if there is one. */
  function OwnerAt(k: Key, path: seq<Str>): Option<nat> {
    var key := Find(k, path);
    if key.None? then None else Some(key.value.owner)
  }

  /** `query_value`. */
  function QueryValue(k: Key, path: Str, name: Str): Option<Value> { ValueAt(k, Components(path), Lower(name)) }

  /** The key reached by following entries of the given names. */
  ghost predicate IsAt(k: Key, path: seq<Str>, key: Key)
    decreases |path|
  {
    if path == [] then key == k else exists e :: e in k.subkeys && e.name == path[0] && IsAt(e.key, path[1..], key)
  }

  lemma {:induction false} GetSubIs(subs: seq<Entry>, n: Str, key: Key)
    requires SubsInOrder(subs)
    ensures GetSub(subs, n) == Some(key) <==> Entry(n, key) in subs
  {
    if subs != [] {
      GetSubIs(subs[1..], n, key);
      if subs[0].name == n && Entry(n, key) in subs[1..] {
        var i :| 0 <= i < |subs[1..]| && subs[1..][i] == Entry(n, key);
        LessOneWay(subs[0].name, subs[i + 1].name);
      }
    }
  }

  lemma {:induction false} GetValIs(vals: seq<Val>, n: Str, value: Value)
    requires ValsInOrder(vals)
    ensures GetVal(vals, n) == Some(value) <==> Val(n, value) in vals
  {
    if vals != [] {
      GetValIs(vals[1..], n, value);
      if vals[0].name == n && Val(n, value) in vals[1..] {
        var i :| 0 <= i < |vals[1..]| && vals[1..][i] == Val(n, value);
        LessOneWay(vals[0].name, vals[i + 1].name);
      }
    }
  }

  /** `find` finds exactly the key the entries lead to, and reading a value finds exactly the one recorded. */
  lemma {:induction false} FindIs(k: Key, path: seq<Str>, key: Key)
    requires Kept(k)
    ensures Find(k, path) == Some(key) <==> IsAt(k, path, key)
    decreases |path|
  {
    if path != [] {
      var n := path[0];
      KeptIs(k);
      if GetSub(k.subkeys, n).Some? {
        var child := GetSub(k.subkeys, n).value;
        GetSubIs(k.subkeys, n, child);
        ChildKept(k, n);
        FindIs(child, path[1..], key);
        assert Entry(n, child) in k.subkeys;
      }
      forall e | e in k.subkeys && e.name == n ensures GetSub(k.subkeys, n) == Some(e.key) {
        assert e == Entry(n, e.key);
        GetSubIs(k.subkeys, n, e.key);
      }
    }
  }

  lemma ValueIs(k: Key, path: seq<Str>, n: Str, value: Value)
    requires Kept(k)
    ensures ValueAt(k, path, n) == Some(value) <==> exists key :: IsAt(k, path, key) && Val(n, value) in key.values
  {
    if Find(k, path).Some? {
      var key := Find(k, path).value;
      FindIs(k, path, key);
      FindKept(k, path);
      KeptIs(key);
      GetValIs(key.values, n, value);
    }
    forall key | IsAt(k, path, key) ensures Find(k, path) == Some(key) { FindIs(k, path, key); }
  }

  // ---------------------------------------------------------------- a tree is what its readers see

  ghost predicate SameAt(a: Key, b: Key, path: seq<Str>, n: Str) {
    OwnerAt(a, path) == OwnerAt(b, path) && ValueAt(a, path, n) == ValueAt(b, path, n)
  }

  ghost predicate ReadsSame(a: Key, b: Key) { forall path, n :: SameAt(a, b, path, n) }

  ghost predicate OneWay<T(!new)>(less: (T, T) -> bool) { forall x, y :: less(x, y) ==> !less(y, x) }

  ghost predicate Ascends<T>(s: seq<T>, less: (T, T) -> bool) {
    forall i, j :: 0 <= i < j < |s| ==> less(s[i], s[j])
  }

  /** Only one ascending list has given members. */
  lemma {:induction false} OnlyOrder<T(!new)>(a: seq<T>, b: seq<T>, less: (T, T) -> bool)
    requires OneWay(less) && Ascends(a, less) && Ascends(b, less) && forall x :: x in a <==> x in b
    ensures a == b
  {
    assert b != [] ==> b[0] in b;
    if a != [] {
      assert a[0] in b;
      assert b[0] in a;
      var i :| 0 <= i < |b| && b[i] == a[0];
      var j :| 0 <= j < |a| && a[j] == b[0];
      assert i == 0 || j == 0;
      forall x ensures x in a[1..] <==> x in b[1..] {
        TailMember(a, less, x);
        TailMember(b, less, x);
      }
      OnlyOrder(a[1..], b[1..], less);
      assert a == [a[0]] + a[1..] && b == [b[0]] + b[1..];
    }
  }

  lemma TailMember<T(!new)>(s: seq<T>, less: (T, T) -> bool, x: T)
    requires s != [] && OneWay(less) && Ascends(s, less)
    ensures x in s[1..] <==> x in s && x != s[0]
  {
  }

  lemma SubsSame(a: seq<Entry>, b: seq<Entry>)
    requires SubsInOrder(a) && SubsInOrder(b) && forall n :: GetSub(a, n) == GetSub(b, n)
    ensures a == b
  {
    var less := (x: Entry, y: Entry) => Less(x.name, y.name);
    forall x: Entry, y: Entry | less(x, y) ensures !less(y, x) { LessOneWay(x.name, y.name); }
    forall e: Entry ensures e in a <==> e in b {
      GetSubIs(a, e.name, e.key);
      GetSubIs(b, e.name, e.key);
      assert e == Entry(e.name, e.key) && GetSub(a, e.name) == GetSub(b, e.name);
    }
    OnlyOrder(a, b, less);
  }

  lemma ValsSame(a: seq<Val>, b: seq<Val>)
    requires ValsInOrder(a) && ValsInOrder(b) && forall n :: GetVal(a, n) == GetVal(b, n)
    ensures a == b
  {
    var less := (x: Val, y: Val) => Less(x.name, y.name);
    forall x: Val, y: Val | less(x, y) ensures !less(y, x) { LessOneWay(x.name, y.name); }
    forall v: Val ensures v in a <==> v in b {
      GetValIs(a, v.name, v.value);
      GetValIs(b, v.name, v.value);
      assert v == Val(v.name, v.value) && GetVal(a, v.name) == GetVal(b, v.name);
    }
    OnlyOrder(a, b, less);
  }

  lemma ChildReadsSame(a: Key, b: Key, m: Str)
    requires ReadsSame(a, b)
    ensures GetSub(a.subkeys, m).Some? <==> GetSub(b.subkeys, m).Some?
    ensures GetSub(a.subkeys, m).Some? ==> ReadsSame(GetSub(a.subkeys, m).value, GetSub(b.subkeys, m).value)
  {
    assert SameAt(a, b, [m], []);
    StepDown(a, [m]);
    StepDown(b, [m]);
    if GetSub(a.subkeys, m).Some? {
      forall q, n ensures SameAt(GetSub(a.subkeys, m).value, GetSub(b.subkeys, m).value, q, n) {
        assert SameAt(a, b, [m] + q, n);
        assert ([m] + q)[1..] == q;
        StepDown(a, [m] + q);
        StepDown(b, [m] + q);
      }
    }
  }

  lemma StepDown(k: Key, path: seq<Str>)
    requires path != []
    ensures Find(k, path) == if GetSub(k.subkeys, path[0]).None? then None
            else Find(GetSub(k.subkeys, path[0]).value, path[1..])
  {
  }

  /** Trees the operations build are equal if and only if no reader can tell them apart. */
  lemma {:induction false} ReadsDecide(a: Key, b: Key)
    requires Kept(a) && Kept(b)
    ensures a == b <==> ReadsSame(a, b)
    decreases a
  {
    if ReadsSame(a, b) {
      forall m ensures GetSub(a.subkeys, m) == GetSub(b.subkeys, m) {
        ChildReadsSame(a, b, m);
        if GetSub(a.subkeys, m).Some? {
          var i := GetSmaller(a.subkeys, m);
          ChildKept(a, m);
          ChildKept(b, m);
          ReadsDecide(a.subkeys[i].key, GetSub(b.subkeys, m).value);
        }
      }
      KeptIs(a);
      KeptIs(b);
      SubsSame(a.subkeys, b.subkeys);
      forall n ensures GetVal(a.values, n) == GetVal(b.values, n) { assert SameAt(a, b, [], n); }
      ValsSame(a.values, b.values);
      assert SameAt(a, b, [], []);
    }
  }

  // ---------------------------------------------------------------- what each operation changes

  lemma PrefixTail(p: seq<Str>, q: seq<Str>)
    requires p != [] && q != []
    ensures p <= q <==> p[0] == q[0] && p[1..] <= q[1..]
    ensures p == q <==> p[0] == q[0] && p[1..] == q[1..]
  {
    assert p == [p[0]] + p[1..] && q == [q[0]] + q[1..];
  }

  lemma {:induction false} GetAfterSetVal(vals: seq<Val>, n: Str, value: Value, m: Str)
    ensures GetVal(SetVal(vals, n, value), m) == if m == n then Some(value) else GetVal(vals, m)
  {
    if vals != [] && !Less(n, vals[0].name) && vals[0].name != n { GetAfterSetVal(vals[1..], n, value, m); }
  }

  /** The keys at `path` and above exist, the new ones owned by `uid`; the rest is as before. */
  function Made(was: Option<nat>, at: seq<Str>, path: seq<Str>, uid: nat): Option<nat> {
    if was.None? && at <= path then Some(uid) else was
  }

  lemma {:induction false} ModifyReads(k: Key, path: seq<Str>, a: Action, q: seq<Str>, n: Str)
    ensures OwnerAt(Modify(k, path, a), q)
         == if a.SetOwner? && q == path then Some(a.uid) else Made(OwnerAt(k, q), q, path, 0)
    ensures ValueAt(Modify(k, path, a), q, n)
         == if a.SetValue? && q == path && n == a.name then Some(a.value) else ValueAt(k, q, n)
    decreases |path|
  {
    if path == [] {
      if a.SetValue? { GetAfterSetVal(k.values, a.name, a.value, n); }
    } else if q != [] {
      var c := GetSub(k.subkeys, path[0]);
      var child := if c.Some? then c.value else EMPTY;
      GetAfterSet(k.subkeys, path[0], Modify(child, path[1..], a), q[0]);
      PrefixTail(q, path);
      if q[0] == path[0] { ModifyReads(child, path[1..], a, q[1..], n); }
    }
  }

  lemma {:induction false} MakeReads(k: Key, path: seq<Str>, uid: nat, q: seq<Str>, n: Str)
    ensures OwnerAt(Make(k, path, uid), q) == Made(OwnerAt(k, q), q, path, uid)
    ensures ValueAt(Make(k, path, uid), q, n) == ValueAt(k, q, n)
    decreases |path|
  {
    if path != [] && q != [] {
      var c := GetSub(k.subkeys, path[0]);
      var child := if c.Some? then c.value else Key([], [], uid);
      GetAfterSet(k.subkeys, path[0], Make(child, path[1..], uid), q[0]);
      PrefixTail(q, path);
      if q[0] == path[0] { MakeReads(child, path[1..], uid, q[1..], n); }
    }
  }

  lemma {:induction false} GetAfterRemove(subs: seq<Entry>, n: Str, m: Str)
    requires SubsInOrder(subs)
    ensures GetSub(RemoveSub(subs, n), m) == if m == n then None else GetSub(subs, m)
  {
    if subs != [] {
      if subs[0].name == n { NotInTail(subs); } else { GetAfterRemove(subs[1..], n, m); }
    }
  }

  lemma NotInTail(subs: seq<Entry>)
    requires SubsInOrder(subs) && subs != []
    ensures GetSub(subs[1..], subs[0].name).None?
  {
    if GetSub(subs[1..], subs[0].name).Some? {
      var i := GetSmaller(subs[1..], subs[0].name);
      LessOneWay(subs[0].name, subs[i + 1].name);
    }
  }

  lemma {:induction false} CutReads(k: Key, path: seq<Str>, q: seq<Str>, n: Str)
    requires Kept(k) && path != []
    ensures path <= q ==> Find(Cut(k, path), q).None?
    ensures !(path <= q) ==> OwnerAt(Cut(k, path), q) == OwnerAt(k, q)
    ensures !(path <= q) ==> ValueAt(Cut(k, path), q, n) == ValueAt(k, q, n)
    decreases |path|
  {
    if q != [] {
      KeptIs(k);
      PrefixTail(path, q);
      var c := GetSub(k.subkeys, path[0]);
      if |path| == 1 {
        GetAfterRemove(k.subkeys, path[0], q[0]);
      } else if c.Some? {
        GetAfterSet(k.subkeys, path[0], Cut(c.value, path[1..]), q[0]);
        ChildKept(k, path[0]);
        if q[0] == path[0] { CutReads(c.value, path[1..], q[1..], n); }
      }
    }
  }

  lemma {:induction false} GraftReads(k: Key, path: seq<Str>, key: Key, q: seq<Str>, n: Str)
    ensures path <= q ==> Find(Graft(k, path, key), q) == Find(key, q[|path|..])
    ensures !(path <= q) ==> OwnerAt(Graft(k, path, key), q) == Made(OwnerAt(k, q), q, path, 0)
    ensures !(path <= q) ==> ValueAt(Graft(k, path, key), q, n) == ValueAt(k, q, n)
    decreases |path|
  {
    if path == [] {
      assert q[0..] == q;
    } else if q != [] {
      var c := GetSub(k.subkeys, path[0]);
      var child := if c.Some? then c.value else EMPTY;
      GetAfterSet(k.subkeys, path[0], Graft(child, path[1..], key), q[0]);
      PrefixTail(path, q);
      PrefixTail(q, path);
      if q[0] == path[0] {
        GraftReads(child, path[1..], key, q[1..], n);
        if path <= q { assert q[1..][|path[1..]|..] == q[|path|..]; }
      }
    }
  }

  // ---------------------------------------------------------------- the operations as their callers see them

  /**
   `set_value` on an existing key gives that name there that type and data, and changes nothing else; on a missing key
   it changes nothing.
   */
  lemma PutReads(k: Key, path: Str, name: Str, value: Value, q: seq<Str>, n: Str)
    ensures var k', at := Edited(k, Put(path, name, value)), Components(path);
            if Find(k, at).None? then k' == k
            else
              && ValueAt(k', q, n) == (if q == at && n == Lower(name) then Some(value) else ValueAt(k, q, n))
              && OwnerAt(k', q) == OwnerAt(k, q)
  {
    var at := Components(path);
    if Find(k, at).Some? {
      ModifyReads(k, at, SetValue(Lower(name), value), q, n);
      if q <= at { AboveExists(k, at, q); }
    }
  }

  lemma {:induction false} AboveExists(k: Key, path: seq<Str>, q: seq<Str>)
    requires Find(k, path).Some? && q <= path
    ensures Find(k, q).Some?
    decreases |path|
  {
    if q != [] {
      PrefixTail(q, path);
      AboveExists(GetSub(k.subkeys, path[0]).value, path[1..], q[1..]);
    }
  }

  /** What was put is what is queried, under any spelling of the path and the name; every other query is as before. */
  lemma PutThenQuery(k: Key, path: Str, name: Str, value: Value, path': Str, name': Str)
    requires Find(k, Components(path)).Some?
    ensures QueryValue(Edited(k, Put(path, name, value)), path', name')
         == if Components(path') == Components(path) && Lower(name') == Lower(name) then Some(value)
            else QueryValue(k, path', name')
  {
    PutReads(k, path, name, value, Components(path'), Lower(name'));
  }

  /** `create_owned`: the path exists, keys that were missing belong to `uid`, and no old key or value changes. */
  lemma CreateReads(k: Key, path: Str, uid: nat, q: seq<Str>, n: Str)
    ensures var k', at := Edited(k, Create(path, uid)), Components(path);
            && OwnerAt(k', q) == (if OwnerAt(k, q).None? && q <= at then Some(uid) else OwnerAt(k, q))
            && ValueAt(k', q, n) == ValueAt(k, q, n)
  {
    MakeReads(k, Components(path), uid, q, n);
  }

  /** `delete_key`: the key and all below it are gone, and nothing else. The root cannot be deleted. */
  lemma DeleteReads(k: Key, path: Str, q: seq<Str>, n: Str)
    requires Kept(k)
    ensures var k', at := Edited(k, Delete(path)), Components(path);
            if at != [] && at <= q then Find(k', q).None? else SameAt(k', k, q, n)
  {
    if Components(path) != [] { CutReads(k, Components(path), q, n); }
  }

  /**
   One hive of `load_hives`: at the path and below there is exactly what the file loads as; above it missing keys are
   made, owned by the system, and nothing else changes.
   */
  lemma LoadReads(k: Key, path: Str, file: Str, q: seq<Str>, n: Str)
    ensures var k', at := Edited(k, Load(path, file)), Components(path);
            if at <= q then Find(k', q) == Find(Loaded(EMPTY, file), q[|at|..])
            else
              && OwnerAt(k', q) == (if OwnerAt(k, q).None? && q <= at then Some(0) else OwnerAt(k, q))
              && ValueAt(k', q, n) == ValueAt(k, q, n)
  {
    GraftReads(k, Components(path), Loaded(EMPTY, file), q, n);
  }

  /** One record of a hive file: `K` makes its key, `O` also sets its owner, `V` also sets one value. */
  lemma RecordReads(k: Key, r: Rec, q: seq<Str>, n: Str)
    ensures var k', at := Run(k, Decoded([r])), Components(r.path);
            && OwnerAt(k', q) == (if r.act.SetOwner? && q == at then Some(r.act.uid)
                                  else if OwnerAt(k, q).None? && q <= at then Some(0) else OwnerAt(k, q))
            && ValueAt(k', q, n) == (if r.act.SetValue? && q == at && n == Lower(r.act.name) then Some(r.act.value)
                                     else ValueAt(k, q, n))
  {
    var c := Change(Components(r.path), LowerAct(r.act));
    assert Decoded([r]) == [c];
    RunOne(k, c);
    ModifyReads(k, c.path, c.act, q, n);
  }

  // ---------------------------------------------------------------- operations that change or undo nothing

  /** Creating a key that exists and deleting one that does not leave the very same tree. */
  lemma NothingToDo(k: Key, path: Str, uid: nat)
    requires Kept(k) && Typed(Create(path, uid))
    ensures if Find(k, Components(path)).Some? then Edited(k, Create(path, uid)) == k else Edited(k, Delete(path)) == k
  {
    var at := Components(path);
    EditKeeps(k, Create(path, uid));
    EditKeeps(k, Delete(path));
    if Find(k, at).Some? {
      forall q, n ensures SameAt(Edited(k, Create(path, uid)), k, q, n) {
        CreateReads(k, path, uid, q, n);
        if q <= at { AboveExists(k, at, q); }
      }
      ReadsDecide(Edited(k, Create(path, uid)), k);
    } else {
      forall q, n ensures SameAt(Edited(k, Delete(path)), k, q, n) {
        DeleteReads(k, path, q, n);
        if at <= q && Find(k, q).Some? { AboveExists(k, q, at); }
      }
      ReadsDecide(Edited(k, Delete(path)), k);
    }
  }

  /** Deleting a key just created below an existing one gives the tree of before. */
  lemma DeleteUndoesCreate(k: Key, path: Str, uid: nat)
    requires Kept(k) && Typed(Create(path, uid))
    requires var at := Components(path); Find(k, at).None? && Find(k, at[..|at| - 1]).Some?
    ensures Edited(Edited(k, Create(path, uid)), Delete(path)) == k
  {
    var at := Components(path);
    var k1 := Edited(k, Create(path, uid));
    var k2 := Edited(k1, Delete(path));
    EditKeeps(k, Create(path, uid));
    EditKeeps(k1, Delete(path));
    forall q, n ensures SameAt(k2, k, q, n) {
      CreateReads(k, path, uid, q, n);
      DeleteReads(k1, path, q, n);
      if at <= q {
        if Find(k, q).Some? { AboveExists(k, q, at); }
      } else if q <= at {
        AboveExists(k, at[..|at| - 1], q);
      }
    }
    ReadsDecide(k2, k);
  }
}
