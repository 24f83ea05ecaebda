/** Directory blocks refine a finite map: inserting, removing and looking up names in a record chain. */
module Ext2Dir {
  import opened Common
  import opened Ext2Disk
  import opened Ext2Records

  // ---------------------------------------------------------------- records as a map

  /** The bindings of a record list; the first live record of a name counts. */
  function Dict(recs: seq<Rec>): map<Name, nat> {
    if recs == [] then map[]
    else if recs[0].ino == 0 then Dict(recs[1..])
    else Dict(recs[1..])[recs[0].name := recs[0].ino]
  }

  /** No name is bound twice. */
  ghost predicate Unique(recs: seq<Rec>) {
    recs == [] || ((recs[0].ino != 0 ==> recs[0].name !in Dict(recs[1..])) && Unique(recs[1..]))
  }

  lemma DictCons(r: Rec, rest: seq<Rec>)
    ensures Dict([r] + rest) == if r.ino == 0 then Dict(rest) else Dict(rest)[r.name := r.ino]
    ensures Unique([r] + rest) <==> (r.ino != 0 ==> r.name !in Dict(rest)) && Unique(rest)
  {
    assert ([r] + rest)[1..] == rest;
  }

  lemma {:induction false} DictConcat(a: seq<Rec>, b: seq<Rec>)
    ensures Dict(a + b) == Dict(b) + Dict(a)
    ensures Unique(a + b) <==> Unique(a) && Unique(b) && Dict(a).Keys !! Dict(b).Keys
  {
    if a == [] {
      assert a + b == b;
    } else {
      assert a + b == [a[0]] + (a[1..] + b);
      DictCons(a[0], a[1..] + b);
      DictConcat(a[1..], b);
    }
  }

  // ---------------------------------------------------------------- records with their kinds

  /** What a live record says: the name, the inode it stands for and of what kind that is. */
  datatype Tag = Tag(name: Name, ino: nat, kind: byte)

  ghost function Tags(recs: seq<Rec>): set<Tag> {
    set r | r in recs && r.ino != 0 :: Tag(r.name, r.ino, r.kind)
  }

  /** The kind byte of a record for a directory or a file: 0 on a volume that does not record it. */
  function Kind(g: Geo, isDir: bool): byte { if !g.filetype then 0 else if isDir then 2 else 1 }

  ghost function Untagged(ts: set<Tag>, name: Name): set<Tag> { set x | x in ts && x.name != name }

  lemma TagsConcat(a: seq<Rec>, b: seq<Rec>)
    ensures Tags(a + b) == Tags(a) + Tags(b)
  {
  }

  lemma TagsOne(r: Rec)
    ensures Tags([r]) == if r.ino == 0 then {} else {Tag(r.name, r.ino, r.kind)}
  {
    if r.ino != 0 { assert r in [r]; }
  }

  /** The tags tell the same bindings as the map. */
  lemma {:induction false} TagsAreBindings(recs: seq<Rec>, x: Tag)
    requires x in Tags(recs)
    ensures x.name in Dict(recs) && (Unique(recs) ==> Dict(recs)[x.name] == x.ino)
  {
    var r :| r in recs && r.ino != 0 && x == Tag(r.name, r.ino, r.kind);
    if recs[0] != r {
      assert r in recs[1..];
      TagsAreBindings(recs[1..], x);
    } else if r in recs[1..] {
      TagsAreBindings(recs[1..], x);
    }
  }

  lemma UntaggedElsewhere(recs: seq<Rec>, name: Name)
    requires name !in Dict(recs)
    ensures Untagged(Tags(recs), name) == Tags(recs)
  {
    forall x | x in Tags(recs) ensures x.name != name { TagsAreBindings(recs, x); }
  }

  lemma UntaggedUnion(a: set<Tag>, b: set<Tag>, name: Name)
    ensures Untagged(a + b, name) == Untagged(a, name) + Untagged(b, name)
  {
  }

  // ---------------------------------------------------------------- inserting

  /** Room left in a record. */
  function Slack(r: Rec): int { r.len - if r.ino == 0 then 0 else Needs(r.name) }

  /** A record with the new entry in its slack: a gap is taken over, a live record is cut down to size. */
  function FitIn(r: Rec, child: nat, kind: byte, name: Name): seq<Rec>
    requires Slack(r) >= 0
  {
    if r.ino == 0 then [Rec(child, r.len, kind, name)]
    else [r.(len := Needs(r.name)), Rec(child, r.len - Needs(r.name), kind, name)]
  }

  function InsertRecs(recs: seq<Rec>, child: nat, kind: byte, name: Name): Option<seq<Rec>> {
    if recs == [] then None
    else if Slack(recs[0]) >= Needs(name) then Some(FitIn(recs[0], child, kind, name) + recs[1..])
    else Prepend([recs[0]], InsertRecs(recs[1..], child, kind, name))
  }

  function Prepend(a: seq<Rec>, o: Option<seq<Rec>>): Option<seq<Rec>> {
    match o case None => None case Some(s) => Some(a + s)
  }

  lemma PrependNothing(o: Option<seq<Rec>>)
    ensures Prepend([], o) == o
  {
    if o.Some? { assert [] + o.value == o.value; }
  }

  lemma PrependTwice(a: seq<Rec>, b: seq<Rec>, o: Option<seq<Rec>>)
    ensures Prepend(a, Prepend(b, o)) == Prepend(a + b, o)
  {
    if o.Some? { ConcatAssoc(a, b, o.value); }
  }

  /** Inserting a fresh name adds exactly that binding. */
  lemma {:induction false} InsertBinds(recs: seq<Rec>, child: nat, kind: byte, name: Name)
    requires InsertRecs(recs, child, kind, name).Some? && name !in Dict(recs) && child != 0
    ensures var after := InsertRecs(recs, child, kind, name).value;
            Dict(after) == Dict(recs)[name := child] && (Unique(recs) ==> Unique(after))
  {
    var r, rest := recs[0], recs[1..];
    DictCons(r, rest);
    assert recs == [r] + rest;
    if Slack(r) >= Needs(name) {
      if r.ino == 0 {
        DictCons(Rec(child, r.len, kind, name), rest);
      } else {
        var r', new_ := r.(len := Needs(r.name)), Rec(child, r.len - Needs(r.name), kind, name);
        DictCons(new_, rest);
        DictCons(r', [new_] + rest);
        assert [r', new_] + rest == [r'] + ([new_] + rest);
      }
    } else {
      InsertBinds(rest, child, kind, name);
      DictCons(r, InsertRecs(rest, child, kind, name).value);
    }
  }

  lemma TagsCons(r: Rec, rest: seq<Rec>)
    ensures Tags([r] + rest) == Tags([r]) + Tags(rest)
  {
    TagsConcat([r], rest);
  }

  /** Inserting adds exactly one tag. */
  lemma {:induction false} InsertTags(recs: seq<Rec>, child: nat, kind: byte, name: Name)
    requires InsertRecs(recs, child, kind, name).Some? && child != 0
    ensures Tags(InsertRecs(recs, child, kind, name).value) == Tags(recs) + {Tag(name, child, kind)}
  {
    var r, rest := recs[0], recs[1..];
    assert recs == [r] + rest;
    TagsCons(r, rest);
    if Slack(r) >= Needs(name) {
      TagsConcat(FitIn(r, child, kind, name), rest);
      FitTags(r, child, kind, name);
    } else {
      InsertTags(rest, child, kind, name);
      TagsCons(r, InsertRecs(rest, child, kind, name).value);
    }
  }

  lemma FitTags(r: Rec, child: nat, kind: byte, name: Name)
    requires Slack(r) >= 0 && child != 0
    ensures Tags(FitIn(r, child, kind, name)) == Tags([r]) + {Tag(name, child, kind)}
  {
    TagsOne(r);
    if r.ino == 0 {
      TagsOne(Rec(child, r.len, kind, name));
    } else {
      var r', new_ := r.(len := Needs(r.name)), Rec(child, r.len - Needs(r.name), kind, name);
      TagsOne(r');
      TagsOne(new_);
      TagsConcat([r'], [new_]);
      assert [r'] + [new_] == FitIn(r, child, kind, name);
    }
  }

  /** Some record has room for the name. */
  ghost predicate Roomy(recs: seq<Rec>, name: Name) { exists i :: 0 <= i < |recs| && Slack(recs[i]) >= Needs(name) }

  /** No room means no record has any. */
  lemma {:induction false} InsertFails(recs: seq<Rec>, child: nat, kind: byte, name: Name)
    ensures InsertRecs(recs, child, kind, name).None? <==> !Roomy(recs, name)
  {
    if recs != [] {
      InsertFails(recs[1..], child, kind, name);
      RoomyConcat([recs[0]], recs[1..], name);
      assert [recs[0]] + recs[1..] == recs;
    }
  }

  lemma RoomyConcat(a: seq<Rec>, b: seq<Rec>, name: Name)
    ensures Roomy(a + b, name) <==> Roomy(a, name) || Roomy(b, name)
  {
    if Roomy(a, name) {
      var i :| 0 <= i < |a| && Slack(a[i]) >= Needs(name);
      assert (a + b)[i] == a[i];
    }
    if Roomy(b, name) {
      var i :| 0 <= i < |b| && Slack(b[i]) >= Needs(name);
      assert (a + b)[|a| + i] == b[i];
    }
    if Roomy(a + b, name) {
      var i :| 0 <= i < |a + b| && Slack((a + b)[i]) >= Needs(name);
      assert if i < |a| then Slack(a[i]) >= Needs(name) else Slack(b[i - |a|]) >= Needs(name);
    }
  }

  /** The bytes after the split: the old record cut down, the new one behind it. */
  function FitBytes(blk: Block, off: nat, rec: Rec, child: nat, kind: byte, name: Name): (r: Block)
    requires off + rec.len <= |blk| && |name| < 256 && Slack(rec) >= Needs(name)
    ensures |r| == |blk|
  {
    if rec.ino == 0 then Splice(blk, off, Encode(child, rec.len, kind, name))
    else
      var used := Needs(rec.name);
      Splice(Splice(blk, off + 4, Bytes16(used)), off + used, Encode(child, rec.len - used, kind, name))
  }

  /** The record at `off` has room for the entry. */
  ghost predicate HasRoom(blk: Block, off: nat, rec: Rec, child: nat, name: Name) {
    && Stands(blk, off, rec) && 8 <= rec.len && rec.len % 4 == 0 && off + rec.len <= |blk| < TWO16
    && |name| < 256 && 0 < child < TWO32 && Slack(rec) >= Needs(name)
  }

  lemma FitGap(blk: Block, off: nat, rec: Rec, child: nat, kind: byte, name: Name)
    requires HasRoom(blk, off, rec, child, name) && rec.ino == 0
    ensures var q := Reads(FitBytes(blk, off, rec, child, kind, name));
            Chain(q, off, off + rec.len) && Recs(q, off, off + rec.len) == FitIn(rec, child, kind, name)
  {
    WrittenRec(blk, off, child, rec.len, kind, name);
    OneRec(Reads(FitBytes(blk, off, rec, child, kind, name)), off, Rec(child, rec.len, kind, name));
  }

  lemma FitSplit(blk: Block, off: nat, rec: Rec, child: nat, kind: byte, name: Name)
    requires HasRoom(blk, off, rec, child, name) && rec.ino != 0
    ensures var q := Reads(FitBytes(blk, off, rec, child, kind, name));
            Chain(q, off, off + rec.len) && Recs(q, off, off + rec.len) == FitIn(rec, child, kind, name)
  {
    var blk' := FitBytes(blk, off, rec, child, kind, name);
    var used := Needs(rec.name);
    var mid := Splice(blk, off + 4, Bytes16(used));
    RelengthRec(blk, off, rec, used);
    WrittenRec(mid, off + used, child, rec.len - used, kind, name);
    SpliceKeeps(mid, off + used, Encode(child, rec.len - used, kind, name), off, off + used);
    SameStands(mid, off, rec.(len := used), blk', off, used);
    TwoRecs(Reads(blk'), off, rec.(len := used), Rec(child, rec.len - used, kind, name));
  }

  lemma FitKeeps(blk: Block, off: nat, rec: Rec, child: nat, kind: byte, name: Name)
    requires off + rec.len <= |blk| && |name| < 256 && Slack(rec) >= Needs(name)
    ensures var p, q, end := Reads(blk), Reads(FitBytes(blk, off, rec, child, kind, name)), off + rec.len;
            Agree(p, 0, off, q, 0) && Agree(p, end, |blk|, q, 0)
  {
    var blk', end := FitBytes(blk, off, rec, child, kind, name), off + rec.len;
    FitSameBytes(blk, off, rec, child, kind, name);
    SameAgree(blk, 0, off, blk', 0);
    SameAgree(blk, end, |blk|, blk', 0);
  }

  lemma FitSameBytes(blk: Block, off: nat, rec: Rec, child: nat, kind: byte, name: Name)
    requires off + rec.len <= |blk| && |name| < 256 && Slack(rec) >= Needs(name)
    ensures var blk', end := FitBytes(blk, off, rec, child, kind, name), off + rec.len;
            SameBytes(blk, 0, blk', 0, off) && SameBytes(blk, end, blk', end, |blk| - end)
  {
    var end := off + rec.len;
    if rec.ino == 0 {
      SpliceKeeps(blk, off, Encode(child, rec.len, kind, name), 0, off);
      SpliceKeeps(blk, off, Encode(child, rec.len, kind, name), end, |blk|);
    } else {
      var used := Needs(rec.name);
      var mid := Splice(blk, off + 4, Bytes16(used));
      SpliceKeeps(blk, off + 4, Bytes16(used), 0, off);
      SpliceKeeps(blk, off + 4, Bytes16(used), end, |blk|);
      SpliceKeeps(mid, off + used, Encode(child, rec.len - used, kind, name), 0, off);
      SpliceKeeps(mid, off + used, Encode(child, rec.len - used, kind, name), end, |blk|);
    }
  }

  /** The edit inside one record, seen on the whole block. */
  lemma FitBlock(blk: Block, off: nat, rec: Rec, child: nat, kind: byte, name: Name)
    requires HasRoom(blk, off, rec, child, name) && Chain(Reads(blk), 0, off) && Chain(Reads(blk), off + rec.len, |blk|)
    ensures var p, q := Reads(blk), Reads(FitBytes(blk, off, rec, child, kind, name));
            && Chain(q, 0, |blk|)
            && Recs(q, 0, |blk|) == Recs(p, 0, off) + (FitIn(rec, child, kind, name) + Recs(p, off + rec.len, |blk|))
  {
    FitKeeps(blk, off, rec, child, kind, name);
    if rec.ino == 0 { FitGap(blk, off, rec, child, kind, name); } else { FitSplit(blk, off, rec, child, kind, name); }
    EditChain(Reads(blk), Reads(FitBytes(blk, off, rec, child, kind, name)), off, off + rec.len, |blk|);
  }

  /** A whole block is one chain of records. */
  predicate BlockOk(blk: Block) { Chain(Reads(blk), 0, |blk|) }

  function BlockRecs(blk: Block): seq<Rec>
    requires BlockOk(blk)
  {
    Recs(Reads(blk), 0, |blk|)
  }

  lemma InsertCons(rec: Rec, rest: seq<Rec>, child: nat, kind: byte, name: Name)
    ensures InsertRecs([rec] + rest, child, kind, name)
            == if Slack(rec) >= Needs(name) then Some(FitIn(rec, child, kind, name) + rest)
              else Prepend([rec], InsertRecs(rest, child, kind, name))
  {
    assert ([rec] + rest)[1..] == rest;
  }

  /** Everything up to `off` had no room. */
  ghost predicate NoRoomYet(p: Reading, off: nat, n: nat, child: nat, kind: byte, name: Name) {
    && off <= n && Chain(p, 0, off) && Chain(p, off, n) && Chain(p, 0, n)
    && InsertRecs(Recs(p, 0, n), child, kind, name)
       == Prepend(Recs(p, 0, off), InsertRecs(Recs(p, off, n), child, kind, name))
  }

  lemma NoRoomStarts(p: Reading, n: nat, child: nat, kind: byte, name: Name)
    requires Chain(p, 0, n)
    ensures NoRoomYet(p, 0, n, child, kind, name)
  {
    PrependNothing(InsertRecs(Recs(p, 0, n), child, kind, name));
  }

  lemma NoRoomStep(p: Reading, off: nat, n: nat, rec: Rec, child: nat, kind: byte, name: Name)
    requires NoRoomYet(p, off, n, child, kind, name) && off < n && off < |p| && p[off] == Some(rec)
             && Slack(rec) < Needs(name)
    ensures NoRoomYet(p, off + rec.len, n, child, kind, name)
  {
    var rest := Recs(p, off + rec.len, n);
    InsertCons(rec, rest, child, kind, name);
    PrependTwice(Recs(p, 0, off), [rec], InsertRecs(rest, child, kind, name));
    ChainSnoc(p, 0, off, rec);
    ChainBound(p, off + rec.len, n);
  }

  lemma RoomFound(blk: Block, off: nat, rec: Rec, child: nat, kind: byte, name: Name)
    requires NoRoomYet(Reads(blk), off, |blk|, child, kind, name) && off < |blk| && HasRoom(blk, off, rec, child, name)
    ensures var blk' := FitBytes(blk, off, rec, child, kind, name);
            BlockOk(blk') && Some(BlockRecs(blk')) == InsertRecs(BlockRecs(blk), child, kind, name)
  {
    FitBlock(blk, off, rec, child, kind, name);
    InsertCons(rec, Recs(Reads(blk), off + rec.len, |blk|), child, kind, name);
  }

  /** The header fields of the record at `off`. */
  method ReadHeader(blk: Block, off: nat, ghost rec: Rec) returns (ino: nat, recLen: nat, used: nat)
    requires Stands(blk, off, rec) && off + 8 <= |blk|
    ensures ino == rec.ino && recLen == rec.len && used == if rec.ino == 0 then 0 else Needs(rec.name)
    ensures 8 <= rec.len && rec.len % 4 == 0 && off + rec.len <= |blk|
  {
    HeaderIs(blk, off, rec);
    ino, recLen := Le32(blk, off), RecLen(blk, off);
    var nameLen := blk[off + 6] as nat;
    used := if ino == 0 then 0 else Round4(8 + nameLen);
  }

  /** The inner loop of `dir_insert`: the first record with enough room takes the entry. */
  method InsertInBlock(blk: Block, child: nat, kind: byte, name: Name) returns (r: Option<Block>)
    requires BlockOk(blk) && |name| < 256 && 0 < child < TWO32 && |blk| < TWO16
    ensures r.None? ==> InsertRecs(BlockRecs(blk), child, kind, name).None?
    ensures r.Some? ==>
            |r.value| == |blk| && BlockOk(r.value)
              && Some(BlockRecs(r.value)) == InsertRecs(BlockRecs(blk), child, kind, name)
  {
    var bs := |blk|;
    ghost var p := Reads(blk);
    var off := 0;
    NoRoomStarts(p, bs, child, kind, name);
    while off + 8 <= bs
      invariant NoRoomYet(p, off, bs, child, kind, name)
      decreases bs - off
    {
      ghost var rec := p[off].value;
      var ino, recLen, used := ReadHeader(blk, off, rec);
      if recLen == 0 || off + recLen > bs { break; }
      if recLen - used >= Needs(name) {
        RoomFound(blk, off, rec, child, kind, name);
        if used == 0 { return Some(Splice(blk, off, Encode(child, recLen, kind, name))); }
        var cut := Splice(blk, off + 4, Bytes16(used));
        return Some(Splice(cut, off + used, Encode(child, recLen - used, kind, name)));
      }
      NoRoomStep(p, off, bs, rec, child, kind, name);
      off := off + recLen;
    }
    ChainEnds(blk, off);
    return None;
  }

  // ---------------------------------------------------------------- removing

  predicate Hit(r: Rec, name: Name) { r.ino != 0 && r.name == name }

  /** The records left, and the inode that was named. */
  datatype Removal = Removal(recs: seq<Rec>, child: nat)

  /** Remove `name` from `rest`, where `prev` stands in front of it and swallows the removed record. */
  function RemoveAfter(prev: Rec, rest: seq<Rec>, name: Name): Option<Removal>
    decreases rest
  {
    if rest == [] then None
    else if Hit(rest[0], name) then Some(Removal([prev.(len := prev.len + rest[0].len)] + rest[1..], rest[0].ino))
    else Before([prev], RemoveAfter(rest[0], rest[1..], name))
  }

  function Before(a: seq<Rec>, o: Option<Removal>): Option<Removal> {
    match o case None => None case Some(m) => Some(Removal(a + m.recs, m.child))
  }

  /** The first record of a block has nothing in front of it: it becomes a gap. */
  function RemoveRecs(recs: seq<Rec>, name: Name): Option<Removal> {
    if recs == [] then None
    else if Hit(recs[0], name) then Some(Removal([Rec(0, recs[0].len, 0, [])] + recs[1..], recs[0].ino))
    else RemoveAfter(recs[0], recs[1..], name)
  }

  /** Removing deletes exactly one binding and returns it. */
  lemma {:induction false} RemoveAfterUnbinds(prev: Rec, rest: seq<Rec>, name: Name)
    requires !Hit(prev, name) && Unique([prev] + rest)
    ensures RemoveAfter(prev, rest, name).Some? <==> name in Dict([prev] + rest)
    ensures RemoveAfter(prev, rest, name).Some? ==>
              var m := RemoveAfter(prev, rest, name).value;
              m.child == Dict([prev] + rest)[name] && Dict(m.recs) == Dict([prev] + rest) - {name} && Unique(m.recs)
    decreases rest
  {
    DictCons(prev, rest);
    if rest != [] {
      var r, tail := rest[0], rest[1..];
      DictCons(r, tail);
      assert rest == [r] + tail;
      if Hit(r, name) {
        DictCons(prev.(len := prev.len + r.len), tail);
      } else {
        RemoveAfterUnbinds(r, tail, name);
        var o := RemoveAfter(r, tail, name);
        if o.Some? { DictCons(prev, o.value.recs); }
      }
    }
  }

  lemma RemoveUnbinds(recs: seq<Rec>, name: Name)
    requires Unique(recs)
    ensures RemoveRecs(recs, name).Some? <==> name in Dict(recs)
    ensures RemoveRecs(recs, name).Some? ==>
              var m := RemoveRecs(recs, name).value;
              m.child == Dict(recs)[name] && Dict(m.recs) == Dict(recs) - {name} && Unique(m.recs)
  {
    if recs != [] {
      var r, tail := recs[0], recs[1..];
      assert recs == [r] + tail;
      DictCons(r, tail);
      if Hit(r, name) {
        DictCons(Rec(0, r.len, 0, []), tail);
      } else {
        RemoveAfterUnbinds(r, tail, name);
      }
    }
  }

  /** Removing takes away exactly the tag of that name. */
  lemma {:induction false} RemoveAfterTags(prev: Rec, rest: seq<Rec>, name: Name)
    requires !Hit(prev, name) && Unique(rest) && RemoveAfter(prev, rest, name).Some?
    ensures Tags(RemoveAfter(prev, rest, name).value.recs) == Untagged(Tags([prev] + rest), name)
    decreases rest
  {
    var r, tail := rest[0], rest[1..];
    DictCons(r, tail);
    assert rest == [r] + tail;
    TagsCons(prev, rest);
    TagsCons(r, tail);
    TagsOne(prev);
    TagsOne(r);
    if Hit(r, name) {
      var wide := prev.(len := prev.len + r.len);
      TagsCons(wide, tail);
      TagsOne(wide);
      UntaggedElsewhere(tail, name);
    } else {
      RemoveAfterTags(r, tail, name);
      TagsCons(prev, RemoveAfter(r, tail, name).value.recs);
    }
  }

  lemma RemoveTags(recs: seq<Rec>, name: Name)
    requires Unique(recs) && RemoveRecs(recs, name).Some?
    ensures Tags(RemoveRecs(recs, name).value.recs) == Untagged(Tags(recs), name)
  {
    var r, tail := recs[0], recs[1..];
    assert recs == [r] + tail;
    if Hit(r, name) {
      var gap := Rec(0, r.len, 0, []);
      TagsCons(gap, tail);
      TagsOne(gap);
      TagsCons(r, tail);
      TagsOne(r);
      UntaggedElsewhere(tail, name);
    } else {
      RemoveAfterTags(r, tail, name);
    }
  }

  /** One record standing where one or more stood before. */
  lemma EditOne(blk: Block, blk': Block, a: nat, b: nat, r: Rec)
    requires |blk'| == |blk| && a <= b <= |blk| && Chain(Reads(blk), 0, a) && Chain(Reads(blk), b, |blk|)
    requires SameBytes(blk, 0, blk', 0, a) && SameBytes(blk, b, blk', b, |blk| - b)
    requires Stands(blk', a, r) && 0 < r.len && a + r.len == b
    ensures BlockOk(blk') && BlockRecs(blk') == Recs(Reads(blk), 0, a) + ([r] + Recs(Reads(blk), b, |blk|))
  {
    OneRec(Reads(blk'), a, r);
    SameAgree(blk, 0, a, blk', 0);
    SameAgree(blk, b, |blk|, blk', 0);
    EditChain(Reads(blk), Reads(blk'), a, b, |blk|);
  }

  /** The first record of a block turned into a gap. */
  lemma EraseBlock(blk: Block, rec: Rec)
    requires Stands(blk, 0, rec) && rec.ino != 0 && Chain(Reads(blk), rec.len, |blk|) && 8 <= rec.len <= |blk|
    ensures var blk' := Splice(blk, 0, Bytes32(0));
            BlockOk(blk') && BlockRecs(blk') == [Rec(0, rec.len, 0, [])] + Recs(Reads(blk), rec.len, |blk|)
  {
    var blk', gap := Splice(blk, 0, Bytes32(0)), Rec(0, rec.len, 0, []);
    ErasedRec(blk, 0, rec);
    SpliceKeeps(blk, 0, Bytes32(0), 0, 0);
    SpliceKeeps(blk, 0, Bytes32(0), rec.len, |blk|);
    EditOne(blk, blk', 0, rec.len, gap);
    NothingBefore(Reads(blk), [gap] + Recs(Reads(blk), rec.len, |blk|));
  }

  lemma NothingBefore(p: Reading, s: seq<Rec>)
    ensures Recs(p, 0, 0) + s == s
  {
  }

  /** A record swallowed by the one in front of it. */
  lemma MergeBlock(blk: Block, at: nat, prev: Rec, rec: Rec)
    requires Chain(Reads(blk), 0, at) && Stands(blk, at, prev) && 8 <= prev.len && prev.len % 4 == 0
    requires 8 <= rec.len && rec.len % 4 == 0 && at + prev.len + rec.len <= |blk| < TWO16
    requires (prev.ino != 0 ==> Needs(prev.name) <= prev.len) && Chain(Reads(blk), at + prev.len + rec.len, |blk|)
    ensures var end := at + prev.len + rec.len;
            var blk' := Splice(blk, at + 4, Bytes16(prev.len + rec.len));
            BlockOk(blk') && BlockRecs(blk')
                    == Recs(Reads(blk), 0, at) + ([prev.(len := prev.len + rec.len)] + Recs(Reads(blk), end, |blk|))
  {
    var len := prev.len + rec.len;
    MergeBytes(blk, at, prev, len);
    EditOne(blk, Splice(blk, at + 4, Bytes16(len)), at, at + len, prev.(len := len));
  }

  lemma MergeBytes(blk: Block, at: nat, prev: Rec, len: nat)
    requires Stands(blk, at, prev) && 8 <= prev.len <= len && len % 4 == 0 && at + len <= |blk| < TWO16
    requires prev.ino != 0 ==> Needs(prev.name) <= prev.len
    ensures var blk' := Splice(blk, at + 4, Bytes16(len));
            Stands(blk', at, prev.(len := len)) && SameBytes(blk, 0, blk', 0, at)
                   && SameBytes(blk, at + len, blk', at + len, |blk| - (at + len))
  {
    RelengthRec(blk, at, prev, len);
    SpliceKeeps(blk, at + 4, Bytes16(len), 0, at);
    SpliceKeeps(blk, at + 4, Bytes16(len), at + len, |blk|);
  }

  /** How far the search has come: `prev` is the record in front of `off`, none of those before matched. */
  ghost predicate NotYet(p: Reading, prev: Option<nat>, off: nat, n: nat, name: Name) {
    && off <= n && Chain(p, off, n) && Chain(p, 0, n)
    && match prev
       case None => off == 0
       case Some(at) =>
         && Chain(p, 0, at) && at < |p| && p[at].Some? && at + p[at].value.len == off
         && RemoveRecs(Recs(p, 0, n), name) == Before(Recs(p, 0, at), RemoveAfter(p[at].value, Recs(p, off, n), name))
  }

  lemma RemoveCons(prev: Rec, rec: Rec, rest: seq<Rec>, name: Name)
    ensures RemoveAfter(prev, [rec] + rest, name)
            == if Hit(rec, name) then Some(Removal([prev.(len := prev.len + rec.len)] + rest, rec.ino))
              else Before([prev], RemoveAfter(rec, rest, name))
    ensures RemoveRecs([rec] + rest, name)
            == if Hit(rec, name) then Some(Removal([Rec(0, rec.len, 0, [])] + rest, rec.ino))
              else RemoveAfter(rec, rest, name)
  {
    assert ([rec] + rest)[1..] == rest;
  }

  lemma BeforeTwice(a: seq<Rec>, b: seq<Rec>, o: Option<Removal>)
    ensures Before(a, Before(b, o)) == Before(a + b, o) && Before([], o) == o
  {
    if o.Some? {
      ConcatAssoc(a, b, o.value.recs);
      assert [] + o.value.recs == o.value.recs;
    }
  }

  lemma NotYetFirst(p: Reading, n: nat, rec: Rec, name: Name)
    requires NotYet(p, None, 0, n, name) && 0 < n && 0 < |p| && p[0] == Some(rec) && !Hit(rec, name)
    ensures NotYet(p, Some(0), rec.len, n, name)
  {
    var rest := Recs(p, rec.len, n);
    ChainBound(p, rec.len, n);
    RemoveCons(rec, rec, rest, name);
    BeforeTwice([], [], RemoveAfter(rec, rest, name));
  }

  lemma NotYetNext(p: Reading, at: nat, off: nat, n: nat, rec: Rec, name: Name)
    requires NotYet(p, Some(at), off, n, name) && off < n && off < |p| && p[off] == Some(rec) && !Hit(rec, name)
    ensures NotYet(p, Some(off), off + rec.len, n, name)
  {
    var rest := Recs(p, off + rec.len, n);
    var prev := p[at].value;
    ChainBound(p, off + rec.len, n);
    RemoveCons(prev, rec, rest, name);
    BeforeTwice(Recs(p, 0, at), [prev], RemoveAfter(rec, rest, name));
    ChainSnoc(p, 0, at, prev);
  }

  lemma NotYetStep(p: Reading, prev: Option<nat>, off: nat, n: nat, rec: Rec, name: Name)
    requires NotYet(p, prev, off, n, name) && off < n && off < |p| && p[off] == Some(rec) && !Hit(rec, name)
    ensures NotYet(p, Some(off), off + rec.len, n, name)
  {
    if prev.None? { NotYetFirst(p, n, rec, name); } else { NotYetNext(p, prev.value, off, n, rec, name); }
  }

  /** The block after `name`, standing at `off`, was taken out. */
  function RemoveBytes(blk: Block, prev: Option<nat>, off: nat, recLen: nat): (r: Block)
    requires off + 8 <= |blk| && (prev.Some? ==> prev.value + 8 <= |blk|)
    ensures |r| == |blk|
  {
    match prev
    case Some(at) => Splice(blk, at + 4, Bytes16(RecLen(blk, at) + recLen))
    case None => Splice(blk, off, Bytes32(0))
  }

  lemma HitFirst(blk: Block, rec: Rec, name: Name)
    requires NotYet(Reads(blk), None, 0, |blk|, name) && Stands(blk, 0, rec) && Hit(rec, name) && 8 <= rec.len <= |blk|
    ensures var blk' := Splice(blk, 0, Bytes32(0));
            BlockOk(blk') && RemoveRecs(BlockRecs(blk), name) == Some(Removal(BlockRecs(blk'), rec.ino))
  {
    EraseBlock(blk, rec);
    RemoveCons(rec, rec, Recs(Reads(blk), rec.len, |blk|), name);
  }

  lemma HitNext(blk: Block, at: nat, off: nat, prev: Rec, rec: Rec, name: Name)
    requires NotYet(Reads(blk), Some(at), off, |blk|, name) && Stands(blk, off, rec) && Stands(blk, at, prev)
             && Hit(rec, name) && |blk| < TWO16
    requires 8 <= prev.len && prev.len % 4 == 0 && (prev.ino != 0 ==> Needs(prev.name) <= prev.len)
    requires 8 <= rec.len && rec.len % 4 == 0 && off + rec.len <= |blk|
    ensures var blk' := Splice(blk, at + 4, Bytes16(prev.len + rec.len));
            BlockOk(blk') && RemoveRecs(BlockRecs(blk), name) == Some(Removal(BlockRecs(blk'), rec.ino))
  {
    MergeBlock(blk, at, prev, rec);
    RemoveCons(prev, rec, Recs(Reads(blk), off + rec.len, |blk|), name);
  }

  lemma HitFound(blk: Block, prev: Option<nat>, off: nat, rec: Rec, name: Name)
    requires NotYet(Reads(blk), prev, off, |blk|, name) && Stands(blk, off, rec) && Hit(rec, name) && |blk| < TWO16
    ensures off + 8 <= |blk| && (prev.Some? ==> prev.value + 8 <= |blk|)
    ensures var blk' := RemoveBytes(blk, prev, off, rec.len);
            BlockOk(blk') && RemoveRecs(BlockRecs(blk), name) == Some(Removal(BlockRecs(blk'), rec.ino))
  {
    StandsFits(blk, off, rec);
    match prev {
      case None => HitFirst(blk, rec, name);
      case Some(at) =>
        var before := Reads(blk)[at].value;
        HeaderIs(blk, at, before);
        HitNext(blk, at, off, before, rec, name);
    }
  }

  /** The inner loop of `dir_remove`. */
  method RemoveFromBlock(blk: Block, name: Name) returns (r: Option<(Block, nat)>)
    requires BlockOk(blk) && |blk| < TWO16
    ensures r.None? ==> RemoveRecs(BlockRecs(blk), name).None?
    ensures r.Some? ==>
            |r.value.0| == |blk| && BlockOk(r.value.0)
              && RemoveRecs(BlockRecs(blk), name) == Some(Removal(BlockRecs(r.value.0), r.value.1))
  {
    var bs := |blk|;
    ghost var p := Reads(blk);
    var off := 0;
    var prev: Option<nat> := None;
    while off + 8 <= bs
      invariant NotYet(p, prev, off, bs, name)
      decreases bs - off
    {
      ghost var rec := p[off].value;
      HeaderIs(blk, off, rec);
      var ino, recLen, nameLen := Le32(blk, off), RecLen(blk, off), blk[off + 6] as nat;
      if recLen == 0 || off + recLen > bs { break; }
      if ino != 0 && nameLen == |name| && blk[off + 8..off + 8 + nameLen] == name {
        HitFound(blk, prev, off, rec, name);
        return Some((RemoveBytes(blk, prev, off, recLen), ino));
      }
      NotYetStep(p, prev, off, bs, rec, name);
      prev := Some(off);
      off := off + recLen;
    }
    ChainEnds(blk, off);
    return None;
  }

  // ---------------------------------------------------------------- looking up

  function LookupRecs(recs: seq<Rec>, name: Name): Option<nat> {
    if recs == [] then None else if Hit(recs[0], name) then Some(recs[0].ino) else LookupRecs(recs[1..], name)
  }

  /** Scanning for a name is asking the map. */
  lemma {:induction false} LookupIsDict(recs: seq<Rec>, name: Name)
    ensures LookupRecs(recs, name) == if name in Dict(recs) then Some(Dict(recs)[name]) else None
  {
    if recs != [] { LookupIsDict(recs[1..], name); }
  }

  lemma LookupCons(rec: Rec, rest: seq<Rec>, name: Name)
    ensures LookupRecs([rec] + rest, name) == if Hit(rec, name) then Some(rec.ino) else LookupRecs(rest, name)
  {
    assert ([rec] + rest)[1..] == rest;
  }

  /** The loop of `lookup`, over the bytes of the whole directory. */
  method LookupInData(data: Block, name: Name) returns (r: Option<nat>)
    requires BlockOk(data)
    ensures r == LookupRecs(BlockRecs(data), name)
  {
    var n := |data|;
    ghost var p := Reads(data);
    var off := 0;
    while off + 8 <= n
      invariant off <= n && Chain(p, off, n) && LookupRecs(BlockRecs(data), name) == LookupRecs(Recs(p, off, n), name)
      decreases n - off
    {
      ghost var rec := p[off].value;
      HeaderIs(data, off, rec);
      LookupCons(rec, Recs(p, off + rec.len, n), name);
      var ino, recLen, nameLen := Le32(data, off), RecLen(data, off), data[off + 6] as nat;
      if recLen == 0 { break; }
      if ino != 0 && off + 8 + nameLen <= n && data[off + 8..off + 8 + nameLen] == name { return Some(ino); }
      ChainBound(p, off + recLen, n);
      off := off + recLen;
    }
    ChainEnds(data, off);
    return None;
  }
}
