/** `unlink` and `rmdir`. */
module Ext2Tree {
  import opened Common
  import opened Ext2Disk
  import opened Ext2Alloc
  import opened Ext2Owners
  import opened Ext2Overwrite
  import opened Ext2Records
  import opened Ext2Dir
  import opened Ext2Read
  import opened Ext2Names
  import opened Ext2Entries
  import opened Ext2Inodes
  import opened Ext2Links
  import opened Ext2Ops
  import opened Ext2Namespace

  // ---------------------------------------------------------------- unlink

  /** The live inodes after unlinking `t`: it goes with its last link. */
  function AfterUnlink(d: Disk, live: set<nat>, t: nat): set<nat>
    requires t < |d.inodes|
  {
    if d.inodes[t].links <= 1 then live - {t} else live
  }

  /** What unlinking did below directory `p`. */
  ghost predicate Unlinked(g: Geo, d0: Disk, d: Disk, live: set<nat>, meta: set<nat>, p: nat, name: Name, t: nat)
    requires DirOk(g, d0, p)
  {
    && t < |d0.inodes| && t < |d.inodes| && Mounted(g, d, AfterUnlink(d0, live, t), meta)
    && DirOk(g, d, p) && Names(g, d, p) == Names(g, d0, p) - {name} && d.inodes[p] == d0.inodes[p]
    && DirTags(g, d, p) == Untagged(DirTags(g, d0, p), name) && Tallies(d.groups) == Tallies(d0.groups)
    && d.inodes[t].mode == d0.inodes[t].mode
    && (forall i :: i in live && i != p && i != t ==> SameFile(g, d0, d, i))
    && (d0.inodes[t].links > 1 ==>
       BytesOf(g, d, t) == BytesOf(g, d0, t) && d.inodes[t] == d0.inodes[t].(links := Bumped(d0.inodes[t].links, -1)))
  }

  /** Dropping the last link drops the file; otherwise the link count goes down by one. */
  ghost predicate Dropped(g: Geo, d: Disk, d': Disk, live: set<nat>, meta: set<nat>, t: nat) {
    && t < |d.inodes| && t < |d'.inodes| && Mounted(g, d', AfterUnlink(d, live, t), meta)
       && AllSameBut(g, d, d', live, t) && Tallies(d'.groups) == Tallies(d.groups)
       && d'.inodes[t].mode == d.inodes[t].mode
    && (d.inodes[t].links > 1 ==>
       BytesOf(g, d', t) == BytesOf(g, d, t) && d'.inodes[t] == d.inodes[t].(links := Bumped(d.inodes[t].links, -1)))
  }

  lemma LinkDropped(g: Geo, d: Disk, d': Disk, live: set<nat>, meta: set<nat>, t: nat)
    requires Mounted(g, d, live, meta) && t in live && t < |d.inodes| && d.inodes[t].links > 1
    requires Relinked(d, d', t) && d'.inodes[t] == d.inodes[t].(links := Bumped(d.inodes[t].links, -1))
    ensures Dropped(g, d, d', live, meta, t)
  {
    RelinkKeeps(g, d, d', live, meta, t);
  }

  /** Drop the link count, or the whole file with its last link. */
  method DropLink(v: Volume, t: nat, ghost live: set<nat>, ghost meta: set<nat>)
    requires Mounted(v.geo, v.disk, live, meta) && t in live && t < |v.disk.inodes|
    modifies v
    ensures Dropped(v.geo, old(v.disk), v.disk, live, meta, t)
  {
    if v.disk.inodes[t].links <= 1 {
      Discard(v, t, false, live, meta);
    } else {
      BumpLinks(v, t, -1);
      LinkDropped(v.geo, old(v.disk), v.disk, live, meta, t);
    }
  }

  lemma UnlinkDone(g: Geo, d0: Disk, d1: Disk, d2: Disk, live: set<nat>, meta: set<nat>, p: nat, name: Name, t: nat)
    requires p in live && t in live && p != t && DirOk(g, d0, p) && d1.inodes == d0.inodes
             && AllSameBut(g, d0, d1, live, p) && d1.groups == d0.groups
    requires DirOk(g, d1, p) && Names(g, d1, p) == Names(g, d0, p) - {name} && Dropped(g, d1, d2, live, meta, t)
    requires DirTags(g, d1, p) == Untagged(DirTags(g, d0, p), name)
    ensures Unlinked(g, d0, d2, live, meta, p, name, t)
  {
    assert SameFile(g, d0, d1, t) && SameFile(g, d1, d2, p);
    DirStays(g, d1, d2, p);
    forall i | i in live && i != p && i != t ensures SameFile(g, d0, d2, i) {
      assert SameFile(g, d0, d1, i) && SameFile(g, d1, d2, i);
    }
  }

  /** The inode a name stands for. */
  method FindTarget(v: Volume, p: nat, name: Name, ghost live: set<nat>, ghost meta: set<nat>) returns (r: Option<nat>)
    requires Mounted(v.geo, v.disk, live, meta) && Home(v.geo, v.disk, live, p)
    ensures r.Some? <==> name in Names(v.geo, v.disk, p)
    ensures r.Some? ==> r.value == Target(v.geo, v.disk, live, p, name) && r.value in live && r.value < |v.disk.inodes|
  {
    var found := Lookup(v, p, name, live, meta);
    if found.None? { return None; }
    assert FileOk(v.geo, v.disk, meta, found.value - 1);
    return Some(found.value - 1);
  }

  /** `unlink_path`: fails, changing nothing, exactly when there is no such name or it names a directory. */
  method Unlink(v: Volume, p: nat, name: Name, ghost live: set<nat>, ghost meta: set<nat>) returns (r: Option<nat>)
    requires Mounted(v.geo, v.disk, live, meta) && Home(v.geo, v.disk, live, p) && IsDirectory(v.disk.inodes[p])
    modifies v
    ensures r.Some? <==> IsFile(v.geo, old(v.disk), live, p, name)
    ensures r.None? ==> v.disk == old(v.disk)
    ensures r.Some? ==>
            r.value == Target(v.geo, old(v.disk), live, p, name)
              && Unlinked(v.geo, old(v.disk), v.disk, live, meta, p, name, r.value)
  {
    r := FindTarget(v, p, name, live, meta);
    if r.None? || IsDirectory(v.disk.inodes[r.value]) { return None; }
    RemoveFile(v, p, name, r.value, live, meta);
  }

  ghost predicate IsFile(g: Geo, d: Disk, live: set<nat>, p: nat, name: Name)
    requires Home(g, d, live, p)
  {
    name in Names(g, d, p) && Target(g, d, live, p, name) < |d.inodes|
      && !IsDirectory(d.inodes[Target(g, d, live, p, name)])
  }

  method RemoveFile(v: Volume, p: nat, name: Name, t: nat, ghost live: set<nat>, ghost meta: set<nat>)
    requires Mounted(v.geo, v.disk, live, meta) && Home(v.geo, v.disk, live, p) && name in Names(v.geo, v.disk, p)
    requires t in live && t != p && t < |v.disk.inodes|
    modifies v
    ensures Unlinked(v.geo, old(v.disk), v.disk, live, meta, p, name, t)
  {
    var _ := DirRemove(v, p, name, live, meta);
    ghost var d1 := v.disk;
    DropLink(v, t, live, meta);
    UnlinkDone(v.geo, old(v.disk), d1, v.disk, live, meta, p, name, t);
  }

  // ---------------------------------------------------------------- rmdir

  /** No live record besides `.` and `..`. */
  predicate DotsOnly(recs: seq<Rec>) {
    recs == [] || ((recs[0].ino == 0 || IsDots(recs[0].name)) && DotsOnly(recs[1..]))
  }

  lemma {:induction false} DotsOnlyNames(recs: seq<Rec>)
    ensures DotsOnly(recs) <==> forall n :: n in Dict(recs) ==> IsDots(n)
  {
    if recs != [] {
      DotsOnlyNames(recs[1..]);
      var m := Dict(recs[1..]);
      if recs[0].ino != 0 {
        assert Dict(recs) == m[recs[0].name := recs[0].ino];
        assert recs[0].name in Dict(recs);
        assert forall n :: n in m ==> n in Dict(recs);
      }
    }
  }

  lemma DotsCons(rec: Rec, rest: seq<Rec>)
    ensures DotsOnly([rec] + rest) <==> (rec.ino == 0 || IsDots(rec.name)) && DotsOnly(rest)
  {
    assert ([rec] + rest)[1..] == rest;
  }

  /** The emptiness check of `rmdir_path`. */
  method IsEmptyDir(data: Block) returns (r: bool)
    requires BlockOk(data)
    ensures r == DotsOnly(BlockRecs(data))
  {
    var n := |data|;
    ghost var p := Reads(data);
    var off := 0;
    while off + 8 <= n
      invariant off <= n && Chain(p, off, n) && DotsOnly(BlockRecs(data)) == DotsOnly(Recs(p, off, n))
      decreases n - off
    {
      ghost var rec := p[off].value;
      HeaderIs(data, off, rec);
      DotsCons(rec, Recs(p, off + rec.len, n));
      var ino, recLen, nameLen := Le32(data, off), RecLen(data, off), data[off + 6] as nat;
      if recLen == 0 { break; }
      var name := data[off + 8..Min(off + 8 + nameLen, n)];
      if ino != 0 && name != DOT && name != DOTDOT { return false; }
      ChainBound(p, off + recLen, n);
      off := off + recLen;
    }
    ChainEnds(data, off);
    return true;
  }

  ghost predicate Empty(g: Geo, d: Disk, t: nat)
    requires DirOk(g, d, t)
  {
    forall n :: n in Names(g, d, t) ==> IsDots(n)
  }

  method CheckEmpty(v: Volume, t: nat, ghost live: set<nat>, ghost meta: set<nat>) returns (r: bool)
    requires Shaped(v.geo, v.disk) && Safe(v.geo, v.disk, live, meta) && t in live && DirOk(v.geo, v.disk, t)
    ensures r == Empty(v.geo, v.disk, t)
  {
    MapInBounds(v.geo, v.disk, live, meta, t);
    var data := ReadFile(v.geo, v.disk, v.disk.inodes[t]);
    DirReadsAs(v.geo, v.disk, live, meta, t);
    r := IsEmptyDir(data);
    DotsOnlyNames(BlockRecs(data));
  }

  /** What the name stands for, if it is a directory, is a well-formed one. */
  ghost predicate TargetOk(g: Geo, d: Disk, live: set<nat>, p: nat, name: Name)
    requires Home(g, d, live, p)
  {
    name in Names(g, d, p) ==>
      var t := Target(g, d, live, p, name); t < |d.inodes| && (IsDirectory(d.inodes[t]) ==> DirOk(g, d, t))
  }

  ghost predicate Removable(g: Geo, d: Disk, live: set<nat>, p: nat, name: Name)
    requires Home(g, d, live, p) && TargetOk(g, d, live, p, name)
  {
    && name in Names(g, d, p)
    && var t := Target(g, d, live, p, name); t < |d.inodes| && IsDirectory(d.inodes[t]) && Empty(g, d, t)
  }

  /** What removing directory `t` did below directory `p`. */
  ghost predicate DirRemoved(g: Geo, d0: Disk, d: Disk, live: set<nat>, meta: set<nat>, p: nat, name: Name, t: nat)
    requires DirOk(g, d0, p)
  {
    && Mounted(g, d, live - {t}, meta)
    && (forall i :: i in live && i != p && i != t ==> SameFile(g, d0, d, i))
    && (p != t ==>
       DirOk(g, d, p) && Names(g, d, p) == Names(g, d0, p) - {name} && Titled(d0, d, p, Bumped(d0.inodes[p].links, -1))
       && DirTags(g, d, p) == Untagged(DirTags(g, d0, p), name))
    && Tallies(d.groups) == Retallied(g, Tallies(d0.groups), t, true, -1)
    && t < |d0.inodes| && t < |d.inodes| && d.inodes[t].block == d0.inodes[t].block
       && d.inodes[t].mode == d0.inodes[t].mode
  }

  /**
   `rmdir_path`: fails, changing nothing, exactly when the name is missing, is no directory or is not empty.
   Removing `.` takes the directory itself away, so `p` keeps its names only when it is not the one removed.
   */
  method Rmdir(v: Volume, p: nat, name: Name, ghost live: set<nat>, ghost meta: set<nat>) returns (r: Option<nat>)
    requires Mounted(v.geo, v.disk, live, meta) && Home(v.geo, v.disk, live, p)
             && TargetOk(v.geo, v.disk, live, p, name)
    modifies v
    ensures r.Some? <==> Removable(v.geo, old(v.disk), live, p, name)
    ensures r.None? ==> v.disk == old(v.disk)
    ensures r.Some? ==>
            r.value == Target(v.geo, old(v.disk), live, p, name)
              && DirRemoved(v.geo, old(v.disk), v.disk, live, meta, p, name, r.value)
  {
    r := FindTarget(v, p, name, live, meta);
    if r.None? || !IsDirectory(v.disk.inodes[r.value]) { return None; }
    var empty := CheckEmpty(v, r.value, live, meta);
    if !empty { return None; }
    RemoveDir(v, p, name, r.value, live, meta);
  }

  method RemoveDir(v: Volume, p: nat, name: Name, t: nat, ghost live: set<nat>, ghost meta: set<nat>)
    requires Mounted(v.geo, v.disk, live, meta) && Home(v.geo, v.disk, live, p) && t in live
             && name in Names(v.geo, v.disk, p)
    modifies v
    ensures DirRemoved(v.geo, old(v.disk), v.disk, live, meta, p, name, t)
  {
    var _ := DirRemove(v, p, name, live, meta);
    ghost var d1 := v.disk;
    Discard(v, t, true, live, meta);
    ghost var d2 := v.disk;
    if p != t { assert SameFile(v.geo, d1, d2, p); }
    BumpLinks(v, p, -1);
    RmdirDone(v.geo, old(v.disk), d1, d2, v.disk, live, meta, p, name, t);
  }

  lemma RmdirDone(g: Geo, d0: Disk, d1: Disk, d2: Disk, d3: Disk, live: set<nat>, meta: set<nat>, p: nat, name: Name,
                  t: nat)
    requires p in live && t in live && DirOk(g, d0, p) && AllSameBut(g, d0, d1, live, p) && d1.groups == d0.groups
    requires DirOk(g, d1, p) && Names(g, d1, p) == Names(g, d0, p) - {name}
             && DirTags(g, d1, p) == Untagged(DirTags(g, d0, p), name)
    requires ValidGeo(g) && Tallies(d2.groups) == Retallied(g, Tallies(d1.groups), t, true, -1)
    requires Mounted(g, d2, live - {t}, meta) && AllSameBut(g, d1, d2, live, t) && Relinked(d2, d3, p)
    requires t < |d0.inodes| && t < |d2.inodes| && d1.inodes == d0.inodes && d2.inodes[t].block == d0.inodes[t].block
    requires d2.inodes[t].mode == d0.inodes[t].mode
    requires d3.inodes[p].mode == d2.inodes[p].mode && d3.inodes[p].links == Bumped(d2.inodes[p].links, -1)
    ensures DirRemoved(g, d0, d3, live, meta, p, name, t)
  {
    if p == t {
      DeadPatch(g, d2, d3, live - {t}, meta, p);
    } else {
      assert SameFile(g, d1, d2, p);
      DirStays(g, d1, d2, p);
      RelinkKeeps(g, d2, d3, live - {t}, meta, p);
      RelinkNames(g, d2, d3, p);
    }
    RmdirOthers(g, d0, d1, d2, d3, live, p, t);
  }

  lemma RmdirOthers(g: Geo, d0: Disk, d1: Disk, d2: Disk, d3: Disk, live: set<nat>, p: nat, t: nat)
    requires AllSameBut(g, d0, d1, live, p) && AllSameBut(g, d1, d2, live, t) && AllSameBut(g, d2, d3, live - {t}, p)
    ensures forall i :: i in live && i != p && i != t ==> SameFile(g, d0, d3, i)
  {
    forall i | i in live && i != p && i != t ensures SameFile(g, d0, d3, i) {
      assert SameFile(g, d0, d1, i) && SameFile(g, d1, d2, i) && SameFile(g, d2, d3, i);
    }
  }
}
