/** `dir_insert` and `dir_remove` on the volume. */
module Ext2Entries {
  import opened Common
  import opened Ext2Disk
  import opened Ext2Alloc
  import opened Ext2Layout
  import opened Ext2Owners
  import opened Ext2Overwrite
  import opened Ext2Adopt
  import opened Ext2Records
  import opened Ext2Dir
  import opened Ext2Names

  /** A direct slot holds a block exactly when it is one of the directory's blocks. */
  lemma SlotPtr(g: Geo, node: Inode, slot: nat)
    requires DirShape(g, node) && slot < 12
    ensures node.block[slot] != 0 <==> slot < |DirPtrs(node)|
    ensures slot < |DirPtrs(node)| ==> DirPtrs(node)[slot] == node.block[slot]
  {
    NonZeroAll(node.block[..12]);
    assert node.block[slot] == node.block[..12][slot];
  }

  lemma PtrInBounds(g: Geo, d: Disk, live: set<nat>, meta: set<nat>, t: nat, j: nat)
    requires Mounted(g, d, live, meta) && t in live && DirOk(g, d, t) && j < |DirPtrs(d.inodes[t])|
    ensures DirPtrs(d.inodes[t])[j] < |d.blocks| && |d.blocks[DirPtrs(d.inodes[t])[j]]| == g.BlockSize() < TWO16
    ensures BlockOk(d.blocks[DirPtrs(d.inodes[t])[j]])
  {
    assert FileOk(g, d, meta, t);
    DirOwned(g, d, t);
    assert DirPtrs(d.inodes[t])[j] in OwnedBy(d, t);
    assert BlockOk(BlockAt(d, DirPtrs(d.inodes[t])[j]));
  }

  // ---------------------------------------------------------------- into an existing block

  lemma InsertEdits(g: Geo, d: Disk, d': Disk, t: nat, j: nat, name: Name, child: nat, kind: byte, now: Block)
    requires DirOk(g, d, t) && j < |DirPtrs(d.inodes[t])| && name !in Names(g, d, t) && child != 0
    requires var b := DirPtrs(d.inodes[t])[j];
             && b < |d.blocks| && BlockOk(d.blocks[b]) && d' == d.(blocks := d.blocks[b := now])
             && BlockOk(now) && |now| == |d.blocks[b]|
                && Some(BlockRecs(now)) == InsertRecs(BlockRecs(d.blocks[b]), child, kind, name)
    ensures DirEdit(g, d, d', t, j, name, Some(child), now)
  {
    var ptrs := DirPtrs(d.inodes[t]);
    SplitNames(d, ptrs, j);
    FoundOnlyIn(d, ptrs, j, name);
    InsertBinds(BlockRecs(d.blocks[ptrs[j]]), child, kind, name);
  }

  // ---------------------------------------------------------------- into a fresh block

  /** The only record of a fresh block takes all of it. */
  lemma FreshBlock(bs: nat, child: nat, kind: byte, name: Name)
    requires |name| < 256 && 0 < child < TWO32 && bs < TWO16 && bs % 4 == 0 && 8 + |name| <= bs
    ensures var blk := Splice(ZeroBlock(bs), 0, Encode(child, bs, kind, name));
            BlockOk(blk) && BlockRecs(blk) == [Rec(child, bs, kind, name)]
  {
    WrittenRec(ZeroBlock(bs), 0, child, bs, kind, name);
    OneRec(Reads(Splice(ZeroBlock(bs), 0, Encode(child, bs, kind, name))), 0, Rec(child, bs, kind, name));
  }

  /** The directory's record with one more block. */
  function Extended(g: Geo, node: Inode, slot: nat, b: nat): Inode
    requires slot < |node.block|
  {
    node.(size := node.size + g.BlockSize(), blocks512 := node.blocks512 + g.sectors, block := node.block[slot := b])
  }

  lemma ExtendedPtrs(g: Geo, node: Inode, b: nat)
    requires DirShape(g, node) && |DirPtrs(node)| < 12 && b != 0
    ensures var now := Extended(g, node, |DirPtrs(node)|, b);
            DirShape(g, now) && DirPtrs(now) == DirPtrs(node) + [b]
  {
    var ptrs := DirPtrs(node);
    var k := |ptrs|;
    var now := Extended(g, node, k, b);
    NonZeroAll(node.block[..12]);
    assert now.block[..12] == node.block[..12][k := b];
    assert now.block[..12] == (ptrs + [b]) + Zeros(11 - k);
    NonZeroConcatZeros(ptrs + [b], 11 - k);
    MulSucc(k, g.BlockSize());
  }

  /** A fresh block hung off the directory: `b` was free, now holds the one record, and the inode lists it. */
  ghost predicate DirGrown(g: Geo, d: Disk, d1: Disk, d2: Disk, t: nat, b: nat, rec: Rec)
    requires DirOk(g, d, t)
  {
    && Ready(g, d1) && Grew(g, d, d1, [b]) && b < |d1.blocks| && b != 0 && |DirPtrs(d.inodes[t])| < 12
       && t < |d1.inodes|
    && BlockOk(d1.blocks[b]) && BlockRecs(d1.blocks[b]) == [rec]
    && d2 == d1.(inodes := d1.inodes[t := Extended(g, d.inodes[t], |DirPtrs(d.inodes[t])|, b)])
  }

  lemma GrownNames(g: Geo, d: Disk, d1: Disk, d2: Disk, meta: set<nat>, t: nat, b: nat, rec: Rec)
    requires DirOk(g, d, t) && FileOk(g, d, meta, t) && DirGrown(g, d, d1, d2, t, b, rec) && rec.ino != 0
             && rec.name !in Names(g, d, t)
    ensures DirOk(g, d2, t) && Names(g, d2, t) == Names(g, d, t)[rec.name := rec.ino]
  {
    var ptrs := DirPtrs(d.inodes[t]);
    ExtendedPtrs(g, d.inodes[t], b);
    DirOwned(g, d, t);
    forall i | 0 <= i < |ptrs| ensures BlockAt(d2, ptrs[i]) == BlockAt(d, ptrs[i]) {
      assert ptrs[i] in OwnedBy(d, t);
      assert Used(g, d, ptrs[i]);
    }
    SameDirRecs(d, d2, ptrs);
    SnocNames(d2, ptrs, b, rec);
  }

  lemma SnocNames(d: Disk, ptrs: seq<nat>, b: nat, rec: Rec)
    requires BlocksOk(d, ptrs) && Unique(DirRecs(d, ptrs)) && BlockOk(BlockAt(d, b))
             && BlockRecs(BlockAt(d, b)) == [rec]
    requires rec.ino != 0 && rec.name !in Dict(DirRecs(d, ptrs))
    ensures BlocksOk(d, ptrs + [b]) && Unique(DirRecs(d, ptrs + [b]))
            && Dict(DirRecs(d, ptrs + [b])) == Dict(DirRecs(d, ptrs))[rec.name := rec.ino]
  {
    DirRecsOne(d, b);
    DirRecsConcat(d, ptrs, [b]);
    DictConcat(DirRecs(d, ptrs), [rec]);
    DictCons(rec, []);
    assert [rec] + [] == [rec];
  }

  lemma GrownAdopts(g: Geo, d: Disk, d1: Disk, d2: Disk, live: set<nat>, meta: set<nat>, t: nat, b: nat, rec: Rec)
    requires Mounted(g, d, live, meta) && t in live && DirOk(g, d, t) && DirGrown(g, d, d1, d2, t, b, rec)
    ensures Adopted(g, d, d2, live, t, [b])
  {
    assert FileOk(g, d, meta, t);
    var ptrs := DirPtrs(d.inodes[t]);
    DirOwned(g, d, t);
    ExtendedPtrs(g, d.inodes[t], b);
    DirOwned(g, d2, t);
    PatchKeepsCounts(g, d1, d2, t, d2.inodes[t]);
    SameUsed(g, d1, d2);
    assert OnlyInode(d, d2, t, true) by { assert d.ibits[t := true] == d.ibits; }
    GrownOwned(g, d, d1, ptrs, b);
  }

  lemma GrownOwned(g: Geo, d: Disk, d1: Disk, ptrs: seq<nat>, b: nat)
    requires NoDup(ptrs) && Grew(g, d, d1, [b]) && forall x :: x in ptrs ==> Used(g, d, x)
    ensures NoDup(ptrs + [b]) && (forall x :: x in ptrs + [b] <==> x in ptrs || x in [b])
    ensures forall x :: Used(g, d1, x) <==> Used(g, d, x) || x in [b]
  {
    assert b in [b];
    NoDupConcat(ptrs, [b]);
  }

  lemma GrowDir(g: Geo, d: Disk, d1: Disk, d2: Disk, live: set<nat>, meta: set<nat>, t: nat, b: nat, rec: Rec)
    requires Mounted(g, d, live, meta) && t in live && DirOk(g, d, t) && DirGrown(g, d, d1, d2, t, b, rec)
    requires rec.ino != 0 && rec.name !in Names(g, d, t)
    ensures Mounted(g, d2, live, meta) && DirOk(g, d2, t) && Names(g, d2, t) == Names(g, d, t)[rec.name := rec.ino]
    ensures forall i :: i in live && i != t ==> SameFile(g, d, d2, i)
  {
    assert FileOk(g, d, meta, t);
    GrownNames(g, d, d1, d2, meta, t, b, rec);
    GrownAdopts(g, d, d1, d2, live, meta, t, b, rec);
    AdoptInPlace(g, d, d2, live, meta, t, [b]);
  }

  /** The record of `t` is of the same kind as before and has `links` links. */
  ghost predicate Titled(d: Disk, d': Disk, t: nat, links: nat) {
    t < |d.inodes| && t < |d'.inodes| && d'.inodes[t].mode == d.inodes[t].mode && d'.inodes[t].links == links
  }

  /** One name was added to directory `t`, which has `links` links now, and nothing else changed. */
  ghost predicate Bound(g: Geo, d: Disk, d': Disk, live: set<nat>, meta: set<nat>, t: nat, name: Name, child: nat,
                        links: nat)
    requires DirOk(g, d, t)
  {
    && Mounted(g, d', live, meta) && DirOk(g, d', t) && Names(g, d', t) == Names(g, d, t)[name := child]
       && Titled(d, d', t, links)
    && (forall i :: i in live && i != t ==> SameFile(g, d, d', i))
  }

  /** The record added to directory `t` says so much, and the others say what they said. */
  ghost predicate Tagged(g: Geo, d: Disk, d': Disk, t: nat, name: Name, child: nat, kind: byte)
    requires DirOk(g, d, t)
  {
    DirOk(g, d', t) && DirTags(g, d', t) == DirTags(g, d, t) + {Tag(name, child, kind)}
  }

  /** What adding a record did, all told; the used-directory counts are not touched. */
  ghost predicate Inserted(g: Geo, d: Disk, d': Disk, live: set<nat>, meta: set<nat>, t: nat, name: Name, child: nat,
                           kind: byte)
    requires DirOk(g, d, t)
  {
    && Bound(g, d, d', live, meta, t, name, child, d.inodes[t].links) && Tagged(g, d, d', t, name, child, kind)
    && Tallies(d'.groups) == Tallies(d.groups)
  }

  lemma GrownTags(g: Geo, d: Disk, d1: Disk, d2: Disk, meta: set<nat>, t: nat, b: nat, rec: Rec)
    requires DirOk(g, d, t) && FileOk(g, d, meta, t) && DirGrown(g, d, d1, d2, t, b, rec) && rec.ino != 0
             && rec.name !in Names(g, d, t)
    ensures Tagged(g, d, d2, t, rec.name, rec.ino, rec.kind)
  {
    var ptrs := DirPtrs(d.inodes[t]);
    GrownNames(g, d, d1, d2, meta, t, b, rec);
    ExtendedPtrs(g, d.inodes[t], b);
    DirOwned(g, d, t);
    forall i | 0 <= i < |ptrs| ensures BlockAt(d2, ptrs[i]) == BlockAt(d, ptrs[i]) {
      assert ptrs[i] in OwnedBy(d, t);
      assert Used(g, d, ptrs[i]);
    }
    SameDirRecs(d, d2, ptrs);
    DirRecsOne(d2, b);
    DirRecsConcat(d2, ptrs, [b]);
    TagsConcat(DirRecs(d2, ptrs), [rec]);
    TagsOne(rec);
  }

  /** Hung off the directory, a fresh block changes nothing but the directory. */
  lemma FreshDone(g: Geo, d: Disk, d1: Disk, d2: Disk, live: set<nat>, meta: set<nat>, t: nat, b: nat, rec: Rec)
    requires Mounted(g, d, live, meta) && t in live && DirOk(g, d, t) && DirGrown(g, d, d1, d2, t, b, rec)
    requires rec.ino != 0 && rec.name !in Names(g, d, t)
    ensures Inserted(g, d, d2, live, meta, t, rec.name, rec.ino, rec.kind)
  {
    assert FileOk(g, d, meta, t);
    GrowDir(g, d, d1, d2, live, meta, t, b, rec);
    GrownTags(g, d, d1, d2, meta, t, b, rec);
    SameTallies(d.groups, d1.groups);
  }

  lemma GapDone(g: Geo, d: Disk, d': Disk, live: set<nat>, meta: set<nat>, t: nat, j: nat, name: Name, child: nat,
                kind: byte, now: Block)
    requires Mounted(g, d, live, meta) && t in live && DirOk(g, d, t) && j < |DirPtrs(d.inodes[t])| && child != 0
    requires DirEdit(g, d, d', t, j, name, Some(child), now)
    requires Some(BlockRecs(now)) == InsertRecs(BlockRecs(BlockAt(d, DirPtrs(d.inodes[t])[j])), child, kind, name)
    ensures Inserted(g, d, d', live, meta, t, name, child, kind)
  {
    EditDir(g, d, d', live, meta, t, j, name, Some(child), now);
    assert FileOk(g, d, meta, t);
    DirOwned(g, d, t);
    InsertTags(BlockRecs(BlockAt(d, DirPtrs(d.inodes[t])[j])), child, kind, name);
    DirEditTags(g, d, d', t, j, name, Some(child), now, kind);
  }

  lemma CutDone(g: Geo, d: Disk, d': Disk, live: set<nat>, meta: set<nat>, t: nat, j: nat, name: Name, child: nat,
                now: Block)
    requires Mounted(g, d, live, meta) && t in live && DirOk(g, d, t) && j < |DirPtrs(d.inodes[t])|
    requires DirEdit(g, d, d', t, j, name, None, now)
    requires RemoveRecs(BlockRecs(BlockAt(d, DirPtrs(d.inodes[t])[j])), name) == Some(Removal(BlockRecs(now), child))
    ensures DirOk(g, d', t) && DirTags(g, d', t) == Untagged(DirTags(g, d, t), name)
  {
    assert FileOk(g, d, meta, t);
    DirOwned(g, d, t);
    RemoveTags(BlockRecs(BlockAt(d, DirPtrs(d.inodes[t])[j])), name);
    DirEditTags(g, d, d', t, j, name, None, now, 0);
  }

  /** A directory takes one more name in the slack of a record, or in a fresh block while it has a slot for one. */
  ghost predicate Takes(g: Geo, d: Disk, t: nat, name: Name, freeBlocks: nat)
    requires DirOk(g, d, t)
  {
    HasGap(g, d, t, name) || (|DirPtrs(d.inodes[t])| < 12 && freeBlocks > 0)
  }

  /** Hang a fresh block with one record off the next free direct slot. */
  method InsertFresh(v: Volume, t: nat, name: Name, child: nat, kind: byte, ghost live: set<nat>, ghost meta: set<nat>)
    returns (ok: bool)
    requires Mounted(v.geo, v.disk, live, meta) && t in live && DirOk(v.geo, v.disk, t)
             && name !in Names(v.geo, v.disk, t)
    requires |name| < 256 && 0 < child < TWO32
    modifies v
    ensures ok <==> |DirPtrs(old(v.disk).inodes[t])| < 12 && old(v.disk).freeBlocks > 0
    ensures !ok ==> v.disk == old(v.disk)
    ensures ok ==> Inserted(v.geo, old(v.disk), v.disk, live, meta, t, name, child, kind)
  {
    ghost var d := v.disk;
    var node := v.disk.inodes[t];
    var slot := FreeSlot(v.geo, node);
    if slot.None? { return false; }
    var chunk := Splice(ZeroBlock(v.geo.BlockSize()), 0, Encode(child, v.geo.BlockSize(), kind, name));
    FreshBlock(v.geo.BlockSize(), child, kind, name);
    var r, ws := FillOne(v, chunk);
    if r.None? {
      return false;
    }
    var b := r.value;
    ghost var d1 := v.disk;
    GrewReady(v.geo, d, d1, [b]);
    assert b in [b];
    v.disk := Apply(v.disk, SetInode(t, Extended(v.geo, node, slot.value, b)));
    ghost var rec := Rec(child, v.geo.BlockSize(), kind, name);
    FreshDone(v.geo, d, d1, v.disk, live, meta, t, b, rec);
    return true;
  }

  /** The first direct slot that holds no block. */
  method FreeSlot(g: Geo, node: Inode) returns (r: Option<nat>)
    requires DirShape(g, node)
    ensures r == if |DirPtrs(node)| < 12 then Some(|DirPtrs(node)|) else None
  {
    var s := 0;
    while s < 12
      invariant 0 <= s <= 12 && s <= |DirPtrs(node)|
    {
      SlotPtr(g, node, s);
      if node.block[s] == 0 { return Some(s); }
      s := s + 1;
    }
    return None;
  }

  // ---------------------------------------------------------------- dir_insert

  /** None of the first `n` blocks has room. */
  ghost predicate NoGapAmong(d: Disk, ptrs: seq<nat>, n: nat, name: Name) {
    && n <= |ptrs| && BlocksOk(d, ptrs[..n]) && !Roomy(DirRecs(d, ptrs[..n]), name)
  }

  lemma NoGapStep(d: Disk, ptrs: seq<nat>, j: nat, child: nat, kind: byte, name: Name)
    requires j < |ptrs| && NoGapAmong(d, ptrs, j, name) && BlockOk(BlockAt(d, ptrs[j]))
    requires InsertRecs(BlockRecs(BlockAt(d, ptrs[j])), child, kind, name).None?
    ensures NoGapAmong(d, ptrs, j + 1, name)
  {
    assert ptrs[..j + 1] == ptrs[..j] + [ptrs[j]];
    DirRecsOne(d, ptrs[j]);
    DirRecsConcat(d, ptrs[..j], [ptrs[j]]);
    InsertFails(BlockRecs(BlockAt(d, ptrs[j])), child, kind, name);
    RoomyConcat(DirRecs(d, ptrs[..j]), DirRecs(d, [ptrs[j]]), name);
  }

  lemma GapFound(g: Geo, d: Disk, t: nat, j: nat, child: nat, kind: byte, name: Name)
    requires DirOk(g, d, t) && j < |DirPtrs(d.inodes[t])|
    requires BlockOk(BlockAt(d, DirPtrs(d.inodes[t])[j]))
             && InsertRecs(BlockRecs(BlockAt(d, DirPtrs(d.inodes[t])[j])), child, kind, name).Some?
    ensures HasGap(g, d, t, name)
  {
    var ptrs := DirPtrs(d.inodes[t]);
    DirSplit(d, ptrs, j);
    var a, x, c := DirRecs(d, ptrs[..j]), BlockRecs(BlockAt(d, ptrs[j])), DirRecs(d, ptrs[j + 1..]);
    InsertFails(x, child, kind, name);
    RoomyConcat(x, c, name);
    RoomyConcat(a, x + c, name);
  }

  /** Into the slack of the first record that has enough, in the first block with such a record. */
  method InsertInGap(v: Volume, t: nat, name: Name, child: nat, kind: byte, ghost live: set<nat>, ghost meta: set<nat>)
    returns (ok: bool)
    requires Mounted(v.geo, v.disk, live, meta) && t in live && DirOk(v.geo, v.disk, t)
             && name !in Names(v.geo, v.disk, t)
    requires |name| < 256 && 0 < child < TWO32
    modifies v
    ensures ok <==> HasGap(v.geo, old(v.disk), t, name)
    ensures !ok ==> v.disk == old(v.disk)
    ensures ok ==> Inserted(v.geo, old(v.disk), v.disk, live, meta, t, name, child, kind)
  {
    ghost var d := v.disk;
    var node := v.disk.inodes[t];
    ghost var ptrs := DirPtrs(node);
    var slot := 0;
    while slot < 12
      invariant 0 <= slot <= 12 && v.disk == d
      invariant NoGapAmong(d, ptrs, Min(slot, |ptrs|), name)
    {
      SlotPtr(v.geo, node, slot);
      var b := node.block[slot];
      if b != 0 {
        PtrInBounds(v.geo, d, live, meta, t, slot);
        var now := InsertInBlock(v.disk.blocks[b], child, kind, name);
        if now.Some? {
          var _ := WriteBlock(v, b, now.value);
          GapFound(v.geo, d, t, slot, child, kind, name);
          InsertEdits(v.geo, d, v.disk, t, slot, name, child, kind, now.value);
          GapDone(v.geo, d, v.disk, live, meta, t, slot, name, child, kind, now.value);
          return true;
        }
        NoGapStep(d, ptrs, slot, child, kind, name);
      }
      slot := slot + 1;
    }
    assert ptrs[..|ptrs|] == ptrs;
    return false;
  }

  /**
   `dir_insert`: into the first gap of the first block that has one, else into a fresh block. Fails, changing
   nothing, exactly when there is neither a gap nor a slot and a free block for a fresh one.
   */
  method DirInsert(v: Volume, t: nat, name: Name, child: nat, isDir: bool, ghost live: set<nat>, ghost meta: set<nat>)
    returns (ok: bool)
    requires Mounted(v.geo, v.disk, live, meta) && t in live && DirOk(v.geo, v.disk, t)
             && name !in Names(v.geo, v.disk, t)
    requires |name| < 256 && 0 < child < TWO32
    modifies v
    ensures ok <==> Takes(v.geo, old(v.disk), t, name, old(v.disk).freeBlocks)
    ensures !ok ==> v.disk == old(v.disk)
    ensures ok ==> Inserted(v.geo, old(v.disk), v.disk, live, meta, t, name, child, Kind(v.geo, isDir))
  {
    var kind := Kind(v.geo, isDir);
    ok := InsertInGap(v, t, name, child, kind, live, meta);
    if !ok { ok := InsertFresh(v, t, name, child, kind, live, meta); }
  }

  // ---------------------------------------------------------------- dir_remove

  lemma RemoveEdits(g: Geo, d: Disk, d': Disk, t: nat, j: nat, name: Name, child: nat, now: Block)
    requires DirOk(g, d, t) && j < |DirPtrs(d.inodes[t])|
    requires var b := DirPtrs(d.inodes[t])[j];
             && b < |d.blocks| && BlockOk(d.blocks[b]) && d' == d.(blocks := d.blocks[b := now])
             && BlockOk(now) && |now| == |d.blocks[b]|
                && RemoveRecs(BlockRecs(d.blocks[b]), name) == Some(Removal(BlockRecs(now), child))
    ensures DirEdit(g, d, d', t, j, name, None, now) && name in Names(g, d, t) && Names(g, d, t)[name] == child
  {
    var ptrs := DirPtrs(d.inodes[t]);
    SplitNames(d, ptrs, j);
    RemoveUnbinds(BlockRecs(d.blocks[ptrs[j]]), name);
    FoundOnlyIn(d, ptrs, j, name);
  }

  /** The name is in none of the first `n` blocks. */
  ghost predicate NotAmong(d: Disk, ptrs: seq<nat>, n: nat, name: Name) {
    && n <= |ptrs| && BlocksOk(d, ptrs[..n]) && name !in Dict(DirRecs(d, ptrs[..n]))
  }

  lemma RemoveMisses(d: Disk, ptrs: seq<nat>, j: nat, name: Name)
    requires j < |ptrs| && NotAmong(d, ptrs, j, name) && BlockOk(BlockAt(d, ptrs[j]))
             && name !in Dict(BlockRecs(BlockAt(d, ptrs[j])))
    ensures NotAmong(d, ptrs, j + 1, name)
  {
    assert ptrs[..j + 1] == ptrs[..j] + [ptrs[j]];
    DirRecsOne(d, ptrs[j]);
    DirRecsConcat(d, ptrs[..j], [ptrs[j]]);
    DictConcat(DirRecs(d, ptrs[..j]), DirRecs(d, [ptrs[j]]));
  }

  lemma BlockMisses(g: Geo, d: Disk, t: nat, j: nat, name: Name)
    requires DirOk(g, d, t) && j < |DirPtrs(d.inodes[t])| && NotAmong(d, DirPtrs(d.inodes[t]), j, name)
    requires BlockOk(BlockAt(d, DirPtrs(d.inodes[t])[j]))
             && RemoveRecs(BlockRecs(BlockAt(d, DirPtrs(d.inodes[t])[j])), name).None?
    ensures NotAmong(d, DirPtrs(d.inodes[t]), j + 1, name)
  {
    var ptrs := DirPtrs(d.inodes[t]);
    SplitNames(d, ptrs, j);
    RemoveUnbinds(BlockRecs(BlockAt(d, ptrs[j])), name);
    RemoveMisses(d, ptrs, j, name);
  }

  /** `dir_remove`: takes the name out and returns the inode number it had; fails exactly when the name is not there. */
  method DirRemove(v: Volume, t: nat, name: Name, ghost live: set<nat>, ghost meta: set<nat>) returns (r: Option<nat>)
    requires Mounted(v.geo, v.disk, live, meta) && t in live && DirOk(v.geo, v.disk, t)
    modifies v
    ensures r == if name in old(Names(v.geo, v.disk, t)) then Some(old(Names(v.geo, v.disk, t))[name]) else None
    ensures r.None? ==> v.disk == old(v.disk)
    ensures r.Some? ==>
            Mounted(v.geo, v.disk, live, meta) && DirOk(v.geo, v.disk, t)
                    && Names(v.geo, v.disk, t) == old(Names(v.geo, v.disk, t)) - {name}
    ensures forall i :: i in live && i != t ==> SameFile(v.geo, old(v.disk), v.disk, i)
    ensures v.disk.inodes == old(v.disk).inodes && OwnedBy(v.disk, t) == old(OwnedBy(v.disk, t))
    ensures DirOk(v.geo, v.disk, t) && DirTags(v.geo, v.disk, t) == Untagged(old(DirTags(v.geo, v.disk, t)), name)
    ensures v.disk.groups == old(v.disk.groups)
  {
    ghost var d := v.disk;
    var node := v.disk.inodes[t];
    ghost var ptrs := DirPtrs(node);
    DirOwned(v.geo, d, t);
    var slot := 0;
    while slot < 12
      invariant 0 <= slot <= 12 && v.disk == d
      invariant NotAmong(d, ptrs, Min(slot, |ptrs|), name)
    {
      SlotPtr(v.geo, node, slot);
      var b := node.block[slot];
      if b != 0 {
        PtrInBounds(v.geo, d, live, meta, t, slot);
        var now := RemoveFromBlock(v.disk.blocks[b], name);
        if now.Some? {
          var _ := WriteBlock(v, b, now.value.0);
          RemoveEdits(v.geo, d, v.disk, t, slot, name, now.value.1, now.value.0);
          EditDir(v.geo, d, v.disk, live, meta, t, slot, name, None, now.value.0);
          CutDone(v.geo, d, v.disk, live, meta, t, slot, name, now.value.1, now.value.0);
          NobodyElse(v.geo, d, v.disk, live, meta, t);
          return Some(now.value.1);
        }
        BlockMisses(v.geo, d, t, slot, name);
      }
      slot := slot + 1;
    }
    assert ptrs[..|ptrs|] == ptrs;
    AllSame(v.geo, d, live, meta);
    UntaggedElsewhere(DirRecs(d, ptrs), name);
    return None;
  }

  lemma NobodyElse(g: Geo, d: Disk, d': Disk, live: set<nat>, meta: set<nat>, t: nat)
    requires DirOk(g, d, t) && DirOk(g, d', t) && d'.inodes == d.inodes
    ensures OwnedBy(d', t) == OwnedBy(d, t)
  {
    DirOwned(g, d, t);
    DirOwned(g, d', t);
  }

  lemma AllSame(g: Geo, d: Disk, live: set<nat>, meta: set<nat>)
    requires Safe(g, d, live, meta)
    ensures forall i :: i in live ==> SameFile(g, d, d, i)
  {
    forall i | i in live ensures SameFile(g, d, d, i) { assert FileOk(g, d, meta, i); }
  }
}
