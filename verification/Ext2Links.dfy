/** Record patches that move no blocks, and giving an inode and its blocks back. */
module Ext2Links {
  import opened Ext2Disk
  import opened Ext2Alloc
  import opened Ext2Free
  import opened Ext2Layout
  import opened Ext2Owners
  import opened Ext2Overwrite
  import opened Ext2Adopt
  import opened Ext2Inodes
  import opened Ext2Names
  import opened Ext2Namespace

  /** A record patched without touching its pointers or its size. */
  ghost predicate Relinked(d: Disk, d': Disk, t: nat) {
    && d'.bits == d.bits && d'.ibits == d.ibits && d'.groups == d.groups && d'.freeBlocks == d.freeBlocks
       && d'.freeInodes == d.freeInodes
    && d'.blocks == d.blocks && t < |d.inodes| == |d'.inodes|
    && (forall i :: 0 <= i < |d.inodes| && i != t ==> d'.inodes[i] == d.inodes[i])
    && d'.inodes[t].block == d.inodes[t].block && d'.inodes[t].size == d.inodes[t].size
  }

  /** Ownership and contents depend on the pointers and the size only. */
  lemma SameNode(g: Geo, d: Disk, a: Inode, b: Inode)
    requires |a.block| == 15 && a.block == b.block && a.size == b.size
    ensures Owned(d, a) == Owned(d, b)
    ensures g.BlockSize() > 0 ==> FileBytes(g, d, a) == FileBytes(g, d, b)
  {
    if g.BlockSize() > 0 { assert BlockMap(g, d, a) == BlockMap(g, d, b); }
  }

  lemma RelinkedFile(g: Geo, d: Disk, d': Disk, t: nat)
    requires Relinked(d, d', t) && |d.inodes[t].block| == 15 && g.BlockSize() > 0
    ensures BytesOf(g, d', t) == BytesOf(g, d, t) && OwnedBy(d', t) == OwnedBy(d, t)
  {
    FileFrame(g, d, d', d.inodes[t]);
    SameNode(g, d', d'.inodes[t], d.inodes[t]);
  }

  /** Such a patch to a live inode keeps the volume well formed, the file's bytes and everybody else. */
  lemma RelinkKeeps(g: Geo, d: Disk, d': Disk, live: set<nat>, meta: set<nat>, t: nat)
    requires Mounted(g, d, live, meta) && t in live && Relinked(d, d', t)
    ensures Mounted(g, d', live, meta) && BytesOf(g, d', t) == BytesOf(g, d, t) && OwnedBy(d', t) == OwnedBy(d, t)
    ensures forall i :: i in live && i != t ==> SameFile(g, d, d', i)
  {
    assert FileOk(g, d, meta, t);
    RelinkedFile(g, d, d', t);
    RelinkAdopts(g, d, d', live, meta, t);
    AdoptInPlace(g, d, d', live, meta, t, []);
  }

  lemma RelinkReady(g: Geo, d: Disk, d': Disk, t: nat)
    requires Ready(g, d) && Relinked(d, d', t)
    ensures Ready(g, d')
  {
    forall i | 0 <= i < |d'.inodes| ensures |d'.inodes[i].block| == 15 {
      if i != t { assert d'.inodes[i] == d.inodes[i]; }
    }
    WriteKeepsCounts(g, d, d');
    SameUsed(g, d, d');
  }

  lemma RelinkAdopts(g: Geo, d: Disk, d': Disk, live: set<nat>, meta: set<nat>, t: nat)
    requires Mounted(g, d, live, meta) && t in live && Relinked(d, d', t) && OwnedBy(d', t) == OwnedBy(d, t)
    ensures Adopted(g, d, d', live, t, [])
  {
    assert FileOk(g, d, meta, t);
    RelinkReady(g, d, d', t);
    SameUsed(g, d, d');
    assert OnlyInode(d, d', t, true) by { assert d.ibits[t := true] == d.ibits; }
  }

  /** It keeps a directory's names, too. */
  lemma RelinkNames(g: Geo, d: Disk, d': Disk, t: nat)
    requires DirOk(g, d, t) && Relinked(d, d', t)
    ensures DirOk(g, d', t) && Names(g, d', t) == Names(g, d, t) && DirTags(g, d', t) == DirTags(g, d, t)
  {
    var ptrs := DirPtrs(d.inodes[t]);
    assert DirPtrs(d'.inodes[t]) == ptrs;
    SameDirRecs(d, d', ptrs);
  }

  /** Patching a record nobody uses changes no file. */
  lemma DeadPatch(g: Geo, d: Disk, d': Disk, live: set<nat>, meta: set<nat>, t: nat)
    requires Mounted(g, d, live, meta) && t !in live && Relinked(d, d', t)
    ensures Mounted(g, d', live, meta) && forall i :: i in live ==> SameFile(g, d, d', i)
  {
    RelinkReady(g, d, d', t);
    SameUsed(g, d, d');
    forall i | i in live ensures SameFile(g, d, d', i) && FileOk(g, d', meta, i) {
      assert FileOk(g, d, meta, i);
      FileStays(g, d, d', meta, i);
    }
    SafeStays(g, d, d', live, meta);
    DeadNoLeak(g, d, d', live, meta);
  }

  lemma DeadNoLeak(g: Geo, d: Disk, d': Disk, live: set<nat>, meta: set<nat>)
    requires NoLeak(g, d, live, meta) && d'.bits == d.bits && forall i :: i in live ==> SameFile(g, d, d', i)
    ensures NoLeak(g, d', live, meta)
  {
    SameUsed(g, d, d');
    forall b | Used(g, d', b) && b !in meta ensures exists i :: i in live && b in OwnedBy(d', i) {
      var i :| i in live && b in OwnedBy(d, i);
      assert SameFile(g, d, d', i);
    }
  }

  /** `bump_links`. */
  method BumpLinks(v: Volume, t: nat, delta: int)
    requires t < |v.disk.inodes|
    modifies v
    ensures Relinked(old(v.disk), v.disk, t)
            && v.disk.inodes[t] == old(v.disk).inodes[t].(links := Bumped(old(v.disk).inodes[t].links, delta))
  {
    var was := v.disk.inodes[t];
    v.disk := Apply(v.disk, SetInode(t, was.(links := Bumped(was.links, delta))));
  }

  lemma DiscardedIsRetired(g: Geo, d: Disk, d1: Disk, d2: Disk, live: set<nat>, meta: set<nat>, t: nat, isDir: bool)
    requires Mounted(g, d, live, meta) && t in live && Freed(g, d, d1, OwnedBy(d, t))
    requires FreedInode(g, d1, d2, t, isDir)
    ensures Retired(g, d, d2, t) && Tallies(d2.groups) == Retallied(g, Tallies(d.groups), t, isDir, -1)
  {
    SameTallies(d.groups, d1.groups);
    OwnedPositive(d, t);
    SameUsed(g, d1, d2);
    if g.firstDataBlock == 0 { assert Used(g, d, 0); }
  }

  /** Give back a file's blocks, then its inode; the record keeps its pointers. */
  method Discard(v: Volume, t: nat, isDir: bool, ghost live: set<nat>, ghost meta: set<nat>)
    requires Mounted(v.geo, v.disk, live, meta) && t in live
    modifies v
    ensures Mounted(v.geo, v.disk, live - {t}, meta) && t < |v.disk.inodes| == |old(v.disk).inodes|
    ensures v.disk.inodes[t] == Dead(old(v.disk).inodes[t])
    ensures Tallies(v.disk.groups) == Retallied(v.geo, old(Tallies(v.disk.groups)), t, isDir, -1)
    ensures forall i :: i in live && i != t ==> SameFile(v.geo, old(v.disk), v.disk, i)
  {
    ghost var d := v.disk;
    OwnedAreData(v.geo, d, live, meta, t);
    var _ := FreeAllBlocks(v, v.disk.inodes[t]);
    ghost var d1 := v.disk;
    FreeInode(v, t, isDir);
    DiscardedIsRetired(v.geo, d, d1, v.disk, live, meta, t, isDir);
    RetireKeeps(v.geo, d, v.disk, live, meta, t);
  }
}
