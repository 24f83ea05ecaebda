/** The inode allocator and its counters. */
module Ext2Inodes {
  import opened Common
  import opened Ext2Disk
  import opened Ext2Alloc

  lemma InodeRange(g: Geo, d: Disk, k: nat)
    requires Shaped(g, d) && k < GroupCount(g)
    ensures ILo(g, k) <= IHi(g, k) <= |d.ibits| && IHi(g, k) - ILo(g, k) == g.inodesPerGroup
  {
    MulSucc(k, g.inodesPerGroup);
    MulMono(k + 1, GroupCount(g), g.inodesPerGroup);
  }

  /** The group an inode index is filed under. */
  function InodeGroup(g: Geo, i: nat): nat
    requires ValidGeo(g)
  {
    i / g.inodesPerGroup
  }

  lemma InodeGroupHolds(g: Geo, d: Disk, i: nat)
    requires Shaped(g, d) && i < |d.ibits|
    ensures InodeGroup(g, i) < GroupCount(g) && ILo(g, InodeGroup(g, i)) <= i < IHi(g, InodeGroup(g, i))
  {
    var k, m := InodeGroup(g, i), g.inodesPerGroup;
    DivBounds(i, m);
    MulSucc(k, m);
    if k >= GroupCount(g) { MulMono(GroupCount(g), k, m); }
  }

  lemma InodeGroupUnique(g: Geo, i: nat, j: nat)
    requires ValidGeo(g) && ILo(g, j) <= i < IHi(g, j)
    ensures j == InodeGroup(g, i)
  {
    MulSucc(j, g.inodesPerGroup);
    DivUnique(i, g.inodesPerGroup, j);
  }

  /** The block side of the group table is untouched. */
  ghost predicate SameBlockCounts(gs: seq<Group>, gs': seq<Group>) {
    |gs| == |gs'| && forall k :: 0 <= k < |gs| ==> gs'[k].freeBlocks == gs[k].freeBlocks
  }

  ghost predicate OnlyFreeInodes(gs: seq<Group>, gs': seq<Group>, k: nat, n: nat) {
    && k < |gs| && |gs'| == |gs| && SameBlockCounts(gs, gs')
    && gs'[k].freeInodes == n && forall j :: 0 <= j < |gs| && j != k ==> gs'[j] == gs[j]
  }

  /** Flipping one inode bit and moving both counters by one keeps all counters exact. */
  lemma InodeFlipKeepsCounts(g: Geo, d: Disk, d': Disk, i: nat, k: nat, used: bool, delta: int)
    requires CountersAgree(g, d) && i < |d.ibits| && d.ibits[i] != used && delta == if used then -1 else 1
    requires Shaped(g, d') && d'.ibits == d.ibits[i := used] && d'.bits == d.bits && d'.freeBlocks == d.freeBlocks
    requires k == InodeGroup(g, i) && k < |d.groups|
    requires OnlyFreeInodes(d.groups, d'.groups, k, Wrap16(d.groups[k].freeInodes + delta))
    requires d'.freeInodes == Wrap32(d.freeInodes + delta)
    ensures CountersAgree(g, d')
  {
    InodeGroupHolds(g, d, i);
    InodeRange(g, d, k);
    FreeUpdate(d.ibits, 0, |d.ibits|, i, used);
    forall j | 0 <= j < |d'.groups| ensures InodesCounted(g, d', j) {
      assert InodesCounted(g, d, j);
      InodeRange(g, d, j);
      FreeUpdate(d.ibits, ILo(g, j), IHi(g, j), i, used);
      if j != k && ILo(g, j) <= i < IHi(g, j) { InodeGroupUnique(g, i, j); }
    }
    forall j | 0 <= j < |d'.groups| ensures BlocksCounted(g, d', j) { assert BlocksCounted(g, d, j); }
  }

  /** One used-directory count moved by `delta`, in 16 bits. */
  function Moved(ts: seq<nat>, k: nat, delta: int): seq<nat> { if k < |ts| then ts[k := Wrap16(ts[k] + delta)] else ts }

  /** The counts once inode index `i` comes or goes: those of its group move if it is a directory. */
  function Retallied(g: Geo, ts: seq<nat>, i: nat, isDir: bool, delta: int): seq<nat>
    requires ValidGeo(g)
  {
    if isDir then Moved(ts, InodeGroup(g, i), delta) else ts
  }

  lemma StaysShaped(g: Geo, d: Disk, d': Disk, i: nat, node: Inode)
    requires Shaped(g, d) && d'.bits == d.bits && |d'.groups| == |d.groups| && |d'.ibits| == |d.ibits|
    requires i < |d.inodes| && d'.inodes == d.inodes[i := node] && |node.block| == 15 && d'.blocks == d.blocks
    ensures Shaped(g, d')
  {
  }

  /** A blank inode. */
  function Blank(): Inode { Inode(0, 0, 0, 0, 0, 0, Zeros(15)) }

  /**
   `d'` is `d` with inode index `i`, free before, now in use and holding `node`, and counted as a directory if it is to
   be one; nothing about blocks has changed.
   */
  ghost predicate TookInode(g: Geo, d: Disk, d': Disk, i: nat, isDir: bool, node: Inode) {
    && CountersAgree(g, d')
    && i < |d.ibits| && !d.ibits[i] && d'.ibits == d.ibits[i := true]
    && i < |d.inodes| && d'.inodes == d.inodes[i := node]
    && d'.bits == d.bits && d'.blocks == d.blocks && d'.freeBlocks == d.freeBlocks
    && Tallies(d'.groups) == Retallied(g, Tallies(d.groups), i, isDir, 1)
  }

  /** `d'` is `d` with inode index `i` given back, its record still there but with no links. */
  ghost predicate FreedInode(g: Geo, d: Disk, d': Disk, i: nat, isDir: bool) {
    && CountersAgree(g, d')
    && i < |d.ibits| && d'.ibits == d.ibits[i := false]
    && i < |d.inodes| && d'.inodes == d.inodes[i := Dead(d.inodes[i])]
    && d'.bits == d.bits && d'.blocks == d.blocks && d'.freeBlocks == d.freeBlocks
    && Tallies(d'.groups) == Retallied(g, Tallies(d.groups), i, isDir && d.ibits[i], -1)
  }

  /** Take the first clear inode bit of `[lo, hi)`, if any. */
  method TakeInodeBit(v: Volume, lo: nat, hi: nat) returns (r: Option<nat>)
    requires lo <= hi <= |v.disk.ibits|
    modifies v
    ensures r.None? ==> v.disk == old(v.disk) && forall i :: lo <= i < hi ==> v.disk.ibits[i]
    ensures r.Some? ==>
              && lo <= r.value < hi && !old(v.disk).ibits[r.value]
              && (forall i :: lo <= i < r.value ==> old(v.disk).ibits[i])
              && v.disk == Apply(old(v.disk), SetInodeBit(r.value, true))
  {
    var i := lo;
    while i < hi
      invariant lo <= i <= hi && v.disk == old(v.disk)
      invariant forall j :: lo <= j < i ==> v.disk.ibits[j]
    {
      if !v.disk.ibits[i] {
        v.disk := Apply(v.disk, SetInodeBit(i, true));
        return Some(i);
      }
      i := i + 1;
    }
    return None;
  }

  ghost predicate InodesFull(g: Geo, d: Disk, k: nat) {
    IHi(g, k) <= |d.ibits| && forall i :: ILo(g, k) <= i < IHi(g, k) ==> d.ibits[i]
  }

  /** A group whose count is zero is skipped; otherwise its bitmap is scanned. */
  method TakeInodeFrom(v: Volume, k: nat) returns (r: Option<nat>)
    requires CountersAgree(v.geo, v.disk) && k < GroupCount(v.geo)
    modifies v
    ensures r.None? ==> v.disk == old(v.disk) && InodesFull(v.geo, v.disk, k)
    ensures r.Some? ==>
              && ILo(v.geo, k) <= r.value < IHi(v.geo, k) <= |old(v.disk).ibits|
              && !old(v.disk).ibits[r.value] && v.disk == Apply(old(v.disk), SetInodeBit(r.value, true))
  {
    InodeRange(v.geo, v.disk, k);
    assert InodesCounted(v.geo, v.disk, k);
    var lo, hi := ILo(v.geo, k), IHi(v.geo, k);
    if v.disk.groups[k].freeInodes == 0 {
      FreeZero(v.disk.ibits, lo, hi);
      return None;
    }
    r := TakeInodeBit(v, lo, hi);
  }

  /** Nothing but the group table and the free-inode count has changed. */
  ghost predicate OnlyCounters(d: Disk, d': Disk) {
    && d'.bits == d.bits && d'.ibits == d.ibits && d'.freeBlocks == d.freeBlocks && d'.inodes == d.inodes
    && d'.blocks == d.blocks
  }

  /** The counters of group `k` moved by `delta`, as one more or one less free inode moves them. */
  ghost predicate Counted(d: Disk, d': Disk, k: nat, delta: int, isDir: bool) {
    && OnlyCounters(d, d') && d'.freeInodes == Wrap32(d.freeInodes + delta) && k < |d.groups|
    && OnlyFreeInodes(d.groups, d'.groups, k, Wrap16(d.groups[k].freeInodes + delta))
    && Tallies(d'.groups) == if isDir then Moved(Tallies(d.groups), k, -delta) else Tallies(d.groups)
  }

  /** `bgd_add16(g, 14, delta)`, `sb_add32(16, delta)` and, for a directory, `bgd_add16(g, 16, -delta)`. */
  method MoveInodeCounters(v: Volume, k: nat, delta: int, isDir: bool)
    requires k < |v.disk.groups|
    modifies v
    ensures Counted(old(v.disk), v.disk, k, delta, isDir)
  {
    var was := v.disk.groups[k];
    v.disk := Apply(v.disk, SetGroup(k, was.(freeInodes := Wrap16(was.freeInodes + delta))));
    v.disk := Apply(v.disk, SetFreeInodes(Wrap32(v.disk.freeInodes + delta)));
    if isDir {
      var now := v.disk.groups[k];
      v.disk := Apply(v.disk, SetGroup(k, now.(usedDirs := Wrap16(now.usedDirs - delta))));
    }
  }

  /** A bit flipped, the counters moved and the record replaced. */
  ghost predicate Flipped(d0: Disk, d1: Disk, d2: Disk, d3: Disk, i: nat, k: nat, used: bool, delta: int, isDir: bool,
                          node: Inode) {
    && i < |d0.ibits| && d0.ibits[i] != used && |node.block| == 15 && d1 == d0.(ibits := d0.ibits[i := used])
    && Counted(d1, d2, k, delta, isDir) && i < |d2.inodes| && d3 == d2.(inodes := d2.inodes[i := node])
  }

  /** All counters are exact again. */
  lemma FlipDone(g: Geo, d0: Disk, d1: Disk, d2: Disk, d3: Disk, i: nat, k: nat, used: bool, delta: int, isDir: bool,
                 node: Inode)
    requires CountersAgree(g, d0) && k == InodeGroup(g, i) && delta == if used then -1 else 1
    requires Flipped(d0, d1, d2, d3, i, k, used, delta, isDir, node)
    ensures CountersAgree(g, d3) && Tallies(d3.groups) == Retallied(g, Tallies(d0.groups), i, isDir, -delta)
    ensures d3.ibits == d0.ibits[i := used] && d3.inodes == d0.inodes[i := node]
    ensures d3.bits == d0.bits && d3.blocks == d0.blocks && d3.freeBlocks == d0.freeBlocks
  {
    StaysShaped(g, d0, d3, i, node);
    InodeFlipKeepsCounts(g, d0, d3, i, k, used, delta);
  }

  lemma TakeDone(g: Geo, d0: Disk, d1: Disk, d2: Disk, d3: Disk, i: nat, k: nat, isDir: bool, node: Inode)
    requires CountersAgree(g, d0) && k == InodeGroup(g, i) && Flipped(d0, d1, d2, d3, i, k, true, -1, isDir, node)
    ensures TookInode(g, d0, d3, i, isDir, node)
  {
    FlipDone(g, d0, d1, d2, d3, i, k, true, -1, isDir, node);
  }

  lemma ClearDone(g: Geo, d0: Disk, d1: Disk, d2: Disk, d3: Disk, i: nat, k: nat, isDir: bool)
    requires CountersAgree(g, d0) && i < |d0.inodes| && k == InodeGroup(g, i)
    requires Flipped(d0, d1, d2, d3, i, k, false, 1, isDir, Dead(d0.inodes[i]))
    ensures FreedInode(g, d0, d3, i, isDir)
  {
    FlipDone(g, d0, d1, d2, d3, i, k, false, 1, isDir, Dead(d0.inodes[i]));
  }

  /**
   `alloc_inode`: the first free inode of the first group with room, its record blanked. Fails exactly when all are in
   use.
   */
  method AllocInode(v: Volume, isDir: bool) returns (r: Option<nat>)
    requires CountersAgree(v.geo, v.disk)
    modifies v
    ensures r.None? ==> v.disk == old(v.disk) && forall i :: 0 <= i < |v.disk.ibits| ==> v.disk.ibits[i]
    ensures r.Some? <==> old(v.disk).freeInodes > 0
    ensures r.Some? ==> TookInode(v.geo, old(v.disk), v.disk, r.value, isDir, Blank())
  {
    FreeZero(v.disk.ibits, 0, |v.disk.ibits|);
    var groups := GroupCount(v.geo);
    var k := 0;
    while k < groups
      invariant 0 <= k <= groups && v.disk == old(v.disk)
      invariant forall j {:trigger InodesFull(v.geo, v.disk, j)} :: 0 <= j < k ==> InodesFull(v.geo, v.disk, j)
    {
      var bit := TakeInodeFrom(v, k);
      if bit.Some? {
        InodeGroupUnique(v.geo, bit.value, k);
        FinishInode(v, k, bit.value, isDir, old(v.disk));
        return bit;
      }
      k := k + 1;
    }
    forall i | 0 <= i < |v.disk.ibits| ensures v.disk.ibits[i] {
      InodeGroupHolds(v.geo, v.disk, i);
      assert InodesFull(v.geo, v.disk, InodeGroup(v.geo, i));
    }
    return None;
  }

  /** The rest of `alloc_inode` once bit `i` of group `k` is taken. */
  method FinishInode(v: Volume, k: nat, i: nat, isDir: bool, ghost d0: Disk)
    requires CountersAgree(v.geo, d0) && k < |d0.groups| && k == InodeGroup(v.geo, i) && i < |d0.ibits|
    requires !d0.ibits[i] && v.disk == d0.(ibits := d0.ibits[i := true])
    modifies v
    ensures TookInode(v.geo, d0, v.disk, i, isDir, Blank())
  {
    ghost var d1 := v.disk;
    MoveInodeCounters(v, k, -1, isDir);
    ghost var d2 := v.disk;
    var blank := Blank();
    v.disk := Apply(v.disk, SetInode(i, blank));
    TakeDone(v.geo, d0, d1, d2, v.disk, i, k, isDir, blank);
  }

  /** `free_inode`: a bit already clear moves no counter. */
  method FreeInode(v: Volume, i: nat, isDir: bool)
    requires CountersAgree(v.geo, v.disk) && i < |v.disk.ibits|
    modifies v
    ensures FreedInode(v.geo, old(v.disk), v.disk, i, isDir)
  {
    if v.disk.ibits[i] {
      ClearInode(v, i, isDir);
    } else {
      ghost var d0 := v.disk;
      v.disk := Apply(v.disk, SetInode(i, Dead(v.disk.inodes[i])));
      WriteKeepsCounts(v.geo, d0, v.disk);
      assert d0.ibits[i := false] == d0.ibits;
    }
  }

  /** A record nobody links to. */
  function Dead(node: Inode): Inode { node.(links := 0, blocks512 := 0) }

  method ClearInode(v: Volume, i: nat, isDir: bool)
    requires CountersAgree(v.geo, v.disk) && i < |v.disk.ibits| && v.disk.ibits[i]
    modifies v
    ensures FreedInode(v.geo, old(v.disk), v.disk, i, isDir)
  {
    ghost var d0 := v.disk;
    var k := InodeGroup(v.geo, i);
    InodeGroupHolds(v.geo, v.disk, i);
    v.disk := Apply(v.disk, SetInodeBit(i, false));
    ghost var d1 := v.disk;
    MoveInodeCounters(v, k, 1, isDir);
    ghost var d2 := v.disk;
    v.disk := Apply(v.disk, SetInode(i, Dead(v.disk.inodes[i])));
    ClearDone(v.geo, d0, d1, d2, v.disk, i, k, isDir);
  }
}
