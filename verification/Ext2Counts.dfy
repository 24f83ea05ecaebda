/** The superblock's counters are the sums of the groups' counters. */
module Ext2Counts {
  import opened Ext2Disk
  import opened Ext2Alloc
  import opened Ext2Inodes

  /** Free blocks of the first `k` groups, by their own counts. */
  function BlockSum(gs: seq<Group>, k: nat): nat
    requires k <= |gs|
  {
    if k == 0 then 0 else BlockSum(gs, k - 1) + gs[k - 1].freeBlocks
  }

  function InodeSum(gs: seq<Group>, k: nat): nat
    requires k <= |gs|
  {
    if k == 0 then 0 else InodeSum(gs, k - 1) + gs[k - 1].freeInodes
  }

  /** Where the first `k` groups end. */
  function End(g: Geo, k: nat): nat
    requires ValidGeo(g)
  {
    if k == 0 then 0 else Hi(g, k - 1)
  }

  lemma {:induction false} BlockSumIs(g: Geo, d: Disk, k: nat)
    requires CountersAgree(g, d) && k <= |d.groups|
    ensures End(g, k) <= |d.bits| && BlockSum(d.groups, k) == FreeIn(d.bits, 0, End(g, k))
  {
    if k > 0 {
      var j: nat := k - 1;
      BlockSumIs(g, d, j);
      GroupRange(g, j);
      assert BlocksCounted(g, d, j);
      if j > 0 { GroupRange(g, j - 1); }
      assert End(g, j) == Lo(g, j);
      FreeSplit(d.bits, 0, Lo(g, j), Hi(g, j));
    }
  }

  lemma {:induction false} InodeSumIs(g: Geo, d: Disk, k: nat)
    requires CountersAgree(g, d) && k <= |d.groups|
    ensures ILo(g, k) <= |d.ibits| && InodeSum(d.groups, k) == FreeIn(d.ibits, 0, ILo(g, k))
  {
    if k > 0 {
      var j: nat := k - 1;
      InodeSumIs(g, d, j);
      InodeRange(g, d, j);
      assert InodesCounted(g, d, j);
      FreeSplit(d.ibits, 0, ILo(g, j), IHi(g, j));
    }
  }

  /** On every volume whose counters agree with its bitmaps, the superblock counts are the sums over the groups. */
  lemma CountsAreSums(g: Geo, d: Disk)
    requires CountersAgree(g, d)
    ensures d.freeBlocks == BlockSum(d.groups, |d.groups|) && d.freeInodes == InodeSum(d.groups, |d.groups|)
  {
    var n := |d.groups|;
    BlockSumIs(g, d, n);
    InodeSumIs(g, d, n);
    GroupHolds(g, 0);
    GroupRange(g, n - 1);
  }
}
