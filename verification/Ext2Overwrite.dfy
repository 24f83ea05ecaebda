/** Replacing the contents of an existing file, and what it keeps. */
module Ext2Overwrite {
  import opened Common
  import opened Ext2Disk
  import opened Ext2Alloc
  import opened Ext2Free
  import opened Ext2Layout
  import opened Ext2Shape
  import opened Ext2Write
  import opened Ext2Owners
  import opened Ext2Crash

  /**
   A volume between operations: counters agree with bitmaps, the allocated inodes are exactly `live`, no block
   has two owners, and the used blocks are exactly the metadata and the owned ones.
   */
  ghost predicate Mounted(g: Geo, d: Disk, live: set<nat>, meta: set<nat>) {
    && Ready(g, d)
    && (forall i :: i in live <==> 0 <= i < |d.ibits| && d.ibits[i])
    && Safe(g, d, live, meta) && NoLeak(g, d, live, meta)
  }

  lemma OwnedAreData(g: Geo, d: Disk, live: set<nat>, meta: set<nat>, t: nat)
    requires Safe(g, d, live, meta) && t in live
    ensures FileOk(g, d, meta, t) && AllData(g, OwnedBy(d, t)) && OwnedBy(d, t) == Owned(d, d.inodes[t])
  {
    assert FileOk(g, d, meta, t);
    forall i | 0 <= i < |OwnedBy(d, t)| ensures IsDataBlock(g, OwnedBy(d, t)[i]) {
      assert OwnedBy(d, t)[i] in OwnedBy(d, t);
    }
  }

  /** Blocks taken by an attempt that failed belong to nobody: they count as metadata from then on. */
  lemma SpillMounted(g: Geo, d0: Disk, d: Disk, live: set<nat>, meta: set<nat>, taken: seq<nat>)
    requires Mounted(g, d0, live, meta) && Grew(g, d0, d, taken)
    ensures Mounted(g, d, live, meta + Members(taken)) && forall i :: i in live ==> SameFile(g, d0, d, i)
  {
    GrewReady(g, d0, d, taken);
    forall i | i in live ensures SameFile(g, d0, d, i) && FileOk(g, d, meta + Members(taken), i) {
      assert FileOk(g, d0, meta, i);
      SpillStays(g, d0, d, meta, taken, i);
    }
    SpillSafe(g, d0, d, live, meta, taken);
    SpillNoLeak(g, d0, d, live, meta, taken);
  }

  function Members(s: seq<nat>): set<nat> { set b | b in s }

  lemma SpillStays(g: Geo, d0: Disk, d: Disk, meta: set<nat>, taken: seq<nat>, i: nat)
    requires g.BlockSize() > 0 && FileOk(g, d0, meta, i) && Grew(g, d0, d, taken)
    ensures SameFile(g, d0, d, i) && FileOk(g, d, meta + Members(taken), i)
  {
    forall b | b in OwnedBy(d0, i) ensures b !in taken && Used(g, d, b) && BlockAt(d, b) == BlockAt(d0, b) {
      assert Used(g, d0, b);
    }
    FileStays(g, d0, d, meta, i);
  }

  lemma SpillSafe(g: Geo, d0: Disk, d: Disk, live: set<nat>, meta: set<nat>, taken: seq<nat>)
    requires Safe(g, d0, live, meta) && Grew(g, d0, d, taken)
    requires forall i :: i in live ==> SameFile(g, d0, d, i) && FileOk(g, d, meta + Members(taken), i)
    ensures Safe(g, d, live, meta + Members(taken))
  {
    forall i, j | i in live && j in live && i != j ensures Apart(d, i, j) { assert Apart(d0, i, j); }
  }

  lemma SpillNoLeak(g: Geo, d0: Disk, d: Disk, live: set<nat>, meta: set<nat>, taken: seq<nat>)
    requires NoLeak(g, d0, live, meta) && Grew(g, d0, d, taken) && forall i :: i in live ==> SameFile(g, d0, d, i)
    ensures NoLeak(g, d, live, meta + Members(taken))
  {
    forall b | Used(g, d, b) && b !in meta + Members(taken) ensures exists i :: i in live && b in OwnedBy(d, i) {
      var i :| i in live && b in OwnedBy(d0, i);
      assert SameFile(g, d0, d, i);
    }
  }

  /** Patching an inode does not touch bitmaps or counters. */
  lemma PatchKeepsCounts(g: Geo, d: Disk, d': Disk, t: nat, node: Inode)
    requires Ready(g, d) && t < |d.inodes| && |node.block| == 15 && d' == d.(inodes := d.inodes[t := node])
    ensures Ready(g, d')
  {
    WriteKeepsCounts(g, d, d');
  }

  /** Every used block is a new block of `t` or was used before and not by `t`. */
  ghost predicate Replaced(g: Geo, d0: Disk, d: Disk, t: nat) {
    forall b :: Used(g, d, b) ==> b in OwnedBy(d, t) || (Used(g, d0, b) && b !in OwnedBy(d0, t))
  }

  /** Nothing leaks: the old blocks are free again and the new ones have an owner. */
  lemma ReplacedNoLeak(g: Geo, d0: Disk, d: Disk, live: set<nat>, meta: set<nat>, t: nat)
    requires NoLeak(g, d0, live, meta) && t in live && Replaced(g, d0, d, t)
    requires forall i :: i in live && i != t ==> SameFile(g, d0, d, i)
    ensures NoLeak(g, d, live, meta)
  {
    forall b | Used(g, d, b) && b !in meta ensures exists i :: i in live && b in OwnedBy(d, i) {
      if b !in OwnedBy(d, t) {
        var i :| i in live && b in OwnedBy(d0, i);
        assert i != t && SameFile(g, d0, d, i);
      }
    }
  }

  lemma CommitReplaces(g: Geo, d0: Disk, d1: Disk, d2: Disk, d3: Disk, t: nat, taken: seq<nat>)
    requires Grew(g, d0, d1, taken) && d2.bits == d1.bits && Freed(g, d2, d3, OwnedBy(d0, t)) && OwnedBy(d3, t) == taken
    ensures Replaced(g, d0, d3, t)
  {
    forall b | Used(g, d3, b) ensures b in OwnedBy(d3, t) || (Used(g, d0, b) && b !in OwnedBy(d0, t)) {
      assert Used(g, d2, b) && Used(g, d1, b);
    }
  }

  lemma {:induction false} IndirectsPositive(d: Disk, inds: seq<nat>)
    ensures 0 !in IndirectsOwned(d, inds)
  {
    if inds != [] {
      var n := |inds| - 1;
      IndirectsPositive(d, inds[..n]);
      NonZeroMembers(Ptrs(BlockAt(d, inds[n])), 0);
    }
  }

  /** Block 0 is never owned. */
  lemma OwnedPositive(d: Disk, t: nat)
    ensures 0 !in OwnedBy(d, t)
  {
    if t < |d.inodes| && |d.inodes[t].block| == 15 {
      var node := d.inodes[t];
      NonZeroMembers(node.block[..12], 0);
      NonZeroMembers(Ptrs(BlockAt(d, node.block[12])), 0);
      IndirectsPositive(d, Ptrs(BlockAt(d, node.block[13])));
    }
  }

  lemma BootStays(g: Geo, d0: Disk, d1: Disk, d2: Disk, d3: Disk, t: nat, taken: seq<nat>)
    requires BootReserved(g, d0) && Grew(g, d0, d1, taken) && d2.bits == d1.bits && Freed(g, d2, d3, OwnedBy(d0, t))
    ensures Ready(g, d3)
  {
    OwnedPositive(d0, t);
    if g.firstDataBlock == 0 {
      assert Used(g, d0, 0) && Used(g, d1, 0) && Used(g, d2, 0);
    }
  }

  lemma FreedFiles(g: Geo, d: Disk, d': Disk, live: set<nat>, meta: set<nat>, f: seq<nat>)
    requires Safe(g, d, live, meta) && Freed(g, d, d', f) && Unclaimed(d, live, meta, f)
    ensures Safe(g, d', live, meta) && forall i :: i in live ==> SameFile(g, d, d', i)
  {
    assert OnlyFreed(g, d, d', f);
    OnlyFreedFiles(g, d, d', live, meta, f);
  }

  /** The state after a completed overwrite. */
  lemma OverwriteDone(g: Geo, d0: Disk, d1: Disk, d2: Disk, d3: Disk, live: set<nat>, meta: set<nat>, t: nat,
                      node: Inode, l: Layout)
    requires Mounted(g, d0, live, meta) && t in live
    requires Committed(g, d0, d1, d2, t, node, l) && Freed(g, d2, d3, OwnedBy(d0, t))
    ensures Mounted(g, d3, live, meta) && SameFile(g, d2, d3, t)
    ensures forall i :: i in live && i != t ==> SameFile(g, d0, d3, i)
  {
    CommitFiles(g, d0, d1, d2, live, meta, t, node, l);
    FreedFiles(g, d2, d3, live, meta, OwnedBy(d0, t));
    forall i | i in live && i != t ensures SameFile(g, d0, d3, i) {
      assert SameFile(g, d0, d2, i) && SameFile(g, d2, d3, i);
    }
    CommittedOwned(g, d0, d1, d2, t, node, l);
    CommitReplaces(g, d0, d1, d2, d3, t, AllOf(l));
    ReplacedNoLeak(g, d0, d3, live, meta, t);
    BootStays(g, d0, d1, d2, d3, t, AllOf(l));
  }

  /** The crash states of an overwrite that laid its data out: old contents before the patch, new from it on. */
  ghost predicate Atomic(g: Geo, d0: Disk, live: set<nat>, meta: set<nat>, t: nat, ws: seq<Write>, now: seq<byte>) {
    forall n: nat {:trigger ws[..n]} :: n <= |ws| ==>
      || OldOrNew(g, d0, Replay(d0, ws[..n]), live, meta, t, BytesOf(g, d0, t))
      || OldOrNew(g, d0, Replay(d0, ws[..n]), live, meta, t, now)
  }

  lemma FillAtomic(g: Geo, d0: Disk, live: set<nat>, meta: set<nat>, t: nat, ws: seq<Write>)
    requires Safe(g, d0, live, meta) && t in live && AllGrow(g, d0, ws)
    ensures Atomic(g, d0, live, meta, t, ws, BytesOf(g, d0, t))
  {
    forall n: nat | n <= |ws| ensures OldOrNew(g, d0, Replay(d0, ws[..n]), live, meta, t, BytesOf(g, d0, t)) {
      UntouchedRun(g, d0, ws[..n]);
      UntouchedFiles(g, d0, Replay(d0, ws[..n]), live, meta);
    }
  }

  lemma PatchAtomic(g: Geo, d0: Disk, d1: Disk, live: set<nat>, meta: set<nat>, t: nat, node: Inode, l: Layout,
                    fill: seq<Write>, free: seq<Write>)
    requires Safe(g, d0, live, meta) && t in live
    requires Reached(d0, d1, fill) && AllGrow(g, d0, fill) && AllShrink(g, OwnedBy(d0, t), free)
    requires Committed(g, d0, d1, Apply(d1, SetInode(t, node)), t, node, l)
    ensures Atomic(g, d0, live, meta, t, OverwriteWrites(fill, t, node, free),
            BytesOf(g, Apply(d1, SetInode(t, node)), t))
  {
    forall n: nat | n <= |OverwriteWrites(fill, t, node, free)|
      ensures var d := Replay(d0, OverwriteWrites(fill, t, node, free)[..n]);
              || OldOrNew(g, d0, d, live, meta, t, BytesOf(g, d0, t))
              || OldOrNew(g, d0, d, live, meta, t, BytesOf(g, Apply(d1, SetInode(t, node)), t))
    {
      OverwriteAtomic(g, d0, d1, live, meta, t, node, l, fill, free, n);
    }
  }

  /** `i_blocks`: every block of the file, data and indirect alike, in sectors. */
  function Sectors(g: Geo, bs: seq<nat>): nat { |bs| * g.sectors }

  /** The record an overwrite commits: owner, mode and links stay; the size field keeps the low 32 bits. */
  function Rewritten(was: Inode, size: nat, blocks512: nat, block: seq<nat>): Inode {
    was.(size := size % TWO32, blocks512 := blocks512, block := block)
  }

  /** The record keeps its mode, owner and links, and has the new size and block count. */
  predicate Resized(was: Inode, now: Inode, size: nat, blocks512: nat) {
    && now.mode == was.mode && now.uid == was.uid && now.gid == was.gid && now.links == was.links
    && now.size == size % TWO32 && now.blocks512 == blocks512
  }

  /** The inode patch on a volume where the data has been laid out. */
  lemma CommitReads(g: Geo, d0: Disk, d1: Disk, d2: Disk, t: nat, node: Inode, l: Layout, data: seq<byte>)
    requires Ready(g, d0) && LaidOut(g, d0, d1, l, Split(data, g.BlockSize()))
             && |DataOf(l)| == BlocksFor(|data|, g.BlockSize())
    requires t < |d1.inodes| && node.block == BlockArray(l) && node.size == |data| % TWO32
             && d2 == d1.(inodes := d1.inodes[t := node])
    ensures Ready(g, d1) && Ready(g, d2) && Committed(g, d0, d1, d2, t, node, l)
    ensures OwnedBy(d2, t) == AllOf(l) && (BytesOf(g, d2, t) == data <==> |data| < TWO32)
  {
    GrewReady(g, d0, d1, AllOf(l));
    PatchKeepsCounts(g, d1, d2, t, node);
    ReadsBack(g, d0, d1, l, data, node);
    CommittedOwned(g, d0, d1, d2, t, node, l);
    FileFrame(g, d1, d2, node);
  }

  /** The file `node` holds the data, block by block, over the layout `l`. */
  ghost predicate Holding(g: Geo, d: Disk, node: Inode, l: Layout, data: seq<byte>) {
    && g.BlockSize() > 0 && |l.inds| == |l.runs| && Stored(g, d, l) && node.block == BlockArray(l)
       && node.size == |data| % TWO32
    && |DataOf(l)| == BlocksFor(|data|, g.BlockSize()) && HoldsChunks(d, DataOf(l), Split(data, g.BlockSize()), 0)
    && |AllOf(l)| == Need(g, BlocksFor(|data|, g.BlockSize()))
  }

  lemma {:induction false} StillHolding(g: Geo, d: Disk, d': Disk, node: Inode, l: Layout, data: seq<byte>)
    requires Holding(g, d, node, l, data) && d'.blocks == d.blocks
    ensures Holding(g, d', node, l, data)
  {
    if l.ind != 0 { assert Lists(g, d', l.ind, l.single); }
    if l.dind != 0 {
      forall j | 0 <= j < |l.inds| ensures Lists(g, d', l.inds[j], l.runs[j]) {
        assert Lists(g, d, l.inds[j], l.runs[j]);
      }
    }
  }

  /**
   The existing-file branch of `write_path_owned`. It succeeds exactly when there is room for the data next to
   the old contents. On success the volume is well formed again, with the same inodes live and nothing leaked; the
   file reads back as `data` exactly when its length fits 32 bits; nobody else's file changes. On failure no file
   changes, but the blocks taken so far, `lost`, stay in use without an owner. In both cases every crash state
   shows the old or the new contents.
   */
  method Overwrite(v: Volume, t: nat, data: seq<byte>, ghost live: set<nat>, ghost meta: set<nat>)
    returns (ok: bool, ghost lost: set<nat>, ghost ws: seq<Write>)
    requires Mounted(v.geo, v.disk, live, meta) && t in live
    modifies v
    ensures ok <==> Enough(v.geo, old(v.disk), |data|)
    ensures Reached(old(v.disk), v.disk, ws) && Atomic(v.geo, old(v.disk), live, meta, t, ws, BytesOf(v.geo, v.disk, t))
    ensures Mounted(v.geo, v.disk, live, meta + lost) && (ok ==> lost == {})
    ensures forall i :: i in live && i != t ==> SameFile(v.geo, old(v.disk), v.disk, i)
    ensures !ok ==> SameFile(v.geo, old(v.disk), v.disk, t)
    ensures ok ==> (BytesOf(v.geo, v.disk, t) == data <==> |data| < TWO32)
    ensures ok ==> Resized(old(v.disk).inodes[t], v.disk.inodes[t], |data|, Sectors(v.geo, OwnedBy(v.disk, t)))
  {
    ghost var g, d0 := v.geo, v.disk;
    OwnedAreData(g, d0, live, meta, t);
    var laid, l, taken, fill := LayOutData(v, data);
    if laid.None? {
      SpillMounted(g, d0, v.disk, live, meta, taken);
      FillAtomic(g, d0, live, meta, t, fill);
      return false, Members(taken), fill;
    }
    var free := CommitData(v, t, |data|, laid.value.0, laid.value.1, d0, l, data, fill, live, meta);
    assert meta + {} == meta;
    return true, {}, OverwriteWrites(fill, t, Rewritten(d0.inodes[t], |data|, laid.value.1, laid.value.0), free);
  }

  /** What patching the inode and freeing the old blocks did, once the data was laid out. */
  ghost predicate Swapped(g: Geo, d0: Disk, d: Disk, live: set<nat>, meta: set<nat>, t: nat, node: Inode, l: Layout,
                          data: seq<byte>) {
    && Mounted(g, d, live, meta) && (forall i :: i in live && i != t ==> SameFile(g, d0, d, i))
    && (BytesOf(g, d, t) == data <==> |data| < TWO32) && t < |d.inodes| && d.inodes[t] == node
    && Holding(g, d, node, l, data) && |l.inds| == |l.runs| && OwnedBy(d, t) == AllOf(l)
    && Tallies(d.groups) == Tallies(d0.groups)
  }

  lemma SwapDone(g: Geo, d0: Disk, d1: Disk, d2: Disk, d3: Disk, live: set<nat>, meta: set<nat>, t: nat, node: Inode,
                 l: Layout, data: seq<byte>)
    requires Mounted(g, d0, live, meta) && t in live && Freed(g, d2, d3, OwnedBy(d0, t))
    requires LaidOut(g, d0, d1, l, Split(data, g.BlockSize())) && |DataOf(l)| == BlocksFor(|data|, g.BlockSize())
    requires |AllOf(l)| == Need(g, BlocksFor(|data|, g.BlockSize()))
    requires t < |d1.inodes| && node.block == BlockArray(l) && node.size == |data| % TWO32
             && d2 == d1.(inodes := d1.inodes[t := node])
    ensures Committed(g, d0, d1, d2, t, node, l) && Swapped(g, d0, d3, live, meta, t, node, l, data)
            && BytesOf(g, d3, t) == BytesOf(g, d2, t)
  {
    SameTallies(d0.groups, d1.groups);
    SameTallies(d2.groups, d3.groups);
    CommitReads(g, d0, d1, d2, t, node, l, data);
    OverwriteDone(g, d0, d1, d2, d3, live, meta, t, node, l);
    StillHolding(g, d1, d3, node, l, data);
  }

  lemma PatchReady(g: Geo, d1: Disk, d2: Disk, t: nat, node: Inode, was: Inode)
    requires Ready(g, d1) && t < |d1.inodes| && |node.block| == 15 && |was.block| == 15
             && d2 == Apply(d1, SetInode(t, node))
    ensures Ready(g, d2) && Owned(d2, was) == Owned(d1, was) && d2 == d1.(inodes := d1.inodes[t := node])
  {
    PatchKeepsCounts(g, d1, d2, t, node);
    SameOwned(d1, d2, was);
  }

  /** Patch the inode, then free the blocks it had. */
  method CommitData(v: Volume, t: nat, size: nat, block: seq<nat>, blocks512: nat, ghost d0: Disk, ghost l: Layout,
                    ghost data: seq<byte>,
                    ghost fill: seq<Write>, ghost live: set<nat>, ghost meta: set<nat>) returns (ghost free: seq<Write>)
    requires Mounted(v.geo, d0, live, meta) && t in live && FileOk(v.geo, d0, meta, t) && AllData(v.geo, OwnedBy(d0, t))
    requires Reached(d0, v.disk, fill) && AllGrow(v.geo, d0, fill)
    requires LaidOut(v.geo, d0, v.disk, l, Split(data, v.geo.BlockSize()))
             && |DataOf(l)| == BlocksFor(|data|, v.geo.BlockSize())
    requires size == |data| && block == BlockArray(l) && |AllOf(l)| == Need(v.geo, BlocksFor(|data|, v.geo.BlockSize()))
    modifies v
    ensures var node := Rewritten(d0.inodes[t], size, blocks512, block);
            && Swapped(v.geo, d0, v.disk, live, meta, t, node, l, data)
            && var ws := OverwriteWrites(fill, t, node, free);
               Reached(d0, v.disk, ws) && Atomic(v.geo, d0, live, meta, t, ws, BytesOf(v.geo, v.disk, t))
  {
    ghost var g, d1 := v.geo, v.disk;
    UntouchedOwned(g, d0, d1, live, meta, t, fill);
    GrewReady(g, d0, d1, AllOf(l));
    var was := v.disk.inodes[t];
    var node := Rewritten(was, size, blocks512, block);
    v.disk := Apply(v.disk, SetInode(t, node));
    ghost var d2 := v.disk;
    PatchReady(g, d1, d2, t, node, was);
    var free' := FreeAllBlocks(v, was);
    free := free';
    SwapDone(g, d0, d1, d2, v.disk, live, meta, t, node, l, data);
    PatchAtomic(g, d0, d1, live, meta, t, node, l, fill, free);
    ReachedStep(d0, d1, fill, SetInode(t, node));
    ReachedThen(d0, d2, v.disk, fill + [SetInode(t, node)], free);
  }

  lemma UntouchedOwned(g: Geo, d0: Disk, d1: Disk, live: set<nat>, meta: set<nat>, t: nat, fill: seq<Write>)
    requires Safe(g, d0, live, meta) && t in live && Reached(d0, d1, fill) && AllGrow(g, d0, fill)
             && FileOk(g, d0, meta, t)
    ensures d1.inodes == d0.inodes && Owned(d1, d0.inodes[t]) == OwnedBy(d0, t)
  {
    UntouchedRun(g, d0, fill);
    SameOwned(d0, d1, d0.inodes[t]);
  }
}
