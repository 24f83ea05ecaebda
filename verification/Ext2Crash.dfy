/** Overwriting a file is crash-atomic: what the volume looks like after every prefix of the sector writes. */
module Ext2Crash {
  import opened Common
  import opened Ext2Disk
  import opened Ext2Alloc
  import opened Ext2Shape
  import opened Ext2Owners

  // ---------------------------------------------------------------- while new blocks are being filled

  /** Nothing that was in use on `d0` has changed. */
  ghost predicate Untouched(g: Geo, d0: Disk, d: Disk) {
    && |d.bits| == |d0.bits| && |d.blocks| == |d0.blocks| && d.inodes == d0.inodes && d.ibits == d0.ibits
    && forall b :: Used(g, d0, b) ==> Used(g, d, b) && BlockAt(d, b) == BlockAt(d0, b)
  }

  lemma UntouchedStep(g: Geo, d0: Disk, d: Disk, w: Write)
    requires Untouched(g, d0, d) && Grows(g, d0, w)
    ensures Untouched(g, d0, Apply(d, w))
  {
    var d' := Apply(d, w);
    forall b | Used(g, d0, b) ensures Used(g, d', b) && BlockAt(d', b) == BlockAt(d0, b) {
      assert Used(g, d, b) && BlockAt(d, b) == BlockAt(d0, b);
    }
  }

  lemma {:induction false} UntouchedRun(g: Geo, d0: Disk, ws: seq<Write>)
    requires AllGrow(g, d0, ws)
    ensures Untouched(g, d0, Replay(d0, ws))
  {
    if ws != [] {
      var n := |ws| - 1;
      UntouchedRun(g, d0, ws[..n]);
      UntouchedStep(g, d0, Replay(d0, ws[..n]), ws[n]);
    }
  }

  /** Every file is as it was. */
  lemma UntouchedFiles(g: Geo, d0: Disk, d: Disk, live: set<nat>, meta: set<nat>)
    requires Safe(g, d0, live, meta) && Untouched(g, d0, d)
    ensures Safe(g, d, live, meta) && forall i :: i in live ==> SameFile(g, d0, d, i)
  {
    forall i | i in live ensures SameFile(g, d0, d, i) && FileOk(g, d, meta, i) {
      assert FileOk(g, d0, meta, i);
      FileStays(g, d0, d, meta, i);
    }
    SafeStays(g, d0, d, live, meta);
  }

  // ---------------------------------------------------------------- while the old blocks are being freed

  /** Only bits of `f` were cleared since `d0`. */
  ghost predicate OnlyFreed(g: Geo, d0: Disk, d: Disk, f: seq<nat>) {
    && |d.bits| == |d0.bits| && d.blocks == d0.blocks && d.inodes == d0.inodes && d.ibits == d0.ibits
    && forall b :: b !in f && Used(g, d0, b) ==> Used(g, d, b)
  }

  lemma {:induction false} OnlyFreedRun(g: Geo, d0: Disk, f: seq<nat>, ws: seq<Write>)
    requires AllShrink(g, f, ws)
    ensures OnlyFreed(g, d0, Replay(d0, ws), f)
  {
    if ws != [] {
      var n := |ws| - 1;
      OnlyFreedRun(g, d0, f, ws[..n]);
      assert Shrinks(g, f, ws[n]);
    }
  }

  /** No live inode and no metadata has a stake in `f`. */
  ghost predicate Unclaimed(d: Disk, live: set<nat>, meta: set<nat>, f: seq<nat>) {
    && (forall b :: b in f ==> b !in meta)
    && (forall i, b :: i in live && b in OwnedBy(d, i) ==> b !in f)
  }

  lemma OnlyFreedFiles(g: Geo, d0: Disk, d: Disk, live: set<nat>, meta: set<nat>, f: seq<nat>)
    requires Safe(g, d0, live, meta) && OnlyFreed(g, d0, d, f) && Unclaimed(d0, live, meta, f)
    ensures Safe(g, d, live, meta) && forall i :: i in live ==> SameFile(g, d0, d, i)
  {
    forall i | i in live ensures SameFile(g, d0, d, i) && FileOk(g, d, meta, i) {
      assert FileOk(g, d0, meta, i);
      FileStays(g, d0, d, meta, i);
    }
    SafeStays(g, d0, d, live, meta);
  }

  // ---------------------------------------------------------------- the commit

  /** The volume right after the inode patch: one inode now points at the freshly filled blocks. */
  ghost predicate Committed(g: Geo, d0: Disk, d1: Disk, d2: Disk, t: nat, node: Inode, l: Layout) {
    && t < |d1.inodes| && |l.inds| == |l.runs| && Stored(g, d1, l) && Grew(g, d0, d1, AllOf(l))
    && node.block == BlockArray(l) && d2 == d1.(inodes := d1.inodes[t := node])
  }

  lemma CommittedOwned(g: Geo, d0: Disk, d1: Disk, d2: Disk, t: nat, node: Inode, l: Layout)
    requires Committed(g, d0, d1, d2, t, node, l)
    ensures OwnedBy(d2, t) == AllOf(l)
  {
    StoredOwned(g, d1, d2, l, node);
    assert d2.inodes[t] == node;
  }

  lemma StoredOwned(g: Geo, d1: Disk, d2: Disk, l: Layout, node: Inode)
    requires |l.inds| == |l.runs| && Stored(g, d1, l) && node.block == BlockArray(l) && d2.blocks == d1.blocks
    ensures Owned(d2, node) == AllOf(l)
  {
    OwnedIsAll(g, d1, l, node);
    FrameOwned(d1, d2, node);
  }

  /** Ownership depends on the blocks only. */
  lemma FrameOwned(d: Disk, d': Disk, node: Inode)
    requires |node.block| == 15 && d'.blocks == d.blocks
    ensures Owned(d', node) == Owned(d, node)
  {
    SameOwned(d, d', node);
  }

  lemma CommittedOther(g: Geo, d0: Disk, d1: Disk, d2: Disk, live: set<nat>, meta: set<nat>, t: nat, node: Inode,
                       l: Layout, i: nat)
    requires Safe(g, d0, live, meta) && Committed(g, d0, d1, d2, t, node, l) && i in live && i != t
    ensures SameFile(g, d0, d2, i) && FileOk(g, d2, meta, i)
  {
    assert FileOk(g, d0, meta, i);
    FileStays(g, d0, d2, meta, i);
  }

  lemma CommittedTarget(g: Geo, d0: Disk, d1: Disk, d2: Disk, live: set<nat>, meta: set<nat>, t: nat, node: Inode,
                        l: Layout)
    requires Safe(g, d0, live, meta) && Committed(g, d0, d1, d2, t, node, l) && t in live
    ensures FileOk(g, d2, meta, t) && forall b :: b in OwnedBy(d2, t) ==> !Used(g, d0, b)
  {
    CommittedOwned(g, d0, d1, d2, t, node, l);
    assert FileOk(g, d0, meta, t);
    forall b | b in AllOf(l) ensures Used(g, d2, b) && b !in meta && !Used(g, d0, b) {
      assert Used(g, d1, b);
    }
  }

  /** The patch keeps every other file, and leaves the old blocks of the patched one unclaimed. */
  lemma CommitFiles(g: Geo, d0: Disk, d1: Disk, d2: Disk, live: set<nat>, meta: set<nat>, t: nat, node: Inode,
                    l: Layout)
    requires Safe(g, d0, live, meta) && Committed(g, d0, d1, d2, t, node, l) && t in live
    ensures Safe(g, d2, live, meta) && Unclaimed(d2, live, meta, OwnedBy(d0, t))
    ensures forall i :: i in live && i != t ==> SameFile(g, d0, d2, i)
  {
    CommittedTarget(g, d0, d1, d2, live, meta, t, node, l);
    forall i | i in live && i != t ensures SameFile(g, d0, d2, i) && FileOk(g, d2, meta, i) {
      CommittedOther(g, d0, d1, d2, live, meta, t, node, l, i);
    }
    forall i, j | i in live && j in live && i != j ensures Apart(d2, i, j) {
      CommittedApart(g, d0, d2, live, meta, t, i, j);
    }
    forall b | b in meta ensures Used(g, d2, b) { assert Used(g, d1, b); }
    CommitUnclaimed(g, d0, d2, live, meta, t);
  }

  lemma CommittedApart(g: Geo, d0: Disk, d2: Disk, live: set<nat>, meta: set<nat>, t: nat, i: nat, j: nat)
    requires Safe(g, d0, live, meta) && i in live && j in live && i != j
    requires forall b :: b in OwnedBy(d2, t) ==> !Used(g, d0, b)
    requires forall k :: k in live && k != t ==> SameFile(g, d0, d2, k)
    ensures Apart(d2, i, j)
  {
    assert FileOk(g, d0, meta, i) && FileOk(g, d0, meta, j) && Apart(d0, i, j);
  }

  lemma CommitUnclaimed(g: Geo, d0: Disk, d2: Disk, live: set<nat>, meta: set<nat>, t: nat)
    requires Safe(g, d0, live, meta) && t in live
    requires forall b :: b in OwnedBy(d2, t) ==> !Used(g, d0, b)
    requires forall k :: k in live && k != t ==> SameFile(g, d0, d2, k)
    ensures Unclaimed(d2, live, meta, OwnedBy(d0, t))
  {
    assert FileOk(g, d0, meta, t);
    forall i, b | i in live && b in OwnedBy(d2, i) ensures b !in OwnedBy(d0, t) {
      if i != t { assert SameFile(g, d0, d2, i) && Apart(d0, i, t); }
    }
  }

  // ---------------------------------------------------------------- the whole operation

  /** What a crash may leave behind: file `t` reads as one of two contents, everything else is untouched. */
  ghost predicate OldOrNew(g: Geo, d0: Disk, d: Disk, live: set<nat>, meta: set<nat>, t: nat, bytes: seq<byte>) {
    && Safe(g, d, live, meta)
    && (forall i :: i in live && i != t ==> SameFile(g, d0, d, i))
    && BytesOf(g, d, t) == bytes
  }

  /** The writes of an overwrite: fill, patch the inode, free. */
  function OverwriteWrites(fill: seq<Write>, t: nat, node: Inode, free: seq<Write>): seq<Write> {
    fill + [SetInode(t, node)] + free
  }

  /**
   After every prefix of the writes of an overwrite the file reads as exactly its old self (up to the inode
   patch) or exactly its new self (from the patch on), every other live file is unchanged, and no block of a
   live inode is marked free or shared.
   */
  lemma OverwriteAtomic(g: Geo, d0: Disk, d1: Disk, live: set<nat>, meta: set<nat>, t: nat, node: Inode, l: Layout,
                        fill: seq<Write>, free: seq<Write>, n: nat)
    requires Safe(g, d0, live, meta) && t in live
    requires Reached(d0, d1, fill) && AllGrow(g, d0, fill) && AllShrink(g, OwnedBy(d0, t), free)
    requires Committed(g, d0, d1, Apply(d1, SetInode(t, node)), t, node, l)
    requires n <= |OverwriteWrites(fill, t, node, free)|
    ensures var d := Replay(d0, OverwriteWrites(fill, t, node, free)[..n]);
            OldOrNew(g, d0, d, live, meta, t,
                     if n <= |fill| then BytesOf(g, d0, t) else BytesOf(g, Apply(d1, SetInode(t, node)), t))
  {
    if n <= |fill| {
      BeforeCommit(g, d0, live, meta, t, node, fill, free, n);
    } else {
      var m: nat := n - |fill| - 1;
      WritesAfter(d0, d1, fill, t, node, free, n, m);
      AfterCommit(g, d0, d1, Apply(d1, SetInode(t, node)), live, meta, t, node, l, free[..m]);
    }
  }

  /** Every state up to the inode patch shows the old contents. */
  lemma BeforeCommit(g: Geo, d0: Disk, live: set<nat>, meta: set<nat>, t: nat, node: Inode, fill: seq<Write>,
                     free: seq<Write>, n: nat)
    requires Safe(g, d0, live, meta) && t in live && AllGrow(g, d0, fill) && n <= |fill|
    ensures OldOrNew(g, d0, Replay(d0, OverwriteWrites(fill, t, node, free)[..n]), live, meta, t, BytesOf(g, d0, t))
  {
    assert OverwriteWrites(fill, t, node, free)[..n] == fill[..n];
    UntouchedRun(g, d0, fill[..n]);
    UntouchedFiles(g, d0, Replay(d0, fill[..n]), live, meta);
  }

  lemma WritesAfter(d0: Disk, d1: Disk, fill: seq<Write>, t: nat, node: Inode, free: seq<Write>, n: nat, m: nat)
    requires m <= |free| && n == |fill| + 1 + m && Reached(d0, d1, fill)
    ensures Replay(d0, OverwriteWrites(fill, t, node, free)[..n]) == Replay(Apply(d1, SetInode(t, node)), free[..m])
  {
    assert OverwriteWrites(fill, t, node, free)[..n] == (fill + [SetInode(t, node)]) + free[..m];
    ReachedStep(d0, d1, fill, SetInode(t, node));
    ReplayConcat(d0, fill + [SetInode(t, node)], free[..m]);
  }

  /** Every state from the inode patch on shows the new contents. */
  lemma AfterCommit(g: Geo, d0: Disk, d1: Disk, d2: Disk, live: set<nat>, meta: set<nat>, t: nat, node: Inode,
                    l: Layout, free: seq<Write>)
    requires Safe(g, d0, live, meta) && t in live && Committed(g, d0, d1, d2, t, node, l)
             && AllShrink(g, OwnedBy(d0, t), free)
    ensures OldOrNew(g, d0, Replay(d2, free), live, meta, t, BytesOf(g, d2, t))
  {
    CommitFiles(g, d0, d1, d2, live, meta, t, node, l);
    OnlyFreedRun(g, d2, OwnedBy(d0, t), free);
    OnlyFreedFiles(g, d2, Replay(d2, free), live, meta, OwnedBy(d0, t));
    forall i | i in live && i != t ensures SameFile(g, d0, Replay(d2, free), i) {
      assert SameFile(g, d0, d2, i) && SameFile(g, d2, Replay(d2, free), i);
    }
  }
}
