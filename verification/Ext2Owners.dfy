/** Who owns which block, and what a file depends on. */
module Ext2Owners {
  import opened Common
  import opened Ext2Disk
  import opened Ext2Free

  // ---------------------------------------------------------------- a file depends on its own blocks only

  ghost predicate SameOn(d: Disk, d': Disk, bs: seq<nat>) {
    forall b :: b in bs ==> BlockAt(d', b) == BlockAt(d, b)
  }

  lemma SameIndirectOwned(d: Disk, d': Disk, b: nat)
    requires SameOn(d, d', IndirectOwned(d, b))
    ensures IndirectOwned(d', b) == IndirectOwned(d, b)
    ensures b != 0 ==> BlockAt(d', b) == BlockAt(d, b)
  {
    if b != 0 { assert b in IndirectOwned(d, b); }
  }

  lemma {:induction false} SameIndirectsOwned(d: Disk, d': Disk, inds: seq<nat>)
    requires SameOn(d, d', IndirectsOwned(d, inds))
    ensures IndirectsOwned(d', inds) == IndirectsOwned(d, inds)
  {
    if inds != [] {
      var n := |inds| - 1;
      SameIndirectsOwned(d, d', inds[..n]);
      SameIndirectOwned(d, d', inds[n]);
    }
  }

  lemma SameDoubleOwned(d: Disk, d': Disk, b: nat)
    requires SameOn(d, d', DoubleOwned(d, b))
    ensures DoubleOwned(d', b) == DoubleOwned(d, b)
    ensures b != 0 ==> BlockAt(d', b) == BlockAt(d, b)
  {
    if b != 0 {
      assert b in DoubleOwned(d, b);
      SameIndirectsOwned(d, d', Ptrs(BlockAt(d, b)));
    }
  }

  lemma SameParts(d: Disk, d': Disk, node: Inode)
    requires |node.block| == 15 && SameOn(d, d', Owned(d, node))
    ensures SameOn(d, d', NonZero(node.block[..12])) && SameOn(d, d', IndirectOwned(d, node.block[12]))
            && SameOn(d, d', DoubleOwned(d, node.block[13]))
  {
    var a, b, c := NonZero(node.block[..12]), IndirectOwned(d, node.block[12]), DoubleOwned(d, node.block[13]);
    assert Owned(d, node) == a + b + c;
    forall x | x in a || x in b || x in c ensures BlockAt(d', x) == BlockAt(d, x) { assert x in a + b + c; }
  }

  lemma SameOwned(d: Disk, d': Disk, node: Inode)
    requires |node.block| == 15 && SameOn(d, d', Owned(d, node))
    ensures Owned(d', node) == Owned(d, node)
  {
    SameParts(d, d', node);
    SameIndirectOwned(d, d', node.block[12]);
    SameDoubleOwned(d, d', node.block[13]);
  }

  /** The blocks these pointers name agree on both volumes. */
  ghost predicate SamePtrs(d: Disk, d': Disk, ptrs: seq<nat>) {
    forall i :: 0 <= i < |ptrs| && ptrs[i] != 0 ==> BlockAt(d', ptrs[i]) == BlockAt(d, ptrs[i])
  }

  lemma SameSingle(g: Geo, d: Disk, d': Disk, b: nat, want: nat)
    requires b != 0 ==> BlockAt(d', b) == BlockAt(d, b)
    ensures SinglePtrs(g, d', b, want) == SinglePtrs(g, d, b, want)
  {
  }

  lemma DoubleCons(g: Geo, d: Disk, inds: seq<nat>, want: nat, first: seq<nat>, more: nat)
    requires inds != [] && want > 0 && first == SinglePtrs(g, d, inds[0], want) && more == want - |first|
    ensures DoublePtrs(g, d, inds, want) == first + DoublePtrs(g, d, inds[1..], more)
  {
  }

  lemma {:induction false} SameDouble(g: Geo, d: Disk, d': Disk, inds: seq<nat>, want: nat)
    requires SamePtrs(d, d', inds)
    ensures DoublePtrs(g, d', inds, want) == DoublePtrs(g, d, inds, want)
  {
    if inds != [] && want > 0 {
      var first := SinglePtrs(g, d, inds[0], want);
      var more: nat := want - |first|;
      SameSingle(g, d, d', inds[0], want);
      DoubleCons(g, d, inds, want, first, more);
      DoubleCons(g, d', inds, want, first, more);
      SameDouble(g, d, d', inds[1..], more);
    }
  }

  /** The pointers read through an indirect block name blocks owned through it. */
  lemma SingleIn(g: Geo, d: Disk, b: nat, want: nat, x: nat)
    requires x in SinglePtrs(g, d, b, want) && x != 0
    ensures x in IndirectOwned(d, b)
  {
    NonZeroMembers(Ptrs(BlockAt(d, b)), x);
  }

  lemma {:induction false} DoubleIn(g: Geo, d: Disk, inds: seq<nat>, want: nat, x: nat) returns (j: nat)
    requires x in DoublePtrs(g, d, inds, want) && x != 0
    ensures j < |inds| && x in IndirectOwned(d, inds[j])
  {
    var first := SinglePtrs(g, d, inds[0], want);
    var rest := DoublePtrs(g, d, inds[1..], want - |first|);
    assert DoublePtrs(g, d, inds, want) == first + rest;
    if x in first {
      SingleIn(g, d, inds[0], want, x);
      j := 0;
    } else {
      assert x in rest;
      j := DoubleIn(g, d, inds[1..], want - |first|, x);
      j := j + 1;
    }
  }

  lemma DeepIn(g: Geo, d: Disk, ind: nat, dind: nat, want: nat, x: nat)
    requires x in DeepPtrs(g, d, ind, SecondLevel(g, d, dind), want) && x != 0
    ensures x in IndirectOwned(d, ind) || x in DoubleOwned(d, dind)
  {
    var single, inds := SinglePtrs(g, d, ind, want), SecondLevel(g, d, dind);
    if x in single {
      SingleIn(g, d, ind, want, x);
    } else {
      var j := DoubleIn(g, d, inds, want - |single|, x);
      IndirectsPrefix(d, inds, j, x);
      assert dind != 0;
    }
  }

  /** `block_map` names only blocks the inode owns. */
  lemma MapOwned(g: Geo, d: Disk, node: Inode, x: nat)
    requires g.BlockSize() > 0 && |node.block| == 15 && x in BlockMap(g, d, node) && x != 0
    ensures x in Owned(d, node)
  {
    var n := MapLength(g, node);
    if n > 12 && x !in node.block[..12] {
      DeepIn(g, d, node.block[12], node.block[13], n - 12, x);
    } else {
      assert x in node.block[..12];
      NonZeroMembers(node.block[..12], x);
    }
  }

  lemma SameSecondLevel(g: Geo, d: Disk, d': Disk, b: nat)
    requires SameOn(d, d', DoubleOwned(d, b))
    ensures SecondLevel(g, d', b) == SecondLevel(g, d, b) && SamePtrs(d, d', SecondLevel(g, d, b))
  {
    SameDoubleOwned(d, d', b);
    if b != 0 {
      var inds := Ptrs(BlockAt(d, b));
      forall i | 0 <= i < |inds| && inds[i] != 0 ensures BlockAt(d', inds[i]) == BlockAt(d, inds[i]) {
        assert inds[i] in IndirectOwned(d, inds[i]);
        IndirectsPrefix(d, inds, i, inds[i]);
      }
    }
  }

  lemma SameMap(g: Geo, d: Disk, d': Disk, node: Inode)
    requires g.BlockSize() > 0 && |node.block| == 15 && SameOn(d, d', Owned(d, node))
    ensures BlockMap(g, d', node) == BlockMap(g, d, node)
  {
    SameParts(d, d', node);
    var n := MapLength(g, node);
    if n > 12 {
      SameIndirectOwned(d, d', node.block[12]);
      SameSecondLevel(g, d, d', node.block[13]);
      SameDeep(g, d, d', node.block[12], SecondLevel(g, d, node.block[13]), n - 12);
    }
  }

  lemma SameDeep(g: Geo, d: Disk, d': Disk, ind: nat, inds: seq<nat>, want: nat)
    requires SamePtrs(d, d', inds) && (ind != 0 ==> BlockAt(d', ind) == BlockAt(d, ind))
    ensures DeepPtrs(g, d', ind, inds, want) == DeepPtrs(g, d, ind, inds, want)
  {
    var single := SinglePtrs(g, d, ind, want);
    var more: nat := want - |single|;
    assert SinglePtrs(g, d', ind, want) == single by { SameSingle(g, d, d', ind, want); }
    assert DoublePtrs(g, d', inds, more) == DoublePtrs(g, d, inds, more) by { SameDouble(g, d, d', inds, more); }
  }

  lemma {:induction false} SameContents(g: Geo, d: Disk, d': Disk, ptrs: seq<nat>)
    requires SamePtrs(d, d', ptrs)
    ensures Contents(g, d', ptrs) == Contents(g, d, ptrs)
  {
    if ptrs != [] { SameContents(g, d, d', ptrs[1..]); }
  }

  /** A change elsewhere on the volume changes neither what the file owns nor what it reads as. */
  lemma FileFrame(g: Geo, d: Disk, d': Disk, node: Inode)
    requires g.BlockSize() > 0 && |node.block| == 15 && SameOn(d, d', Owned(d, node))
    ensures Owned(d', node) == Owned(d, node) && FileBytes(g, d', node) == FileBytes(g, d, node)
  {
    SameOwned(d, d', node);
    SameMap(g, d, d', node);
    var ptrs := BlockMap(g, d, node);
    forall i | 0 <= i < |ptrs| && ptrs[i] != 0 ensures BlockAt(d', ptrs[i]) == BlockAt(d, ptrs[i]) {
      MapOwned(g, d, node, ptrs[i]);
    }
    SameContents(g, d, d', ptrs);
  }

  // ---------------------------------------------------------------- well-formed volumes

  /** The blocks of inode number `i + 1`. */
  function OwnedBy(d: Disk, i: nat): seq<nat> {
    if i < |d.inodes| && |d.inodes[i].block| == 15 then Owned(d, d.inodes[i]) else []
  }

  function BytesOf(g: Geo, d: Disk, i: nat): seq<byte> {
    if i < |d.inodes| && |d.inodes[i].block| == 15 && g.BlockSize() > 0 then FileBytes(g, d, d.inodes[i]) else []
  }

  /** Inode `i` is allocated and owns each of its blocks once; they are all marked used and none is metadata. */
  ghost predicate FileOk(g: Geo, d: Disk, meta: set<nat>, i: nat) {
    && i < |d.inodes| && |d.inodes[i].block| == 15 && i < |d.ibits| && d.ibits[i]
    && NoDup(OwnedBy(d, i))
    && (forall b :: b in OwnedBy(d, i) ==> Used(g, d, b) && b !in meta)
  }

  ghost predicate Apart(d: Disk, i: nat, j: nat) {
    forall b :: b in OwnedBy(d, i) ==> b !in OwnedBy(d, j)
  }

  /**
   No block of a live inode is free, shared or metadata. `live` are the inodes reachable by name, `meta` the
   superblocks, descriptors, bitmaps and inode tables.
   */
  ghost predicate Safe(g: Geo, d: Disk, live: set<nat>, meta: set<nat>) {
    && g.BlockSize() > 0
    && (forall b :: b in meta ==> Used(g, d, b))
    && (forall i {:trigger FileOk(g, d, meta, i)} :: i in live ==> FileOk(g, d, meta, i))
    && (forall i, j {:trigger Apart(d, i, j)} :: i in live && j in live && i != j ==> Apart(d, i, j))
  }

  ghost predicate SameFile(g: Geo, d: Disk, d': Disk, i: nat) {
    && i < |d.inodes| && i < |d'.inodes| && d'.inodes[i] == d.inodes[i] && SameOn(d, d', OwnedBy(d, i))
    && BytesOf(g, d', i) == BytesOf(g, d, i) && OwnedBy(d', i) == OwnedBy(d, i)
  }

  /** Every used block is metadata or owned by a live inode. */
  ghost predicate NoLeak(g: Geo, d: Disk, live: set<nat>, meta: set<nat>) {
    forall b :: Used(g, d, b) ==> b in meta || exists i :: i in live && b in OwnedBy(d, i)
  }

  /** A change that leaves the file's record and blocks alone leaves it the same. */
  lemma FileStays(g: Geo, d: Disk, d': Disk, meta: set<nat>, i: nat)
    requires g.BlockSize() > 0 && FileOk(g, d, meta, i)
    requires i < |d'.inodes| && i < |d'.ibits| && d'.ibits[i] && d'.inodes[i] == d.inodes[i]
    requires forall b :: b in OwnedBy(d, i) ==> Used(g, d', b) && BlockAt(d', b) == BlockAt(d, b)
    ensures SameFile(g, d, d', i) && FileOk(g, d', meta, i)
  {
    FileFrame(g, d, d', d.inodes[i]);
  }

  /** A change that leaves every live file alone leaves the volume well formed. */
  lemma SafeStays(g: Geo, d: Disk, d': Disk, live: set<nat>, meta: set<nat>)
    requires Safe(g, d, live, meta)
    requires forall b :: b in meta ==> Used(g, d', b)
    requires forall i :: i in live ==> SameFile(g, d, d', i) && FileOk(g, d', meta, i)
    ensures Safe(g, d', live, meta)
  {
    forall i, j | i in live && j in live && i != j ensures Apart(d', i, j) { assert Apart(d, i, j); }
  }
}
