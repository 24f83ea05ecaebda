/** `free_all_blocks`: give back everything an inode owns. */
module Ext2Free {
  import opened Ext2Disk
  import opened Ext2Alloc

  ghost predicate AllData(g: Geo, bs: seq<nat>) {
    forall i :: 0 <= i < |bs| ==> IsDataBlock(g, bs[i])
  }

  lemma AllDataIn(g: Geo, bs: seq<nat>, x: nat)
    requires AllData(g, bs) && x in bs
    ensures IsDataBlock(g, x)
  {
  }

  /** Freeing `f` then `f2`, with the writes it took. */
  lemma FreeThen(g: Geo, d0: Disk, d1: Disk, d2: Disk, f: seq<nat>, f2: seq<nat>, ws: seq<Write>, ws2: seq<Write>)
    requires Freed(g, d0, d1, f) && Reached(d0, d1, ws) && AllShrink(g, f, ws)
    requires Freed(g, d1, d2, f2) && Reached(d1, d2, ws2) && AllShrink(g, f2, ws2)
    ensures Freed(g, d0, d2, f + f2) && Reached(d0, d2, ws + ws2) && AllShrink(g, f + f2, ws + ws2)
  {
    FreedThen(g, d0, d1, d2, f, f2);
    ReachedThen(d0, d1, d2, ws, ws2);
    forall i | 0 <= i < |ws + ws2| ensures Shrinks(g, f + f2, (ws + ws2)[i]) {
      if i < |ws| { assert Shrinks(g, f, ws[i]); } else { assert Shrinks(g, f2, ws2[i - |ws|]); }
    }
  }

  lemma FreeNothing(g: Geo, d: Disk)
    requires CountersAgree(g, d)
    ensures Freed(g, d, d, []) && Reached(d, d, []) && AllShrink(g, [], [])
  {
  }

  /** Free every non-zero pointer of a list. */
  method FreePtrs(v: Volume, ptrs: seq<nat>) returns (ghost ws: seq<Write>)
    requires CountersAgree(v.geo, v.disk) && AllData(v.geo, NonZero(ptrs))
    modifies v
    ensures Freed(v.geo, old(v.disk), v.disk, NonZero(ptrs))
    ensures Reached(old(v.disk), v.disk, ws) && AllShrink(v.geo, NonZero(ptrs), ws)
  {
    ghost var d0 := v.disk;
    ws := [];
    FreeNothing(v.geo, d0);
    var i := 0;
    while i < |ptrs|
      invariant 0 <= i <= |ptrs|
      invariant Freed(v.geo, d0, v.disk, NonZero(ptrs[..i]))
      invariant Reached(d0, v.disk, ws) && AllShrink(v.geo, NonZero(ptrs[..i]), ws)
    {
      assert ptrs[..i + 1][..i] == ptrs[..i];
      if ptrs[i] != 0 {
        NonZeroMembers(ptrs, ptrs[i]);
        AllDataIn(v.geo, NonZero(ptrs), ptrs[i]);
        ghost var d1 := v.disk;
        var ws2 := FreeBlock(v, ptrs[i]);
        FreeThen(v.geo, d0, d1, v.disk, NonZero(ptrs[..i]), [ptrs[i]], ws, ws2);
        ws := ws + ws2;
      } else {
        assert NonZero(ptrs[..i + 1]) == NonZero(ptrs[..i]);
      }
      i := i + 1;
    }
    assert ptrs[..i] == ptrs;
  }

  /** Free an indirect block: what it points at, then itself. */
  method FreeIndirect(v: Volume, b: nat) returns (ghost ws: seq<Write>)
    requires CountersAgree(v.geo, v.disk) && AllData(v.geo, IndirectOwned(v.disk, b))
    modifies v
    ensures Freed(v.geo, old(v.disk), v.disk, IndirectOwned(old(v.disk), b))
    ensures Reached(old(v.disk), v.disk, ws) && AllShrink(v.geo, IndirectOwned(old(v.disk), b), ws)
  {
    ghost var d0 := v.disk;
    FreeNothing(v.geo, d0);
    if b == 0 { return []; }
    var ptrs := Ptrs(BlockAt(v.disk, b));
    AllDataParts(v.geo, NonZero(ptrs), [b]);
    assert IsDataBlock(v.geo, [b][0]);
    var ws1 := FreePtrs(v, ptrs);
    ghost var d1 := v.disk;
    var ws2 := FreeBlock(v, b);
    FreeThen(v.geo, d0, d1, v.disk, NonZero(ptrs), [b], ws1, ws2);
    ws := ws1 + ws2;
  }

  lemma {:induction false} IndirectsPrefix(d: Disk, inds: seq<nat>, i: nat, x: nat)
    requires i < |inds| && x in IndirectOwned(d, inds[i])
    ensures x in IndirectsOwned(d, inds)
    decreases |inds|
  {
    if i < |inds| - 1 { IndirectsPrefix(d, inds[..|inds| - 1], i, x); }
  }

  /** Free a list of indirect blocks with everything behind them. */
  method FreeIndirects(v: Volume, inds: seq<nat>) returns (ghost ws: seq<Write>)
    requires CountersAgree(v.geo, v.disk) && AllData(v.geo, IndirectsOwned(v.disk, inds))
    modifies v
    ensures Freed(v.geo, old(v.disk), v.disk, IndirectsOwned(old(v.disk), inds))
    ensures Reached(old(v.disk), v.disk, ws) && AllShrink(v.geo, IndirectsOwned(old(v.disk), inds), ws)
  {
    ghost var d0 := v.disk;
    FreeNothing(v.geo, d0);
    ws := [];
    var j := 0;
    while j < |inds|
      invariant 0 <= j <= |inds|
      invariant Freed(v.geo, d0, v.disk, IndirectsOwned(d0, inds[..j]))
      invariant Reached(d0, v.disk, ws) && AllShrink(v.geo, IndirectsOwned(d0, inds[..j]), ws)
    {
      assert inds[..j + 1][..j] == inds[..j];
      ghost var d1 := v.disk;
      SameIndirect(d0, d1, inds[j]);
      IndirectData(v.geo, d0, inds, j);
      var ws2 := FreeIndirect(v, inds[j]);
      FreeThen(v.geo, d0, d1, v.disk, IndirectsOwned(d0, inds[..j]), IndirectOwned(d0, inds[j]), ws, ws2);
      ws := ws + ws2;
      j := j + 1;
    }
    assert inds[..j] == inds;
  }

  lemma IndirectData(g: Geo, d: Disk, inds: seq<nat>, j: nat)
    requires j < |inds| && AllData(g, IndirectsOwned(d, inds))
    ensures AllData(g, IndirectOwned(d, inds[j]))
  {
    forall i | 0 <= i < |IndirectOwned(d, inds[j])| ensures IsDataBlock(g, IndirectOwned(d, inds[j])[i]) {
      IndirectsPrefix(d, inds, j, IndirectOwned(d, inds[j])[i]);
      AllDataIn(g, IndirectsOwned(d, inds), IndirectOwned(d, inds[j])[i]);
    }
  }

  lemma AllDataParts(g: Geo, a: seq<nat>, b: seq<nat>)
    requires AllData(g, a + b)
    ensures AllData(g, a) && AllData(g, b)
  {
    forall i | 0 <= i < |a| ensures IsDataBlock(g, a[i]) { assert IsDataBlock(g, (a + b)[i]); }
    forall i | 0 <= i < |b| ensures IsDataBlock(g, b[i]) { assert IsDataBlock(g, (a + b)[|a| + i]); }
  }

  /** Free a double-indirect block: each indirect block it lists, then itself. */
  method FreeDouble(v: Volume, b: nat) returns (ghost ws: seq<Write>)
    requires CountersAgree(v.geo, v.disk) && AllData(v.geo, DoubleOwned(v.disk, b))
    modifies v
    ensures Freed(v.geo, old(v.disk), v.disk, DoubleOwned(old(v.disk), b))
    ensures Reached(old(v.disk), v.disk, ws) && AllShrink(v.geo, DoubleOwned(old(v.disk), b), ws)
  {
    ghost var d0 := v.disk;
    FreeNothing(v.geo, d0);
    if b == 0 { return []; }
    var inds := Ptrs(BlockAt(v.disk, b));
    AllDataParts(v.geo, IndirectsOwned(d0, inds), [b]);
    var ws1 := FreeIndirects(v, inds);
    assert IsDataBlock(v.geo, [b][0]);
    ghost var d1 := v.disk;
    var ws2 := FreeBlock(v, b);
    FreeThen(v.geo, d0, d1, v.disk, IndirectsOwned(d0, inds), [b], ws1, ws2);
    ws := ws1 + ws2;
  }

  lemma SameIndirect(d: Disk, d': Disk, b: nat)
    requires d'.blocks == d.blocks
    ensures IndirectOwned(d', b) == IndirectOwned(d, b)
  {
  }

  lemma {:induction false} SameIndirects(d: Disk, d': Disk, inds: seq<nat>)
    requires d'.blocks == d.blocks
    ensures IndirectsOwned(d', inds) == IndirectsOwned(d, inds)
  {
    if inds != [] { SameIndirects(d, d', inds[..|inds| - 1]); }
  }

  /** `free_all_blocks`: exactly the inode's blocks become free. */
  method FreeAllBlocks(v: Volume, node: Inode) returns (ghost ws: seq<Write>)
    requires |node.block| == 15 && CountersAgree(v.geo, v.disk) && AllData(v.geo, Owned(v.disk, node))
    modifies v
    ensures Freed(v.geo, old(v.disk), v.disk, Owned(old(v.disk), node))
    ensures Reached(old(v.disk), v.disk, ws) && AllShrink(v.geo, Owned(old(v.disk), node), ws)
  {
    ghost var d0 := v.disk;
    ghost var a, b, c := NonZero(node.block[..12]), IndirectOwned(d0, node.block[12]), DoubleOwned(d0, node.block[13]);
    AllDataParts(v.geo, a + b, c);
    AllDataParts(v.geo, a, b);
    var ws1 := FreePtrs(v, node.block[..12]);
    ghost var d1 := v.disk;
    SameIndirect(d0, d1, node.block[12]);
    var ws2 := FreeIndirect(v, node.block[12]);
    FreeThen(v.geo, d0, d1, v.disk, a, b, ws1, ws2);
    ghost var d2 := v.disk;
    SameIndirects(d0, d2, Ptrs(BlockAt(d0, node.block[13])));
    assert DoubleOwned(d2, node.block[13]) == c;
    var ws3 := FreeDouble(v, node.block[13]);
    FreeThen(v.geo, d0, d2, v.disk, a + b, c, ws1 + ws2, ws3);
    ws := ws1 + ws2 + ws3;
  }
}
