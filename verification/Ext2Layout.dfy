/** `lay_out_data`: allocate and fill a file's blocks across the direct, indirect and double-indirect levels. */
module Ext2Layout {
  import opened Common
  import opened Ext2Disk
  import opened Ext2Alloc

  /** Block number 0 means "no block", so it must never be handed out: where it is on the volume it is in use. */
  ghost predicate BootReserved(g: Geo, d: Disk) {
    g.firstDataBlock == 0 ==> Used(g, d, 0)
  }

  ghost predicate Ready(g: Geo, d: Disk) {
    CountersAgree(g, d) && BootReserved(g, d)
  }

  lemma GrewReady(g: Geo, d: Disk, d': Disk, taken: seq<nat>)
    requires BootReserved(g, d) && Grew(g, d, d', taken)
    ensures Ready(g, d')
    ensures forall b :: b in taken ==> b != 0
  {
    forall b | b in taken ensures b != 0 {
      assert IsDataBlock(g, b) && !Used(g, d, b);
    }
  }

  /** The order blocks are listed in does not matter. */
  lemma GrewReorder(g: Geo, d: Disk, d': Disk, a: seq<nat>, b: seq<nat>)
    requires Grew(g, d, d', a) && NoDup(b) && |a| == |b| && forall x :: x in a <==> x in b
    ensures Grew(g, d, d', b)
  {
  }

  lemma GrewNothing(g: Geo, d: Disk)
    requires CountersAgree(g, d)
    ensures Grew(g, d, d, []) && Reached(d, d, []) && AllGrow(g, d, [])
  {
  }

  /** Rewriting the contents of a block just taken still only took it. */
  lemma GrewWrite(g: Geo, d: Disk, d1: Disk, d2: Disk, taken: seq<nat>, b: nat, data: Block, ws: seq<Write>)
    requires Grew(g, d, d1, taken) && b in taken && b < |d1.blocks| && |data| == g.BlockSize()
    requires d2 == d1.(blocks := d1.blocks[b := data])
    requires forall i :: 0 <= i < |ws| ==> ws[i].SetSector? && ws[i].b == b
    ensures Grew(g, d, d2, taken) && AllGrow(g, d, ws)
  {
    WriteKeepsCounts(g, d1, d2);
    assert forall x :: Used(g, d2, x) <==> Used(g, d1, x);
  }

  lemma AllGrowConcat(g: Geo, d: Disk, a: seq<Write>, b: seq<Write>)
    requires AllGrow(g, d, a) && AllGrow(g, d, b)
    ensures AllGrow(g, d, a + b)
  {
  }

  // ---------------------------------------------------------------- chunks of the data

  /** `chunk(i)`: the `i`-th block's worth of data, zero-padded. */
  function ChunkOf(data: seq<byte>, i: nat, bs: nat): (c: Block)
    requires i * bs <= |data|
    ensures |c| == bs
  {
    var piece := data[i * bs..Min(i * bs + bs, |data|)];
    piece + ZeroBlock(bs - |piece|)
  }

  lemma ChunkInRange(size: nat, i: nat, bs: nat)
    requires bs > 0 && i < BlocksFor(size, bs)
    ensures i * bs < size
  {
    DivBounds(size + bs - 1, bs);
    MulMono(i + 1, BlocksFor(size, bs), bs);
    MulSucc(i, bs);
  }

  /** All chunks of the data. */
  function Split(data: seq<byte>, bs: nat): (cs: seq<Block>)
    requires bs > 0
    ensures |cs| == BlocksFor(|data|, bs) && forall i :: 0 <= i < |cs| ==> |cs[i]| == bs
  {
    seq(BlocksFor(|data|, bs), i requires 0 <= i < BlocksFor(|data|, bs) => ChunkInRange(|data|, i, bs); ChunkOf(data,
        i, bs))
  }

  ghost predicate BlockSized(g: Geo, chunks: seq<Block>) {
    forall i :: 0 <= i < |chunks| ==> |chunks[i]| == g.BlockSize()
  }

  /** The blocks of `run` hold the chunks from number `from` on. */
  ghost predicate HoldsChunks(d: Disk, run: seq<nat>, chunks: seq<Block>, from: nat) {
    && from + |run| <= |chunks|
    && forall i :: 0 <= i < |run| ==> run[i] < |d.blocks| && d.blocks[run[i]] == chunks[from + i]
  }

  lemma HoldsStays(g: Geo, d: Disk, d': Disk, taken: seq<nat>, run: seq<nat>, chunks: seq<Block>, from: nat)
    requires HoldsChunks(d, run, chunks, from) && Grew(g, d, d', taken)
    requires forall b :: b in run ==> Used(g, d, b)
    ensures HoldsChunks(d', run, chunks, from)
  {
    forall i | 0 <= i < |run| ensures d'.blocks[run[i]] == chunks[from + i] {
      assert run[i] in run;
    }
  }

  /**
   Allocate and fill up to `max` data blocks, starting with chunk `from`; fails exactly when fewer are free.
   `taken` are the blocks taken, also by a failed attempt, which gives none of them back.
   */
  method FillRun(v: Volume, chunks: seq<Block>, from: nat, max: nat)
    returns (r: Option<seq<nat>>, ghost taken: seq<nat>, ghost ws: seq<Write>)
    requires Ready(v.geo, v.disk) && from <= |chunks| && BlockSized(v.geo, chunks)
    modifies v
    ensures Grew(v.geo, old(v.disk), v.disk, taken) && Reached(old(v.disk), v.disk, ws)
            && AllGrow(v.geo, old(v.disk), ws)
    ensures r.Some? <==> old(v.disk).freeBlocks >= Min(max, |chunks| - from)
    ensures r.Some? ==>
              && taken == r.value && |r.value| == Min(max, |chunks| - from)
              && HoldsChunks(v.disk, r.value, chunks, from)
  {
    ghost var d0 := v.disk;
    GrewNothing(v.geo, d0);
    var nblocks := |chunks|;
    var run: seq<nat> := [];
    ws := [];
    while from + |run| < nblocks && |run| < max
      invariant from + |run| <= nblocks && |run| <= max
      invariant Grew(v.geo, d0, v.disk, run) && Reached(d0, v.disk, ws) && AllGrow(v.geo, d0, ws)
      invariant HoldsChunks(v.disk, run, chunks, from)
      decreases nblocks - |run|
    {
      ghost var d1 := v.disk;
      var b, ws1 := FillOne(v, chunks[from + |run|]);
      ReachedThen(d0, d1, v.disk, ws, ws1);
      GrowsEarlier(v.geo, d0, d1, run, ws1);
      AllGrowConcat(v.geo, d0, ws, ws1);
      if b.None? { return None, run, ws + ws1; }
      GrewThen(v.geo, d0, d1, v.disk, run, [b.value]);
      HoldsStays(v.geo, d1, v.disk, [b.value], run, chunks, from);
      ws := ws + ws1;
      run := run + [b.value];
    }
    return Some(run), run, ws;
  }

  /** Allocate one block and fill it. */
  method FillOne(v: Volume, chunk: Block) returns (r: Option<nat>, ghost ws: seq<Write>)
    requires CountersAgree(v.geo, v.disk) && |chunk| == v.geo.BlockSize()
    modifies v
    ensures CountersAgree(v.geo, v.disk) && Reached(old(v.disk), v.disk, ws) && AllGrow(v.geo, old(v.disk), ws)
    ensures r.None? ==> v.disk == old(v.disk)
    ensures r.Some? <==> old(v.disk).freeBlocks > 0
    ensures r.Some? ==>
            Grew(v.geo, old(v.disk), v.disk, [r.value]) && r.value < |v.disk.blocks| && v.disk.blocks[r.value] == chunk
  {
    ghost var d0 := v.disk;
    r, ws := AllocBlock(v);
    if r.Some? {
      ghost var d1 := v.disk;
      var ws1 := WriteBlock(v, r.value, chunk);
      GrewWrite(v.geo, d0, d1, v.disk, [r.value], r.value, chunk, ws1);
      ReachedThen(d0, d1, v.disk, ws, ws1);
      AllGrowConcat(v.geo, d0, ws, ws1);
      ws := ws + ws1;
    }
  }

  // ---------------------------------------------------------------- indirect blocks

  /** An indirect block holding `ptrs`, the rest zero. */
  function Pack(ptrs: seq<nat>, bs: nat): (r: Block)
    requires 4 * |ptrs| <= bs
    ensures |r| == bs
  {
    if ptrs == [] then ZeroBlock(bs)
    else Splice(Pack(ptrs[..|ptrs| - 1], bs), 4 * (|ptrs| - 1), Bytes32(ptrs[|ptrs| - 1]))
  }

  method PackLoop(ptrs: seq<nat>, bs: nat) returns (buf: Block)
    requires 4 * |ptrs| <= bs
    ensures buf == Pack(ptrs, bs)
  {
    buf := ZeroBlock(bs);
    var k := 0;
    while k < |ptrs|
      invariant 0 <= k <= |ptrs| && buf == Pack(ptrs[..k], bs)
    {
      assert ptrs[..k + 1][..k] == ptrs[..k];
      buf := Splice(buf, 4 * k, Bytes32(ptrs[k]));
      k := k + 1;
    }
    assert ptrs[..k] == ptrs;
  }

  lemma {:induction false} PackWord(ptrs: seq<nat>, bs: nat, i: nat)
    requires 4 * |ptrs| <= bs && 4 * i + 4 <= bs && forall k :: 0 <= k < |ptrs| ==> ptrs[k] < TWO32
    ensures Le32(Pack(ptrs, bs), 4 * i) == if i < |ptrs| then ptrs[i] else 0
  {
    if ptrs == [] {
      ZeroWord(bs, 4 * i);
    } else {
      var n := |ptrs| - 1;
      var buf := Pack(ptrs[..n], bs);
      if i == n {
        Le32Splice(buf, 4 * n, ptrs[n]);
      } else {
        Le32Frame(buf, 4 * n, Bytes32(ptrs[n]), 4 * i);
        PackWord(ptrs[..n], bs, i);
      }
    }
  }

  lemma ZeroWord(bs: nat, off: nat)
    requires off + 4 <= bs
    ensures Le32(ZeroBlock(bs), off) == 0
  {
    ZeroValue(ZeroBlock(bs)[off..off + 4]);
  }

  lemma {:induction false} ZeroValue(b: seq<byte>)
    requires forall i :: 0 <= i < |b| ==> b[i] == 0
    ensures Le(b) == 0
  {
    if b != [] { ZeroValue(b[1..]); }
  }

  /** Packing pointers and reading them back. */
  lemma PackPtrs(ptrs: seq<nat>, bs: nat)
    requires 4 * |ptrs| <= bs && bs % 4 == 0 && forall k :: 0 <= k < |ptrs| ==> ptrs[k] < TWO32
    ensures Ptrs(Pack(ptrs, bs)) == ptrs + Zeros(bs / 4 - |ptrs|)
  {
    forall i | 0 <= i < bs / 4 ensures Ptrs(Pack(ptrs, bs))[i] == (ptrs + Zeros(bs / 4 - |ptrs|))[i] {
      WordsAt(Pack(ptrs, bs), bs / 4, i);
      PackWord(ptrs, bs, i);
    }
  }

  lemma {:induction false} NonZeroConcatZeros(s: seq<nat>, n: nat)
    requires forall i :: 0 <= i < |s| ==> s[i] != 0
    ensures NonZero(s + Zeros(n)) == s
    decreases n, |s|
  {
    if n > 0 {
      assert (s + Zeros(n))[..|s| + n - 1] == s + Zeros(n - 1);
      NonZeroConcatZeros(s, n - 1);
    } else if s != [] {
      assert s + Zeros(0) == s;
      NonZeroConcatZeros(s[..|s| - 1], 0);
      assert s[..|s| - 1] + Zeros(0) == s[..|s| - 1];
    }
  }

  /** The indirect block `ind` lists exactly `run`. */
  ghost predicate Lists(g: Geo, d: Disk, ind: nat, run: seq<nat>) {
    && 0 < ind < |d.blocks| && |run| <= Per(g)
    && Ptrs(d.blocks[ind]) == run + Zeros(Per(g) - |run|)
  }

  /** Allocate an indirect block, fill the data blocks behind it, then write it. */
  method FillIndirect(v: Volume, chunks: seq<Block>, from: nat)
    returns (r: Option<(nat, seq<nat>)>, ghost taken: seq<nat>, ghost ws: seq<Write>)
    requires Ready(v.geo, v.disk) && from <= |chunks| && BlockSized(v.geo, chunks)
    modifies v
    ensures Grew(v.geo, old(v.disk), v.disk, taken) && Reached(old(v.disk), v.disk, ws)
            && AllGrow(v.geo, old(v.disk), ws)
    ensures r.Some? <==> old(v.disk).freeBlocks >= 1 + Min(Per(v.geo), |chunks| - from)
    ensures r.Some? ==>
              var (ind, run) := r.value;
              && taken == run + [ind] && |run| == Min(Per(v.geo), |chunks| - from)
              && HoldsChunks(v.disk, run, chunks, from)
              && Lists(v.geo, v.disk, ind, run)
  {
    ghost var d0 := v.disk;
    var a;
    a, ws := AllocBlock(v);
    if a.None? {
      GrewNothing(v.geo, d0);
      return None, [], ws;
    }
    var ind := a.value;
    ghost var d1 := v.disk;
    GrewReady(v.geo, d0, d1, [ind]);
    var run, got, ws1 := FillRun(v, chunks, from, Per(v.geo));
    ghost var d2 := v.disk;
    ReachedThen(d0, d1, d2, ws, ws1);
    GrowsEarlier(v.geo, d0, d1, [ind], ws1);
    AllGrowConcat(v.geo, d0, ws, ws1);
    GrewThen(v.geo, d0, d1, d2, [ind], got);
    if run.None? { return None, [ind] + got, ws + ws1; }
    var buf := PackLoop(run.value, v.geo.BlockSize());
    var ws2 := WriteBlock(v, ind, buf);
    ReachedThen(d0, d2, v.disk, ws + ws1, ws2);
    IndirectFilled(v.geo, d0, d2, v.disk, ind, run.value, chunks, from, buf, ws2);
    AllGrowConcat(v.geo, d0, ws + ws1, ws2);
    return Some((ind, run.value)), run.value + [ind], ws + ws1 + ws2;
  }

  lemma IndirectFilled(g: Geo, d0: Disk, d2: Disk, d3: Disk, ind: nat, run: seq<nat>, chunks: seq<Block>, from: nat,
                       buf: Block, ws: seq<Write>)
    requires BootReserved(g, d0) && Grew(g, d0, d2, [ind] + run) && ind < |d2.blocks| && 4 * |run| <= g.BlockSize()
             && buf == Pack(run, g.BlockSize())
    requires d3 == d2.(blocks := d2.blocks[ind := buf])
    requires forall i :: 0 <= i < |ws| ==> ws[i].SetSector? && ws[i].b == ind
    requires HoldsChunks(d2, run, chunks, from)
    ensures Grew(g, d0, d3, run + [ind]) && AllGrow(g, d0, ws)
    ensures HoldsChunks(d3, run, chunks, from) && Lists(g, d3, ind, run)
  {
    GrewWrite(g, d0, d2, d3, [ind] + run, ind, buf, ws);
    GrewRotate(g, d0, d3, ind, run);
    GrewReady(g, d0, d3, run + [ind]);
    forall i | 0 <= i < |run| ensures IsDataBlock(g, run[i]) {
      assert run[i] in run + [ind];
    }
    assert ind in run + [ind];
    FourDivides(g);
    PackedIs(run, g.BlockSize(), buf);
    HoldsElsewhere(g, d2, d3, ind, run, chunks, from);
  }

  lemma FourDivides(g: Geo)
    requires ValidGeo(g)
    ensures g.BlockSize() % 4 == 0 && g.BlockSize() / 4 == Per(g) && 4 * Per(g) == g.BlockSize()
  {
  }

  lemma PackedIs(run: seq<nat>, bs: nat, blk: Block)
    requires bs % 4 == 0 && 4 * |run| <= bs && blk == Pack(run, bs) && forall i :: 0 <= i < |run| ==> run[i] < TWO32
    ensures Ptrs(blk) == run + Zeros(bs / 4 - |run|)
  {
    PackPtrs(run, bs);
  }

  lemma GrewRotate(g: Geo, d: Disk, d': Disk, x: nat, run: seq<nat>)
    requires Grew(g, d, d', [x] + run)
    ensures x !in run && NoDup(run) && Grew(g, d, d', run + [x])
  {
    var all := [x] + run;
    assert forall i :: 0 <= i < |run| ==> run[i] == all[i + 1] && all[0] == x;
    NoDupConcat(run, [x]);
    GrewReorder(g, d, d', all, run + [x]);
  }

  lemma HoldsElsewhere(g: Geo, d: Disk, d': Disk, b: nat, run: seq<nat>, chunks: seq<Block>, from: nat)
    requires HoldsChunks(d, run, chunks, from) && b !in run && |d'.blocks| == |d.blocks|
    requires forall x :: 0 <= x < |d.blocks| && x != b ==> d'.blocks[x] == d.blocks[x]
    ensures HoldsChunks(d', run, chunks, from)
  {
    forall i | 0 <= i < |run| ensures d'.blocks[run[i]] == chunks[from + i] {
      assert run[i] in run;
    }
  }
}
