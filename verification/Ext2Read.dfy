/** `block_map` and `read_file` as they run: a capped pointer walk and a read that coalesces consecutive blocks. */
module Ext2Read {
  import opened Common
  import opened Ext2Disk
  import opened Ext2Alloc
  import opened Ext2Owners

  // ---------------------------------------------------------------- block_map

  /** One single-indirect block's worth of pointers, or of holes, capped at `n` pointers in all. */
  method AppendSingle(g: Geo, d: Disk, b: nat, n: nat, sofar: seq<nat>) returns (out: seq<nat>)
    requires Shaped(g, d)
    ensures out == if |sofar| >= n then sofar else sofar + SinglePtrs(g, d, b, n - |sofar|)
  {
    if |sofar| >= n { return sofar; }
    var take := Min(Per(g), n - |sofar|);
    if b == 0 {
      out := sofar + Zeros(take);
    } else {
      var ptrs := Ptrs(BlockAt(d, b));
      assert b < |d.blocks| ==> |d.blocks[b]| == g.BlockSize();
      out := sofar + ptrs[..Min(take, |ptrs|)];
    }
  }

  /** `block_map`, level by level. */
  method ReadBlockMap(g: Geo, d: Disk, node: Inode) returns (out: seq<nat>)
    requires Shaped(g, d) && |node.block| == 15
    ensures out == BlockMap(g, d, node)
  {
    var n := MapLength(g, node);
    out := node.block[..Min(12, n)];
    if n <= 12 { return; }
    out := AppendSingle(g, d, node.block[12], n, out);
    ghost var top := out;
    var inds := SecondLevel(g, d, node.block[13]);
    out := AppendDouble(g, d, inds, n, out);
    ConcatAssoc(node.block[..12], SinglePtrs(g, d, node.block[12], n - 12), DoublePtrs(g, d, inds, n - |top|));
  }

  method AppendDouble(g: Geo, d: Disk, inds: seq<nat>, n: nat, sofar: seq<nat>) returns (out: seq<nat>)
    requires Shaped(g, d) && |sofar| <= n
    ensures out == sofar + DoublePtrs(g, d, inds, n - |sofar|)
  {
    out := sofar;
    var j := 0;
    assert inds[0..] == inds;
    while j < |inds| && |out| < n
      invariant 0 <= j <= |inds| && |out| <= n
      invariant sofar + DoublePtrs(g, d, inds, n - |sofar|) == out + DoublePtrs(g, d, inds[j..], n - |out|)
    {
      ghost var before, rest := out, inds[j..];
      ghost var first := SinglePtrs(g, d, inds[j], n - |out|);
      out := AppendSingle(g, d, inds[j], n, out);
      assert rest[1..] == inds[j + 1..];
      assert DoublePtrs(g, d, rest, n - |before|) == first + DoublePtrs(g, d, rest[1..], n - |out|);
      ConcatAssoc(before, first, DoublePtrs(g, d, rest[1..], n - |out|));
      j := j + 1;
    }
    assert DoublePtrs(g, d, inds[j..], n - |out|) == [];
  }

  // ---------------------------------------------------------------- the raw disk

  /** The volume as one run of bytes. */
  function Raw(d: Disk): seq<byte> { Flatten(d.blocks) }

  lemma {:induction false} FlattenConcat<T>(a: seq<seq<T>>, b: seq<seq<T>>)
    ensures Flatten(a + b) == Flatten(a) + Flatten(b)
  {
    if a == [] {
      assert a + b == b;
    } else {
      assert (a + b)[1..] == a[1..] + b;
      FlattenConcat(a[1..], b);
      ConcatAssoc(a[0], Flatten(a[1..]), Flatten(b));
    }
  }

  lemma {:induction false} FlattenLength<T>(ss: seq<seq<T>>, n: nat)
    requires forall i :: 0 <= i < |ss| ==> |ss[i]| == n
    ensures |Flatten(ss)| == |ss| * n
  {
    if ss != [] {
      FlattenLength(ss[1..], n);
      MulSucc(|ss| - 1, n);
    }
  }

  /** `disk_range` over whole blocks. */
  function DiskRange(d: Disk, off: nat, len: nat): (r: seq<byte>)
    requires off + len <= |Raw(d)|
  {
    Raw(d)[off..off + len]
  }

  lemma RangeInBounds(g: Geo, d: Disk, b: nat, count: nat)
    requires Shaped(g, d) && b + count <= |d.blocks|
    ensures b * g.BlockSize() + count * g.BlockSize() <= |Raw(d)|
  {
    FlattenLength(d.blocks, g.BlockSize());
    MulMono(b + count, |d.blocks|, g.BlockSize());
    assert (b + count) * g.BlockSize() == b * g.BlockSize() + count * g.BlockSize();
  }

  /** A byte range that covers whole blocks is those blocks. */
  lemma RangeIsBlocks(g: Geo, d: Disk, b: nat, count: nat)
    requires Shaped(g, d) && b + count <= |d.blocks|
    ensures b * g.BlockSize() + count * g.BlockSize() <= |Raw(d)|
    ensures DiskRange(d, b * g.BlockSize(), count * g.BlockSize()) == Flatten(d.blocks[b..b + count])
  {
    RangeInBounds(g, d, b, count);
    var x, y, z := d.blocks[..b], d.blocks[b..b + count], d.blocks[b + count..];
    assert d.blocks == (x + y) + z;
    FlattenConcat(x + y, z);
    FlattenConcat(x, y);
    FlattenLength(x, g.BlockSize());
    FlattenLength(y, g.BlockSize());
    MiddleOf(Flatten(x), Flatten(y), Flatten(z));
  }

  lemma MiddleOf(x: seq<byte>, y: seq<byte>, z: seq<byte>)
    ensures ((x + y) + z)[|x|..|x| + |y|] == y
  {
  }

  // ---------------------------------------------------------------- read_file

  lemma {:induction false} ContentsConcat(g: Geo, d: Disk, a: seq<nat>, b: seq<nat>)
    ensures Contents(g, d, a + b) == Contents(g, d, a) + Contents(g, d, b)
  {
    if a == [] {
      assert a + b == b;
    } else {
      assert (a + b)[1..] == a[1..] + b;
      ContentsConcat(g, d, a[1..], b);
    }
  }

  /** A run of holes reads as zeros. */
  lemma {:induction false} HolesAre(g: Geo, d: Disk, ptrs: seq<nat>)
    requires forall i :: 0 <= i < |ptrs| ==> ptrs[i] == 0
    ensures Contents(g, d, ptrs) == ZeroBlock(|ptrs| * g.BlockSize())
  {
    if ptrs != [] {
      HolesAre(g, d, ptrs[1..]);
      MulSucc(|ptrs| - 1, g.BlockSize());
    }
  }

  /** A run of consecutive blocks reads as those blocks. */
  lemma {:induction false} RunIs(g: Geo, d: Disk, ptrs: seq<nat>, b: nat)
    requires b != 0 && b + |ptrs| <= |d.blocks| && forall i :: 0 <= i < |ptrs| ==> ptrs[i] == b + i
    ensures Contents(g, d, ptrs) == Flatten(d.blocks[b..b + |ptrs|])
  {
    if ptrs != [] {
      RunIs(g, d, ptrs[1..], b + 1);
      assert d.blocks[b..b + |ptrs|][1..] == d.blocks[b + 1..b + |ptrs|];
    }
  }

  /** Where the run starting at `i` ends: holes as far as they go, or consecutive block numbers. */
  method RunEnd(ptrs: seq<nat>, i: nat) returns (j: nat)
    requires i < |ptrs|
    ensures i < j <= |ptrs|
    ensures ptrs[i] == 0 ==> forall k :: i <= k < j ==> ptrs[k] == 0
    ensures ptrs[i] != 0 ==> forall k :: i <= k < j ==> ptrs[k] == ptrs[i] + (k - i)
    ensures j < |ptrs| ==> if ptrs[i] == 0 then ptrs[j] != 0 else ptrs[j] != ptrs[j - 1] + 1
  {
    j := i + 1;
    if ptrs[i] == 0 {
      while j < |ptrs| && ptrs[j] == 0
        invariant i < j <= |ptrs| && forall k :: i <= k < j ==> ptrs[k] == 0
      {
        j := j + 1;
      }
    } else {
      while j < |ptrs| && ptrs[j] == ptrs[j - 1] + 1
        invariant i < j <= |ptrs| && forall k :: i <= k < j ==> ptrs[k] == ptrs[i] + (k - i)
      {
        j := j + 1;
      }
    }
  }

  lemma RunRange(g: Geo, d: Disk, run: seq<nat>, b: nat)
    requires Shaped(g, d) && b != 0 && b + |run| <= |d.blocks| && forall i :: 0 <= i < |run| ==> run[i] == b + i
    ensures b * g.BlockSize() + |run| * g.BlockSize() <= |Raw(d)|
    ensures DiskRange(d, b * g.BlockSize(), |run| * g.BlockSize()) == Contents(g, d, run)
  {
    RunIs(g, d, run, b);
    RangeIsBlocks(g, d, b, |run|);
  }

  method ReadRun(g: Geo, d: Disk, run: seq<nat>) returns (r: seq<byte>)
    requires Shaped(g, d) && run != [] && forall k :: 0 <= k < |run| ==> run[k] < |d.blocks|
    requires run[0] == 0 ==> forall k :: 0 <= k < |run| ==> run[k] == 0
    requires run[0] != 0 ==> forall k :: 0 <= k < |run| ==> run[k] == run[0] + k
    ensures r == Contents(g, d, run)
  {
    if run[0] == 0 {
      HolesAre(g, d, run);
      r := ZeroBlock(|run| * g.BlockSize());
    } else {
      assert run[|run| - 1] < |d.blocks|;
      RunRange(g, d, run, run[0]);
      r := DiskRange(d, run[0] * g.BlockSize(), |run| * g.BlockSize());
    }
  }

  /** One disk read per run gives the same bytes as reading block by block. */
  method ReadBlocks(g: Geo, d: Disk, ptrs: seq<nat>) returns (out: seq<byte>)
    requires Shaped(g, d) && forall k :: 0 <= k < |ptrs| ==> ptrs[k] < |d.blocks|
    ensures out == Contents(g, d, ptrs)
  {
    out := [];
    var i := 0;
    while i < |ptrs|
      invariant 0 <= i <= |ptrs| && out == Contents(g, d, ptrs[..i])
    {
      var j := RunEnd(ptrs, i);
      var run := ReadRun(g, d, ptrs[i..j]);
      assert ptrs[..i] + ptrs[i..j] == ptrs[..j];
      ContentsConcat(g, d, ptrs[..i], ptrs[i..j]);
      out := out + run;
      i := j;
    }
    assert ptrs[..i] == ptrs;
  }

  /** `read_file`. */
  method ReadFile(g: Geo, d: Disk, node: Inode) returns (out: seq<byte>)
    requires Shaped(g, d) && |node.block| == 15
    requires forall b :: b in BlockMap(g, d, node) ==> b < |d.blocks|
    ensures out == FileBytes(g, d, node)
  {
    var ptrs := ReadBlockMap(g, d, node);
    forall k | 0 <= k < |ptrs| ensures ptrs[k] < |d.blocks| { assert ptrs[k] in BlockMap(g, d, node); }
    out := ReadBlocks(g, d, ptrs);
    out := Truncate(out, node.size);
  }

  /** On a well-formed volume every live file can be read this way. */
  lemma MapInBounds(g: Geo, d: Disk, live: set<nat>, meta: set<nat>, i: nat)
    requires Shaped(g, d) && Safe(g, d, live, meta) && i in live
    ensures i < |d.inodes| && |d.inodes[i].block| == 15
    ensures forall b :: b in BlockMap(g, d, d.inodes[i]) ==> b < |d.blocks|
  {
    assert FileOk(g, d, meta, i);
    forall b | b in BlockMap(g, d, d.inodes[i]) ensures b < |d.blocks| {
      if b != 0 {
        MapOwned(g, d, d.inodes[i], b);
        assert Used(g, d, b);
      }
    }
  }
}
