/** The shape of a laid-out file: which pointers stand where, and what reading and freeing make of them. */
module Ext2Shape {
  import opened Common
  import opened Ext2Disk
  import opened Ext2Layout

  /** A file's blocks by level. An indirect block number of 0 means the level is absent. */
  datatype Layout = Layout(direct: seq<nat>, ind: nat, single: seq<nat>, dind: nat, inds: seq<nat>, runs: seq<seq<nat>>)

  ghost predicate AllPos(s: seq<nat>) {
    forall i :: 0 <= i < |s| ==> s[i] != 0
  }

  /** `inds[j]` lists `runs[j]`, and every run but the last is full. */
  ghost predicate ListsAll(g: Geo, d: Disk, inds: seq<nat>, runs: seq<seq<nat>>) {
    && |inds| == |runs|
    && (forall j :: 0 <= j < |inds| ==> Lists(g, d, inds[j], runs[j]) && AllPos(runs[j]))
    && (forall j :: 0 <= j < |runs| - 1 ==> |runs[j]| == Per(g))
  }

  ghost predicate Stored(g: Geo, d: Disk, l: Layout) {
    && |l.direct| <= 12 && AllPos(l.direct)
    && (if l.ind == 0 then l.single == [] && l.dind == 0
        else |l.direct| == 12 && Lists(g, d, l.ind, l.single) && AllPos(l.single))
    && (if l.dind == 0 then l.inds == [] && l.runs == []
        else |l.single| == Per(g) && Lists(g, d, l.dind, l.inds) && AllPos(l.inds) && ListsAll(g, d, l.inds, l.runs))
  }

  /** The `i_block` array. */
  function BlockArray(l: Layout): (r: seq<nat>)
    requires |l.direct| <= 12
    ensures |r| == 15 && r[..12] == l.direct + Zeros(12 - |l.direct|) && r[12] == l.ind && r[13] == l.dind
  {
    l.direct + Zeros(12 - |l.direct|) + [l.ind, l.dind, 0]
  }

  /** Data blocks in file order. */
  function DataOf(l: Layout): seq<nat> { l.direct + l.single + Flatten(l.runs) }

  /** Every run followed by its indirect block. */
  function Behind(inds: seq<nat>, runs: seq<seq<nat>>): seq<nat>
    requires |inds| == |runs|
  {
    if inds == [] then []
    else Behind(inds[..|inds| - 1], runs[..|runs| - 1]) + (runs[|runs| - 1] + [inds[|inds| - 1]])
  }

  /** Every block of the file, in the order `free_all_blocks` visits them. */
  function AllOf(l: Layout): seq<nat>
    requires |l.inds| == |l.runs|
  {
    l.direct + (if l.ind == 0 then [] else l.single + [l.ind]) + (if l.dind == 0 then []
      else Behind(l.inds, l.runs) + [l.dind])
  }

  // ---------------------------------------------------------------- ownership

  lemma IndirectListed(g: Geo, d: Disk, ind: nat, run: seq<nat>)
    requires Lists(g, d, ind, run) && AllPos(run)
    ensures IndirectOwned(d, ind) == run + [ind]
  {
    NonZeroConcatZeros(run, Per(g) - |run|);
  }

  lemma {:induction false} IndirectsListed(g: Geo, d: Disk, inds: seq<nat>, runs: seq<seq<nat>>)
    requires |inds| == |runs| && forall j :: 0 <= j < |inds| ==> Lists(g, d, inds[j], runs[j]) && AllPos(runs[j])
    ensures IndirectsOwned(d, inds) == Behind(inds, runs)
  {
    if inds != [] {
      var n := |inds| - 1;
      IndirectsListed(g, d, inds[..n], runs[..n]);
      IndirectListed(g, d, inds[n], runs[n]);
    }
  }

  lemma {:induction false} IndirectsThenZeros(d: Disk, inds: seq<nat>, n: nat)
    ensures IndirectsOwned(d, inds + Zeros(n)) == IndirectsOwned(d, inds)
  {
    if n > 0 {
      assert (inds + Zeros(n))[..|inds| + n - 1] == inds + Zeros(n - 1);
      IndirectsThenZeros(d, inds, n - 1);
    } else {
      assert inds + Zeros(0) == inds;
    }
  }

  /** What the inode owns is exactly the layout's blocks. */
  lemma OwnedIsAll(g: Geo, d: Disk, l: Layout, node: Inode)
    requires Stored(g, d, l) && node.block == BlockArray(l)
    ensures Owned(d, node) == AllOf(l)
  {
    NonZeroConcatZeros(l.direct, 12 - |l.direct|);
    if l.ind != 0 { IndirectListed(g, d, l.ind, l.single); }
    if l.dind != 0 {
      IndirectsListed(g, d, l.inds, l.runs);
      IndirectsThenZeros(d, l.inds, Per(g) - |l.inds|);
    }
  }

  lemma {:induction false} BehindLength(inds: seq<nat>, runs: seq<seq<nat>>)
    requires |inds| == |runs|
    ensures |Behind(inds, runs)| == |Flatten(runs)| + |inds|
  {
    if inds != [] {
      var n := |inds| - 1;
      BehindLength(inds[..n], runs[..n]);
      FlattenSnoc(runs[..n], runs[n]);
      assert runs[..n] + [runs[n]] == runs;
    }
  }

  // ---------------------------------------------------------------- reading order

  lemma SingleListed(g: Geo, d: Disk, ind: nat, run: seq<nat>, want: nat)
    requires Lists(g, d, ind, run) && (want == |run| || (want >= |run| && |run| == Per(g)))
    ensures SinglePtrs(g, d, ind, want) == run
  {
    assert Ptrs(BlockAt(d, ind)) == run + Zeros(Per(g) - |run|);
  }

  /** The double-indirect walk yields the runs one after another. */
  lemma {:induction false} DoubleListed(g: Geo, d: Disk, inds: seq<nat>, more: seq<nat>, runs: seq<seq<nat>>)
    requires ListsAll(g, d, inds, runs)
    ensures DoublePtrs(g, d, inds + more, |Flatten(runs)|) == Flatten(runs)
  {
    if inds == [] {
    } else {
      var want := |Flatten(runs)|;
      assert Flatten(runs) == runs[0] + Flatten(runs[1..]);
      if |runs| == 1 { assert runs[1..] == []; } else { assert |runs[0]| == Per(g); }
      SingleListed(g, d, inds[0], runs[0], want);
      assert (inds + more)[1..] == inds[1..] + more;
      DoubleListed(g, d, inds[1..], more, runs[1..]);
      if want == 0 { assert runs[0] == [] && Flatten(runs[1..]) == []; }
    }
  }

  /** `block_map` inverts the layout across all three levels. */
  lemma MapIsData(g: Geo, d: Disk, l: Layout, node: Inode)
    requires ValidGeo(g) && Stored(g, d, l) && node.block == BlockArray(l)
    requires node.size > 0 && BlocksFor(node.size, g.BlockSize()) == |DataOf(l)|
    ensures BlockMap(g, d, node) == DataOf(l)
  {
    var n := |DataOf(l)|;
    if l.ind == 0 {
      assert Flatten(l.runs) == [];
      assert DataOf(l) == l.direct;
      assert node.block[..n] == l.direct;
    } else {
      assert node.block[..12] == l.direct;
      DeepMap(g, d, l);
      ConcatAssoc(l.direct, l.single, Flatten(l.runs));
      if n == 12 { assert l.single == [] && Flatten(l.runs) == []; }
    }
  }

  /** The two indirect levels together. */
  lemma DeepMap(g: Geo, d: Disk, l: Layout)
    requires ValidGeo(g) && Stored(g, d, l) && l.ind != 0
    ensures DeepPtrs(g, d, l.ind, SecondLevel(g, d, l.dind), |l.single| + |Flatten(l.runs)|)
            == l.single + Flatten(l.runs)
  {
    var want := |l.single| + |Flatten(l.runs)|;
    if l.dind == 0 { assert Flatten(l.runs) == []; }
    SingleListed(g, d, l.ind, l.single, want);
    if l.dind != 0 { DoubleListed(g, d, l.inds, Zeros(Per(g) - |l.inds|), l.runs); }
  }
}
