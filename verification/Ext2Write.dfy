/** `lay_out_data` as a whole, and what a file written this way reads back as. */
module Ext2Write {
  import opened Common
  import opened Ext2Disk
  import opened Ext2Alloc
  import opened Ext2Layout
  import opened Ext2Shape

  /** A block that was in use is not disturbed by later allocations. */
  lemma ListsStays(g: Geo, d: Disk, d': Disk, taken: seq<nat>, ind: nat, run: seq<nat>)
    requires Lists(g, d, ind, run) && Grew(g, d, d', taken) && Used(g, d, ind)
    ensures Lists(g, d', ind, run)
  {
    assert ind !in taken;
  }

  lemma {:induction false} IndsBehind(inds: seq<nat>, runs: seq<seq<nat>>, j: nat)
    requires |inds| == |runs| && j < |inds|
    ensures inds[j] in Behind(inds, runs)
    ensures forall x :: x in runs[j] ==> x in Behind(inds, runs)
    decreases |inds|
  {
    if j < |inds| - 1 { IndsBehind(inds[..|inds| - 1], runs[..|inds| - 1], j); }
  }

  lemma {:induction false} FlattenBehind(inds: seq<nat>, runs: seq<seq<nat>>, x: nat)
    requires |inds| == |runs| && x in Flatten(runs)
    ensures x in Behind(inds, runs)
    decreases |inds|
  {
    var n := |inds| - 1;
    if inds != [] {
      FlattenSnoc(runs[..n], runs[n]);
      assert runs[..n] + [runs[n]] == runs;
      if x in Flatten(runs[..n]) { FlattenBehind(inds[..n], runs[..n], x); }
    }
  }

  lemma ListsAllStays(g: Geo, d: Disk, d': Disk, taken: seq<nat>, inds: seq<nat>, runs: seq<seq<nat>>)
    requires ListsAll(g, d, inds, runs) && Grew(g, d, d', taken) && forall b :: b in Behind(inds, runs) ==>
             Used(g, d, b)
    ensures ListsAll(g, d', inds, runs)
  {
    forall j | 0 <= j < |inds| ensures Lists(g, d', inds[j], runs[j]) {
      IndsBehind(inds, runs, j);
      ListsStays(g, d, d', taken, inds[j], runs[j]);
    }
  }

  lemma HoldsConcat(g: Geo, d: Disk, a: seq<nat>, b: seq<nat>, chunks: seq<Block>, from: nat)
    requires HoldsChunks(d, a, chunks, from) && HoldsChunks(d, b, chunks, from + |a|)
    ensures HoldsChunks(d, a + b, chunks, from)
  {
  }

  ghost predicate AllFull(g: Geo, runs: seq<seq<nat>>) {
    forall j :: 0 <= j < |runs| ==> |runs[j]| == Per(g)
  }

  lemma AllFullSnoc(g: Geo, runs: seq<seq<nat>>, run: seq<nat>)
    requires AllFull(g, runs) && |run| == Per(g)
    ensures AllFull(g, runs + [run])
  {
  }

  /** What the loop over the double-indirect level has built so far, starting from `d1`. */
  ghost predicate Building(g: Geo, d1: Disk, d: Disk, chunks: seq<Block>, from: nat, inds: seq<nat>,
                           runs: seq<seq<nat>>) {
    && |inds| == |runs| && |inds| <= Per(g) && AllPos(inds)
    && Grew(g, d1, d, Behind(inds, runs))
    && ListsAll(g, d, inds, runs)
    && from + |Flatten(runs)| <= |chunks|
    && HoldsChunks(d, Flatten(runs), chunks, from)
    && (from + |Flatten(runs)| < |chunks| ==> AllFull(g, runs))
  }

  /** One more indirect block, filled with the chunks from `at` on. */
  ghost predicate NextRun(g: Geo, d: Disk, d': Disk, chunks: seq<Block>, at: nat, ind: nat, run: seq<nat>) {
    && at < |chunks| && |run| == Min(Per(g), |chunks| - at)
    && Grew(g, d, d', run + [ind]) && Lists(g, d', ind, run)
    && HoldsChunks(d', run, chunks, at)
  }

  lemma BuildingStep(g: Geo, d1: Disk, d: Disk, d': Disk, chunks: seq<Block>, from: nat, inds: seq<nat>,
                     runs: seq<seq<nat>>, at: nat, ind: nat, run: seq<nat>)
    requires BootReserved(g, d1) && Building(g, d1, d, chunks, from, inds, runs) && |inds| < Per(g)
    requires at == from + |Flatten(runs)| && NextRun(g, d, d', chunks, at, ind, run)
    ensures Building(g, d1, d', chunks, from, inds + [ind], runs + [run])
  {
    StepGrew(g, d1, d, d', inds, runs, ind, run);
    StepLists(g, d1, d, d', chunks, from, inds, runs, at, ind, run);
    StepHolds(g, d1, d, d', chunks, from, inds, runs, at, ind, run);
    FlattenSnoc(runs, run);
    if |run| == Per(g) { AllFullSnoc(g, runs, run); }
  }

  lemma StepLists(g: Geo, d1: Disk, d: Disk, d': Disk, chunks: seq<Block>, from: nat, inds: seq<nat>,
                  runs: seq<seq<nat>>, at: nat, ind: nat, run: seq<nat>)
    requires BootReserved(g, d1) && Building(g, d1, d, chunks, from, inds, runs)
    requires at == from + |Flatten(runs)| && NextRun(g, d, d', chunks, at, ind, run)
    ensures ListsAll(g, d', inds + [ind], runs + [run])
  {
    StepGrew(g, d1, d, d', inds, runs, ind, run);
    ListsOneMore(g, d, d', inds, runs, ind, run);
  }

  lemma StepHolds(g: Geo, d1: Disk, d: Disk, d': Disk, chunks: seq<Block>, from: nat, inds: seq<nat>,
                  runs: seq<seq<nat>>, at: nat, ind: nat, run: seq<nat>)
    requires BootReserved(g, d1) && Building(g, d1, d, chunks, from, inds, runs)
    requires at == from + |Flatten(runs)| && NextRun(g, d, d', chunks, at, ind, run)
    ensures HoldsChunks(d', Flatten(runs + [run]), chunks, from)
  {
    HoldsOneMore(g, d, d', chunks, from, inds, runs, ind, run);
  }

  lemma StepGrew(g: Geo, d1: Disk, d: Disk, d': Disk, inds: seq<nat>, runs: seq<seq<nat>>, ind: nat, run: seq<nat>)
    requires BootReserved(g, d1) && |inds| == |runs| && Grew(g, d1, d, Behind(inds, runs))
             && Grew(g, d, d', run + [ind])
    ensures Grew(g, d1, d', Behind(inds + [ind], runs + [run])) && ind != 0 && AllPos(run)
  {
    BehindSnoc(inds, runs, ind, run);
    GrewThen(g, d1, d, d', Behind(inds, runs), run + [ind]);
    GrewReady(g, d1, d, Behind(inds, runs));
    GrewReady(g, d, d', run + [ind]);
    assert ind in run + [ind];
    forall i | 0 <= i < |run| ensures run[i] != 0 { assert run[i] in run + [ind]; }
  }

  lemma BehindSnoc(inds: seq<nat>, runs: seq<seq<nat>>, ind: nat, run: seq<nat>)
    requires |inds| == |runs|
    ensures Behind(inds + [ind], runs + [run]) == Behind(inds, runs) + (run + [ind])
  {
    assert (inds + [ind])[..|inds|] == inds && (runs + [run])[..|runs|] == runs;
  }

  lemma ListsOneMore(g: Geo, d: Disk, d': Disk, inds: seq<nat>, runs: seq<seq<nat>>, ind: nat, run: seq<nat>)
    requires ListsAll(g, d, inds, runs) && Grew(g, d, d', run + [ind]) && forall b :: b in Behind(inds, runs) ==>
             Used(g, d, b)
    requires Lists(g, d', ind, run) && AllPos(run) && AllFull(g, runs)
    ensures ListsAll(g, d', inds + [ind], runs + [run])
  {
    ListsAllStays(g, d, d', run + [ind], inds, runs);
  }

  lemma HoldsOneMore(g: Geo, d: Disk, d': Disk, chunks: seq<Block>, from: nat, inds: seq<nat>, runs: seq<seq<nat>>,
                     ind: nat, run: seq<nat>)
    requires |inds| == |runs| && Grew(g, d, d', run + [ind]) && forall b :: b in Behind(inds, runs) ==> Used(g, d, b)
    requires HoldsChunks(d, Flatten(runs), chunks, from) && HoldsChunks(d', run, chunks, from + |Flatten(runs)|)
    ensures HoldsChunks(d', Flatten(runs + [run]), chunks, from)
  {
    FlattenSnoc(runs, run);
    forall b | b in Flatten(runs) ensures Used(g, d, b) { FlattenBehind(inds, runs, b); }
    HoldsStays(g, d, d', run + [ind], Flatten(runs), chunks, from);
    HoldsConcat(g, d', Flatten(runs), run, chunks, from);
  }

  /** The blocks `rest` data blocks take behind up to `slots` indirect blocks. */
  function Deep(rest: nat, slots: nat, per: nat): nat {
    if rest == 0 || slots == 0 then 0 else 1 + Min(per, rest) + Deep(rest - Min(per, rest), slots - 1, per)
  }

  /** The double-indirect level filled up to chunk `at`: its indirect blocks and the run behind each. */
  datatype Built = Built(inds: seq<nat>, runs: seq<seq<nat>>, at: nat)

  function Further(p: Built, ind: nat, run: seq<nat>): Built { Built(p.inds + [ind], p.runs + [run], p.at + |run|) }

  /** What is built and what is still to do add up to what chunks `from` to `n` take. */
  ghost predicate Owing(g: Geo, n: nat, from: nat, p: Built) {
    && |p.inds| == |p.runs| && |p.inds| <= Per(g) && from <= p.at <= n
    && Deep(n - from, Per(g), Per(g)) == |Behind(p.inds, p.runs)| + Deep(n - p.at, Per(g) - |p.inds|, Per(g))
  }

  lemma OwingStep(g: Geo, n: nat, from: nat, p: Built, ind: nat, run: seq<nat>)
    requires Owing(g, n, from, p) && |p.inds| < Per(g) && p.at < n && |run| == Min(Per(g), n - p.at)
    ensures Owing(g, n, from, Further(p, ind, run))
  {
    BehindSnoc(p.inds, p.runs, ind, run);
  }

  /** A level that runs out of blocks had too few to begin with. */
  lemma OwingShort(g: Geo, d1: Disk, d: Disk, n: nat, from: nat, p: Built)
    requires Owing(g, n, from, p) && |p.inds| < Per(g) && p.at < n && Grew(g, d1, d, Behind(p.inds, p.runs))
    requires d.freeBlocks < 1 + Min(Per(g), n - p.at)
    ensures d1.freeBlocks < Deep(n - from, Per(g), Per(g))
  {
  }

  lemma OwingDone(g: Geo, n: nat, from: nat, p: Built)
    requires Owing(g, n, from, p) && (p.at == n || |p.inds| == Per(g))
    ensures |Behind(p.inds, p.runs)| == Deep(n - from, Per(g), Per(g))
  {
  }

  /** It has been filled from `d1` on by the writes `ws`. */
  ghost predicate Filling(g: Geo, d1: Disk, d: Disk, chunks: seq<Block>, from: nat, p: Built, ws: seq<Write>) {
    && Building(g, d1, d, chunks, from, p.inds, p.runs) && p.at == from + |Flatten(p.runs)|
    && Owing(g, |chunks|, from, p) && Reached(d1, d, ws) && AllGrow(g, d1, ws)
  }

  lemma FillingStep(g: Geo, d1: Disk, d: Disk, d': Disk, chunks: seq<Block>, from: nat, p: Built, ind: nat,
                    run: seq<nat>,
                    ws: seq<Write>, ws': seq<Write>)
    requires BootReserved(g, d1) && Filling(g, d1, d, chunks, from, p, ws) && |p.inds| < Per(g)
    requires NextRun(g, d, d', chunks, p.at, ind, run) && Reached(d1, d', ws') && AllGrow(g, d1, ws')
    ensures Filling(g, d1, d', chunks, from, Further(p, ind, run), ws')
  {
    OwingStep(g, |chunks|, from, p, ind, run);
    BuildingStep(g, d1, d, d', chunks, from, p.inds, p.runs, p.at, ind, run);
    FlattenSnoc(p.runs, run);
  }

  lemma FillingStarts(g: Geo, d1: Disk, chunks: seq<Block>, from: nat)
    requires CountersAgree(g, d1) && from <= |chunks|
    ensures Filling(g, d1, d1, chunks, from, Built([], [], from), [])
  {
    GrewNothing(g, d1);
  }

  lemma FillingEnds(g: Geo, d1: Disk, d: Disk, chunks: seq<Block>, from: nat, p: Built, ws: seq<Write>)
    requires Filling(g, d1, d, chunks, from, p, ws) && from <= |chunks| && (p.at >= |chunks| || |p.inds| >= Per(g))
    ensures |p.inds| == |p.runs| && |Behind(p.inds, p.runs)| == Deep(|chunks| - from, Per(g), Per(g))
    ensures |Flatten(p.runs)| == Min(|chunks| - from, Per(g) * Per(g))
    ensures d1.freeBlocks >= Deep(|chunks| - from, Per(g), Per(g))
  {
    BuiltLength(g, d1, d, chunks, from, p.inds, p.runs);
    OwingDone(g, |chunks|, from, p);
  }

  /** One more indirect block of the double-indirect level. */
  method NextIndirect(v: Volume, chunks: seq<Block>, from: nat, p: Built, ghost d1: Disk, ghost ws0: seq<Write>)
    returns (r: Option<Built>, ghost taken: seq<nat>, ghost ws: seq<Write>)
    requires Ready(v.geo, d1) && BlockSized(v.geo, chunks) && Filling(v.geo, d1, v.disk, chunks, from, p, ws0)
    requires |p.inds| < Per(v.geo) && from <= p.at < |chunks|
    modifies v
    ensures Grew(v.geo, d1, v.disk, taken) && Reached(d1, v.disk, ws) && AllGrow(v.geo, d1, ws)
    ensures r.None? ==> d1.freeBlocks < Deep(|chunks| - from, Per(v.geo), Per(v.geo))
    ensures r.Some? ==> Filling(v.geo, d1, v.disk, chunks, from, r.value, ws) && |r.value.inds| == |p.inds| + 1
  {
    ghost var d2 := v.disk;
    ghost var behind := Behind(p.inds, p.runs);
    GrewReady(v.geo, d1, d2, behind);
    var one, got, ws1 := FillIndirect(v, chunks, p.at);
    GrewThen(v.geo, d1, d2, v.disk, behind, got);
    taken := behind + got;
    ws := JoinWrites(v.geo, d1, d2, v.disk, behind, ws0, ws1);
    if one.None? {
      OwingShort(v.geo, d1, d2, |chunks|, from, p);
      return None, taken, ws;
    }
    FillingStep(v.geo, d1, d2, v.disk, chunks, from, p, one.value.0, one.value.1, ws0, ws);
    return Some(Further(p, one.value.0, one.value.1)), taken, ws;
  }

  lemma {:induction false} RunsLength(runs: seq<seq<nat>>, per: nat)
    requires forall j :: 0 <= j < |runs| ==> |runs[j]| <= per
    ensures |Flatten(runs)| <= |runs| * per
    ensures (forall j :: 0 <= j < |runs| ==> |runs[j]| == per) ==> |Flatten(runs)| == |runs| * per
  {
    if runs != [] {
      RunsLength(runs[1..], per);
      MulSucc(|runs| - 1, per);
    }
  }

  /** How much of the data the filled runs hold: all of it, or all there is room for. */
  lemma BuiltLength(g: Geo, d1: Disk, d: Disk, chunks: seq<Block>, from: nat, inds: seq<nat>, runs: seq<seq<nat>>)
    requires Building(g, d1, d, chunks, from, inds, runs)
    requires from + |Flatten(runs)| == |chunks| || |inds| == Per(g)
    ensures |Flatten(runs)| == Min(|chunks| - from, Per(g) * Per(g))
  {
    forall j | 0 <= j < |runs| ensures |runs[j]| <= Per(g) { assert Lists(g, d, inds[j], runs[j]); }
    RunsLength(runs, Per(g));
    MulMono(|runs|, Per(g), Per(g));
  }

  /** The loop over the double-indirect level. */
  method FillIndirects(v: Volume, chunks: seq<Block>, from: nat)
    returns (r: Option<(seq<nat>, seq<seq<nat>>)>, ghost taken: seq<nat>, ghost ws: seq<Write>)
    requires Ready(v.geo, v.disk) && from <= |chunks| && BlockSized(v.geo, chunks)
    modifies v
    ensures Grew(v.geo, old(v.disk), v.disk, taken) && Reached(old(v.disk), v.disk, ws)
            && AllGrow(v.geo, old(v.disk), ws)
    ensures r.Some? <==> old(v.disk).freeBlocks >= Deep(|chunks| - from, Per(v.geo), Per(v.geo))
    ensures r.Some? ==> |taken| == Deep(|chunks| - from, Per(v.geo), Per(v.geo))
    ensures r.Some? ==> Building(v.geo, old(v.disk), v.disk, chunks, from, r.value.0, r.value.1)
    ensures r.Some? ==> taken == Behind(r.value.0, r.value.1)
    ensures r.Some? ==> |Flatten(r.value.1)| == Min(|chunks| - from, Per(v.geo) * Per(v.geo))
  {
    ghost var d1 := v.disk;
    FillingStarts(v.geo, d1, chunks, from);
    var p := Built([], [], from);
    ws := [];
    while p.at < |chunks| && |p.inds| < Per(v.geo)
      invariant from <= p.at && Filling(v.geo, d1, v.disk, chunks, from, p, ws)
      decreases Per(v.geo) - |p.inds|
    {
      var next;
      next, taken, ws := NextIndirect(v, chunks, from, p, d1, ws);
      if next.None? { return None, taken, ws; }
      p := next.value;
    }
    FillingEnds(v.geo, d1, v.disk, chunks, from, p, ws);
    return Some((p.inds, p.runs)), Behind(p.inds, p.runs), ws;
  }

  /** The double-indirect level: its block is allocated first and written last. */
  method FillDouble(v: Volume, chunks: seq<Block>, from: nat)
    returns (r: Option<(nat, seq<nat>, seq<seq<nat>>)>, ghost taken: seq<nat>, ghost ws: seq<Write>)
    requires Ready(v.geo, v.disk) && from <= |chunks| && BlockSized(v.geo, chunks)
    modifies v
    ensures Grew(v.geo, old(v.disk), v.disk, taken) && Reached(old(v.disk), v.disk, ws)
            && AllGrow(v.geo, old(v.disk), ws)
    ensures r.Some? <==> old(v.disk).freeBlocks >= 1 + Deep(|chunks| - from, Per(v.geo), Per(v.geo))
    ensures r.Some? ==> |taken| == 1 + Deep(|chunks| - from, Per(v.geo), Per(v.geo))
    ensures r.Some? ==>
              var (dind, inds, runs) := r.value;
              && |inds| == |runs| && taken == Behind(inds, runs) + [dind]
              && Lists(v.geo, v.disk, dind, inds) && AllPos(inds) && ListsAll(v.geo, v.disk, inds, runs)
              && HoldsChunks(v.disk, Flatten(runs), chunks, from)
              && |Flatten(runs)| == Min(|chunks| - from, Per(v.geo) * Per(v.geo))
  {
    ghost var d0 := v.disk;
    var a;
    a, ws := AllocBlock(v);
    if a.None? {
      GrewNothing(v.geo, d0);
      return None, [], ws;
    }
    var dind := a.value;
    ghost var d1 := v.disk;
    GrewReady(v.geo, d0, d1, [dind]);
    var parts, got, ws1 := FillIndirects(v, chunks, from);
    ghost var d2 := v.disk;
    ReachedThen(d0, d1, d2, ws, ws1);
    GrowsEarlier(v.geo, d0, d1, [dind], ws1);
    AllGrowConcat(v.geo, d0, ws, ws1);
    ws := ws + ws1;
    GrewThen(v.geo, d0, d1, d2, [dind], got);
    if parts.None? { return None, [dind] + got, ws; }
    var (inds, runs) := parts.value;
    FourDivides(v.geo);
    var buf := PackLoop(inds, v.geo.BlockSize());
    var ws2 := WriteBlock(v, dind, buf);
    ReachedThen(d0, d2, v.disk, ws, ws2);
    DoubleFilled(v.geo, d0, d1, d2, v.disk, dind, inds, runs, chunks, from, buf, ws2);
    AllGrowConcat(v.geo, d0, ws, ws2);
    return Some((dind, inds, runs)), Behind(inds, runs) + [dind], ws + ws2;
  }

  lemma DoubleFilled(g: Geo, d0: Disk, d1: Disk, d2: Disk, d3: Disk, dind: nat, inds: seq<nat>, runs: seq<seq<nat>>,
                     chunks: seq<Block>, from: nat, buf: Block, ws: seq<Write>)
    requires BootReserved(g, d0) && Grew(g, d0, d1, [dind]) && Building(g, d1, d2, chunks, from, inds, runs)
             && ValidGeo(g)
    requires dind < |d2.blocks| && 4 * |inds| <= g.BlockSize() && buf == Pack(inds, g.BlockSize())
    requires d3 == d2.(blocks := d2.blocks[dind := buf])
    requires forall i :: 0 <= i < |ws| ==> ws[i].SetSector? && ws[i].b == dind
    ensures Grew(g, d0, d3, Behind(inds, runs) + [dind]) && AllGrow(g, d0, ws)
    ensures Lists(g, d3, dind, inds) && ListsAll(g, d3, inds, runs) && HoldsChunks(d3, Flatten(runs), chunks, from)
  {
    GrewThen(g, d0, d1, d2, [dind], Behind(inds, runs));
    GrewWrite(g, d0, d2, d3, [dind] + Behind(inds, runs), dind, buf, ws);
    GrewRotate(g, d0, d3, dind, Behind(inds, runs));
    GrewReady(g, d0, d3, Behind(inds, runs) + [dind]);
    assert dind in Behind(inds, runs) + [dind];
    DoublePacked(g, d3, dind, inds, runs, d0, buf);
    forall j | 0 <= j < |inds| ensures Lists(g, d3, inds[j], runs[j]) {
      IndsBehind(inds, runs, j);
      assert Lists(g, d2, inds[j], runs[j]);
    }
    if dind in Flatten(runs) { FlattenBehind(inds, runs, dind); }
    HoldsElsewhere(g, d2, d3, dind, Flatten(runs), chunks, from);
  }

  lemma DoublePacked(g: Geo, d: Disk, dind: nat, inds: seq<nat>, runs: seq<seq<nat>>, d0: Disk, buf: Block)
    requires ValidGeo(g) && |inds| == |runs| && Grew(g, d0, d, Behind(inds, runs) + [dind])
    requires 0 < dind < |d.blocks| && 4 * |inds| <= g.BlockSize() && buf == Pack(inds, g.BlockSize())
             && d.blocks[dind] == buf
    ensures Lists(g, d, dind, inds)
  {
    forall j | 0 <= j < |inds| ensures inds[j] < TWO32 {
      IndsBehind(inds, runs, j);
      assert inds[j] in Behind(inds, runs) + [dind];
    }
    FourDivides(g);
    PackedIs(inds, g.BlockSize(), buf);
  }

  // ---------------------------------------------------------------- the whole layout

  /** The volume holds `chunks` in the layout `l`, which was free space on `d0`. */
  ghost predicate LaidOut(g: Geo, d0: Disk, d: Disk, l: Layout, chunks: seq<Block>) {
    && Stored(g, d, l) && |l.inds| == |l.runs|
    && Grew(g, d0, d, AllOf(l))
    && HoldsChunks(d, DataOf(l), chunks, 0)
  }

  /** The direct level. */
  lemma LaidDirect(g: Geo, d0: Disk, d: Disk, direct: seq<nat>, chunks: seq<Block>)
    requires BootReserved(g, d0) && Grew(g, d0, d, direct) && |direct| <= 12 && HoldsChunks(d, direct, chunks, 0)
    ensures LaidOut(g, d0, d, Layout(direct, 0, [], 0, [], []), chunks)
  {
    GrewReady(g, d0, d, direct);
    var l := Layout(direct, 0, [], 0, [], []);
    assert AllOf(l) == direct && DataOf(l) == direct;
    forall i | 0 <= i < |direct| ensures direct[i] != 0 { assert direct[i] in direct; }
  }

  /** Adding the single-indirect level. */
  lemma LaidSingle(g: Geo, d0: Disk, d: Disk, d': Disk, l: Layout, chunks: seq<Block>, ind: nat, run: seq<nat>)
    requires BootReserved(g, d0) && LaidOut(g, d0, d, l, chunks) && l.ind == 0 && |l.direct| == 12
    requires Grew(g, d, d', run + [ind]) && Lists(g, d', ind, run) && HoldsChunks(d', run, chunks, 12)
    ensures LaidOut(g, d0, d', l.(ind := ind, single := run), chunks)
  {
    var l' := l.(ind := ind, single := run);
    GrewThen(g, d0, d, d', AllOf(l), run + [ind]);
    assert AllOf(l) == l.direct && AllOf(l') == l.direct + (run + [ind]);
    GrewReady(g, d0, d, AllOf(l));
    GrewReady(g, d, d', run + [ind]);
    forall i | 0 <= i < |run| ensures run[i] != 0 { assert run[i] in run + [ind]; }
    assert DataOf(l) == l.direct && DataOf(l') == l.direct + run;
    HoldsStays(g, d, d', run + [ind], l.direct, chunks, 0);
    HoldsConcat(g, d', l.direct, run, chunks, 0);
  }

  /** Adding the double-indirect level. */
  lemma LaidDouble(g: Geo, d0: Disk, d: Disk, d': Disk, l: Layout, chunks: seq<Block>, dind: nat, inds: seq<nat>,
                   runs: seq<seq<nat>>)
    requires BootReserved(g, d0) && LaidOut(g, d0, d, l, chunks) && l.ind != 0 && l.dind == 0 && |l.single| == Per(g)
    requires |inds| == |runs| && Grew(g, d, d', Behind(inds, runs) + [dind])
    requires Lists(g, d', dind, inds) && AllPos(inds) && ListsAll(g, d', inds, runs)
             && HoldsChunks(d', Flatten(runs), chunks, 12 + Per(g))
    ensures LaidOut(g, d0, d', l.(dind := dind, inds := inds, runs := runs), chunks)
  {
    var l' := l.(dind := dind, inds := inds, runs := runs);
    var more := Behind(inds, runs) + [dind];
    GrewThen(g, d0, d, d', AllOf(l), more);
    AllOfDouble(l, dind, inds, runs);
    StoredDouble(g, d0, d, d', l, more, dind, inds, runs);
    DoubleHolds(g, d0, d, d', l, chunks, more, runs);
  }

  lemma AllOfDouble(l: Layout, dind: nat, inds: seq<nat>, runs: seq<seq<nat>>)
    requires l.dind == 0 && dind != 0 && |l.inds| == |l.runs| && |inds| == |runs| && l.runs == []
    ensures AllOf(l.(dind := dind, inds := inds, runs := runs)) == AllOf(l) + (Behind(inds, runs) + [dind])
    ensures DataOf(l.(dind := dind, inds := inds, runs := runs)) == DataOf(l) + Flatten(runs)
  {
    var a := l.direct + (if l.ind == 0 then [] else l.single + [l.ind]);
    assert AllOf(l) == a + [] == a;
    var b := l.direct + l.single;
    assert DataOf(l) == b + [] == b;
  }

  lemma StoredDouble(g: Geo, d0: Disk, d: Disk, d': Disk, l: Layout, more: seq<nat>, dind: nat, inds: seq<nat>,
                     runs: seq<seq<nat>>)
    requires Stored(g, d, l) && |l.inds| == |l.runs| && Grew(g, d0, d, AllOf(l)) && Grew(g, d, d', more)
    requires l.ind != 0 && l.dind == 0 && |l.single| == Per(g)
    requires Lists(g, d', dind, inds) && AllPos(inds) && ListsAll(g, d', inds, runs)
    ensures Stored(g, d', l.(dind := dind, inds := inds, runs := runs))
  {
    assert l.ind in AllOf(l);
    ListsStays(g, d, d', more, l.ind, l.single);
  }

  lemma DoubleHolds(g: Geo, d0: Disk, d: Disk, d': Disk, l: Layout, chunks: seq<Block>, more: seq<nat>,
                    runs: seq<seq<nat>>)
    requires LaidOut(g, d0, d, l, chunks) && l.ind != 0 && l.dind == 0 && |l.single| == Per(g) && Grew(g, d, d', more)
    requires HoldsChunks(d', Flatten(runs), chunks, 12 + Per(g))
    ensures HoldsChunks(d', DataOf(l) + Flatten(runs), chunks, 0)
  {
    assert DataOf(l) == l.direct + l.single;
    forall b | b in DataOf(l) ensures Used(g, d, b) { assert b in AllOf(l); }
    HoldsStays(g, d, d', more, DataOf(l), chunks, 0);
    HoldsConcat(g, d', DataOf(l), Flatten(runs), chunks, 0);
  }

  /** Indirect blocks of a layout. */
  function MetaOf(l: Layout): nat { (if l.ind == 0 then 0 else 1) + (if l.dind == 0 then 0 else 1 + |l.inds|) }

  lemma AllLength(g: Geo, d: Disk, l: Layout)
    requires Stored(g, d, l) && |l.inds| == |l.runs|
    ensures |AllOf(l)| == |DataOf(l)| + MetaOf(l)
  {
    BehindLength(l.inds, l.runs);
  }

  /** The most data blocks the three levels hold. */
  function Limit(g: Geo): nat { 12 + Per(g) + Per(g) * Per(g) }

  /** The blocks `n` data blocks take, with the indirect ones: on the first two levels, past them, and in all. */
  function UpToSingle(g: Geo, n: nat): nat { if n <= 12 then n else 13 + Min(Per(g), n - 12) }

  function PastSingle(g: Geo, n: nat): nat {
    if n <= 12 + Per(g) then 0 else 1 + Deep(n - 12 - Per(g), Per(g), Per(g))
  }

  function Need(g: Geo, n: nat): nat
    requires Per(g) > 0
  {
    if n <= 12 then n
    else if n <= 12 + Per(g) then n + 1
    else n + 2 + BlocksFor(n - 12 - Per(g), Per(g))
  }

  lemma BlocksForStep(rest: nat, per: nat)
    requires per > 0 && rest > 0
    ensures BlocksFor(rest, per) == 1 + BlocksFor(rest - Min(per, rest), per)
  {
    if rest <= per {
      DivUnique(rest + per - 1, per, 1);
      DivUnique(per - 1, per, 0);
    } else {
      DivBounds(rest - 1, per);
      MulSucc((rest - 1) / per, per);
      DivUnique(rest + per - 1, per, 1 + (rest - 1) / per);
    }
  }

  /** While the slots suffice, each run of `per` costs one more block. */
  lemma {:induction false} DeepIs(rest: nat, slots: nat, per: nat)
    requires per > 0 && rest <= slots * per
    ensures Deep(rest, slots, per) == rest + BlocksFor(rest, per)
  {
    if rest == 0 {
      DivUnique(per - 1, per, 0);
    } else {
      MulSucc(slots - 1, per);
      BlocksForStep(rest, per);
      DeepIs(rest - Min(per, rest), slots - 1, per);
    }
  }

  lemma NeedIs(g: Geo, n: nat)
    requires Per(g) > 0
    ensures n <= Limit(g) ==> UpToSingle(g, n) + PastSingle(g, n) == Need(g, n)
  {
    if 12 + Per(g) < n <= Limit(g) { DeepIs(n - 12 - Per(g), Per(g), Per(g)); }
  }

  /**
   The size at which the 32-bit size field wraps is one the layout accepts: with 4 KiB blocks, 2^32 bytes are
   within the limit and take 1049601 blocks.
   */
  lemma WrapFits(g: Geo)
    requires g.sectors == 8
    ensures BlocksFor(TWO32, g.BlockSize()) <= Limit(g) && Need(g, BlocksFor(TWO32, g.BlockSize())) == 1_049_601
  {
    assert BlocksFor(TWO32, g.BlockSize()) == 0x10_0000;
    assert Per(g) == 1024;
    assert BlocksFor(0x10_0000 - 12 - 1024, 1024) == 1023;
  }

  /** The single-indirect level, if the direct blocks did not suffice. */
  method SingleLevel(v: Volume, chunks: seq<Block>, l0: Layout, ghost d0: Disk, ghost ws0: seq<Write>)
    returns (r: Option<Layout>, ghost taken: seq<nat>, ghost ws: seq<Write>)
    requires Ready(v.geo, d0) && BlockSized(v.geo, chunks) && LaidOut(v.geo, d0, v.disk, l0, chunks) && l0.ind == 0
    requires |DataOf(l0)| == |chunks| || |l0.direct| == 12
    requires |AllOf(l0)| == Min(12, |chunks|)
    requires Reached(d0, v.disk, ws0) && AllGrow(v.geo, d0, ws0)
    modifies v
    ensures Grew(v.geo, d0, v.disk, taken) && Reached(d0, v.disk, ws) && AllGrow(v.geo, d0, ws)
    ensures r.Some? <==> d0.freeBlocks >= UpToSingle(v.geo, |chunks|)
    ensures r.Some? ==>
              && LaidOut(v.geo, d0, v.disk, r.value, chunks) && r.value.dind == 0
              && taken == AllOf(r.value) && |taken| == UpToSingle(v.geo, |chunks|)
              && (|DataOf(r.value)| == |chunks| || (r.value.ind != 0 && |r.value.single| == Per(v.geo)))
  {
    ws := ws0;
    assert DataOf(l0) == l0.direct;
    if |l0.direct| == |chunks| { return Some(l0), AllOf(l0), ws; }
    ghost var d1 := v.disk;
    GrewReady(v.geo, d0, d1, AllOf(l0));
    var one, got, ws1 := FillIndirect(v, chunks, |l0.direct|);
    ws := JoinWrites(v.geo, d0, d1, v.disk, AllOf(l0), ws, ws1);
    GrewThen(v.geo, d0, d1, v.disk, AllOf(l0), got);
    taken := AllOf(l0) + got;
    if one.None? { return None, taken, ws; }
    LaidSingle(v.geo, d0, d1, v.disk, l0, chunks, one.value.0, one.value.1);
    r := Some(l0.(ind := one.value.0, single := one.value.1));
    assert AllOf(l0) == l0.direct && AllOf(r.value) == taken;
    assert DataOf(r.value) == l0.direct + one.value.1;
  }

  lemma DoubleCounts(g: Geo, d: Disk, l: Layout, chunks: seq<Block>, dind: nat, inds: seq<nat>, runs: seq<seq<nat>>)
    requires Stored(g, d, l.(dind := dind, inds := inds, runs := runs)) && l.dind == 0 && dind != 0 && l.inds == []
             && l.runs == []
    requires |inds| == |runs| && l.ind != 0 && |chunks| > 12 + Per(g)
             && |Flatten(runs)| == Min(|chunks| - 12 - Per(g), Per(g) * Per(g))
    ensures AllOf(l.(dind := dind, inds := inds, runs := runs)) == AllOf(l) + (Behind(inds, runs) + [dind])
    ensures |DataOf(l.(dind := dind, inds := inds, runs := runs))| == Min(|chunks|, Limit(g))
  {
    AllOfDouble(l, dind, inds, runs);
  }

  /** The double-indirect level, if the single one did not suffice either. */
  method DoubleLevel(v: Volume, chunks: seq<Block>, l0: Layout, ghost d0: Disk, ghost ws0: seq<Write>)
    returns (r: Option<Layout>, ghost taken: seq<nat>, ghost ws: seq<Write>)
    requires Ready(v.geo, d0) && BlockSized(v.geo, chunks) && LaidOut(v.geo, d0, v.disk, l0, chunks) && l0.dind == 0
    requires |DataOf(l0)| == |chunks| || (l0.ind != 0 && |l0.single| == Per(v.geo))
    requires |AllOf(l0)| == UpToSingle(v.geo, |chunks|)
    requires Reached(d0, v.disk, ws0) && AllGrow(v.geo, d0, ws0)
    modifies v
    ensures Grew(v.geo, d0, v.disk, taken) && Reached(d0, v.disk, ws) && AllGrow(v.geo, d0, ws)
    ensures r.Some? <==> d0.freeBlocks >= UpToSingle(v.geo, |chunks|) + PastSingle(v.geo, |chunks|)
    ensures r.Some? ==> LaidOut(v.geo, d0, v.disk, r.value, chunks) && taken == AllOf(r.value)
    ensures r.Some? ==> |taken| == UpToSingle(v.geo, |chunks|) + PastSingle(v.geo, |chunks|)
    ensures r.Some? ==> |DataOf(r.value)| == Min(|chunks|, Limit(v.geo))
  {
    ws := ws0;
    assert DataOf(l0) == l0.direct + l0.single;
    if |l0.direct| + |l0.single| == |chunks| { return Some(l0), AllOf(l0), ws; }
    ghost var d1 := v.disk;
    GrewReady(v.geo, d0, d1, AllOf(l0));
    var two, got, ws1 := FillDouble(v, chunks, 12 + Per(v.geo));
    ws := JoinWrites(v.geo, d0, d1, v.disk, AllOf(l0), ws, ws1);
    GrewThen(v.geo, d0, d1, v.disk, AllOf(l0), got);
    taken := AllOf(l0) + got;
    if two.None? { return None, taken, ws; }
    var (dind, inds, runs) := two.value;
    LaidDouble(v.geo, d0, d1, v.disk, l0, chunks, dind, inds, runs);
    DoubleCounts(v.geo, v.disk, l0, chunks, dind, inds, runs);
    r := Some(l0.(dind := dind, inds := inds, runs := runs));
  }

  /** The three levels in turn. */
  method LayOutChunks(v: Volume, chunks: seq<Block>)
    returns (r: Option<Layout>, ghost taken: seq<nat>, ghost ws: seq<Write>)
    requires Ready(v.geo, v.disk) && BlockSized(v.geo, chunks)
    modifies v
    ensures Grew(v.geo, old(v.disk), v.disk, taken) && Reached(old(v.disk), v.disk, ws)
            && AllGrow(v.geo, old(v.disk), ws)
    ensures r.Some? <==> |chunks| <= Limit(v.geo) && Need(v.geo, |chunks|) <= old(v.disk).freeBlocks
    ensures r.Some? ==> LaidOut(v.geo, old(v.disk), v.disk, r.value, chunks) && |DataOf(r.value)| == |chunks|
    ensures r.Some? ==> taken == AllOf(r.value) && |taken| == Need(v.geo, |chunks|)
  {
    ghost var d0 := v.disk;
    NeedIs(v.geo, |chunks|);
    var direct;
    direct, taken, ws := FillRun(v, chunks, 0, 12);
    if direct.None? { return None, taken, ws; }
    LaidDirect(v.geo, d0, v.disk, direct.value, chunks);
    var l0 := Layout(direct.value, 0, [], 0, [], []);
    assert DataOf(l0) == direct.value && AllOf(l0) == direct.value;
    var l1;
    l1, taken, ws := SingleLevel(v, chunks, l0, d0, ws);
    if l1.None? { return None, taken, ws; }
    r, taken, ws := DoubleLevel(v, chunks, l1.value, d0, ws);
    if r.Some? && |DataOf(r.value)| < |chunks| { r := None; }
  }

  /**
   `lay_out_data`. It succeeds exactly when the data is within the double-indirect limit and that many blocks
   are free; the data then sits in blocks that were free, laid out over the three levels, and `i_blocks` counts
   all of them in sectors. `taken` are the blocks taken, also by a failed attempt, which gives none of them back.
   */
  method LayOutData(v: Volume, data: seq<byte>)
    returns (r: Option<(seq<nat>, nat)>, ghost l: Layout, ghost taken: seq<nat>, ghost ws: seq<Write>)
    requires Ready(v.geo, v.disk)
    modifies v
    ensures Grew(v.geo, old(v.disk), v.disk, taken) && Reached(old(v.disk), v.disk, ws)
            && AllGrow(v.geo, old(v.disk), ws)
    ensures r.Some? <==> Enough(v.geo, old(v.disk), |data|)
    ensures r.Some? ==>
              && LaidOut(v.geo, old(v.disk), v.disk, l, Split(data, v.geo.BlockSize()))
              && |DataOf(l)| == BlocksFor(|data|, v.geo.BlockSize())
              && taken == AllOf(l) && |taken| == Need(v.geo, BlocksFor(|data|, v.geo.BlockSize()))
              && r.value.0 == BlockArray(l) && r.value.1 == |AllOf(l)| * v.geo.sectors
  {
    var chunks := Split(data, v.geo.BlockSize());
    var lay;
    lay, taken, ws := LayOutChunks(v, chunks);
    if lay.None? { return None, Layout([], 0, [], 0, [], []), taken, ws; }
    l := lay.value;
    AllLength(v.geo, v.disk, lay.value);
    var count := |chunks| + MetaOf(lay.value);
    assert count == |AllOf(l)|;
    r := Some((BlockArray(lay.value), count * v.geo.sectors));
  }

  /** Room for a file of `size` bytes. */
  predicate Enough(g: Geo, d: Disk, size: nat)
    requires g.BlockSize() > 0
  {
    var n := BlocksFor(size, g.BlockSize());
    n <= Limit(g) && Need(g, n) <= d.freeBlocks
  }

  lemma JoinWrites(g: Geo, d0: Disk, d1: Disk, d2: Disk, taken: seq<nat>, a: seq<Write>, b: seq<Write>)
                   returns (ws: seq<Write>)
    requires Grew(g, d0, d1, taken) && Reached(d0, d1, a) && AllGrow(g, d0, a) && Reached(d1, d2, b)
             && AllGrow(g, d1, b)
    ensures ws == a + b && Reached(d0, d2, ws) && AllGrow(g, d0, ws)
  {
    ReachedThen(d0, d1, d2, a, b);
    GrowsEarlier(g, d0, d1, taken, b);
    AllGrowConcat(g, d0, a, b);
    ws := a + b;
  }

  // ---------------------------------------------------------------- reading it back

  lemma {:induction false} ContentsAre(g: Geo, d: Disk, ptrs: seq<nat>, chunks: seq<Block>)
    requires AllPos(ptrs) && |ptrs| == |chunks| && HoldsChunks(d, ptrs, chunks, 0)
    ensures Contents(g, d, ptrs) == Flatten(chunks)
  {
    if ptrs != [] {
      assert d.blocks[ptrs[0]] == chunks[0];
      ContentsAre(g, d, ptrs[1..], chunks[1..]);
    }
  }

  lemma FullChunk(data: seq<byte>, bs: nat, k: nat)
    requires k * bs + bs <= |data|
    ensures ChunkOf(data, k, bs) == data[k * bs..k * bs + bs]
  {
  }

  lemma {:induction false} FullChunks(data: seq<byte>, bs: nat, k: nat)
    requires bs > 0 && k <= BlocksFor(|data|, bs) && k * bs <= |data|
    ensures Flatten(Split(data, bs)[..k]) == data[..k * bs]
  {
    if k > 0 {
      MulSucc(k - 1, bs);
      FullChunks(data, bs, k - 1);
      FullChunk(data, bs, k - 1);
      var cs, at := Split(data, bs), (k - 1) * bs;
      assert cs[..k] == cs[..k - 1] + [cs[k - 1]];
      FlattenSnoc(cs[..k - 1], cs[k - 1]);
      assert data[..at] + data[at..at + bs] == data[..at + bs];
    }
  }

  /** Joining the chunks and cutting off the padding gives the data. */
  lemma JoinChunks(data: seq<byte>, bs: nat)
    requires bs > 0
    ensures Truncate(Flatten(Split(data, bs)), |data|) == data
  {
    var n: nat := |Split(data, bs)|;
    DivBounds(|data| + bs - 1, bs);
    if n > 0 {
      var k: nat := n - 1;
      ChunkInRange(|data|, k, bs);
      MulSucc(k, bs);
      FullChunks(data, bs, k);
      JoinLast(data, bs, k);
    }
  }

  lemma JoinLast(data: seq<byte>, bs: nat, k: nat)
    requires bs > 0 && |Split(data, bs)| == k + 1 && k * bs < |data| <= k * bs + bs
    requires Flatten(Split(data, bs)[..k]) == data[..k * bs]
    ensures Truncate(Flatten(Split(data, bs)), |data|) == data
  {
    var cs, at := Split(data, bs), k * bs;
    assert cs == cs[..k] + [cs[k]];
    FlattenSnoc(cs[..k], cs[k]);
    assert cs[k][..|data| - at] == data[at..];
  }

  /**
   A laid-out file reads back as its data exactly when its length fits the 32-bit size field; otherwise the
   stored size has wrapped and something shorter comes back.
   */
  lemma ReadsBack(g: Geo, d0: Disk, d: Disk, l: Layout, data: seq<byte>, node: Inode)
    requires ValidGeo(g) && LaidOut(g, d0, d, l, Split(data, g.BlockSize())) && BootReserved(g, d0)
    requires |DataOf(l)| == BlocksFor(|data|, g.BlockSize())
    requires node.block == BlockArray(l) && node.size == |data| % TWO32
    ensures FileBytes(g, d, node) == data <==> |data| < TWO32
  {
    if |data| >= TWO32 {
      assert |FileBytes(g, d, node)| <= node.size < |data|;
    } else if |data| > 0 {
      LaidReads(g, d0, d, l, data, node);
    }
  }

  lemma LaidReads(g: Geo, d0: Disk, d: Disk, l: Layout, data: seq<byte>, node: Inode)
    requires ValidGeo(g) && LaidOut(g, d0, d, l, Split(data, g.BlockSize())) && BootReserved(g, d0)
    requires |DataOf(l)| == BlocksFor(|data|, g.BlockSize())
    requires node.block == BlockArray(l) && node.size == |data| > 0
    ensures FileBytes(g, d, node) == data
  {
    MapIsData(g, d, l, node);
    DataPos(g, d0, d, l);
    ContentsAre(g, d, DataOf(l), Split(data, g.BlockSize()));
    JoinChunks(data, g.BlockSize());
  }

  lemma DataPos(g: Geo, d0: Disk, d: Disk, l: Layout)
    requires BootReserved(g, d0) && Stored(g, d, l) && |l.inds| == |l.runs| && Grew(g, d0, d, AllOf(l))
    ensures AllPos(DataOf(l))
  {
    GrewReady(g, d0, d, AllOf(l));
    forall i | 0 <= i < |DataOf(l)| ensures DataOf(l)[i] != 0 {
      var b := DataOf(l)[i];
      if b in Flatten(l.runs) { FlattenBehind(l.inds, l.runs, b); }
      assert b in AllOf(l);
    }
  }
}
