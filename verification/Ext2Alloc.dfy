/** The bitmap allocators, with their redundant counters, updating the volume in place. */
module Ext2Alloc {
  import opened Common
  import opened Ext2Disk

  // ---------------------------------------------------------------- group arithmetic

  lemma DivBounds(x: nat, m: nat)
    requires m > 0
    ensures x / m * m <= x < x / m * m + m
  {
  }

  lemma MulMono(a: nat, b: nat, m: nat)
    requires a <= b
    ensures a * m <= b * m
  {
  }

  lemma MulSucc(a: nat, m: nat)
    ensures (a + 1) * m == a * m + m
  {
  }

  /** Groups tile the blocks: every group's range is in bounds and a relative block number lies in its own group. */
  lemma GroupRange(g: Geo, k: nat)
    requires ValidGeo(g) && k < GroupCount(g)
    ensures Lo(g, k) < Hi(g, k) <= g.blockCount - g.firstDataBlock
    ensures Hi(g, k) - Lo(g, k) <= g.blocksPerGroup
    ensures k + 1 < GroupCount(g) ==> Hi(g, k) == Lo(g, k + 1)
  {
    var n, bpg, total := GroupCount(g), g.blocksPerGroup, g.blockCount - g.firstDataBlock;
    DivBounds(total + bpg - 1, bpg);
    MulSucc(k, bpg);
    if k + 1 < n {
      MulMono(k + 2, n, bpg);
      MulSucc(k + 1, bpg);
    }
  }

  lemma DivUnique(x: nat, m: nat, q: nat)
    requires m > 0 && q * m <= x < q * m + m
    ensures x / m == q
  {
    DivBounds(x, m);
    if q < x / m { MulMono(q + 1, x / m, m); MulSucc(q, m); }
    if x / m < q { MulMono(x / m + 1, q, m); MulSucc(x / m, m); }
  }

  /** The group a relative block number is filed under contains it. */
  lemma GroupHolds(g: Geo, rel: nat)
    requires ValidGeo(g) && rel < g.blockCount - g.firstDataBlock
    ensures GroupIndex(g, rel) < GroupCount(g)
    ensures Lo(g, GroupIndex(g, rel)) <= rel < Hi(g, GroupIndex(g, rel))
  {
    HoldsArith(rel, g.blockCount - g.firstDataBlock, g.blocksPerGroup);
  }

  lemma HoldsArith(rel: nat, total: nat, bpg: nat)
    requires bpg > 0 && rel < total
    ensures 0 <= rel / bpg < (total + bpg - 1) / bpg
    ensures rel / bpg * bpg <= rel < (rel / bpg + 1) * bpg
  {
    var n, k := (total + bpg - 1) / bpg, rel / bpg;
    DivBounds(total + bpg - 1, bpg);
    DivBounds(rel, bpg);
    MulSucc(k, bpg);
    if k >= n { MulMono(n, k, bpg); }
  }

  /** No other group contains it. */
  lemma GroupUnique(g: Geo, rel: nat, j: nat)
    requires ValidGeo(g) && rel < g.blockCount - g.firstDataBlock && j < GroupCount(g)
    requires Lo(g, j) <= rel < Hi(g, j)
    ensures j == GroupIndex(g, rel)
  {
    GroupRange(g, j);
    DivUnique(rel, g.blocksPerGroup, j);
  }

  // ---------------------------------------------------------------- counters follow bits

  /** `(cur + delta) as u16` and `as u32`. */
  function Wrap16(x: int): (r: nat)
    ensures 0 <= x < TWO16 ==> r == x
  {
    x % TWO16
  }

  function Wrap32(x: int): (r: nat)
    ensures 0 <= x < TWO32 ==> r == x
  {
    x % TWO32
  }

  /** The group table differs only in group `k`'s free-block count. */
  ghost predicate OnlyFreeBlocks(gs: seq<Group>, gs': seq<Group>, k: nat, n: nat) {
    k < |gs| && gs' == gs[k := gs[k].(freeBlocks := n)]
  }

  /** Flipping one bit and moving both counters by one keeps all counters exact. */
  lemma FlipKeepsCounts(g: Geo, d: Disk, d': Disk, i: nat, used: bool)
    requires CountersAgree(g, d) && i < |d.bits| && d.bits[i] != used
    requires Shaped(g, d') && d'.bits == d.bits[i := used] && d'.ibits == d.ibits && d'.freeInodes == d.freeInodes
    requires var k := GroupIndex(g, i);
             k < |d.groups| && OnlyFreeBlocks(d.groups, d'.groups, k,
               Wrap16(d.groups[k].freeBlocks + if used then -1 else 1))
    requires d'.freeBlocks == Wrap32(d.freeBlocks + if used then -1 else 1)
    ensures CountersAgree(g, d') && d'.freeBlocks == d.freeBlocks + if used then -1 else 1
  {
    var k := GroupIndex(g, i);
    GroupHolds(g, i);
    GroupRange(g, k);
    FreeUpdate(d.bits, 0, |d.bits|, i, used);
    forall j | 0 <= j < |d'.groups| ensures BlocksCounted(g, d', j) {
      assert BlocksCounted(g, d, j);
      GroupRange(g, j);
      FreeUpdate(d.bits, Lo(g, j), Hi(g, j), i, used);
      if j != k && Lo(g, j) <= i < Hi(g, j) { GroupUnique(g, i, j); }
    }
    forall j | 0 <= j < |d'.groups| ensures InodesCounted(g, d', j) { assert InodesCounted(g, d, j); }
  }

  // ---------------------------------------------------------------- what allocation and freeing may write

  /** A write that only takes blocks that were free: sets a bit, moves a counter, or fills a block that was free. */
  ghost predicate Grows(g: Geo, d0: Disk, w: Write) {
    match w
    case SetBit(_, used) => used
    case SetGroup(_, _) => true
    case SetFreeBlocks(_) => true
    case SetSector(b, _, _) => IsDataBlock(g, b) && !Used(g, d0, b)
    case _ => false
  }

  ghost predicate AllGrow(g: Geo, d0: Disk, ws: seq<Write>) {
    forall i :: 0 <= i < |ws| ==> Grows(g, d0, ws[i])
  }

  /** A write that only gives blocks of `f` back: clears one of their bits or moves a counter. */
  ghost predicate Shrinks(g: Geo, f: seq<nat>, w: Write) {
    match w
    case SetBit(i, used) => !used && g.firstDataBlock + i in f
    case SetGroup(_, _) => true
    case SetFreeBlocks(_) => true
    case _ => false
  }

  ghost predicate AllShrink(g: Geo, f: seq<nat>, ws: seq<Write>) {
    forall i :: 0 <= i < |ws| ==> Shrinks(g, f, ws[i])
  }

  /** The volume and the writes that led to it from `d0`. */
  ghost predicate Reached(d0: Disk, d: Disk, ws: seq<Write>) {
    d == Replay(d0, ws)
  }

  lemma ReachedStep(d0: Disk, d: Disk, ws: seq<Write>, w: Write)
    requires Reached(d0, d, ws)
    ensures Reached(d0, Apply(d, w), ws + [w])
  {
    assert (ws + [w])[..|ws|] == ws;
  }

  lemma ReachedThen(d0: Disk, d1: Disk, d2: Disk, a: seq<Write>, b: seq<Write>)
    requires Reached(d0, d1, a) && Reached(d1, d2, b)
    ensures Reached(d0, d2, a + b)
  {
    ReplayConcat(d0, a, b);
  }

  /** The inode side of the group table is untouched. */
  ghost predicate SameInodeCounts(gs: seq<Group>, gs': seq<Group>) {
    |gs| == |gs'| && forall k :: 0 <= k < |gs| ==>
      gs'[k].freeInodes == gs[k].freeInodes && gs'[k].usedDirs == gs[k].usedDirs
  }

  /** The used-directory counts of the groups. */
  function Tallies(gs: seq<Group>): seq<nat> { seq(|gs|, k requires 0 <= k < |gs| => gs[k].usedDirs) }

  lemma SameTallies(gs: seq<Group>, gs': seq<Group>)
    requires SameInodeCounts(gs, gs')
    ensures Tallies(gs') == Tallies(gs)
  {
  }

  /**
   `d'` is `d` with exactly the blocks of `taken` taken: they were free, each once, and are used now; every
   other bit and block, and every inode, is as before; the counters agree, so the free count fell by their number.
   */
  ghost predicate Grew(g: Geo, d: Disk, d': Disk, taken: seq<nat>) {
    && CountersAgree(g, d')
    && |d'.bits| == |d.bits| && |d'.blocks| == |d.blocks|
    && NoDup(taken)
    && (forall b :: b in taken ==> IsDataBlock(g, b) && !Used(g, d, b) && Used(g, d', b))
    && (forall b :: b !in taken ==> (Used(g, d', b) <==> Used(g, d, b)))
    && (forall b :: 0 <= b < |d.blocks| && b !in taken ==> d'.blocks[b] == d.blocks[b])
    && d'.inodes == d.inodes && d'.ibits == d.ibits && d'.freeInodes == d.freeInodes
    && SameInodeCounts(d.groups, d'.groups)
    && d.freeBlocks == d'.freeBlocks + |taken|
  }

  lemma GrewThen(g: Geo, d0: Disk, d1: Disk, d2: Disk, a: seq<nat>, b: seq<nat>)
    requires Grew(g, d0, d1, a) && Grew(g, d1, d2, b)
    ensures Grew(g, d0, d2, a + b)
  {
    forall x | x in a ensures x !in b {
      assert Used(g, d1, x);
    }
    forall x | x in b ensures x !in a && !Used(g, d0, x) {
      assert !Used(g, d1, x);
    }
    NoDupConcat(a, b);
  }

  /** Writes that only take blocks free at a later moment only take blocks free earlier. */
  lemma GrowsEarlier(g: Geo, d0: Disk, d1: Disk, taken: seq<nat>, ws: seq<Write>)
    requires Grew(g, d0, d1, taken) && AllGrow(g, d1, ws)
    ensures AllGrow(g, d0, ws)
  {
    forall i | 0 <= i < |ws| ensures Grows(g, d0, ws[i]) {
      assert Grows(g, d1, ws[i]);
      if ws[i].SetSector? {
        assert ws[i].b in taken ==> Used(g, d1, ws[i].b);
      }
    }
  }

  /** `d'` is `d` with exactly the blocks of `f` given back. */
  ghost predicate Freed(g: Geo, d: Disk, d': Disk, f: seq<nat>) {
    && CountersAgree(g, d')
    && |d'.bits| == |d.bits|
    && (forall b :: Used(g, d', b) <==> Used(g, d, b) && b !in f)
    && d'.blocks == d.blocks && d'.inodes == d.inodes && d'.ibits == d.ibits && d'.freeInodes == d.freeInodes
    && SameInodeCounts(d.groups, d'.groups)
  }

  lemma FreedThen(g: Geo, d0: Disk, d1: Disk, d2: Disk, a: seq<nat>, b: seq<nat>)
    requires Freed(g, d0, d1, a) && Freed(g, d1, d2, b)
    ensures Freed(g, d0, d2, a + b)
  {
  }

  // ---------------------------------------------------------------- the volume

  class Volume {
    const geo: Geo
    var disk: Disk

    constructor (geo: Geo, disk: Disk)
      ensures this.geo == geo && this.disk == disk
    {
      this.geo, this.disk := geo, disk;
    }
  }

  /** The old bytes with the first `n` rewritten. */
  function Torn(was: Block, data: Block, n: nat): (r: Block)
    requires |was| == |data| && n <= |data|
    ensures |r| == |was|
  {
    data[..n] + was[n..]
  }

  lemma TornStep(was: Block, data: Block, k: nat)
    requires |was| == |data| && SECTOR * (k + 1) <= |data|
    ensures Splice(Torn(was, data, SECTOR * k), SECTOR * k, data[SECTOR * k..SECTOR * (k + 1)])
            == Torn(was, data, SECTOR * (k + 1))
  {
  }

  /** The volume with one block partly rewritten. */
  function WithTorn(d: Disk, b: nat, data: Block, n: nat): Disk
    requires b < |d.blocks| && |d.blocks[b]| == |data| && n <= |data|
  {
    d.(blocks := d.blocks[b := Torn(d.blocks[b], data, n)])
  }

  lemma WithTornStep(d: Disk, b: nat, data: Block, k: nat)
    requires b < |d.blocks| && |d.blocks[b]| == |data| && SECTOR * (k + 1) <= |data|
    ensures Apply(WithTorn(d, b, data, SECTOR * k), SetSector(b, k, data[SECTOR * k..SECTOR * (k + 1)]))
            == WithTorn(d, b, data, SECTOR * (k + 1))
  {
    TornStep(d.blocks[b], data, k);
  }

  lemma WithTornEnds(d: Disk, b: nat, data: Block)
    requires b < |d.blocks| && |d.blocks[b]| == |data|
    ensures WithTorn(d, b, data, 0) == d
    ensures WithTorn(d, b, data, |data|) == d.(blocks := d.blocks[b := data])
  {
    assert Torn(d.blocks[b], data, 0) == d.blocks[b];
    assert Torn(d.blocks[b], data, |data|) == data;
    assert d.blocks[b := d.blocks[b]] == d.blocks;
  }

  /** `write_block`: sector by sector. */
  method WriteBlock(v: Volume, b: nat, data: Block) returns (ghost ws: seq<Write>)
    requires Shaped(v.geo, v.disk) && b < |v.disk.blocks| && |data| == v.geo.BlockSize()
    modifies v
    ensures v.disk == old(v.disk).(blocks := old(v.disk).blocks[b := data])
    ensures Reached(old(v.disk), v.disk, ws)
    ensures forall i :: 0 <= i < |ws| ==> ws[i].SetSector? && ws[i].b == b
  {
    ws := [];
    ghost var d0 := v.disk;
    WithTornEnds(d0, b, data);
    var n := v.geo.sectors;
    var k := 0;
    while k < n
      invariant 0 <= k <= n
      invariant v.disk == WithTorn(d0, b, data, SECTOR * k)
      invariant Reached(d0, v.disk, ws)
      invariant forall i :: 0 <= i < |ws| ==> ws[i].SetSector? && ws[i].b == b
    {
      var w := SetSector(b, k, data[SECTOR * k..SECTOR * (k + 1)]);
      ReachedStep(d0, v.disk, ws, w);
      WithTornStep(d0, b, data, k);
      v.disk := Apply(v.disk, w);
      ws := ws + [w];
      k := k + 1;
    }
  }

  /** Take the first clear bit of `[lo, hi)`, if any. */
  method TakeBit(v: Volume, lo: nat, hi: nat) returns (r: Option<nat>)
    requires lo <= hi <= |v.disk.bits|
    modifies v
    ensures r.None? ==> v.disk == old(v.disk) && forall i :: lo <= i < hi ==> v.disk.bits[i]
    ensures r.Some? ==>
              && lo <= r.value < hi && !old(v.disk).bits[r.value]
              && (forall i :: lo <= i < r.value ==> old(v.disk).bits[i])
              && v.disk == Apply(old(v.disk), SetBit(r.value, true))
  {
    var i := lo;
    while i < hi
      invariant lo <= i <= hi && v.disk == old(v.disk)
      invariant forall j :: lo <= j < i ==> v.disk.bits[j]
    {
      if !v.disk.bits[i] {
        v.disk := Apply(v.disk, SetBit(i, true));
        return Some(i);
      }
      i := i + 1;
    }
    return None;
  }

  /** `bgd_add16(g, 12, delta)` and `sb_add32(12, delta)`. */
  method MoveBlockCounters(v: Volume, k: nat, delta: int) returns (ghost ws: seq<Write>)
    requires k < |v.disk.groups|
    modifies v
    ensures ws == [SetGroup(k, old(v.disk).groups[k].(freeBlocks := Wrap16(old(v.disk).groups[k].freeBlocks + delta))),
                   SetFreeBlocks(Wrap32(old(v.disk).freeBlocks + delta))]
    ensures v.disk == old(v.disk).(groups := old(v.disk).groups[k := ws[0].group], freeBlocks := ws[1].n)
    ensures Reached(old(v.disk), v.disk, ws)
  {
    ghost var d0 := v.disk;
    var gr := v.disk.groups[k].(freeBlocks := Wrap16(v.disk.groups[k].freeBlocks + delta));
    var n := Wrap32(v.disk.freeBlocks + delta);
    ws := [];
    ReachedStep(d0, v.disk, ws, SetGroup(k, gr));
    v.disk := Apply(v.disk, SetGroup(k, gr));
    ws := ws + [SetGroup(k, gr)];
    ReachedStep(d0, v.disk, ws, SetFreeBlocks(n));
    v.disk := Apply(v.disk, SetFreeBlocks(n));
    ws := ws + [SetFreeBlocks(n)];
  }

  /** Walk the groups that claim room and take the first clear bit. */
  method TakeFromGroups(v: Volume) returns (r: Option<(nat, nat)>)
    requires CountersAgree(v.geo, v.disk)
    modifies v
    ensures r.None? ==> v.disk == old(v.disk) && forall b :: IsDataBlock(v.geo, b) ==> Used(v.geo, v.disk, b)
    ensures r.Some? ==>
              var (k, i) := r.value;
              && k < GroupCount(v.geo) && Lo(v.geo, k) <= i < Hi(v.geo, k)
              && i < |old(v.disk).bits| && !old(v.disk).bits[i] && v.disk == Apply(old(v.disk), SetBit(i, true))
  {
    var groups := GroupCount(v.geo);
    var k := 0;
    while k < groups
      invariant 0 <= k <= groups && v.disk == old(v.disk)
      invariant forall j {:trigger GroupFull(v.geo, v.disk, j)} :: 0 <= j < k ==> GroupFull(v.geo, v.disk, j)
    {
      var bit := TakeFromGroup(v, k);
      if bit.Some? { return Some((k, bit.value)); }
      k := k + 1;
    }
    AllGroupsFull(v.geo, v.disk);
    return None;
  }

  /** A group whose count is zero is skipped; otherwise its bitmap is scanned. */
  method TakeFromGroup(v: Volume, k: nat) returns (r: Option<nat>)
    requires CountersAgree(v.geo, v.disk) && k < GroupCount(v.geo)
    modifies v
    ensures r.None? ==> v.disk == old(v.disk) && GroupFull(v.geo, v.disk, k)
    ensures r.Some? ==>
              && Lo(v.geo, k) <= r.value < Hi(v.geo, k)
              && r.value < |old(v.disk).bits| && !old(v.disk).bits[r.value]
                 && v.disk == Apply(old(v.disk), SetBit(r.value, true))
  {
    GroupRange(v.geo, k);
    assert BlocksCounted(v.geo, v.disk, k);
    var lo, hi := Lo(v.geo, k), Hi(v.geo, k);
    if v.disk.groups[k].freeBlocks == 0 {
      FreeZero(v.disk.bits, lo, hi);
      return None;
    }
    r := TakeBit(v, lo, hi);
  }

  ghost predicate GroupFull(g: Geo, d: Disk, k: nat)
    requires ValidGeo(g)
  {
    Hi(g, k) <= |d.bits| && forall i :: Lo(g, k) <= i < Hi(g, k) ==> d.bits[i]
  }

  lemma AllGroupsFull(g: Geo, d: Disk)
    requires Shaped(g, d)
    requires forall j {:trigger GroupFull(g, d, j)} :: 0 <= j < GroupCount(g) ==> GroupFull(g, d, j)
    ensures forall b :: IsDataBlock(g, b) ==> Used(g, d, b)
  {
    forall b: nat | IsDataBlock(g, b) ensures Used(g, d, b) {
      GroupHolds(g, b - g.firstDataBlock);
      assert GroupFull(g, d, GroupIndex(g, b - g.firstDataBlock));
    }
  }

  /** `alloc_block`: the first free block of the first group with room, zeroed. Fails exactly on a full volume. */
  method AllocBlock(v: Volume) returns (r: Option<nat>, ghost ws: seq<Write>)
    requires CountersAgree(v.geo, v.disk)
    modifies v
    ensures r.None? ==> v.disk == old(v.disk) && ws == [] && forall b :: IsDataBlock(v.geo, b) ==>
            Used(v.geo, v.disk, b)
    ensures r.Some? <==> old(v.disk).freeBlocks > 0
    ensures r.Some? ==> Grew(v.geo, old(v.disk), v.disk, [r.value])
    ensures r.Some? ==> r.value < |v.disk.blocks| && v.disk.blocks[r.value] == ZeroBlock(v.geo.BlockSize())
    ensures Reached(old(v.disk), v.disk, ws) && AllGrow(v.geo, old(v.disk), ws)
  {
    var at := TakeFromGroups(v);
    if at.None? {
      FullMeansZero(v.geo, v.disk);
      return None, [];
    }
    r, ws := FinishAlloc(v, at.value.0, at.value.1, old(v.disk));
  }

  lemma FullMeansZero(g: Geo, d: Disk)
    requires CountersAgree(g, d) && forall b :: IsDataBlock(g, b) ==> Used(g, d, b)
    ensures d.freeBlocks == 0
  {
    forall i | 0 <= i < |d.bits| ensures d.bits[i] { assert Used(g, d, g.firstDataBlock + i); }
    FreeZero(d.bits, 0, |d.bits|);
  }

  /** The rest of `alloc_block` once bit `i` of group `k` is taken: counters, then zero the block. */
  method FinishAlloc(v: Volume, k: nat, i: nat, ghost d0: Disk) returns (r: Option<nat>, ghost ws: seq<Write>)
    requires CountersAgree(v.geo, d0) && k < GroupCount(v.geo) && Lo(v.geo, k) <= i < Hi(v.geo, k)
    requires i < |d0.bits| && !d0.bits[i] && v.disk == Apply(d0, SetBit(i, true))
    modifies v
    ensures r == Some(v.geo.firstDataBlock + i)
    ensures Grew(v.geo, d0, v.disk, [r.value])
    ensures r.value < |v.disk.blocks| && v.disk.blocks[r.value] == ZeroBlock(v.geo.BlockSize())
    ensures Reached(d0, v.disk, ws) && AllGrow(v.geo, d0, ws)
  {
    GroupUnique(v.geo, i, k);
    ReplayOne(d0, SetBit(i, true));
    var ws1 := MoveBlockCounters(v, k, -1);
    ReachedThen(d0, Apply(d0, SetBit(i, true)), v.disk, [SetBit(i, true)], ws1);
    FlipKeepsCounts(v.geo, d0, v.disk, i, true);
    ghost var d1 := v.disk;
    var b := v.geo.firstDataBlock + i;
    var ws2 := WriteBlock(v, b, ZeroBlock(v.geo.BlockSize()));
    ReachedThen(d0, d1, v.disk, [SetBit(i, true)] + ws1, ws2);
    ws := [SetBit(i, true)] + ws1 + ws2;
    r := Some(b);
    TakenOne(v.geo, d0, d1, v.disk, i);
  }

  lemma TakenOne(g: Geo, d: Disk, d1: Disk, d': Disk, i: nat)
    requires Shaped(g, d) && CountersAgree(g, d1) && i < |d.bits| && !d.bits[i] && d1.bits == d.bits[i := true]
    requires d1.blocks == d.blocks && d' == d1.(blocks := d.blocks[g.firstDataBlock + i := ZeroBlock(g.BlockSize())])
    requires d1.inodes == d.inodes && d1.ibits == d.ibits && d1.freeInodes == d.freeInodes
    requires SameInodeCounts(d.groups, d1.groups) && d.freeBlocks == d1.freeBlocks + 1
    ensures Grew(g, d, d', [g.firstDataBlock + i])
  {
    WriteKeepsCounts(g, d1, d');
  }

  /** Counters do not depend on block contents or inodes. */
  lemma WriteKeepsCounts(g: Geo, d: Disk, d': Disk)
    requires CountersAgree(g, d) && Shaped(g, d')
    requires d'.bits == d.bits && d'.ibits == d.ibits && d'.groups == d.groups && d'.freeBlocks == d.freeBlocks
             && d'.freeInodes == d.freeInodes
    ensures CountersAgree(g, d')
  {
    forall k | 0 <= k < |d'.groups| ensures BlocksCounted(g, d', k) && InodesCounted(g, d', k) {
      assert BlocksCounted(g, d, k) && InodesCounted(g, d, k);
    }
  }

  /** `free_block`: a no-op on a block already free. */
  method FreeBlock(v: Volume, b: nat) returns (ghost ws: seq<Write>)
    requires CountersAgree(v.geo, v.disk) && IsDataBlock(v.geo, b)
    modifies v
    ensures Freed(v.geo, old(v.disk), v.disk, [b])
    ensures Reached(old(v.disk), v.disk, ws) && AllShrink(v.geo, [b], ws)
  {
    ghost var d0 := v.disk;
    ws := [];
    var i := b - v.geo.firstDataBlock;
    var k := GroupIndex(v.geo, i);
    GroupHolds(v.geo, i);
    if v.disk.bits[i] {
      v.disk := Apply(v.disk, SetBit(i, false));
      ReplayOne(d0, SetBit(i, false));
      var ws1 := MoveBlockCounters(v, k, 1);
      ReachedThen(d0, Apply(d0, SetBit(i, false)), v.disk, [SetBit(i, false)], ws1);
      ws := [SetBit(i, false)] + ws1;
      FlipKeepsCounts(v.geo, d0, v.disk, i, false);
    }
  }
}
