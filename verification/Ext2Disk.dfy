/**
 The ext2 volume: bitmaps, redundant counters, inodes and blocks, the single-sector writes that change them,
 and what a file and its block footprint are on such a volume.
 */
module Ext2Disk {
  import opened Common

  const SECTOR: nat := 512
  const TWO16: nat := 0x1_0000

  type Block = seq<byte>

  /** The mounted geometry. */
  /** The superblock's constants; `filetype` says whether directory records tell what their inode is. */
  datatype Geo = Geo(sectors: nat, inodesPerGroup: nat, firstDataBlock: nat, blocksPerGroup: nat, blockCount: nat,
                     filetype: bool) {
    /** A block is `sectors` sectors: 1024, 2048 or 4096 bytes. */
    function BlockSize(): nat { SECTOR * sectors }
  }

  datatype Group = Group(freeBlocks: nat, freeInodes: nat, usedDirs: nat)

  datatype Inode = Inode(mode: nat, uid: nat, gid: nat, size: nat, links: nat, blocks512: nat, block: seq<nat>)

  /**
   `bits[i]` is the bitmap bit of block `firstDataBlock + i` and `ibits[i]` that of inode `i + 1`; a group's
   bitmap block is its slice of them.
   */
  datatype Disk = Disk(bits: seq<bool>, ibits: seq<bool>, groups: seq<Group>, freeBlocks: nat, freeInodes: nat,
                       inodes: seq<Inode>, blocks: seq<Block>)

  predicate ValidGeo(g: Geo) {
    && (g.sectors == 2 || g.sectors == 4 || g.sectors == 8)
    && 0 < g.blocksPerGroup <= 8 * g.BlockSize()
    && 0 < g.inodesPerGroup <= 8 * g.BlockSize()
    && 0 < g.firstDataBlock + 1 < g.blockCount < TWO32
  }

  /** Pointers per indirect block. */
  function Per(g: Geo): nat { 128 * g.sectors }

  function GroupCount(g: Geo): nat
    requires ValidGeo(g)
  {
    (g.blockCount - g.firstDataBlock + g.blocksPerGroup - 1) / g.blocksPerGroup
  }

  /** The group a relative block number is filed under. */
  function GroupIndex(g: Geo, rel: nat): (k: nat)
    requires ValidGeo(g)
  {
    rel / g.blocksPerGroup
  }

  /** First block of group `k`, relative to the first data block. */
  function Lo(g: Geo, k: nat): nat { k * g.blocksPerGroup }

  /** One past the last block of group `k`, relative to the first data block. */
  function Hi(g: Geo, k: nat): nat
    requires ValidGeo(g)
  {
    if k + 1 == GroupCount(g) then g.blockCount - g.firstDataBlock else (k + 1) * g.blocksPerGroup
  }

  // ---------------------------------------------------------------- little-endian words

  predicate Word32(b: Block, off: nat) { off + 4 <= |b| }

  function Pow256(n: nat): nat { if n == 0 then 1 else 256 * Pow256(n - 1) }

  /** Little-endian value of a byte string. */
  function Le(b: seq<byte>): (v: nat)
    ensures v < Pow256(|b|)
  {
    if b == [] then 0 else b[0] as nat + 256 * Le(b[1..])
  }

  /** The low `n` bytes of `v`, little-endian. */
  function LeBytes(v: nat, n: nat): (r: seq<byte>)
    ensures |r| == n
  {
    if n == 0 then [] else [(v % 256) as byte] + LeBytes(v / 256, n - 1)
  }

  lemma {:induction false} LeRoundTrip(v: nat, n: nat)
    requires v < Pow256(n)
    ensures Le(LeBytes(v, n)) == v
  {
    if n > 0 {
      LeRoundTrip(v / 256, n - 1);
      assert LeBytes(v, n)[1..] == LeBytes(v / 256, n - 1);
    }
  }

  lemma Widths()
    ensures Pow256(2) == TWO16 && Pow256(4) == TWO32
  {
    assert Pow256(1) == 256 && Pow256(2) == 65536 && Pow256(3) == 16777216;
  }

  function Le16(b: Block, off: nat): nat
    requires off + 2 <= |b|
  {
    Le(b[off..off + 2])
  }

  function Le32(b: Block, off: nat): nat
    requires Word32(b, off)
  {
    Le(b[off..off + 4])
  }

  function Bytes16(v: nat): (r: seq<byte>)
    ensures |r| == 2
  {
    LeBytes(v, 2)
  }

  function Bytes32(v: nat): (r: seq<byte>)
    ensures |r| == 4
  {
    LeBytes(v, 4)
  }

  /** `b[off..off + |data|].copy_from_slice(data)`. */
  function Splice(b: Block, off: nat, data: seq<byte>): (r: Block)
    requires off + |data| <= |b|
    ensures |r| == |b|
    ensures forall i :: 0 <= i < |b| ==> r[i] == if off <= i < off + |data| then data[i - off] else b[i]
  {
    b[..off] + data + b[off + |data|..]
  }

  /** Writing a word and reading it back, or reading one that does not overlap. */
  lemma Le32Splice(b: Block, off: nat, v: nat)
    requires Word32(b, off) && v < TWO32
    ensures Le32(Splice(b, off, Bytes32(v)), off) == v
  {
    Widths();
    LeRoundTrip(v, 4);
    assert Splice(b, off, Bytes32(v))[off..off + 4] == Bytes32(v);
  }

  lemma Le32Frame(b: Block, off: nat, data: seq<byte>, at: nat)
    requires off + |data| <= |b| && Word32(b, at)
    requires at + 4 <= off || off + |data| <= at
    ensures Le32(Splice(b, off, data), at) == Le32(b, at)
  {
    assert Splice(b, off, data)[at..at + 4] == b[at..at + 4];
  }

  lemma Le16Splice(b: Block, off: nat, v: nat)
    requires off + 2 <= |b| && v < TWO16
    ensures Le16(Splice(b, off, Bytes16(v)), off) == v
  {
    Widths();
    LeRoundTrip(v, 2);
    assert Splice(b, off, Bytes16(v))[off..off + 2] == Bytes16(v);
  }

  lemma Le16Frame(b: Block, off: nat, data: seq<byte>, at: nat)
    requires off + |data| <= |b| && at + 2 <= |b|
    requires at + 2 <= off || off + |data| <= at
    ensures Le16(Splice(b, off, data), at) == Le16(b, at)
  {
    assert Splice(b, off, data)[at..at + 2] == b[at..at + 2];
  }

  // ---------------------------------------------------------------- writes

  /** One sector's worth of change. A bitmap or counter update is a read-modify-write that alters one sector. */
  datatype Write =
    | SetBit(i: nat, used: bool)
    | SetInodeBit(i: nat, used: bool)
    | SetGroup(k: nat, group: Group)
    | SetFreeBlocks(n: nat)
    | SetFreeInodes(n: nat)
    | SetInode(i: nat, node: Inode)
    | SetSector(b: nat, k: nat, data: seq<byte>)

  /** The write lands on the volume. */
  predicate Fits(d: Disk, w: Write) {
    match w
    case SetBit(i, _) => i < |d.bits|
    case SetInodeBit(i, _) => i < |d.ibits|
    case SetGroup(k, _) => k < |d.groups|
    case SetFreeBlocks(_) => true
    case SetFreeInodes(_) => true
    case SetInode(i, _) => i < |d.inodes|
    case SetSector(b, k, data) => b < |d.blocks| && |data| == SECTOR && SECTOR * (k + 1) <= |d.blocks[b]|
  }

  function Apply(d: Disk, w: Write): Disk {
    if !Fits(d, w) then d
    else match w
      case SetBit(i, used) => d.(bits := d.bits[i := used])
      case SetInodeBit(i, used) => d.(ibits := d.ibits[i := used])
      case SetGroup(k, group) => d.(groups := d.groups[k := group])
      case SetFreeBlocks(n) => d.(freeBlocks := n)
      case SetFreeInodes(n) => d.(freeInodes := n)
      case SetInode(i, node) => d.(inodes := d.inodes[i := node])
      case SetSector(b, k, data) => d.(blocks := d.blocks[b := Splice(d.blocks[b], SECTOR * k, data)])
  }

  /** The volume after a sequence of writes; a crash leaves the volume after some prefix of them. */
  function Replay(d: Disk, ws: seq<Write>): Disk {
    if ws == [] then d else Apply(Replay(d, ws[..|ws| - 1]), ws[|ws| - 1])
  }

  lemma {:induction false} ReplayConcat(d: Disk, a: seq<Write>, b: seq<Write>)
    ensures Replay(d, a + b) == Replay(Replay(d, a), b)
  {
    if b == [] {
      assert a + b == a;
    } else {
      assert (a + b)[..|a + b| - 1] == a + b[..|b| - 1];
      ReplayConcat(d, a, b[..|b| - 1]);
    }
  }

  lemma ReplayOne(d: Disk, w: Write)
    ensures Replay(d, [w]) == Apply(d, w)
  {
    assert [w][..0] == [];
  }

  // ---------------------------------------------------------------- shape

  /** Sizes agree with the geometry. */
  ghost predicate Shaped(g: Geo, d: Disk) {
    && ValidGeo(g)
    && |d.bits| == g.blockCount - g.firstDataBlock
    && |d.groups| == GroupCount(g)
    && |d.ibits| == |d.inodes| == GroupCount(g) * g.inodesPerGroup < TWO32
    && |d.blocks| == g.blockCount
    && (forall b :: 0 <= b < |d.blocks| ==> |d.blocks[b]| == g.BlockSize())
    && (forall i :: 0 <= i < |d.inodes| ==> |d.inodes[i].block| == 15)
  }

  predicate IsDataBlock(g: Geo, b: nat) { g.firstDataBlock <= b < g.blockCount }

  predicate Used(g: Geo, d: Disk, b: nat) {
    IsDataBlock(g, b) && b - g.firstDataBlock < |d.bits| && d.bits[b - g.firstDataBlock]
  }

  // ---------------------------------------------------------------- counters

  /** Clear bits in a range. */
  function FreeIn(bits: seq<bool>, lo: nat, hi: nat): (n: nat)
    requires lo <= hi <= |bits|
    ensures n <= hi - lo
  {
    if lo == hi then 0 else FreeIn(bits, lo, hi - 1) + if bits[hi - 1] then 0 else 1
  }

  lemma {:induction false} FreeUpdate(bits: seq<bool>, lo: nat, hi: nat, i: nat, v: bool)
    requires lo <= hi <= |bits| && i < |bits|
    ensures FreeIn(bits[i := v], lo, hi)
            == FreeIn(bits, lo, hi) + if lo <= i < hi then (if bits[i] then 1 else 0) - (if v then 1 else 0) else 0
  {
    if lo < hi { FreeUpdate(bits, lo, hi - 1, i, v); }
  }

  lemma {:induction false} FreeSplit(bits: seq<bool>, lo: nat, mid: nat, hi: nat)
    requires lo <= mid <= hi <= |bits|
    ensures FreeIn(bits, lo, hi) == FreeIn(bits, lo, mid) + FreeIn(bits, mid, hi)
  {
    if mid < hi { FreeSplit(bits, lo, mid, hi - 1); }
  }

  lemma {:induction false} FreeZero(bits: seq<bool>, lo: nat, hi: nat)
    requires lo <= hi <= |bits|
    ensures FreeIn(bits, lo, hi) == 0 <==> forall i :: lo <= i < hi ==> bits[i]
  {
    if lo < hi { FreeZero(bits, lo, hi - 1); }
  }

  /** A group's free-block count is its clear bits. */
  ghost predicate BlocksCounted(g: Geo, d: Disk, k: nat)
    requires Shaped(g, d) && k < |d.groups|
  {
    Lo(g, k) <= Hi(g, k) <= |d.bits| && d.groups[k].freeBlocks == FreeIn(d.bits, Lo(g, k), Hi(g, k))
  }

  ghost predicate InodesCounted(g: Geo, d: Disk, k: nat)
    requires Shaped(g, d) && k < |d.groups|
  {
    ILo(g, k) <= IHi(g, k) <= |d.ibits| && d.groups[k].freeInodes == FreeIn(d.ibits, ILo(g, k), IHi(g, k))
  }

  /** Every group's free-block count is its clear bits, and the superblock's is all of them. */
  ghost predicate BlockCountsAgree(g: Geo, d: Disk)
    requires Shaped(g, d)
  {
    && (forall k {:trigger BlocksCounted(g, d, k)} :: 0 <= k < |d.groups| ==> BlocksCounted(g, d, k))
    && d.freeBlocks == FreeIn(d.bits, 0, |d.bits|)
  }

  ghost predicate InodeCountsAgree(g: Geo, d: Disk)
    requires Shaped(g, d)
  {
    && (forall k {:trigger InodesCounted(g, d, k)} :: 0 <= k < |d.groups| ==> InodesCounted(g, d, k))
    && d.freeInodes == FreeIn(d.ibits, 0, |d.ibits|)
  }

  function ILo(g: Geo, k: nat): nat { k * g.inodesPerGroup }
  function IHi(g: Geo, k: nat): nat { (k + 1) * g.inodesPerGroup }

  ghost predicate CountersAgree(g: Geo, d: Disk) {
    Shaped(g, d) && BlockCountsAgree(g, d) && InodeCountsAgree(g, d)
  }

  // ---------------------------------------------------------------- files

  function BlockAt(d: Disk, b: nat): Block {
    if b < |d.blocks| then d.blocks[b] else []
  }

  /** The first `n` words of a block. */
  function Words(blk: Block, n: nat): (p: seq<nat>)
    requires 4 * n <= |blk|
    ensures |p| == n
  {
    if n == 0 then [] else Words(blk, n - 1) + [Le32(blk, 4 * (n - 1))]
  }

  lemma {:induction false} WordsAt(blk: Block, n: nat, i: nat)
    requires 4 * n <= |blk| && i < n
    ensures Words(blk, n)[i] == Le32(blk, 4 * i)
  {
    if i < n - 1 { WordsAt(blk, n - 1, i); }
  }

  /** The pointers stored in a block. */
  function Ptrs(blk: Block): (p: seq<nat>)
    ensures |p| == |blk| / 4
  {
    Words(blk, |blk| / 4)
  }

  function Zeros(n: nat): (z: seq<nat>)
    ensures |z| == n && forall i :: 0 <= i < n ==> z[i] == 0
  {
    seq(n, _ => 0)
  }

  function ZeroBlock(n: nat): (z: Block)
    ensures |z| == n && forall i :: 0 <= i < n ==> z[i] == 0
  {
    seq(n, _ => 0 as byte)
  }

  /** Blocks a file of `size` bytes spans. */
  function BlocksFor(size: nat, bs: nat): nat
    requires bs > 0
  {
    (size + bs - 1) / bs
  }

  /** One indirect block's pointers, at most `want`; a missing block is a run of holes. */
  function SinglePtrs(g: Geo, d: Disk, b: nat, want: nat): (r: seq<nat>)
    ensures |r| <= want
  {
    var ptrs := if b == 0 then Zeros(Per(g)) else Ptrs(BlockAt(d, b));
    ptrs[..Min(want, |ptrs|)]
  }

  /** The pointers behind a list of indirect blocks, at most `want`. */
  function DoublePtrs(g: Geo, d: Disk, inds: seq<nat>, want: nat): seq<nat> {
    if inds == [] || want == 0 then []
    else
      var first := SinglePtrs(g, d, inds[0], want);
      first + DoublePtrs(g, d, inds[1..], want - |first|)
  }

  /** The indirect blocks behind a double-indirect block; a missing one is a run of missing ones. */
  function SecondLevel(g: Geo, d: Disk, b: nat): seq<nat> {
    if b == 0 then Zeros(Per(g)) else Ptrs(BlockAt(d, b))
  }

  /** The pointers past the direct blocks. */
  function DeepPtrs(g: Geo, d: Disk, ind: nat, inds: seq<nat>, want: nat): seq<nat> {
    var single := SinglePtrs(g, d, ind, want);
    single + DoublePtrs(g, d, inds, want - |single|)
  }

  /** `block_map`: the file's block numbers in order, 0 for a hole. */
  function BlockMap(g: Geo, d: Disk, node: Inode): seq<nat>
    requires g.BlockSize() > 0 && |node.block| == 15
  {
    var n := MapLength(g, node);
    if n <= 12 then node.block[..n]
    else node.block[..12] + DeepPtrs(g, d, node.block[12], SecondLevel(g, d, node.block[13]), n - 12)
  }

  /** Even an empty file maps one block. */
  function MapLength(g: Geo, node: Inode): nat
    requires g.BlockSize() > 0
  {
    if node.size == 0 then 1 else BlocksFor(node.size, g.BlockSize())
  }

  /** The bytes of a list of blocks, block by block. */
  function Contents(g: Geo, d: Disk, map_: seq<nat>): seq<byte> {
    if map_ == [] then []
    else (if map_[0] == 0 then ZeroBlock(g.BlockSize()) else BlockAt(d, map_[0])) + Contents(g, d, map_[1..])
  }

  function Truncate(s: seq<byte>, n: nat): seq<byte> { s[..Min(n, |s|)] }

  /** `read_file`, read one block at a time. */
  function FileBytes(g: Geo, d: Disk, node: Inode): seq<byte>
    requires g.BlockSize() > 0 && |node.block| == 15
  {
    Truncate(Contents(g, d, BlockMap(g, d, node)), node.size)
  }

  // ---------------------------------------------------------------- ownership

  function NonZero(s: seq<nat>): seq<nat> {
    if s == [] then [] else NonZero(s[..|s| - 1]) + if s[|s| - 1] == 0 then [] else [s[|s| - 1]]
  }

  lemma {:induction false} NonZeroMembers(s: seq<nat>, x: nat)
    ensures x in NonZero(s) <==> x != 0 && x in s
  {
    if s != [] {
      assert s == s[..|s| - 1] + [s[|s| - 1]];
      NonZeroMembers(s[..|s| - 1], x);
    }
  }

  /** Blocks behind one indirect block, the indirect block last. */
  function IndirectOwned(d: Disk, b: nat): seq<nat> {
    if b == 0 then [] else NonZero(Ptrs(BlockAt(d, b))) + [b]
  }

  function IndirectsOwned(d: Disk, inds: seq<nat>): seq<nat> {
    if inds == [] then [] else IndirectsOwned(d, inds[..|inds| - 1]) + IndirectOwned(d, inds[|inds| - 1])
  }

  function DoubleOwned(d: Disk, b: nat): seq<nat> {
    if b == 0 then [] else IndirectsOwned(d, Ptrs(BlockAt(d, b))) + [b]
  }

  /** Every block an inode owns, in the order `free_all_blocks` frees them. */
  function Owned(d: Disk, node: Inode): seq<nat>
    requires |node.block| == 15
  {
    NonZero(node.block[..12]) + IndirectOwned(d, node.block[12]) + DoubleOwned(d, node.block[13])
  }
}
