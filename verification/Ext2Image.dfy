/** What becomes of a directory that is overwritten as if it were a file. */
module Ext2Image {
  import opened Common
  import opened Ext2Disk
  import opened Ext2Alloc
  import opened Ext2Layout
  import opened Ext2Shape
  import opened Ext2Write
  import opened Ext2Owners
  import opened Ext2Overwrite
  import opened Ext2Records
  import opened Ext2Dir
  import opened Ext2Names
  import opened Ext2Namespace
  import opened Ext2Ops
  import opened Ext2Volume

  ghost predicate ChunksOk(cs: seq<Block>) { forall i :: 0 <= i < |cs| ==> BlockOk(cs[i]) }

  ghost function ImageRecs(cs: seq<Block>): seq<Rec>
    requires ChunksOk(cs)
  {
    if cs == [] then [] else BlockRecs(cs[0]) + ImageRecs(cs[1..])
  }

  /** The data is what a directory of at most twelve blocks holds. */
  ghost predicate DirImage(g: Geo, data: seq<byte>) {
    && g.BlockSize() > 0
    && var cs := Split(data, g.BlockSize());
       |cs| <= 12 && |data| == |cs| * g.BlockSize() && ChunksOk(cs) && Unique(ImageRecs(cs))
  }

  ghost function ImageNames(g: Geo, data: seq<byte>): map<Name, nat>
    requires DirImage(g, data)
  {
    Dict(ImageRecs(Split(data, g.BlockSize())))
  }

  ghost function ImageTags(g: Geo, data: seq<byte>): set<Tag>
    requires DirImage(g, data)
  {
    Tags(ImageRecs(Split(data, g.BlockSize())))
  }

  lemma {:induction false} ImageIs(d: Disk, ptrs: seq<nat>, cs: seq<Block>)
    requires |ptrs| == |cs| && forall i :: 0 <= i < |cs| ==> BlockAt(d, ptrs[i]) == cs[i]
    ensures BlocksOk(d, ptrs) <==> ChunksOk(cs)
    ensures BlocksOk(d, ptrs) ==> DirRecs(d, ptrs) == ImageRecs(cs)
  {
    if BlocksOk(d, ptrs) && cs != [] { ImageIs(d, ptrs[1..], cs[1..]); }
  }

  /** Data that fits the direct blocks has no indirect one. */
  lemma DirectOnly(g: Geo, d: Disk, node: Inode, l: Layout, data: seq<byte>)
    requires Holding(g, d, node, l, data)
    ensures l.ind == 0 <==> |Split(data, g.BlockSize())| <= 12
  {
    AllLength(g, d, l);
  }

  lemma DirectPtrs(g: Geo, d: Disk, node: Inode, l: Layout, data: seq<byte>)
    requires Holding(g, d, node, l, data) && l.ind == 0
    ensures DataOf(l) == l.direct && DirPtrs(node) == l.direct && node.block[12] == 0 && node.block[13] == 0
    ensures node.block[..12] == l.direct + Zeros(12 - |l.direct|)
  {
    NonZeroConcatZeros(l.direct, 12 - |l.direct|);
  }

  lemma SmallSize(size: nat, n: nat, bs: nat)
    requires 0 < bs <= 4096 && n == BlocksFor(size, bs) && n <= 12
    ensures size <= n * bs && size % TWO32 == size
  {
    DivBounds(size + bs - 1, bs);
    MulMono(n, 12, bs);
  }

  lemma ImageShape(g: Geo, d: Disk, node: Inode, l: Layout, data: seq<byte>)
    requires ValidGeo(g) && Holding(g, d, node, l, data)
    ensures DirShape(g, node) <==>
            |Split(data, g.BlockSize())| <= 12 && |data| == |Split(data, g.BlockSize())| * g.BlockSize()
    ensures DirShape(g, node) ==> DirPtrs(node) == DataOf(l)
  {
    DirectOnly(g, d, node, l, data);
    if l.ind == 0 {
      DirectPtrs(g, d, node, l, data);
      SmallSize(|data|, BlocksFor(|data|, g.BlockSize()), g.BlockSize());
    }
  }

  /** The overwritten inode is a well-formed directory exactly when the data is a directory's. */
  lemma ImageDir(g: Geo, d: Disk, t: nat, l: Layout, data: seq<byte>)
    requires ValidGeo(g) && t < |d.inodes| && Holding(g, d, d.inodes[t], l, data)
    ensures DirOk(g, d, t) <==> DirImage(g, data)
    ensures DirOk(g, d, t) ==> Names(g, d, t) == ImageNames(g, data) && DirTags(g, d, t) == ImageTags(g, data)
  {
    ImageShape(g, d, d.inodes[t], l, data);
    if DirShape(g, d.inodes[t]) {
      var cs := Split(data, g.BlockSize());
      forall i | 0 <= i < |cs| ensures BlockAt(d, DataOf(l)[i]) == cs[i] { assert d.blocks[DataOf(l)[i]] == cs[0 + i]; }
      ImageIs(d, DataOf(l), cs);
    }
  }

  // ---------------------------------------------------------------- overwriting

  /** Written over directory `t`, the data would be a directory that fits the tree. */
  ghost predicate Refits(g: Geo, s: Fs, root: nat, t: nat, data: seq<byte>) {
    DirImage(g, data) && TreeOk(g, s.disk, s.live, Renamed(View(g, s.disk, s.dirs), t, ImageNames(g, data)), root)
  }

  lemma RewroteHeads(g: Geo, d0: Disk, d: Disk, live: set<nat>, meta: set<nat>, t: nat, data: seq<byte>)
    requires Rewrote(g, d0, d, live, meta, t, data)
    ensures SameLinks(d0.inodes, d.inodes, live, {}) && SameKinds(d0.inodes, d.inodes, live, {})
    ensures SameLinks(d.inodes, d0.inodes, live, {}) && SameKinds(d.inodes, d0.inodes, live, {})
  {
    EverybodyHeads(g, d0, d, live, {t});
  }

  lemma RewroteFile(g: Geo, s: Fs, root: nat, d: Disk, t: nat, data: seq<byte>)
    requires VolumeOk(g, s, root) && Rewrote(g, s.disk, d, s.live, s.meta, t, data) && t !in s.dirs
    ensures VolumeOk(g, Fs(d, s.live, s.meta, s.dirs), root)
  {
    DirsLive(g, s, root);
    OthersStay(g, s.disk, d, s.live, s.dirs, t);
    ViewStays(g, s.disk, d, s.dirs);
    RewroteHeads(g, s.disk, d, s.live, s.meta, t, data);
    TreeStays(g, s.disk, d, s.live, s.live, View(g, s.disk, s.dirs), root);
  }

  lemma OthersStay(g: Geo, d0: Disk, d: Disk, live: set<nat>, dirs: set<nat>, t: nat)
    requires AllSameBut(g, d0, d, live, t) && dirs <= live && t !in dirs
    ensures Everybody(g, d0, d, dirs)
  {
    forall i | i in dirs ensures SameFile(g, d0, d, i) { assert i in live; }
  }

  /** The space with other names for directory `t`. */
  function Renamed(ns: Space, t: nat, names: map<Name, nat>): Space { ns[t := names] }

  lemma RenamedAt(ns: Space, t: nat, names: map<Name, nat>)
    requires t in ns
    ensures Renamed(ns, t, names).Keys == ns.Keys && Renamed(ns, t, names)[t] == names
    ensures forall i :: i in ns && i != t ==> Renamed(ns, t, names)[i] == ns[i]
  {
  }

  lemma RewroteView(g: Geo, s: Fs, d: Disk, t: nat, data: seq<byte>)
    requires DirsOk(g, s.disk, s.dirs) && s.dirs <= s.live && Rewrote(g, s.disk, d, s.live, s.meta, t, data)
             && t in s.dirs && DirOk(g, d, t)
    ensures DirsOk(g, d, s.dirs) && View(g, d, s.dirs) == Renamed(View(g, s.disk, s.dirs), t, Names(g, d, t))
  {
    var ns := View(g, s.disk, s.dirs);
    ViewIs(g, s.disk, s.dirs, t);
    assert DirAt(g, d, t);
    RenamedAt(ns, t, Names(g, d, t));
    ShownChange(g, s.disk, d, s.dirs, Renamed(ns, t, Names(g, d, t)), t);
  }

  /** Overwriting keeps the volume exactly when the target is no directory, or the data a directory that fits. */
  lemma RewroteExactly(g: Geo, s: Fs, root: nat, d: Disk, t: nat, data: seq<byte>)
    requires VolumeOk(g, s, root) && Rewrote(g, s.disk, d, s.live, s.meta, t, data)
    ensures VolumeOk(g, Fs(d, s.live, s.meta, s.dirs), root) <==> t !in s.dirs || Refits(g, s, root, t, data)
  {
    if t !in s.dirs {
      RewroteFile(g, s, root, d, t, data);
    } else {
      var l :| Holding(g, d, d.inodes[t], l, data);
      ImageDir(g, d, t, l, data);
      if DirOk(g, d, t) {
        RewroteDir(g, s, root, d, t, data);
      } else {
        assert !DirAt(g, d, t);
      }
    }
  }

  lemma RewroteDir(g: Geo, s: Fs, root: nat, d: Disk, t: nat, data: seq<byte>)
    requires VolumeOk(g, s, root) && Rewrote(g, s.disk, d, s.live, s.meta, t, data) && t in s.dirs
    requires DirOk(g, d, t) && DirImage(g, data) && Names(g, d, t) == ImageNames(g, data)
    ensures VolumeOk(g, Fs(d, s.live, s.meta, s.dirs), root) <==> Refits(g, s, root, t, data)
  {
    RewroteView(g, s, d, t, data);
    RewroteHeads(g, s.disk, d, s.live, s.meta, t, data);
    var ns := View(g, d, s.dirs);
    if TreeOk(g, s.disk, s.live, ns, root) { TreeStays(g, s.disk, d, s.live, s.live, ns, root); }
    if TreeOk(g, d, s.live, ns, root) { TreeStays(g, d, s.disk, s.live, s.live, ns, root); }
  }

  /** One byte written over a directory: it is no directory any more, and the volume is not well formed. */
  lemma OverwrittenDirectory(g: Geo, s: Fs, root: nat, d: Disk, t: nat, x: byte)
    requires VolumeOk(g, s, root) && t in s.dirs && Rewrote(g, s.disk, d, s.live, s.meta, t, [x])
    ensures !DirOk(g, d, t) && !VolumeOk(g, Fs(d, s.live, s.meta, s.dirs), root)
  {
    var l :| Holding(g, d, d.inodes[t], l, [x]);
    ImageDir(g, d, t, l, [x]);
    NotWhole(|Split([x], g.BlockSize())|, g.BlockSize());
    assert !DirAt(g, d, t);
  }

  lemma NotWhole(n: nat, bs: nat)
    requires bs > 1
    ensures n * bs != 1
  {
    if n > 0 { MulMono(1, n, bs); }
  }
}
