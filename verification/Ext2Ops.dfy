/** Creating, writing and removing files and directories, below a directory already found. */
module Ext2Ops {
  import opened Common
  import opened Ext2Disk
  import opened Ext2Alloc
  import opened Ext2Layout
  import opened Ext2Shape
  import opened Ext2Write
  import opened Ext2Owners
  import opened Ext2Crash
  import opened Ext2Overwrite
  import opened Ext2Adopt
  import opened Ext2Inodes
  import opened Ext2Records
  import opened Ext2Dir
  import opened Ext2Names
  import opened Ext2Entries

  /** `mode & 0xF000 == 0x4000`. */
  predicate IsDirectory(node: Inode) { node.mode / 0x1000 % 16 == 4 }

  /** A well-formed directory all of whose entries name inodes in use. */
  ghost predicate Home(g: Geo, d: Disk, live: set<nat>, p: nat) {
    && p in live && DirOk(g, d, p)
    && forall n :: n in Names(g, d, p) ==> Names(g, d, p)[n] > 0 && Names(g, d, p)[n] - 1 in live
  }

  /** The inode a name stands for. */
  ghost function Target(g: Geo, d: Disk, live: set<nat>, p: nat, name: Name): (t: nat)
    requires Home(g, d, live, p) && name in Names(g, d, p)
    ensures t in live
  {
    Names(g, d, p)[name] - 1
  }

  ghost predicate AllSameBut(g: Geo, d: Disk, d': Disk, live: set<nat>, p: nat) {
    forall i :: i in live && i != p ==> SameFile(g, d, d', i)
  }

  ghost predicate Everybody(g: Geo, d: Disk, d': Disk, live: set<nat>) {
    forall i :: i in live ==> SameFile(g, d, d', i)
  }

  // ---------------------------------------------------------------- a new file

  /** An inode in use that was not live before, pointing at freshly laid-out blocks. */
  ghost predicate Born(g: Geo, d0: Disk, d1: Disk, d2: Disk, d3: Disk, t: nat, node: Inode, l: Layout) {
    && |l.inds| == |l.runs| && Stored(g, d1, l) && Grew(g, d0, d1, AllOf(l)) && node.block == BlockArray(l)
    && TookInode(g, d1, d2, t, false, Blank()) && d3 == d2.(inodes := d2.inodes[t := node])
  }

  lemma BornAdopted(g: Geo, d0: Disk, d1: Disk, d2: Disk, d3: Disk, live: set<nat>, meta: set<nat>, t: nat, node: Inode,
                    l: Layout)
    requires Mounted(g, d0, live, meta) && Born(g, d0, d1, d2, d3, t, node, l)
    ensures t !in live && Adopted(g, d0, d3, live, t, AllOf(l))
  {
    BornReady(g, d0, d1, d2, d3, t, node, AllOf(l));
    StoredOwned(g, d1, d3, l, node);
    BornBlocks(g, d0, d1, d3, AllOf(l));
    BornAssembled(g, d0, d3, live, t, AllOf(l));
  }

  lemma BornAssembled(g: Geo, d0: Disk, d3: Disk, live: set<nat>, t: nat, taken: seq<nat>)
    requires Ready(g, d3) && OnlyInode(d0, d3, t, true) && t !in live && NoDup(taken) && OwnedBy(d3, t) == taken
    requires forall b :: Used(g, d3, b) <==> Used(g, d0, b) || b in taken
    requires forall b :: b in taken ==> !Used(g, d0, b)
    requires forall b :: Used(g, d0, b) ==> BlockAt(d3, b) == BlockAt(d0, b)
    ensures Adopted(g, d0, d3, live, t, taken)
  {
  }

  lemma BornReady(g: Geo, d0: Disk, d1: Disk, d2: Disk, d3: Disk, t: nat, node: Inode, taken: seq<nat>)
    requires Ready(g, d0) && Grew(g, d0, d1, taken) && TookInode(g, d1, d2, t, false, Blank()) && |node.block| == 15
    requires d3 == d2.(inodes := d2.inodes[t := node])
    ensures Ready(g, d3) && OnlyInode(d0, d3, t, true) && !d0.ibits[t]
  {
    GrewReady(g, d0, d1, taken);
    SameUsed(g, d1, d2);
    PatchKeepsCounts(g, d2, d3, t, node);
  }

  lemma BornBlocks(g: Geo, d0: Disk, d1: Disk, d3: Disk, taken: seq<nat>)
    requires Grew(g, d0, d1, taken) && d3.bits == d1.bits && d3.blocks == d1.blocks
    ensures forall b :: Used(g, d3, b) <==> Used(g, d0, b) || b in taken
    ensures forall b :: b in taken ==> !Used(g, d0, b)
    ensures forall b :: Used(g, d0, b) ==> BlockAt(d3, b) == BlockAt(d0, b)
  {
    SameUsed(g, d1, d3);
    forall b | Used(g, d0, b) ensures BlockAt(d3, b) == BlockAt(d0, b) { assert b !in taken; }
  }

  /** The bytes of the new file. */
  lemma BornReads(g: Geo, d0: Disk, d1: Disk, d3: Disk, t: nat, node: Inode, l: Layout, data: seq<byte>)
    requires Ready(g, d0) && LaidOut(g, d0, d1, l, Split(data, g.BlockSize()))
             && |DataOf(l)| == BlocksFor(|data|, g.BlockSize())
    requires node.block == BlockArray(l) && node.size == |data| % TWO32
    requires t < |d3.inodes| && d3.inodes[t] == node && d3.blocks == d1.blocks
    ensures BytesOf(g, d3, t) == data <==> |data| < TWO32
  {
    ReadsBack(g, d0, d1, l, data, node);
    FileFrame(g, d1, d3, node);
  }

  /** The record of a file just created. */
  function NewFile(uid: nat, gid: nat, size: nat, blocks512: nat, block: seq<nat>): Inode {
    Inode(0x81A4, uid % TWO16, gid % TWO16, size % TWO32, 1, blocks512, block)
  }

  /** Such a record, whatever its pointers. */
  predicate IsNewFile(node: Inode, uid: nat, gid: nat, size: nat, blocks512: nat) {
    && node.mode == 0x81A4 && node.uid == uid % TWO16 && node.gid == gid % TWO16
    && node.size == size % TWO32 && node.links == 1 && node.blocks512 == blocks512
  }

  lemma NewFileKind(node: Inode)
    requires node.mode == 0x81A4
    ensures !IsDirectory(node)
  {
  }

  lemma NewDirKind(node: Inode)
    requires node.mode == 0x41ED
    ensures IsDirectory(node)
  {
  }

  /** A fresh inode holding the data, not yet named anywhere. */
  ghost predicate BornFile(g: Geo, d0: Disk, d: Disk, live: set<nat>, meta: set<nat>, t: nat, data: seq<byte>, uid: nat,
                           gid: nat) {
    && t !in live && Mounted(g, d, live + {t}, meta) && Everybody(g, d0, d, live)
    && (BytesOf(g, d, t) == data <==> |data| < TWO32)
    && t < |d.inodes| && IsNewFile(d.inodes[t], uid, gid, |data|, Sectors(g, OwnedBy(d, t)))
    && Tallies(d.groups) == Tallies(d0.groups)
  }

  /** A failed attempt: every file is as it was, but inodes `more` stay in use unnamed and blocks `lost` unowned. */
  ghost predicate Spilt(g: Geo, d0: Disk, d: Disk, live: set<nat>, meta: set<nat>, more: set<nat>, lost: set<nat>) {
    Mounted(g, d, live + more, meta + lost) && Everybody(g, d0, d, live)
  }

  /** A failed write: no inode it leaves in use is a directory, and none is counted as one. */
  ghost predicate Missed(g: Geo, d0: Disk, d: Disk, live: set<nat>, meta: set<nat>, more: set<nat>, lost: set<nat>) {
    && Spilt(g, d0, d, live, meta, more, lost) && Tallies(d.groups) == Tallies(d0.groups)
    && forall i :: i in more ==> i < |d.inodes| && !IsDirectory(d.inodes[i])
  }

  lemma SpiltBlocks(g: Geo, d0: Disk, d: Disk, live: set<nat>, meta: set<nat>, taken: seq<nat>)
    requires Mounted(g, d0, live, meta) && Grew(g, d0, d, taken)
    ensures Missed(g, d0, d, live, meta, {}, Members(taken))
  {
    SameTallies(d0.groups, d.groups);
    SpillMounted(g, d0, d, live, meta, taken);
    assert live + {} == live;
  }

  lemma SpiltNothing(g: Geo, d: Disk, live: set<nat>, meta: set<nat>)
    requires Mounted(g, d, live, meta)
    ensures Spilt(g, d, d, live, meta, {}, {})
  {
    AllSame(g, d, live, meta);
    assert live + {} == live && meta + {} == meta;
  }

  lemma MissedInode(g: Geo, d0: Disk, d: Disk, live: set<nat>, meta: set<nat>, t: nat, data: seq<byte>, uid: nat,
                    gid: nat)
    requires BornFile(g, d0, d, live, meta, t, data, uid, gid)
    ensures Missed(g, d0, d, live, meta, {t}, {})
  {
    SpiltInode(g, d0, d, live, meta, t);
    NewFileKind(d.inodes[t]);
  }

  lemma SpiltInode(g: Geo, d0: Disk, d: Disk, live: set<nat>, meta: set<nat>, t: nat)
    requires Mounted(g, d, live + {t}, meta) && Everybody(g, d0, d, live)
    ensures Spilt(g, d0, d, live, meta, {t}, {})
  {
    assert meta + {} == meta;
  }

  /** The data has been laid out on free blocks, ready for an inode to point at. */
  ghost predicate Prepared(g: Geo, d0: Disk, d: Disk, l: Layout, data: seq<byte>, block: seq<nat>, blocks512: nat) {
    && ValidGeo(g) && LaidOut(g, d0, d, l, Split(data, g.BlockSize()))
       && |DataOf(l)| == BlocksFor(|data|, g.BlockSize())
    && block == BlockArray(l) && blocks512 == |AllOf(l)| * g.sectors
       && |AllOf(l)| == Need(g, BlocksFor(|data|, g.BlockSize()))
  }

  /** The inode half of a creation; fails exactly when no inode is free. */
  method BirthFile(v: Volume, data: seq<byte>, uid: nat, gid: nat, block: seq<nat>, blocks512: nat,
                   ghost d0: Disk, ghost l: Layout, ghost live: set<nat>, ghost meta: set<nat>) returns (r: Option<nat>)
    requires Mounted(v.geo, d0, live, meta) && Prepared(v.geo, d0, v.disk, l, data, block, blocks512)
    modifies v
    ensures r.Some? <==> d0.freeInodes > 0
    ensures r.None? ==> Missed(v.geo, d0, v.disk, live, meta, {}, Members(AllOf(l)))
    ensures r.Some? ==>
            BornFile(v.geo, d0, v.disk, live, meta, r.value, data, uid, gid)
                     && v.disk.freeBlocks == old(v.disk).freeBlocks
  {
    ghost var d1 := v.disk;
    r := AllocInode(v, false);
    if r.None? {
      SpiltBlocks(v.geo, d0, d1, live, meta, AllOf(l));
      return;
    }
    ghost var d2 := v.disk;
    var node := NewFile(uid, gid, |data|, blocks512, block);
    v.disk := Apply(v.disk, SetInode(r.value, node));
    BornDone(v.geo, d0, d1, d2, v.disk, live, meta, r.value, node, l, data);
  }

  lemma BornDone(g: Geo, d0: Disk, d1: Disk, d2: Disk, d3: Disk, live: set<nat>, meta: set<nat>, t: nat, node: Inode,
                 l: Layout, data: seq<byte>)
    requires Mounted(g, d0, live, meta)
    requires LaidOut(g, d0, d1, l, Split(data, g.BlockSize())) && |DataOf(l)| == BlocksFor(|data|, g.BlockSize())
    requires node.block == BlockArray(l) && node.size == |data| % TWO32
    requires TookInode(g, d1, d2, t, false, Blank()) && d3 == d2.(inodes := d2.inodes[t := node])
    ensures t !in live && Mounted(g, d3, live + {t}, meta) && Everybody(g, d0, d3, live) && OwnedBy(d3, t) == AllOf(l)
    ensures BytesOf(g, d3, t) == data <==> |data| < TWO32
    ensures Tallies(d3.groups) == Tallies(d0.groups)
  {
    SameTallies(d0.groups, d1.groups);
    assert Born(g, d0, d1, d2, d3, t, node, l);
    BornMounted(g, d0, d1, d2, d3, live, meta, t, node, l);
    BornReads(g, d0, d1, d3, t, node, l, data);
    StoredOwned(g, d1, d3, l, node);
  }

  lemma BornMounted(g: Geo, d0: Disk, d1: Disk, d2: Disk, d3: Disk, live: set<nat>, meta: set<nat>, t: nat, node: Inode,
                    l: Layout)
    requires Mounted(g, d0, live, meta) && Born(g, d0, d1, d2, d3, t, node, l)
    ensures t !in live && Mounted(g, d3, live + {t}, meta) && Everybody(g, d0, d3, live)
  {
    BornAdopted(g, d0, d1, d2, d3, live, meta, t, node, l);
    AdoptKeeps(g, d0, d3, live, meta, t, AllOf(l));
  }

  /** What creating file `t` did below directory `p`. */
  ghost predicate Created(g: Geo, d0: Disk, d: Disk, live: set<nat>, meta: set<nat>, p: nat, name: Name, t: nat,
                          uid: nat, gid: nat, size: nat)
    requires DirOk(g, d0, p)
  {
    && t !in live && Mounted(g, d, live + {t}, meta) && AllSameBut(g, d0, d, live, p)
    && DirOk(g, d, p) && Names(g, d, p) == Names(g, d0, p)[name := t + 1] && Titled(d0, d, p, d0.inodes[p].links)
    && t < |d.inodes| && IsNewFile(d.inodes[t], uid, gid, size, Sectors(g, OwnedBy(d, t)))
    && Tagged(g, d0, d, p, name, t + 1, Kind(g, false)) && Tallies(d.groups) == Tallies(d0.groups)
  }

  ghost predicate CreatedAs(g: Geo, d0: Disk, d: Disk, live: set<nat>, meta: set<nat>, p: nat, name: Name, t: nat,
                            data: seq<byte>, uid: nat, gid: nat)
    requires DirOk(g, d0, p)
  {
    Created(g, d0, d, live, meta, p, name, t, uid, gid, |data|) && (BytesOf(g, d, t) == data <==> |data| < TWO32)
  }

  lemma CreateDone(g: Geo, d0: Disk, d3: Disk, d: Disk, live: set<nat>, meta: set<nat>, p: nat, name: Name, t: nat,
                   data: seq<byte>, uid: nat, gid: nat)
    requires p in live && DirOk(g, d0, p) && BornFile(g, d0, d3, live, meta, t, data, uid, gid) && DirOk(g, d3, p)
    requires Names(g, d3, p) == Names(g, d0, p) && DirTags(g, d3, p) == DirTags(g, d0, p)
    requires Inserted(g, d3, d, live + {t}, meta, p, name, t + 1, Kind(g, false))
    ensures CreatedAs(g, d0, d, live, meta, p, name, t, data, uid, gid)
  {
    assert SameFile(g, d0, d3, p);
    assert p != t && t in live + {t};
    assert SameFile(g, d3, d, t);
    CreateOthers(g, d0, d3, d, live, p, t);
  }

  lemma CreateOthers(g: Geo, d0: Disk, d3: Disk, d: Disk, live: set<nat>, p: nat, t: nat)
    requires Everybody(g, d0, d3, live) && forall i :: i in live + {t} && i != p ==> SameFile(g, d3, d, i)
    ensures AllSameBut(g, d0, d, live, p)
  {
    forall i | i in live && i != p ensures SameFile(g, d0, d, i) {
      assert SameFile(g, d0, d3, i) && SameFile(g, d3, d, i);
    }
  }

  /** The new inode is ready to be named in `p`, which is as it was. */
  lemma BornHome(g: Geo, d0: Disk, d3: Disk, live: set<nat>, meta: set<nat>, p: nat, name: Name, t: nat,
                 data: seq<byte>, uid: nat, gid: nat)
    requires p in live && DirOk(g, d0, p) && BornFile(g, d0, d3, live, meta, t, data, uid, gid)
    ensures p in live + {t} && t + 1 < TWO32 && DirOk(g, d3, p) && Names(g, d3, p) == Names(g, d0, p)
            && DirTags(g, d3, p) == DirTags(g, d0, p)
    ensures forall n: nat :: Takes(g, d3, p, name, n) <==> Takes(g, d0, p, name, n)
  {
    assert SameFile(g, d0, d3, p);
    DirStays(g, d0, d3, p);
  }

  /**
   The new-file branch of `write_path_owned`, once the data is laid out. It succeeds exactly when an inode is free
   and the directory takes the name with the blocks left over.
   */
  method CreateFile(v: Volume, p: nat, name: Name, data: seq<byte>, uid: nat, gid: nat, block: seq<nat>,
                    blocks512: nat,
                    ghost d0: Disk, ghost l: Layout, ghost live: set<nat>, ghost meta: set<nat>)
    returns (r: Option<nat>, ghost more: set<nat>, ghost lost: set<nat>)
    requires Mounted(v.geo, d0, live, meta) && p in live && DirOk(v.geo, d0, p) && name !in Names(v.geo, d0, p)
             && |name| < 256
    requires Prepared(v.geo, d0, v.disk, l, data, block, blocks512)
    modifies v
    ensures r.Some? <==> d0.freeInodes > 0 && Takes(v.geo, d0, p, name, old(v.disk).freeBlocks)
    ensures r.None? ==> Missed(v.geo, d0, v.disk, live, meta, more, lost)
    ensures r.Some? ==> CreatedAs(v.geo, d0, v.disk, live, meta, p, name, r.value, data, uid, gid)
  {
    more, lost := {}, {};
    var born := BirthFile(v, data, uid, gid, block, blocks512, d0, l, live, meta);
    if born.None? { return None, {}, Members(AllOf(l)); }
    var t: nat := born.value;
    ghost var d3 := v.disk;
    BornHome(v.geo, d0, d3, live, meta, p, name, t, data, uid, gid);
    var ok := NameFile(v, p, name, t, data, uid, gid, d0, live, meta);
    if !ok {
      MissedInode(v.geo, d0, d3, live, meta, t, data, uid, gid);
      return None, {t}, {};
    }
    return Some(t), {}, {};
  }

  /** The other half: name it in its directory. */
  method NameFile(v: Volume, p: nat, name: Name, t: nat, ghost data: seq<byte>, ghost uid: nat, ghost gid: nat,
                  ghost d0: Disk, ghost live: set<nat>, ghost meta: set<nat>) returns (ok: bool)
    requires p in live && DirOk(v.geo, d0, p) && BornFile(v.geo, d0, v.disk, live, meta, t, data, uid, gid)
             && DirOk(v.geo, v.disk, p)
    requires name !in Names(v.geo, d0, p) && Names(v.geo, v.disk, p) == Names(v.geo, d0, p) && |name| < 256
             && t + 1 < TWO32 && DirTags(v.geo, v.disk, p) == DirTags(v.geo, d0, p)
    modifies v
    ensures ok <==> Takes(v.geo, old(v.disk), p, name, old(v.disk).freeBlocks)
    ensures !ok ==> v.disk == old(v.disk)
    ensures ok ==> CreatedAs(v.geo, d0, v.disk, live, meta, p, name, t, data, uid, gid)
  {
    ghost var d3 := v.disk;
    ok := DirInsert(v, p, name, t + 1, false, live + {t}, meta);
    if ok { CreateDone(v.geo, d0, d3, v.disk, live, meta, p, name, t, data, uid, gid); }
  }

  /** What overwriting file `t` did. */
  ghost predicate Rewrote(g: Geo, d0: Disk, d: Disk, live: set<nat>, meta: set<nat>, t: nat, data: seq<byte>) {
    && t in live && Mounted(g, d, live, meta) && AllSameBut(g, d0, d, live, t) && t < |d0.inodes| == |d.inodes|
    && Resized(d0.inodes[t], d.inodes[t], |data|, Sectors(g, OwnedBy(d, t)))
    && Tallies(d.groups) == Tallies(d0.groups) && exists l :: Holding(g, d, d.inodes[t], l, data)
  }

  /** The existing-file branch. */
  method ReplaceFile(v: Volume, data: seq<byte>, block: seq<nat>, blocks512: nat,
                     ghost d0: Disk, ghost l: Layout, ghost fill: seq<Write>, ghost live: set<nat>,
                       ghost meta: set<nat>, t: nat)
    returns (ghost ws: seq<Write>)
    requires Mounted(v.geo, d0, live, meta) && t in live && Prepared(v.geo, d0, v.disk, l, data, block, blocks512)
    requires Reached(d0, v.disk, fill) && AllGrow(v.geo, d0, fill)
    modifies v
    ensures Rewrote(v.geo, d0, v.disk, live, meta, t, data)
    ensures BytesOf(v.geo, v.disk, t) == data <==> |data| < TWO32
    ensures AtomicOn(v.geo, d0, v.disk, live, meta, t, ws)
  {
    OwnedAreData(v.geo, d0, live, meta, t);
    var free := CommitData(v, t, |data|, block, blocks512, d0, l, data, fill, live, meta);
    return OverwriteWrites(fill, t, Rewritten(d0.inodes[t], |data|, blocks512, block), free);
  }

  // ---------------------------------------------------------------- write_path_owned

  /** What a successful write did: `t` reads as the data, and it is either the named file or a new one. */
  ghost predicate Written(g: Geo, d0: Disk, d: Disk, live: set<nat>, meta: set<nat>, p: nat, name: Name,
                          data: seq<byte>, uid: nat, gid: nat, t: nat)
    requires Home(g, d0, live, p)
  {
    && (BytesOf(g, d, t) == data <==> |data| < TWO32)
    && if name in Names(g, d0, p) then t == Target(g, d0, live, p, name) && Rewrote(g, d0, d, live, meta, t, data)
       else Created(g, d0, d, live, meta, p, name, t, uid, gid, |data|)
  }

  /** When a write succeeds: room for the data and, for a new file, an inode and room for its name besides. */
  ghost predicate CanWrite(g: Geo, d: Disk, live: set<nat>, p: nat, name: Name, size: nat)
    requires Home(g, d, live, p) && g.BlockSize() > 0
  {
    && |name| < 256 && Enough(g, d, size)
    && (name in Names(g, d, p)
       || (d.freeInodes > 0 && Takes(g, d, p, name, d.freeBlocks - Need(g, BlocksFor(size, g.BlockSize())))))
  }

  /** Every crash state of a write over an existing name shows the old or the new contents of that file. */
  ghost predicate AtomicWrite(g: Geo, d0: Disk, d: Disk, live: set<nat>, meta: set<nat>, p: nat, name: Name,
                              ws: seq<Write>)
    requires Home(g, d0, live, p)
  {
    name in Names(g, d0, p) ==> AtomicOn(g, d0, d, live, meta, Target(g, d0, live, p, name), ws)
  }

  ghost predicate AtomicOn(g: Geo, d0: Disk, d: Disk, live: set<nat>, meta: set<nat>, t: nat, ws: seq<Write>) {
    Reached(d0, d, ws) && Atomic(g, d0, live, meta, t, ws, BytesOf(g, d, t))
  }

  lemma FilledAtomic(g: Geo, d0: Disk, d: Disk, live: set<nat>, meta: set<nat>, t: nat, ws: seq<Write>)
    requires Safe(g, d0, live, meta) && t in live && Reached(d0, d, ws) && AllGrow(g, d0, ws) && SameFile(g, d0, d, t)
    ensures AtomicOn(g, d0, d, live, meta, t, ws)
  {
    FillAtomic(g, d0, live, meta, t, ws);
  }

  /** A write that got no further than filling blocks. */
  lemma FilledOnly(g: Geo, d0: Disk, d: Disk, live: set<nat>, meta: set<nat>, p: nat, name: Name, taken: seq<nat>,
                   ws: seq<Write>)
    requires Mounted(g, d0, live, meta) && Home(g, d0, live, p) && Grew(g, d0, d, taken) && Reached(d0, d, ws)
             && AllGrow(g, d0, ws)
    ensures Missed(g, d0, d, live, meta, {}, Members(taken))
    ensures AtomicWrite(g, d0, d, live, meta, p, name, ws)
  {
    SpiltBlocks(g, d0, d, live, meta, taken);
    if name in Names(g, d0, p) {
      assert SameFile(g, d0, d, Target(g, d0, live, p, name));
      FilledAtomic(g, d0, d, live, meta, Target(g, d0, live, p, name), ws);
    }
  }

  /** `write_path_owned`: lay the data out, then overwrite the named file or create it. */
  method WriteFile(v: Volume, p: nat, name: Name, data: seq<byte>, uid: nat, gid: nat, ghost live: set<nat>,
                   ghost meta: set<nat>)
    returns (r: Option<nat>, ghost more: set<nat>, ghost lost: set<nat>, ghost ws: seq<Write>)
    requires Mounted(v.geo, v.disk, live, meta) && Home(v.geo, v.disk, live, p)
    modifies v
    ensures r.Some? <==> CanWrite(v.geo, old(v.disk), live, p, name, |data|)
    ensures r.None? ==> Missed(v.geo, old(v.disk), v.disk, live, meta, more, lost)
    ensures r.Some? ==> Written(v.geo, old(v.disk), v.disk, live, meta, p, name, data, uid, gid, r.value)
    ensures AtomicWrite(v.geo, old(v.disk), v.disk, live, meta, p, name, ws)
    ensures |name| > 255 ==> v.disk == old(v.disk)
  {
    ghost var d0 := v.disk;
    if |name| > 255 {
      GrewNothing(v.geo, d0);
      FilledOnly(v.geo, d0, d0, live, meta, p, name, [], []);
      return None, {}, Members([]), [];
    }
    var laid, l, taken, fill := LayOutData(v, data);
    if laid.None? {
      FilledOnly(v.geo, d0, v.disk, live, meta, p, name, taken, fill);
      return None, {}, Members(taken), fill;
    }
    r, more, lost, ws := PlaceFile(v, p, name, data, uid, gid, laid.value.0, laid.value.1, d0, l, fill, live,
      meta);
  }

  lemma LaidHome(g: Geo, d0: Disk, d1: Disk, live: set<nat>, meta: set<nat>, p: nat, taken: seq<nat>)
    requires Safe(g, d0, live, meta) && Grew(g, d0, d1, taken) && Home(g, d0, live, p)
    ensures Safe(g, d1, live, meta) && DirOk(g, d1, p) && Names(g, d1, p) == Names(g, d0, p)
  {
    GrewUntouched(g, d0, d1, taken);
    UntouchedFiles(g, d0, d1, live, meta);
    DirStays(g, d0, d1, p);
  }

  lemma GrewUntouched(g: Geo, d0: Disk, d1: Disk, taken: seq<nat>)
    requires Grew(g, d0, d1, taken)
    ensures Untouched(g, d0, d1)
  {
    forall b | Used(g, d0, b) ensures Used(g, d1, b) && BlockAt(d1, b) == BlockAt(d0, b) { assert b !in taken; }
  }

  /** Look the name up, then overwrite or create. */
  method PlaceFile(v: Volume, p: nat, name: Name, data: seq<byte>, uid: nat, gid: nat, block: seq<nat>,
                   blocks512: nat,
                   ghost d0: Disk, ghost l: Layout, ghost fill: seq<Write>, ghost live: set<nat>, ghost meta: set<nat>)
    returns (r: Option<nat>, ghost more: set<nat>, ghost lost: set<nat>, ghost ws: seq<Write>)
    requires Mounted(v.geo, d0, live, meta) && Home(v.geo, d0, live, p) && |name| < 256
    requires Reached(d0, v.disk, fill) && AllGrow(v.geo, d0, fill)
             && Prepared(v.geo, d0, v.disk, l, data, block, blocks512)
    modifies v
    ensures r.Some? <==>
            name in Names(v.geo, d0, p) || (d0.freeInodes > 0 && Takes(v.geo, d0, p, name, old(v.disk).freeBlocks))
    ensures r.None? ==> Missed(v.geo, d0, v.disk, live, meta, more, lost)
    ensures r.Some? ==> Written(v.geo, d0, v.disk, live, meta, p, name, data, uid, gid, r.value)
    ensures AtomicWrite(v.geo, d0, v.disk, live, meta, p, name, ws)
  {
    LaidHome(v.geo, d0, v.disk, live, meta, p, AllOf(l));
    var found := Lookup(v, p, name, live, meta);
    more, lost, ws := {}, {}, [];
    if found.Some? {
      var t: nat := found.value - 1;
      ws := ReplaceFile(v, data, block, blocks512, d0, l, fill, live, meta, t);
      return Some(t), {}, {}, ws;
    }
    r, more, lost := CreateFile(v, p, name, data, uid, gid, block, blocks512, d0, l, live, meta);
  }
}
