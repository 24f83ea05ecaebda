/** `mkdir_path_owned`. */
module Ext2Mkdir {
  import opened Common
  import opened Ext2Disk
  import opened Ext2Alloc
  import opened Ext2Layout
  import opened Ext2Owners
  import opened Ext2Overwrite
  import opened Ext2Adopt
  import opened Ext2Inodes
  import opened Ext2Records
  import opened Ext2Dir
  import opened Ext2Names
  import opened Ext2Entries
  import opened Ext2Links
  import opened Ext2Ops
  import opened Ext2Namespace

  /** The block of an empty directory: `.` and `..`. */
  function DotBlock(bs: nat, self: nat, parent: nat, kind: byte): (r: Block)
    requires bs >= 24
    ensures |r| == bs
  {
    Splice(Splice(ZeroBlock(bs), 0, Encode(self, 12, kind, DOT)), 12, Encode(parent, bs - 12, kind, DOTDOT))
  }

  lemma DotBlockRecs(bs: nat, self: nat, parent: nat, kind: byte)
    requires 24 <= bs < TWO16 && bs % 4 == 0 && 0 < self < TWO32 && 0 < parent < TWO32
    ensures BlockOk(DotBlock(bs, self, parent, kind))
    ensures BlockRecs(DotBlock(bs, self, parent, kind)) == DotRecs(bs, self, parent, kind)
  {
    var one := Splice(ZeroBlock(bs), 0, Encode(self, 12, kind, DOT));
    var two := DotBlock(bs, self, parent, kind);
    WrittenRec(ZeroBlock(bs), 0, self, 12, kind, DOT);
    WrittenRec(one, 12, parent, bs - 12, kind, DOTDOT);
    SpliceKeeps(one, 12, Encode(parent, bs - 12, kind, DOTDOT), 0, 12);
    SameStands(one, 0, Rec(self, 12, kind, DOT), two, 0, 12);
    TwoRecs(Reads(two), 0, Rec(self, 12, kind, DOT), Rec(parent, bs - 12, kind, DOTDOT));
  }

  function DotRecs(bs: nat, self: nat, parent: nat, kind: byte): seq<Rec>
    requires bs >= 24
  {
    [Rec(self, 12, kind, DOT), Rec(parent, bs - 12, kind, DOTDOT)]
  }

  /** What the records of an empty directory say. */
  function DotTags(self: nat, parent: nat, kind: byte): set<Tag> { {Tag(DOT, self, kind), Tag(DOTDOT, parent, kind)} }

  lemma DotDict(self: nat, parent: nat, kind: byte, bs: nat)
    requires self != 0 && parent != 0 && bs >= 24
    ensures var recs := DotRecs(bs, self, parent, kind);
            Unique(recs) && Dict(recs) == DotNames(self, parent)
  {
    var a, b := Rec(self, 12, kind, DOT), Rec(parent, bs - 12, kind, DOTDOT);
    DictCons(b, []);
    DictCons(a, [b]);
    assert [b] + [] == [b] && [a] + [b] == [a, b];
  }

  /** The record of a directory just created. */
  function NewDir(g: Geo, uid: nat, gid: nat, b: nat): Inode {
    Inode(0x41ED, uid % TWO16, gid % TWO16, g.BlockSize(), 2, g.sectors, Zeros(15)[0 := b])
  }

  /** Such a record, whatever its block. */
  predicate IsNewDir(g: Geo, node: Inode, uid: nat, gid: nat) {
    && node.mode == 0x41ED && node.uid == uid % TWO16 && node.gid == gid % TWO16
    && node.size == g.BlockSize() && node.links == 2 && node.blocks512 == g.sectors
  }

  lemma NewDirPtrs(g: Geo, uid: nat, gid: nat, b: nat)
    requires b != 0
    ensures DirShape(g, NewDir(g, uid, gid, b)) && DirPtrs(NewDir(g, uid, gid, b)) == [b]
  {
    var node := NewDir(g, uid, gid, b);
    assert node.block[..12] == [b] + Zeros(11);
    NonZeroConcatZeros([b], 11);
  }

  /** A fresh inode pointing at one fresh block. */
  ghost predicate DirBorn(g: Geo, d0: Disk, d1: Disk, d2: Disk, d3: Disk, t: nat, b: nat, node: Inode) {
    && TookInode(g, d0, d1, t, true, Blank()) && Grew(g, d1, d2, [b]) && b != 0
    && DirShape(g, node) && DirPtrs(node) == [b] && d3 == d2.(inodes := d2.inodes[t := node])
  }

  lemma DirBornAdopted(g: Geo, d0: Disk, d1: Disk, d2: Disk, d3: Disk, live: set<nat>, meta: set<nat>, t: nat, b: nat,
                       node: Inode)
    requires Mounted(g, d0, live, meta) && DirBorn(g, d0, d1, d2, d3, t, b, node)
    ensures t !in live && Adopted(g, d0, d3, live, t, [b])
  {
    DirBornReady(g, d0, d1, d2, d3, t, b, node);
    DirOwned(g, d3, t);
    DirBornBlocks(g, d0, d1, d2, d3, b);
    BornAssembled(g, d0, d3, live, t, [b]);
  }

  lemma DirBornReady(g: Geo, d0: Disk, d1: Disk, d2: Disk, d3: Disk, t: nat, b: nat, node: Inode)
    requires Ready(g, d0) && DirBorn(g, d0, d1, d2, d3, t, b, node)
    ensures Ready(g, d3) && OnlyInode(d0, d3, t, true) && !d0.ibits[t]
  {
    SameUsed(g, d0, d1);
    GrewReady(g, d1, d2, [b]);
    PatchKeepsCounts(g, d2, d3, t, node);
  }

  lemma DirBornBlocks(g: Geo, d0: Disk, d1: Disk, d2: Disk, d3: Disk, b: nat)
    requires d1.bits == d0.bits && d1.blocks == d0.blocks && Grew(g, d1, d2, [b]) && d3.bits == d2.bits
             && d3.blocks == d2.blocks
    ensures forall x :: Used(g, d3, x) <==> Used(g, d0, x) || x in [b]
    ensures forall x :: x in [b] ==> !Used(g, d0, x)
    ensures forall x :: Used(g, d0, x) ==> BlockAt(d3, x) == BlockAt(d0, x)
  {
    SameUsed(g, d0, d1);
    BornBlocks(g, d1, d2, d3, [b]);
  }

  /** The inode half of `mkdir`. */
  ghost predicate Founded(g: Geo, d0: Disk, d: Disk, live: set<nat>, meta: set<nat>, p: nat, t: nat, uid: nat,
                          gid: nat) {
    && t !in live && Mounted(g, d, live + {t}, meta) && Everybody(g, d0, d, live) && g.BlockSize() >= 24
    && DirOk(g, d, t) && Names(g, d, t) == DotNames(t + 1, p + 1) && IsNewDir(g, d.inodes[t], uid, gid)
    && DirTags(g, d, t) == DotTags(t + 1, p + 1, Kind(g, true))
    && Tallies(d.groups) == Retallied(g, Tallies(d0.groups), t, true, 1)
  }

  lemma DotTagged(bs: nat, self: nat, parent: nat, kind: byte)
    requires self != 0 && parent != 0 && bs >= 24
    ensures Tags(DotRecs(bs, self, parent, kind)) == DotTags(self, parent, kind)
  {
    var a, b := Rec(self, 12, kind, DOT), Rec(parent, bs - 12, kind, DOTDOT);
    TagsOne(a);
    TagsOne(b);
    TagsConcat([a], [b]);
    assert [a] + [b] == [a, b];
  }

  lemma FoundedNames(g: Geo, d: Disk, t: nat, b: nat, self: nat, parent: nat, kind: byte)
    requires t < |d.inodes| && DirShape(g, d.inodes[t]) && DirPtrs(d.inodes[t]) == [b] && self != 0 && parent != 0
             && g.BlockSize() >= 24
    requires BlockOk(BlockAt(d, b)) && BlockRecs(BlockAt(d, b)) == DotRecs(g.BlockSize(), self, parent, kind)
    ensures DirOk(g, d, t) && Names(g, d, t) == DotNames(self, parent)
            && DirTags(g, d, t) == DotTags(self, parent, kind)
  {
    DirRecsOne(d, b);
    DotDict(self, parent, kind, g.BlockSize());
    DotTagged(g.BlockSize(), self, parent, kind);
  }

  lemma FoundedDone(g: Geo, d0: Disk, d1: Disk, d2: Disk, d3: Disk, live: set<nat>, meta: set<nat>, p: nat, t: nat,
                    b: nat, uid: nat, gid: nat)
    requires Mounted(g, d0, live, meta) && DirBorn(g, d0, d1, d2, d3, t, b, NewDir(g, uid, gid, b))
             && g.BlockSize() >= 24
    requires BlockOk(BlockAt(d3, b)) && BlockRecs(BlockAt(d3, b)) == DotRecs(g.BlockSize(), t + 1, p + 1, Kind(g, true))
    ensures Founded(g, d0, d3, live, meta, p, t, uid, gid)
  {
    DirBornAdopted(g, d0, d1, d2, d3, live, meta, t, b, NewDir(g, uid, gid, b));
    AdoptKeeps(g, d0, d3, live, meta, t, [b]);
    FoundedNames(g, d3, t, b, t + 1, p + 1, Kind(g, true));
    SameTallies(d1.groups, d2.groups);
  }

  /** An attempt that got no further than inode `t`: it is counted as a directory, and is one if a block was free. */
  ghost predicate StuckAt(g: Geo, d0: Disk, d: Disk, live: set<nat>, t: nat) {
    && ValidGeo(g) && t !in live && t < |d.inodes| && Tallies(d.groups) == Retallied(g, Tallies(d0.groups), t, true, 1)
    && (IsDirectory(d.inodes[t]) <==> d0.freeBlocks > 0)
  }

  /** A failed `mkdir`: it changed nothing, or got stuck at an inode. */
  ghost predicate Stuck(g: Geo, d0: Disk, d: Disk, live: set<nat>, meta: set<nat>, more: set<nat>) {
    && Spilt(g, d0, d, live, meta, more, {})
    && ((more == {} && d == d0) || exists t :: more == {t} && StuckAt(g, d0, d, live, t))
  }

  lemma StuckNowhere(g: Geo, d: Disk, live: set<nat>, meta: set<nat>)
    requires Mounted(g, d, live, meta)
    ensures Stuck(g, d, d, live, meta, {})
  {
    SpiltNothing(g, d, live, meta);
  }

  lemma StuckThere(g: Geo, d0: Disk, d: Disk, live: set<nat>, meta: set<nat>, t: nat)
    requires Spilt(g, d0, d, live, meta, {t}, {}) && StuckAt(g, d0, d, live, t)
    ensures Stuck(g, d0, d, live, meta, {t})
  {
  }

  /** An inode that is taken but points at nothing. */
  lemma TookSpilt(g: Geo, d0: Disk, d1: Disk, live: set<nat>, meta: set<nat>, t: nat)
    requires Mounted(g, d0, live, meta) && TookInode(g, d0, d1, t, true, Blank())
    ensures Spilt(g, d0, d1, live, meta, {t}, {})
  {
    SameUsed(g, d0, d1);
    BlankOwned(d1, t);
    BornAssembled(g, d0, d1, live, t, []);
    AdoptKeeps(g, d0, d1, live, meta, t, []);
    SpiltInode(g, d0, d1, live, meta, t);
  }

  lemma TookStuck(g: Geo, d0: Disk, d1: Disk, live: set<nat>, meta: set<nat>, t: nat)
    requires Mounted(g, d0, live, meta) && TookInode(g, d0, d1, t, true, Blank()) && d0.freeBlocks == 0
    ensures Stuck(g, d0, d1, live, meta, {t})
  {
    TookSpilt(g, d0, d1, live, meta, t);
    BlankStuck(g, d0, d1, live, t);
    StuckThere(g, d0, d1, live, meta, t);
  }

  lemma BlankStuck(g: Geo, d0: Disk, d1: Disk, live: set<nat>, t: nat)
    requires TookInode(g, d0, d1, t, true, Blank()) && d0.freeBlocks == 0 && t !in live
    ensures StuckAt(g, d0, d1, live, t)
  {
    assert !IsDirectory(Blank());
  }

  lemma FoundedStuck(g: Geo, d0: Disk, d: Disk, live: set<nat>, meta: set<nat>, p: nat, t: nat, uid: nat, gid: nat)
    requires Founded(g, d0, d, live, meta, p, t, uid, gid) && d0.freeBlocks > 0
    ensures Stuck(g, d0, d, live, meta, {t})
  {
    SpiltInode(g, d0, d, live, meta, t);
    NewDirKind(d.inodes[t]);
    StuckThere(g, d0, d, live, meta, t);
  }

  lemma BlankOwned(d: Disk, t: nat)
    requires t < |d.inodes| && d.inodes[t] == Blank()
    ensures OwnedBy(d, t) == []
  {
    NonZeroConcatZeros([], 12);
    assert Blank().block[..12] == [] + Zeros(12);
  }

  /** Fails exactly when there is no free inode or no free block. */
  method FoundDir(v: Volume, p: nat, uid: nat, gid: nat, ghost live: set<nat>, ghost meta: set<nat>)
    returns (r: Option<nat>, ghost more: set<nat>)
    requires Mounted(v.geo, v.disk, live, meta) && p in live
    modifies v
    ensures r.Some? <==> old(v.disk).freeInodes > 0 && old(v.disk).freeBlocks > 0
    ensures r.None? ==>
              Stuck(v.geo, old(v.disk), v.disk, live, meta, more) && (more == {} <==> old(v.disk).freeInodes == 0)
    ensures r.Some? ==>
            Founded(v.geo, old(v.disk), v.disk, live, meta, p, r.value, uid, gid)
                    && v.disk.freeBlocks == old(v.disk).freeBlocks - 1
  {
    ghost var d0 := v.disk;
    more := {};
    var a := AllocInode(v, true);
    if a.None? {
      StuckNowhere(v.geo, d0, live, meta);
      return None, {};
    }
    var t: nat := a.value;
    var ok := FillDir(v, p, t, uid, gid, d0, live, meta);
    if !ok { return None, {t}; }
    return Some(t), {};
  }

  /** The one block of a new directory, and its record. */
  method FillDir(v: Volume, p: nat, t: nat, uid: nat, gid: nat, ghost d0: Disk, ghost live: set<nat>,
                 ghost meta: set<nat>)
    returns (ok: bool)
    requires Mounted(v.geo, d0, live, meta) && p in live && TookInode(v.geo, d0, v.disk, t, true, Blank())
    modifies v
    ensures ok <==> d0.freeBlocks > 0
    ensures !ok ==> Stuck(v.geo, d0, v.disk, live, meta, {t})
    ensures ok ==>
            Founded(v.geo, d0, v.disk, live, meta, p, t, uid, gid) && v.disk.freeBlocks == d0.freeBlocks - 1
  {
    ghost var d1 := v.disk;
    assert FileOk(v.geo, d0, meta, p);
    InodeNumbers(v.geo, d0, meta, p, t);
    var kind := Kind(v.geo, true);
    DotBlockRecs(v.geo.BlockSize(), t + 1, p + 1, kind);
    var a, ws := FillOne(v, DotBlock(v.geo.BlockSize(), t + 1, p + 1, kind));
    if a.None? {
      TookStuck(v.geo, d0, d1, live, meta, t);
      return false;
    }
    var b: nat := a.value;
    ghost var d2 := v.disk;
    TakenPositive(v.geo, d0, d1, d2, t, b);
    NewDirPtrs(v.geo, uid, gid, b);
    v.disk := Apply(v.disk, SetInode(t, NewDir(v.geo, uid, gid, b)));
    FoundedDone(v.geo, d0, d1, d2, v.disk, live, meta, p, t, b, uid, gid);
    return true;
  }

  /** Inode numbers fit their 32-bit field. */
  lemma InodeNumbers(g: Geo, d: Disk, meta: set<nat>, p: nat, t: nat)
    requires Shaped(g, d) && FileOk(g, d, meta, p) && t < |d.ibits|
    ensures p + 1 < TWO32 && t + 1 < TWO32 && 24 <= g.BlockSize() < TWO16 && g.BlockSize() % 4 == 0
  {
  }

  lemma TakenPositive(g: Geo, d0: Disk, d1: Disk, d2: Disk, t: nat, b: nat)
    requires Ready(g, d0) && TookInode(g, d0, d1, t, true, Blank()) && Grew(g, d1, d2, [b])
    ensures b != 0
  {
    SameUsed(g, d0, d1);
    GrewReady(g, d1, d2, [b]);
    assert b in [b];
  }

  /** What creating directory `t` did below directory `p`, which gains a link. */
  ghost predicate DirMade(g: Geo, d0: Disk, d: Disk, live: set<nat>, meta: set<nat>, p: nat, name: Name, t: nat,
                          uid: nat, gid: nat)
    requires DirOk(g, d0, p)
  {
    && t !in live && Mounted(g, d, live + {t}, meta) && AllSameBut(g, d0, d, live, p)
    && DirOk(g, d, p) && Names(g, d, p) == Names(g, d0, p)[name := t + 1]
       && Titled(d0, d, p, Bumped(d0.inodes[p].links, 1)) && Tagged(g, d0, d, p, name, t + 1, Kind(g, true))
    && DirOk(g, d, t) && Names(g, d, t) == DotNames(t + 1, p + 1) && IsNewDir(g, d.inodes[t], uid, gid)
    && DirTags(g, d, t) == DotTags(t + 1, p + 1, Kind(g, true))
    && Tallies(d.groups) == Retallied(g, Tallies(d0.groups), t, true, 1)
  }

  /** What naming a directory in its parent did. */
  ghost predicate Enlisted(g: Geo, d: Disk, d': Disk, live: set<nat>, meta: set<nat>, p: nat, name: Name, child: nat)
    requires DirOk(g, d, p)
  {
    && Bound(g, d, d', live, meta, p, name, child, Bumped(d.inodes[p].links, 1))
    && Tagged(g, d, d', p, name, child, Kind(g, true)) && Tallies(d'.groups) == Tallies(d.groups)
  }

  lemma MkdirDone(g: Geo, d0: Disk, d1: Disk, d2: Disk, live: set<nat>, meta: set<nat>, p: nat, name: Name, t: nat,
                  uid: nat, gid: nat)
    requires p in live && DirOk(g, d0, p) && Founded(g, d0, d1, live, meta, p, t, uid, gid)
    requires DirOk(g, d1, p) && Enlisted(g, d1, d2, live + {t}, meta, p, name, t + 1)
    ensures DirMade(g, d0, d2, live, meta, p, name, t, uid, gid)
  {
    FoundedHome(g, d0, d1, live, meta, p, name, t, uid, gid);
    assert SameFile(g, d0, d1, p) && SameFile(g, d1, d2, t);
    DirStays(g, d1, d2, t);
    CreateOthers(g, d0, d1, d2, live, p, t);
  }

  lemma EnlistDone(g: Geo, d1: Disk, d2: Disk, d3: Disk, live: set<nat>, meta: set<nat>, p: nat, name: Name, child: nat)
    requires p in live && DirOk(g, d1, p) && Inserted(g, d1, d2, live, meta, p, name, child, Kind(g, true))
             && Relinked(d2, d3, p)
    requires d3.inodes[p].mode == d2.inodes[p].mode && d3.inodes[p].links == Bumped(d2.inodes[p].links, 1)
    ensures Enlisted(g, d1, d3, live, meta, p, name, child)
  {
    RelinkKeeps(g, d2, d3, live, meta, p);
    RelinkNames(g, d2, d3, p);
    forall i | i in live && i != p ensures SameFile(g, d1, d3, i) {
      assert SameFile(g, d1, d2, i) && SameFile(g, d2, d3, i);
    }
  }

  /** Name a directory in its parent, which gains a link from the child's `..`. */
  method Enlist(v: Volume, p: nat, name: Name, child: nat, ghost live: set<nat>, ghost meta: set<nat>)
    returns (ok: bool)
    requires Mounted(v.geo, v.disk, live, meta) && p in live && DirOk(v.geo, v.disk, p)
             && name !in Names(v.geo, v.disk, p)
    requires |name| < 256 && 0 < child < TWO32
    modifies v
    ensures ok <==> Takes(v.geo, old(v.disk), p, name, old(v.disk).freeBlocks)
    ensures !ok ==> v.disk == old(v.disk)
    ensures ok ==> Enlisted(v.geo, old(v.disk), v.disk, live, meta, p, name, child)
  {
    ghost var d1 := v.disk;
    ok := DirInsert(v, p, name, child, true, live, meta);
    if ok {
      ghost var d2 := v.disk;
      BumpLinks(v, p, 1);
      EnlistDone(v.geo, d1, d2, v.disk, live, meta, p, name, child);
    }
  }

  /** When `mkdir` succeeds: a new name, a free inode, a free block, and room for the name besides. */
  ghost predicate CanMkdir(g: Geo, d: Disk, p: nat, name: Name)
    requires DirOk(g, d, p)
  {
    name !in Names(g, d, p) && d.freeInodes > 0 && d.freeBlocks > 0 && Takes(g, d, p, name, d.freeBlocks - 1)
  }

  /**
   `mkdir_path_owned`: success adds an empty directory holding `.` and `..`, names it in `p`, and keeps everything
   else; an existing name fails and changes nothing; any other failure leaves every file as it was.
   */
  method Mkdir(v: Volume, p: nat, name: Name, uid: nat, gid: nat, ghost live: set<nat>,
               ghost meta: set<nat>)
    returns (r: Option<nat>, ghost more: set<nat>)
    requires Mounted(v.geo, v.disk, live, meta) && Home(v.geo, v.disk, live, p) && |name| < 256
    modifies v
    ensures r.Some? <==> CanMkdir(v.geo, old(v.disk), p, name)
    ensures old(name in Names(v.geo, v.disk, p)) ==> v.disk == old(v.disk)
    ensures r.None? ==>
              Stuck(v.geo, old(v.disk), v.disk, live, meta, more)
              && (more == {} <==> old(name in Names(v.geo, v.disk, p) || v.disk.freeInodes == 0))
    ensures r.Some? ==> DirMade(v.geo, old(v.disk), v.disk, live, meta, p, name, r.value, uid, gid)
  {
    more := {};
    var found := Lookup(v, p, name, live, meta);
    if found.Some? {
      StuckNowhere(v.geo, v.disk, live, meta);
      return None, {};
    }
    r, more := MakeDir(v, p, name, uid, gid, live, meta);
  }

  lemma FoundedHome(g: Geo, d0: Disk, d1: Disk, live: set<nat>, meta: set<nat>, p: nat, name: Name, t: nat, uid: nat,
                    gid: nat)
    requires p in live && DirOk(g, d0, p) && Founded(g, d0, d1, live, meta, p, t, uid, gid)
    ensures p in live + {t} && t + 1 < TWO32 && DirOk(g, d1, p) && Names(g, d1, p) == Names(g, d0, p)
            && DirTags(g, d1, p) == DirTags(g, d0, p)
    ensures forall n: nat :: Takes(g, d1, p, name, n) <==> Takes(g, d0, p, name, n)
  {
    assert SameFile(g, d0, d1, p);
    DirStays(g, d0, d1, p);
    assert t in live + {t};
  }

  method MakeDir(v: Volume, p: nat, name: Name, uid: nat, gid: nat, ghost live: set<nat>,
                 ghost meta: set<nat>)
    returns (r: Option<nat>, ghost more: set<nat>)
    requires Mounted(v.geo, v.disk, live, meta) && p in live && DirOk(v.geo, v.disk, p)
             && name !in Names(v.geo, v.disk, p) && |name| < 256
    modifies v
    ensures r.Some? <==> CanMkdir(v.geo, old(v.disk), p, name)
    ensures r.None? ==>
              Stuck(v.geo, old(v.disk), v.disk, live, meta, more)
              && (more == {} <==> old(name in Names(v.geo, v.disk, p) || v.disk.freeInodes == 0))
    ensures r.Some? ==> DirMade(v.geo, old(v.disk), v.disk, live, meta, p, name, r.value, uid, gid)
  {
    ghost var d0 := v.disk;
    var a;
    a, more := FoundDir(v, p, uid, gid, live, meta);
    if a.None? { return None, more; }
    ghost var d1 := v.disk;
    var t: nat := a.value;
    FoundedHome(v.geo, d0, d1, live, meta, p, name, t, uid, gid);
    var ok := Enlist(v, p, name, t + 1, live + {t}, meta);
    if !ok {
      FoundedStuck(v.geo, d0, d1, live, meta, p, t, uid, gid);
      return None, {t};
    }
    MkdirDone(v.geo, d0, d1, v.disk, live, meta, p, name, t, uid, gid);
    return Some(t), {};
  }
}
