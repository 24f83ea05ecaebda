/** Directories on the volume: `lookup`, `dir_insert` and `dir_remove` over a directory's blocks. */
module Ext2Names {
  import opened Common
  import opened Ext2Disk
  import opened Ext2Alloc
  import opened Ext2Layout
  import opened Ext2Owners
  import opened Ext2Overwrite
  import opened Ext2Adopt
  import opened Ext2Read
  import opened Ext2Records
  import opened Ext2Dir

  // ---------------------------------------------------------------- a directory as records

  /** A directory's blocks: its direct pointers. */
  function DirPtrs(node: Inode): seq<nat>
    requires |node.block| == 15
  {
    NonZero(node.block[..12])
  }

  ghost predicate BlocksOk(d: Disk, ptrs: seq<nat>) {
    forall i :: 0 <= i < |ptrs| ==> BlockOk(BlockAt(d, ptrs[i]))
  }

  ghost function DirRecs(d: Disk, ptrs: seq<nat>): seq<Rec>
    requires BlocksOk(d, ptrs)
  {
    if ptrs == [] then [] else BlockRecs(BlockAt(d, ptrs[0])) + DirRecs(d, ptrs[1..])
  }

  /** Direct blocks only, without holes, all counted in the size. */
  ghost predicate DirShape(g: Geo, node: Inode) {
    && |node.block| == 15 && node.block[12] == 0 && node.block[13] == 0
    && |DirPtrs(node)| <= 12 && node.block[..12] == DirPtrs(node) + Zeros(12 - |DirPtrs(node)|)
    && node.size == |DirPtrs(node)| * g.BlockSize()
  }

  /** A well-formed directory: every block is one record chain, and no name occurs twice. */
  ghost predicate DirOk(g: Geo, d: Disk, t: nat) {
    && t < |d.inodes| && DirShape(g, d.inodes[t])
    && BlocksOk(d, DirPtrs(d.inodes[t])) && Unique(DirRecs(d, DirPtrs(d.inodes[t])))
  }

  /** The names in a directory. */
  ghost function Names(g: Geo, d: Disk, t: nat): map<Name, nat>
    requires DirOk(g, d, t)
  {
    Dict(DirRecs(d, DirPtrs(d.inodes[t])))
  }

  /** The same with what each record says of its inode. */
  ghost function DirTags(g: Geo, d: Disk, t: nat): set<Tag>
    requires DirOk(g, d, t)
  {
    Tags(DirRecs(d, DirPtrs(d.inodes[t])))
  }

  /** Some record of the directory has room for the name. */
  ghost predicate HasGap(g: Geo, d: Disk, t: nat, name: Name)
    requires DirOk(g, d, t)
  {
    Roomy(DirRecs(d, DirPtrs(d.inodes[t])), name)
  }

  lemma {:induction false} SameDirRecs(d: Disk, d': Disk, ptrs: seq<nat>)
    requires BlocksOk(d, ptrs) && forall i :: 0 <= i < |ptrs| ==> BlockAt(d', ptrs[i]) == BlockAt(d, ptrs[i])
    ensures BlocksOk(d', ptrs) && DirRecs(d', ptrs) == DirRecs(d, ptrs)
  {
    if ptrs != [] { SameDirRecs(d, d', ptrs[1..]); }
  }

  lemma {:induction false} DirRecsConcat(d: Disk, a: seq<nat>, b: seq<nat>)
    requires BlocksOk(d, a) && BlocksOk(d, b)
    ensures BlocksOk(d, a + b) && DirRecs(d, a + b) == DirRecs(d, a) + DirRecs(d, b)
  {
    if a == [] {
      assert a + b == b;
    } else {
      assert (a + b)[1..] == a[1..] + b;
      DirRecsConcat(d, a[1..], b);
      ConcatAssoc(BlockRecs(BlockAt(d, a[0])), DirRecs(d, a[1..]), DirRecs(d, b));
    }
  }

  lemma DirRecsOne(d: Disk, b: nat)
    requires BlockOk(BlockAt(d, b))
    ensures BlocksOk(d, [b]) && DirRecs(d, [b]) == BlockRecs(BlockAt(d, b))
  {
    assert [b][1..] == [];
  }

  /** A directory owns its direct blocks and nothing else. */
  lemma DirOwned(g: Geo, d: Disk, t: nat)
    requires t < |d.inodes| && DirShape(g, d.inodes[t])
    ensures OwnedBy(d, t) == DirPtrs(d.inodes[t])
  {
  }

  /** A directory whose record and blocks are untouched has the same names. */
  lemma DirStays(g: Geo, d: Disk, d': Disk, t: nat)
    requires DirOk(g, d, t) && SameFile(g, d, d', t)
    ensures DirOk(g, d', t) && Names(g, d', t) == Names(g, d, t) && DirTags(g, d', t) == DirTags(g, d, t)
    ensures forall name :: HasGap(g, d', t, name) <==> HasGap(g, d, t, name)
  {
    DirOwned(g, d, t);
    var ptrs := DirPtrs(d.inodes[t]);
    forall i | 0 <= i < |ptrs| ensures BlockAt(d', ptrs[i]) == BlockAt(d, ptrs[i]) { assert ptrs[i] in OwnedBy(d, t); }
    SameDirRecs(d, d', ptrs);
  }

  // ---------------------------------------------------------------- lookup

  /** Two chains one after the other are one chain. */
  lemma JoinBlocks(a: Block, b: Block)
    requires BlockOk(a) && BlockOk(b)
    ensures BlockOk(a + b) && BlockRecs(a + b) == BlockRecs(a) + BlockRecs(b)
  {
    var c := a + b;
    assert a[0..|a|] == c[0..|a|] && b[0..|b|] == c[|a|..|c|];
    SameAgree(a, 0, |a|, c, 0);
    SameRecs(Reads(a), 0, |a|, Reads(c), 0);
    SameAgree(b, 0, |b|, c, |a|);
    SameRecs(Reads(b), 0, |b|, Reads(c), |a|);
    ChainJoin(Reads(c), 0, |a|, |c|);
  }

  lemma {:induction false} DataIsRecs(g: Geo, d: Disk, ptrs: seq<nat>)
    requires BlocksOk(d, ptrs) && forall i :: 0 <= i < |ptrs| ==> ptrs[i] != 0
    ensures BlockOk(Contents(g, d, ptrs)) && BlockRecs(Contents(g, d, ptrs)) == DirRecs(d, ptrs)
  {
    if ptrs == [] {
      assert Contents(g, d, ptrs) == [];
    } else {
      DataIsRecs(g, d, ptrs[1..]);
      JoinBlocks(BlockAt(d, ptrs[0]), Contents(g, d, ptrs[1..]));
    }
  }

  lemma {:induction false} NonZeroAll(s: seq<nat>)
    ensures forall i :: 0 <= i < |NonZero(s)| ==> NonZero(s)[i] != 0
  {
    if s != [] { NonZeroAll(s[..|s| - 1]); }
  }

  lemma {:induction false} ContentsLength(g: Geo, d: Disk, ptrs: seq<nat>)
    requires Shaped(g, d) && forall i :: 0 <= i < |ptrs| ==> 0 < ptrs[i] < |d.blocks|
    ensures |Contents(g, d, ptrs)| == |ptrs| * g.BlockSize()
  {
    if ptrs != [] {
      ContentsLength(g, d, ptrs[1..]);
      MulSucc(|ptrs| - 1, g.BlockSize());
    }
  }

  lemma WholeBlocks(k: nat, bs: nat)
    requires bs > 0
    ensures BlocksFor(k * bs, bs) == k
  {
    DivUnique(k * bs + bs - 1, bs, k);
  }

  /** Reading the directory as a file gives its blocks, one after the other. */
  lemma DirBytes(g: Geo, d: Disk, t: nat)
    requires Shaped(g, d) && DirOk(g, d, t) && forall b :: b in DirPtrs(d.inodes[t]) ==> b < |d.blocks|
    ensures FileBytes(g, d, d.inodes[t]) == Contents(g, d, DirPtrs(d.inodes[t]))
  {
    var node := d.inodes[t];
    var ptrs := DirPtrs(node);
    NonZeroAll(node.block[..12]);
    forall i | 0 <= i < |ptrs| ensures 0 < ptrs[i] < |d.blocks| { assert ptrs[i] in ptrs; }
    ContentsLength(g, d, ptrs);
    WholeBlocks(|ptrs|, g.BlockSize());
    if |ptrs| > 0 {
      MulMono(1, |ptrs|, g.BlockSize());
      assert node.block[..|ptrs|] == node.block[..12][..|ptrs|] == ptrs;
      assert BlockMap(g, d, node) == ptrs;
    }
  }

  /** `lookup`: read the directory as a file and scan it. */
  method Lookup(v: Volume, t: nat, name: Name, ghost live: set<nat>, ghost meta: set<nat>) returns (r: Option<nat>)
    requires Shaped(v.geo, v.disk) && Safe(v.geo, v.disk, live, meta) && t in live && DirOk(v.geo, v.disk, t)
    ensures r == if name in Names(v.geo, v.disk, t) then Some(Names(v.geo, v.disk, t)[name]) else None
  {
    MapInBounds(v.geo, v.disk, live, meta, t);
    var data := ReadFile(v.geo, v.disk, v.disk.inodes[t]);
    DirReadsAs(v.geo, v.disk, live, meta, t);
    r := LookupInData(data, name);
    LookupIsDict(BlockRecs(data), name);
  }

  lemma DirReadsAs(g: Geo, d: Disk, live: set<nat>, meta: set<nat>, t: nat)
    requires Shaped(g, d) && Safe(g, d, live, meta) && t in live && DirOk(g, d, t)
    ensures var data := FileBytes(g, d, d.inodes[t]);
            BlockOk(data) && BlockRecs(data) == DirRecs(d, DirPtrs(d.inodes[t]))
  {
    var ptrs := DirPtrs(d.inodes[t]);
    assert FileOk(g, d, meta, t);
    DirOwned(g, d, t);
    forall b | b in ptrs ensures b < |d.blocks| { assert Used(g, d, b); }
    DirBytes(g, d, t);
    NonZeroAll(d.inodes[t].block[..12]);
    DataIsRecs(g, d, ptrs);
  }

  // ---------------------------------------------------------------- editing one block of a directory

  /** What rewriting one block did to its bindings: `name` now maps to `child`, or is gone. */
  ghost predicate BlockEdit(was: Block, now: Block, name: Name, child: Option<nat>) {
    && BlockOk(was) && BlockOk(now) && |now| == |was|
    && (Unique(BlockRecs(was)) ==> Unique(BlockRecs(now)))
    && Dict(BlockRecs(now)) == Edited(Dict(BlockRecs(was)), name, child)
  }

  function Edited(m: map<Name, nat>, name: Name, child: Option<nat>): map<Name, nat> {
    match child case Some(c) => m[name := c] case None => m - {name}
  }

  lemma EditMaps(a: map<Name, nat>, x: map<Name, nat>, x': map<Name, nat>, c: map<Name, nat>, name: Name,
                 child: Option<nat>)
    requires x' == Edited(x, name, child) && name !in a && name !in c
    ensures (c + x') + a == Edited((c + x) + a, name, child)
    ensures x.Keys !! c.Keys ==> x'.Keys !! c.Keys
    ensures a.Keys !! (c + x).Keys ==> a.Keys !! (c + x').Keys
  {
    assert (c + x') + a == Edited((c + x) + a, name, child);
  }

  /** An edit in the middle of a record list is an edit of the whole, if the name is nowhere else. */
  lemma EditMiddle(a: seq<Rec>, x: seq<Rec>, x': seq<Rec>, c: seq<Rec>, name: Name, child: Option<nat>)
    requires Unique(a + (x + c)) && Unique(x') && Dict(x') == Edited(Dict(x), name, child)
    requires name !in Dict(a) && name !in Dict(c)
    ensures Unique(a + (x' + c)) && Dict(a + (x' + c)) == Edited(Dict(a + (x + c)), name, child)
  {
    DictConcat(x, c);
    DictConcat(a, x + c);
    DictConcat(x', c);
    DictConcat(a, x' + c);
    EditMaps(Dict(a), Dict(x), Dict(x'), Dict(c), name, child);
  }

  /** Block `j` of a directory, with what stands before and after it. */
  lemma DirSplit(d: Disk, ptrs: seq<nat>, j: nat)
    requires BlocksOk(d, ptrs) && j < |ptrs|
    ensures BlocksOk(d, ptrs[..j]) && BlocksOk(d, ptrs[j + 1..]) && BlockOk(BlockAt(d, ptrs[j]))
    ensures DirRecs(d, ptrs) == DirRecs(d, ptrs[..j]) + (BlockRecs(BlockAt(d, ptrs[j])) + DirRecs(d, ptrs[j + 1..]))
  {
    assert ptrs == ptrs[..j] + ([ptrs[j]] + ptrs[j + 1..]);
    DirRecsOne(d, ptrs[j]);
    DirRecsConcat(d, [ptrs[j]], ptrs[j + 1..]);
    DirRecsConcat(d, ptrs[..j], [ptrs[j]] + ptrs[j + 1..]);
  }

  /** The name is in no block but `j`. */
  ghost predicate OnlyIn(d: Disk, ptrs: seq<nat>, j: nat, name: Name)
    requires BlocksOk(d, ptrs) && j < |ptrs|
  {
    name !in Dict(DirRecs(d, ptrs[..j])) && name !in Dict(DirRecs(d, ptrs[j + 1..]))
  }

  lemma SplitNames(d: Disk, ptrs: seq<nat>, j: nat)
    requires BlocksOk(d, ptrs) && j < |ptrs| && Unique(DirRecs(d, ptrs))
    ensures var a, x, c := Dict(DirRecs(d, ptrs[..j])), Dict(BlockRecs(BlockAt(d, ptrs[j]))),
            Dict(DirRecs(d, ptrs[j + 1..]));
            && Unique(BlockRecs(BlockAt(d, ptrs[j])))
            && a.Keys !! x.Keys && x.Keys !! c.Keys && Dict(DirRecs(d, ptrs)).Keys == a.Keys + x.Keys + c.Keys
            && (forall n :: n in x ==> Dict(DirRecs(d, ptrs))[n] == x[n])
  {
    DirSplit(d, ptrs, j);
    var a, x, c := DirRecs(d, ptrs[..j]), BlockRecs(BlockAt(d, ptrs[j])), DirRecs(d, ptrs[j + 1..]);
    DictConcat(x, c);
    DictConcat(a, x + c);
  }

  /** A name found in block `j`, or in no block at all, is in no other block. */
  lemma FoundOnlyIn(d: Disk, ptrs: seq<nat>, j: nat, name: Name)
    requires BlocksOk(d, ptrs) && j < |ptrs| && Unique(DirRecs(d, ptrs))
    requires name in Dict(BlockRecs(BlockAt(d, ptrs[j]))) || name !in Dict(DirRecs(d, ptrs))
    ensures OnlyIn(d, ptrs, j, name) && Unique(BlockRecs(BlockAt(d, ptrs[j])))
  {
    SplitNames(d, ptrs, j);
  }

  lemma OthersSame(d: Disk, d': Disk, ptrs: seq<nat>, j: nat)
    requires BlocksOk(d, ptrs) && NoDup(ptrs) && j < |ptrs| && BlockOk(BlockAt(d', ptrs[j]))
    requires forall b :: b != ptrs[j] ==> BlockAt(d', b) == BlockAt(d, b)
    ensures BlocksOk(d', ptrs) && BlocksOk(d, ptrs[..j]) && BlocksOk(d', ptrs[..j]) && BlocksOk(d, ptrs[j + 1..])
            && BlocksOk(d', ptrs[j + 1..])
    ensures DirRecs(d', ptrs[..j]) == DirRecs(d, ptrs[..j]) && DirRecs(d', ptrs[j + 1..]) == DirRecs(d, ptrs[j + 1..])
  {
    SameDirRecs(d, d', ptrs[..j]);
    SameDirRecs(d, d', ptrs[j + 1..]);
    forall i | 0 <= i < |ptrs| ensures BlockOk(BlockAt(d', ptrs[i])) {
      if i != j { assert ptrs[i] != ptrs[j]; }
    }
  }

  lemma EditRecs(d: Disk, d': Disk, ptrs: seq<nat>, j: nat, name: Name, child: Option<nat>)
    requires BlocksOk(d, ptrs) && NoDup(ptrs) && Unique(DirRecs(d, ptrs)) && j < |ptrs| && OnlyIn(d, ptrs, j, name)
    requires Unique(BlockRecs(BlockAt(d, ptrs[j]))) && BlockEdit(BlockAt(d, ptrs[j]), BlockAt(d', ptrs[j]), name, child)
    requires forall b :: b != ptrs[j] ==> BlockAt(d', b) == BlockAt(d, b)
    ensures BlocksOk(d', ptrs) && Unique(DirRecs(d', ptrs))
            && Dict(DirRecs(d', ptrs)) == Edited(Dict(DirRecs(d, ptrs)), name, child)
  {
    DirSplit(d, ptrs, j);
    OthersSame(d, d', ptrs, j);
    DirSplit(d', ptrs, j);
    EditMiddle(DirRecs(d, ptrs[..j]), BlockRecs(BlockAt(d, ptrs[j])), BlockRecs(BlockAt(d', ptrs[j])),
               DirRecs(d, ptrs[j + 1..]), name, child);
  }

  /** Block `j` of directory `t` has been rewritten. */
  ghost predicate DirEdit(g: Geo, d: Disk, d': Disk, t: nat, j: nat, name: Name, child: Option<nat>, now: Block)
    requires DirOk(g, d, t)
  {
    var ptrs := DirPtrs(d.inodes[t]);
    && j < |ptrs| && ptrs[j] < |d.blocks| && OnlyIn(d, ptrs, j, name) && Unique(BlockRecs(BlockAt(d, ptrs[j])))
    && BlockEdit(d.blocks[ptrs[j]], now, name, child) && d' == d.(blocks := d.blocks[ptrs[j] := now])
  }

  lemma DirEditNames(g: Geo, d: Disk, d': Disk, t: nat, j: nat, name: Name, child: Option<nat>, now: Block)
    requires DirOk(g, d, t) && NoDup(DirPtrs(d.inodes[t])) && DirEdit(g, d, d', t, j, name, child, now)
    ensures DirOk(g, d', t) && Names(g, d', t) == Edited(Names(g, d, t), name, child)
  {
    var ptrs := DirPtrs(d.inodes[t]);
    assert BlockAt(d', ptrs[j]) == now;
    EditRecs(d, d', ptrs, j, name, child);
  }

  ghost function EditedTags(ts: set<Tag>, name: Name, child: Option<nat>, kind: byte): set<Tag> {
    match child case Some(c) => ts + {Tag(name, c, kind)} case None => Untagged(ts, name)
  }

  lemma TagsMiddle(a: seq<Rec>, x: seq<Rec>, x': seq<Rec>, c: seq<Rec>, name: Name, child: Option<nat>, kind: byte)
    requires Tags(x') == EditedTags(Tags(x), name, child, kind) && name !in Dict(a) && name !in Dict(c)
    ensures Tags(a + (x' + c)) == EditedTags(Tags(a + (x + c)), name, child, kind)
  {
    TagsConcat(x, c);
    TagsConcat(a, x + c);
    TagsConcat(x', c);
    TagsConcat(a, x' + c);
    UntaggedElsewhere(a, name);
    UntaggedElsewhere(c, name);
    UntaggedUnion(Tags(x), Tags(c), name);
    UntaggedUnion(Tags(a), Tags(x) + Tags(c), name);
  }

  /** The same edit, seen with the kinds. */
  lemma DirEditTags(g: Geo, d: Disk, d': Disk, t: nat, j: nat, name: Name, child: Option<nat>, now: Block, kind: byte)
    requires DirOk(g, d, t) && NoDup(DirPtrs(d.inodes[t])) && DirEdit(g, d, d', t, j, name, child, now)
    requires Tags(BlockRecs(now)) == EditedTags(Tags(BlockRecs(BlockAt(d, DirPtrs(d.inodes[t])[j]))), name, child, kind)
    ensures DirOk(g, d', t) && DirTags(g, d', t) == EditedTags(DirTags(g, d, t), name, child, kind)
  {
    var ptrs := DirPtrs(d.inodes[t]);
    DirEditNames(g, d, d', t, j, name, child, now);
    assert BlockAt(d', ptrs[j]) == now;
    DirSplit(d, ptrs, j);
    OthersSame(d, d', ptrs, j);
    DirSplit(d', ptrs, j);
    TagsMiddle(DirRecs(d, ptrs[..j]), BlockRecs(BlockAt(d, ptrs[j])), BlockRecs(BlockAt(d', ptrs[j])),
               DirRecs(d, ptrs[j + 1..]), name, child, kind);
  }

  /** Rewriting one block of a directory changes that directory's names and nothing else on the volume. */
  lemma EditDir(g: Geo, d: Disk, d': Disk, live: set<nat>, meta: set<nat>, t: nat, j: nat, name: Name,
                child: Option<nat>, now: Block)
    requires Mounted(g, d, live, meta) && t in live && DirOk(g, d, t) && DirEdit(g, d, d', t, j, name, child, now)
    ensures Mounted(g, d', live, meta) && DirOk(g, d', t) && Names(g, d', t) == Edited(Names(g, d, t), name, child)
    ensures forall i :: i in live && i != t ==> SameFile(g, d, d', i)
  {
    assert FileOk(g, d, meta, t);
    DirOwned(g, d, t);
    DirOwned(g, d', t);
    DirEditNames(g, d, d', t, j, name, child, now);
    RewriteKeeps(g, d, d', live, meta, t, DirPtrs(d.inodes[t])[j], now);
  }

  lemma RewriteKeeps(g: Geo, d: Disk, d': Disk, live: set<nat>, meta: set<nat>, t: nat, b: nat, now: Block)
    requires Mounted(g, d, live, meta) && t in live && b in OwnedBy(d, t) && b < |d.blocks| && |now| == |d.blocks[b]|
    requires d' == d.(blocks := d.blocks[b := now]) && OwnedBy(d', t) == OwnedBy(d, t)
    ensures Mounted(g, d', live, meta) && forall i :: i in live && i != t ==> SameFile(g, d, d', i)
  {
    WriteAdopts(g, d, d', live, meta, t, b, now);
    AdoptInPlace(g, d, d', live, meta, t, []);
  }

  lemma SameUsed(g: Geo, d: Disk, d': Disk)
    requires d'.bits == d.bits
    ensures forall x :: Used(g, d', x) <==> Used(g, d, x)
  {
  }

  lemma WriteReady(g: Geo, d: Disk, d': Disk, b: nat, now: Block)
    requires Ready(g, d) && b < |d.blocks| && |now| == |d.blocks[b]| && d' == d.(blocks := d.blocks[b := now])
    ensures Ready(g, d')
  {
    WriteKeepsCounts(g, d, d');
  }

  lemma WriteAdopts(g: Geo, d: Disk, d': Disk, live: set<nat>, meta: set<nat>, t: nat, b: nat, now: Block)
    requires Mounted(g, d, live, meta) && t in live && b in OwnedBy(d, t) && b < |d.blocks| && |now| == |d.blocks[b]|
    requires d' == d.(blocks := d.blocks[b := now]) && OwnedBy(d', t) == OwnedBy(d, t)
    ensures Adopted(g, d, d', live, t, [])
  {
    assert FileOk(g, d, meta, t);
    WriteReady(g, d, d', b, now);
    SameUsed(g, d, d');
    assert OnlyInode(d, d', t, true) by { assert d.ibits[t := true] == d.ibits; }
    forall x | Used(g, d, x) && x !in Stake(d, live, t) ensures BlockAt(d', x) == BlockAt(d, x) { assert x != b; }
  }
}
