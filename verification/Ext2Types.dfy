/** What directory records say of their inodes, over every sequence of operations. */
module Ext2Types {
  import opened Common
  import opened Ext2Disk
  import opened Ext2Owners
  import opened Ext2Overwrite
  import opened Ext2Records
  import opened Ext2Dir
  import opened Ext2Names
  import opened Ext2Entries
  import opened Ext2Ops
  import opened Ext2Tree
  import opened Ext2Mkdir
  import opened Ext2Volume
  import opened Ext2Image
  import opened Ext2Runs

  /** The record names an inode and tells its kind: 2 for a directory and 1 for a file, or 0 where none is recorded. */
  ghost predicate TypeOk(g: Geo, nodes: seq<Inode>, x: Tag) {
    && 0 < x.ino <= |nodes|
    && x.kind == if !g.filetype then 0 else if IsDirectory(nodes[x.ino - 1]) then 2 else 1
  }

  ghost predicate AllTyped(g: Geo, nodes: seq<Inode>, ts: set<Tag>) { forall x :: x in ts ==> TypeOk(g, nodes, x) }

  ghost predicate TypedAt(g: Geo, d: Disk, p: nat) { DirOk(g, d, p) && AllTyped(g, d.inodes, DirTags(g, d, p)) }

  /** Every record of every directory tells the kind of its inode. */
  ghost predicate TypesAgree(g: Geo, s: Fs) {
    forall p {:trigger TypedAt(g, s.disk, p)} :: p in s.dirs ==> TypedAt(g, s.disk, p)
  }

  /** The records of a directory of the tree name inodes in use. */
  lemma TagLive(g: Geo, s: Fs, root: nat, p: nat, x: Tag)
    requires VolumeOk(g, s, root) && p in s.dirs && DirOk(g, s.disk, p) && x in DirTags(g, s.disk, p)
    ensures x.ino > 0 && x.ino - 1 in s.live && x.ino <= |s.disk.inodes|
  {
    TagsAreBindings(DirRecs(s.disk, DirPtrs(s.disk.inodes[p])), x);
    ViewIs(g, s.disk, s.dirs, p);
    TreeHome(g, s, root, p, x.name);
    TreeInodes(g, s, root, p, x.name, Target(g, s.disk, s.live, p, x.name));
  }

  lemma SameType(g: Geo, nodes: seq<Inode>, nodes': seq<Inode>, live: set<nat>, but: set<nat>, x: Tag)
    requires SameKinds(nodes, nodes', live, but) && x.ino > 0 && x.ino - 1 in live && x.ino - 1 !in but
    ensures TypeOk(g, nodes', x) <==> TypeOk(g, nodes, x)
  {
  }

  /** The kinds of the inodes in use are as they were. */
  ghost predicate KindsStay(s: Fs, d: Disk) { SameKinds(s.disk.inodes, d.inodes, s.live, {}) }

  /** Records that were there and told the truth tell it still. */
  lemma TagsStay(g: Geo, s: Fs, root: nat, d: Disk, p: nat, ts: set<Tag>)
    requires VolumeOk(g, s, root) && p in s.dirs && TypedAt(g, s.disk, p) && KindsStay(s, d)
    requires ts <= DirTags(g, s.disk, p)
    ensures AllTyped(g, d.inodes, ts)
  {
    forall x | x in ts ensures TypeOk(g, d.inodes, x) {
      TagLive(g, s, root, p, x);
      SameType(g, s.disk.inodes, d.inodes, s.live, {}, x);
    }
  }

  /** A directory that was not touched. */
  lemma TypedStays(g: Geo, s: Fs, root: nat, d: Disk, p: nat)
    requires VolumeOk(g, s, root) && p in s.dirs && TypedAt(g, s.disk, p) && KindsStay(s, d)
    requires SameFile(g, s.disk, d, p)
    ensures TypedAt(g, d, p)
  {
    DirStays(g, s.disk, d, p);
    TagsStay(g, s, root, d, p, DirTags(g, s.disk, p));
  }

  /** All of them but `p`. */
  lemma OthersTyped(g: Geo, s: Fs, root: nat, d: Disk, dirs: set<nat>, p: nat)
    requires VolumeOk(g, s, root) && TypesAgree(g, s) && KindsStay(s, d) && dirs <= s.dirs
    requires forall i :: i in dirs && i != p ==> SameFile(g, s.disk, d, i)
    ensures forall i {:trigger TypedAt(g, d, i)} :: i in dirs && i != p ==> TypedAt(g, d, i)
  {
    forall i | i in dirs && i != p ensures TypedAt(g, d, i) {
      assert TypedAt(g, s.disk, i);
      TypedStays(g, s, root, d, i);
    }
  }

  // ---------------------------------------------------------------- by operation

  lemma SpiltTypes(g: Geo, s: Fs, root: nat, s': Fs, more: set<nat>, lost: set<nat>)
    requires VolumeOk(g, s, root) && TypesAgree(g, s) && Spilt(g, s.disk, s'.disk, s.live, s.meta, more, lost)
    requires s'.dirs == s.dirs
    ensures TypesAgree(g, s')
  {
    EverybodyHeads(g, s.disk, s'.disk, s.live, {});
    DirsLive(g, s, root);
    forall p | p in s'.dirs ensures TypedAt(g, s'.disk, p) {
      assert TypedAt(g, s.disk, p);
      TypedStays(g, s, root, s'.disk, p);
    }
  }

  lemma TaggedTypes(g: Geo, s: Fs, root: nat, d: Disk, p: nat, name: Name, child: nat, isDir: bool)
    requires VolumeOk(g, s, root) && p in s.dirs && TypedAt(g, s.disk, p) && KindsStay(s, d)
    requires Tagged(g, s.disk, d, p, name, child, Kind(g, isDir))
    requires 0 < child <= |d.inodes| && (IsDirectory(d.inodes[child - 1]) <==> isDir)
    ensures TypedAt(g, d, p)
  {
    TagsStay(g, s, root, d, p, DirTags(g, s.disk, p));
    assert TypeOk(g, d.inodes, Tag(name, child, Kind(g, isDir)));
  }

  lemma CreatedTypes(g: Geo, s: Fs, root: nat, s': Fs, p: nat, name: Name, t: nat, uid: nat, gid: nat, size: nat)
    requires VolumeOk(g, s, root) && TypesAgree(g, s) && p in s.dirs && DirOk(g, s.disk, p)
    requires Created(g, s.disk, s'.disk, s.live, s.meta, p, name, t, uid, gid, size) && s'.dirs == s.dirs
    ensures TypesAgree(g, s')
  {
    CreatedHeads(g, s.disk, s'.disk, s.live, s.meta, p, name, t, uid, gid, size);
    DirsLive(g, s, root);
    assert TypedAt(g, s.disk, p);
    TaggedTypes(g, s, root, s'.disk, p, name, t + 1, false);
    OthersTyped(g, s, root, s'.disk, s.dirs, p);
  }

  lemma UnlinkedTypes(g: Geo, s: Fs, root: nat, s': Fs, p: nat, name: Name, t: nat)
    requires VolumeOk(g, s, root) && TypesAgree(g, s) && p in s.dirs && DirOk(g, s.disk, p) && t !in s.dirs
    requires Unlinked(g, s.disk, s'.disk, s.live, s.meta, p, name, t) && s'.dirs == s.dirs
    ensures TypesAgree(g, s')
  {
    UnlinkedHeads(g, s.disk, s'.disk, s.live, s.meta, p, name, t);
    DirsLive(g, s, root);
    assert TypedAt(g, s.disk, p);
    TagsStay(g, s, root, s'.disk, p, Untagged(DirTags(g, s.disk, p), name));
    OthersTyped(g, s, root, s'.disk, s.dirs, p);
  }

  lemma DotTyped(g: Geo, nodes: seq<Inode>, self: nat, parent: nat)
    requires 0 < self <= |nodes| && 0 < parent <= |nodes|
    requires IsDirectory(nodes[self - 1]) && IsDirectory(nodes[parent - 1])
    ensures AllTyped(g, nodes, DotTags(self, parent, Kind(g, true)))
  {
  }

  lemma MadeKinds(g: Geo, s: Fs, root: nat, d: Disk, p: nat, name: Name, t: nat, uid: nat, gid: nat)
    requires VolumeOk(g, s, root) && p in s.dirs && DirOk(g, s.disk, p)
    requires DirMade(g, s.disk, d, s.live, s.meta, p, name, t, uid, gid)
    ensures KindsStay(s, d) && t < |d.inodes| && IsDirectory(d.inodes[t]) && p < |d.inodes| && IsDirectory(d.inodes[p])
  {
    MadeHeads(g, s.disk, d, s.live, s.meta, p, name, t, uid, gid);
    NewDirKind(d.inodes[t]);
    DirsLive(g, s, root);
    ViewIs(g, s.disk, s.dirs, p);
  }

  lemma MadeParent(g: Geo, s: Fs, root: nat, d: Disk, p: nat, name: Name, t: nat, uid: nat, gid: nat)
    requires VolumeOk(g, s, root) && p in s.dirs && TypedAt(g, s.disk, p)
    requires DirMade(g, s.disk, d, s.live, s.meta, p, name, t, uid, gid)
    ensures TypedAt(g, d, p)
  {
    MadeKinds(g, s, root, d, p, name, t, uid, gid);
    TaggedTypes(g, s, root, d, p, name, t + 1, true);
  }

  lemma MadeChild(g: Geo, s: Fs, root: nat, d: Disk, p: nat, name: Name, t: nat, uid: nat, gid: nat)
    requires VolumeOk(g, s, root) && p in s.dirs && DirOk(g, s.disk, p)
    requires DirMade(g, s.disk, d, s.live, s.meta, p, name, t, uid, gid)
    ensures TypedAt(g, d, t)
  {
    MadeKinds(g, s, root, d, p, name, t, uid, gid);
    ChildTyped(g, d, p, t);
  }

  lemma ChildTyped(g: Geo, d: Disk, p: nat, t: nat)
    requires DirOk(g, d, t) && p < |d.inodes| && IsDirectory(d.inodes[t]) && IsDirectory(d.inodes[p])
    requires DirTags(g, d, t) == DotTags(t + 1, p + 1, Kind(g, true))
    ensures TypedAt(g, d, t)
  {
    DotTyped(g, d.inodes, t + 1, p + 1);
  }

  lemma MadeOther(g: Geo, s: Fs, root: nat, d: Disk, p: nat, name: Name, t: nat, uid: nat, gid: nat, i: nat)
    requires VolumeOk(g, s, root) && TypesAgree(g, s) && p in s.dirs && DirOk(g, s.disk, p) && i in s.dirs && i != p
    requires DirMade(g, s.disk, d, s.live, s.meta, p, name, t, uid, gid)
    ensures TypedAt(g, d, i)
  {
    MadeKinds(g, s, root, d, p, name, t, uid, gid);
    DirsLive(g, s, root);
    assert TypedAt(g, s.disk, i);
    TypedStays(g, s, root, d, i);
  }

  lemma MadeTypes(g: Geo, s: Fs, root: nat, s': Fs, p: nat, name: Name, t: nat, uid: nat, gid: nat)
    requires VolumeOk(g, s, root) && TypesAgree(g, s) && p in s.dirs && DirOk(g, s.disk, p)
    requires DirMade(g, s.disk, s'.disk, s.live, s.meta, p, name, t, uid, gid) && s'.dirs == s.dirs + {t}
    ensures TypesAgree(g, s')
  {
    forall i | i in s'.dirs ensures TypedAt(g, s'.disk, i) {
      if i == t {
        MadeChild(g, s, root, s'.disk, p, name, t, uid, gid);
      } else if i == p {
        assert TypedAt(g, s.disk, p);
        MadeParent(g, s, root, s'.disk, p, name, t, uid, gid);
      } else {
        MadeOther(g, s, root, s'.disk, p, name, t, uid, gid, i);
      }
    }
  }

  lemma RemovedTypes(g: Geo, s: Fs, root: nat, s': Fs, p: nat, name: Name, t: nat)
    requires VolumeOk(g, s, root) && TypesAgree(g, s) && p in s.dirs && DirOk(g, s.disk, p) && p != t
    requires DirRemoved(g, s.disk, s'.disk, s.live, s.meta, p, name, t) && s'.dirs == s.dirs - {t}
    ensures TypesAgree(g, s')
  {
    RemovedHeads(g, s.disk, s'.disk, s.live, s.meta, p, name, t);
    DirsLive(g, s, root);
    assert TypedAt(g, s.disk, p);
    TagsStay(g, s, root, s'.disk, p, Untagged(DirTags(g, s.disk, p), name));
    OthersTyped(g, s, root, s'.disk, s.dirs - {t}, p);
  }

  /** Data written over a directory leaves the records telling the truth exactly when its own do. */
  lemma RewroteTypes(g: Geo, s: Fs, root: nat, s': Fs, t: nat, data: seq<byte>)
    requires VolumeOk(g, s, root) && TypesAgree(g, s) && Rewrote(g, s.disk, s'.disk, s.live, s.meta, t, data)
    requires s'.dirs == s.dirs && (t in s.dirs ==> DirImage(g, data) && DirOk(g, s'.disk, t))
    ensures TypesAgree(g, s') <==> t !in s.dirs || AllTyped(g, s'.disk.inodes, ImageTags(g, data))
  {
    RewroteHeads(g, s.disk, s'.disk, s.live, s.meta, t, data);
    DirsLive(g, s, root);
    OthersTyped(g, s, root, s'.disk, s.dirs, t);
    if t in s.dirs {
      var l :| Holding(g, s'.disk, s'.disk.inodes[t], l, data);
      ImageDir(g, s'.disk, t, l, data);
      assert TypedAt(g, s'.disk, t) <==> AllTyped(g, s'.disk.inodes, ImageTags(g, data));
    }
  }

  // ---------------------------------------------------------------- exactly when the records stay true

  /** The operation does not write a directory over a directory, or only one whose records tell the truth. */
  ghost predicate Truthful(g: Geo, s: Fs, op: Op)
    requires Fit(g, s, op)
  {
    op.WriteOp? && CanWrite(g, s.disk, s.live, op.p, op.name, |op.data|) && op.name in Names(g, s.disk, op.p)
    && Target(g, s.disk, s.live, op.p, op.name) in s.dirs ==>
      DirImage(g, op.data) && AllTyped(g, s.disk.inodes, ImageTags(g, op.data))
  }

  lemma ImageTypes(g: Geo, s: Fs, root: nat, s': Fs, t: nat, data: seq<byte>)
    requires VolumeOk(g, s, root) && VolumeOk(g, s', root) && TypesAgree(g, s) && t in s.dirs && s'.dirs == s.dirs
    requires Rewrote(g, s.disk, s'.disk, s.live, s.meta, t, data) && s'.live == s.live && DirImage(g, data)
    ensures AllTyped(g, s'.disk.inodes, ImageTags(g, data)) <==> AllTyped(g, s.disk.inodes, ImageTags(g, data))
  {
    RewroteHeads(g, s.disk, s'.disk, s.live, s.meta, t, data);
    ViewIs(g, s'.disk, s'.dirs, t);
    var l :| Holding(g, s'.disk, s'.disk.inodes[t], l, data);
    ImageDir(g, s'.disk, t, l, data);
    forall x | x in ImageTags(g, data) ensures TypeOk(g, s'.disk.inodes, x) <==> TypeOk(g, s.disk.inodes, x) {
      TagLive(g, s', root, t, x);
      SameType(g, s.disk.inodes, s'.disk.inodes, s.live, {}, x);
    }
  }

  lemma OverTypes(g: Geo, s: Fs, root: nat, s': Fs, t: nat, data: seq<byte>)
    requires VolumeOk(g, s, root) && VolumeOk(g, s', root) && TypesAgree(g, s)
    requires Rewrote(g, s.disk, s'.disk, s.live, s.meta, t, data) && s'.live == s.live && s'.dirs == s.dirs
    ensures t in s.dirs ==> DirImage(g, data)
    ensures TypesAgree(g, s') <==> t !in s.dirs || AllTyped(g, s.disk.inodes, ImageTags(g, data))
  {
    if t in s.dirs {
      ViewIs(g, s'.disk, s'.dirs, t);
      var l :| Holding(g, s'.disk, s'.disk.inodes[t], l, data);
      ImageDir(g, s'.disk, t, l, data);
      ImageTypes(g, s, root, s', t, data);
    }
    RewroteTypes(g, s, root, s', t, data);
  }

  lemma WriteTypes(g: Geo, s: Fs, root: nat, op: Op, s': Fs)
    requires op.WriteOp? && VolumeOk(g, s, root) && VolumeOk(g, s', root) && TypesAgree(g, s)
    requires op.p in s.dirs && Fit(g, s, op) && DidWrite(g, s, op, s')
    ensures TypesAgree(g, s') <==> Truthful(g, s, op)
  {
    if !CanWrite(g, s.disk, s.live, op.p, op.name, |op.data|) {
      var more, lost :| Missed(g, s.disk, s'.disk, s.live, s.meta, more, lost);
      SpiltTypes(g, s, root, s', more, lost);
    } else if op.name in Names(g, s.disk, op.p) {
      OverTypes(g, s, root, s', Target(g, s.disk, s.live, op.p, op.name), op.data);
    } else {
      var t :| Created(g, s.disk, s'.disk, s.live, s.meta, op.p, op.name, t, op.uid, op.gid, |op.data|);
      CreatedTypes(g, s, root, s', op.p, op.name, t, op.uid, op.gid, |op.data|);
    }
  }

  lemma UnlinkTypes(g: Geo, s: Fs, root: nat, op: Op, s': Fs)
    requires op.UnlinkOp? && VolumeOk(g, s, root) && TypesAgree(g, s)
    requires op.p in s.dirs && Fit(g, s, op) && DidUnlink(g, s, op, s')
    ensures TypesAgree(g, s')
  {
    if IsFile(g, s.disk, s.live, op.p, op.name) {
      TreeHome(g, s, root, op.p, op.name);
      UnlinkedTypes(g, s, root, s', op.p, op.name, Target(g, s.disk, s.live, op.p, op.name));
    }
  }

  lemma MkdirTypes(g: Geo, s: Fs, root: nat, op: Op, s': Fs)
    requires op.MkdirOp? && VolumeOk(g, s, root) && TypesAgree(g, s)
    requires op.p in s.dirs && Fit(g, s, op) && DidMkdir(g, s, op, s')
    ensures TypesAgree(g, s')
  {
    if CanMkdir(g, s.disk, op.p, op.name) {
      var t :| && DirMade(g, s.disk, s'.disk, s.live, s.meta, op.p, op.name, t, op.uid, op.gid)
               && s'.dirs == s.dirs + {t};
      MadeTypes(g, s, root, s', op.p, op.name, t, op.uid, op.gid);
    } else {
      var more :| Stuck(g, s.disk, s'.disk, s.live, s.meta, more);
      SpiltTypes(g, s, root, s', more, {});
    }
  }

  lemma RmdirTypes(g: Geo, s: Fs, root: nat, op: Op, s': Fs)
    requires op.RmdirOp? && VolumeOk(g, s, root) && VolumeOk(g, s', root) && TypesAgree(g, s)
    requires op.p in s.dirs && Fit(g, s, op) && DidRmdir(g, s, op, s')
    ensures TypesAgree(g, s')
  {
    if Removable(g, s.disk, s.live, op.p, op.name) {
      var t := Target(g, s.disk, s.live, op.p, op.name);
      RemovedExactly(g, s, root, s'.disk, op.p, op.name, t);
      assert s' == Fs(s'.disk, s.live - {t}, s.meta, s.dirs - {t});
      RemovedTypes(g, s, root, s', op.p, op.name, t);
    }
  }

  /**
   One operation that leaves a well-formed volume leaves every record telling the kind of its inode, exactly when it
   writes no false record over a directory.
   */
  lemma TypesExactly(g: Geo, s: Fs, root: nat, op: Op, s': Fs)
    requires VolumeOk(g, s, root) && op.p in s.dirs && Fit(g, s, op) && Did(g, s, op, s') && Harmless(g, s, root, op)
    requires TypesAgree(g, s)
    ensures TypesAgree(g, s') <==> Truthful(g, s, op)
  {
    StepExactly(g, s, root, op, s');
    match op
    case WriteOp(_, _, _, _, _) => WriteTypes(g, s, root, op, s');
    case UnlinkOp(_, _) => UnlinkTypes(g, s, root, op, s');
    case MkdirOp(_, _, _, _) => MkdirTypes(g, s, root, op, s');
    case RmdirOp(_, _) => RmdirTypes(g, s, root, op, s');
  }

  ghost predicate TruthfulAt(g: Geo, s: Fs, op: Op) { Fit(g, s, op) && Truthful(g, s, op) }

  ghost predicate AllTrue(g: Geo, ss: seq<Fs>, k: nat)
    requires k < |ss|
  {
    forall i {:trigger TypesAgree(g, ss[i])} :: 0 <= i <= k ==> TypesAgree(g, ss[i])
  }

  ghost predicate AllTruthful(g: Geo, ss: seq<Fs>, ops: seq<Op>, k: nat)
    requires |ss| == |ops| + 1 && k <= |ops|
  {
    forall i {:trigger TruthfulAt(g, ss[i], ops[i])} :: 0 <= i < k ==> TruthfulAt(g, ss[i], ops[i])
  }

  lemma OneMoreTrue(g: Geo, ss: seq<Fs>, j: nat)
    requires j + 1 < |ss|
    ensures AllTrue(g, ss, j + 1) <==> AllTrue(g, ss, j) && TypesAgree(g, ss[j + 1])
  {
  }

  lemma OneMoreTruthful(g: Geo, ss: seq<Fs>, ops: seq<Op>, j: nat)
    requires |ss| == |ops| + 1 && j < |ops|
    ensures AllTruthful(g, ss, ops, j + 1) <==> AllTruthful(g, ss, ops, j) && TruthfulAt(g, ss[j], ops[j])
  {
  }

  lemma StepTypes(g: Geo, ss: seq<Fs>, root: nat, ops: seq<Op>, j: nat)
    requires IsRun(g, ss, ops) && j < |ops| && VolumeOk(g, ss[j], root) && TypesAgree(g, ss[j])
             && HarmlessAt(g, ss[j], root, ops[j])
    ensures TypesAgree(g, ss[j + 1]) <==> TruthfulAt(g, ss[j], ops[j])
  {
    assert Performed(g, ss, ops, j);
    TypesExactly(g, ss[j], root, ops[j], ss[j + 1]);
  }

  /** Over every sequence of harmless operations the records are true throughout exactly when all are truthful. */
  lemma {:induction false} RunTypes(g: Geo, ss: seq<Fs>, root: nat, ops: seq<Op>, k: nat)
    requires IsRun(g, ss, ops) && VolumeOk(g, ss[0], root) && k <= |ops| && AllHarmless(g, ss, root, ops, k)
    requires TypesAgree(g, ss[0])
    ensures AllTrue(g, ss, k) <==> AllTruthful(g, ss, ops, k)
  {
    if k > 0 {
      var j: nat := k - 1;
      OneMoreHarmless(g, ss, root, ops, j);
      RunTypes(g, ss, root, ops, j);
      OneMoreTrue(g, ss, j);
      OneMoreTruthful(g, ss, ops, j);
      StillOk(g, ss, root, ops, j);
      if AllTrue(g, ss, j) {
        assert TypesAgree(g, ss[j]);
        StepTypes(g, ss, root, ops, j);
      }
    }
  }
}
