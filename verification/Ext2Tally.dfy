/** The used-directory count of every group, over every sequence of operations. */
module Ext2Tally {
  import opened Common
  import opened Ext2Disk
  import opened Ext2Alloc
  import opened Ext2Overwrite
  import opened Ext2Inodes
  import opened Ext2Records
  import opened Ext2Names
  import opened Ext2Ops
  import opened Ext2Tree
  import opened Ext2Mkdir
  import opened Ext2Volume
  import opened Ext2Image
  import opened Ext2Runs

  /** Inode index `i` is in use and a directory. */
  ghost predicate InUseDir(d: Disk, i: nat) {
    i < |d.ibits| && i < |d.inodes| && d.ibits[i] && IsDirectory(d.inodes[i])
  }

  ghost function DirsIn(g: Geo, d: Disk, k: nat): set<nat> {
    set i | ILo(g, k) <= i < IHi(g, k) && InUseDir(d, i)
  }

  ghost predicate TallyOk(g: Geo, d: Disk, k: nat)
    requires k < |d.groups|
  {
    d.groups[k].usedDirs == Wrap16(|DirsIn(g, d, k)|)
  }

  /** `bg_used_dirs_count` of every group is its number of directories, in 16 bits. */
  ghost predicate UsedDirsAgree(g: Geo, d: Disk) {
    forall k {:trigger TallyOk(g, d, k)} :: 0 <= k < |d.groups| ==> TallyOk(g, d, k)
  }

  // ---------------------------------------------------------------- one inode comes or goes

  lemma WrapUp(n: int)
    ensures Wrap16(Wrap16(n) + 1) == Wrap16(n + 1) && Wrap16(Wrap16(n) - 1) == Wrap16(n - 1)
    ensures Wrap16(Wrap16(n) + 1) != Wrap16(n)
  {
  }

  lemma TallyAt(gs: seq<Group>, gs': seq<Group>, k: nat)
    requires k < |gs| && Tallies(gs') == Tallies(gs)
    ensures k < |gs'| && gs'[k].usedDirs == gs[k].usedDirs
  {
    assert |Tallies(gs')| == |gs'| && Tallies(gs')[k] == Tallies(gs)[k];
  }

  lemma MovedAt(gs: seq<Group>, gs': seq<Group>, j: nat, delta: int, k: nat)
    requires k < |gs| && j < |gs| && Tallies(gs') == Moved(Tallies(gs), j, delta)
    ensures k < |gs'| && gs'[k].usedDirs == if k == j then Wrap16(gs[k].usedDirs + delta) else gs[k].usedDirs
  {
    assert |Tallies(gs')| == |gs'| && Tallies(gs')[k] == Moved(Tallies(gs), j, delta)[k];
  }

  /** The same directories are in use. */
  ghost predicate SameDirs(d: Disk, d': Disk) { forall i: nat :: InUseDir(d', i) <==> InUseDir(d, i) }

  /** Directory `t` is in use in `d'` and not in `d`, and that is the only difference. */
  ghost predicate OneMoreDir(d: Disk, d': Disk, t: nat) {
    !InUseDir(d, t) && forall i: nat :: InUseDir(d', i) <==> InUseDir(d, i) || i == t
  }

  lemma SameTally(g: Geo, d: Disk, d': Disk)
    requires UsedDirsAgree(g, d) && |d'.groups| == |d.groups| && Tallies(d'.groups) == Tallies(d.groups)
             && SameDirs(d, d')
    ensures UsedDirsAgree(g, d')
  {
    forall k | 0 <= k < |d'.groups| ensures TallyOk(g, d', k) {
      assert TallyOk(g, d, k);
      TallyAt(d.groups, d'.groups, k);
      assert DirsIn(g, d', k) == DirsIn(g, d, k);
    }
  }

  lemma DirsMore(g: Geo, d: Disk, d': Disk, t: nat, k: nat)
    requires Shaped(g, d) && t < |d.ibits| && OneMoreDir(d, d', t)
    ensures |DirsIn(g, d', k)| == |DirsIn(g, d, k)| + if k == InodeGroup(g, t) then 1 else 0
  {
    InodeGroupHolds(g, d, t);
    if k == InodeGroup(g, t) {
      assert DirsIn(g, d', k) == DirsIn(g, d, k) + {t};
    } else {
      if ILo(g, k) <= t < IHi(g, k) { InodeGroupUnique(g, t, k); }
      assert DirsIn(g, d', k) == DirsIn(g, d, k);
    }
  }

  lemma MoreTally(g: Geo, d: Disk, d': Disk, t: nat)
    requires Shaped(g, d) && |d'.groups| == |d.groups| && t < |d.ibits| && UsedDirsAgree(g, d) && OneMoreDir(d, d', t)
    requires Tallies(d'.groups) == Retallied(g, Tallies(d.groups), t, true, 1)
    ensures UsedDirsAgree(g, d')
  {
    InodeGroupHolds(g, d, t);
    forall k | 0 <= k < |d'.groups| ensures TallyOk(g, d', k) {
      assert TallyOk(g, d, k);
      MovedAt(d.groups, d'.groups, InodeGroup(g, t), 1, k);
      DirsMore(g, d, d', t, k);
      WrapUp(|DirsIn(g, d, k)|);
    }
  }

  lemma LessTally(g: Geo, d: Disk, d': Disk, t: nat)
    requires Shaped(g, d) && Shaped(g, d') && t < |d'.ibits| && UsedDirsAgree(g, d) && OneMoreDir(d', d, t)
    requires Tallies(d'.groups) == Retallied(g, Tallies(d.groups), t, true, -1)
    ensures UsedDirsAgree(g, d')
  {
    InodeGroupHolds(g, d, t);
    forall k | 0 <= k < |d'.groups| ensures TallyOk(g, d', k) {
      assert TallyOk(g, d, k);
      MovedAt(d.groups, d'.groups, InodeGroup(g, t), -1, k);
      DirsMore(g, d', d, t, k);
      WrapUp(|DirsIn(g, d, k)|);
    }
  }

  /** Counted, but no directory: the count of its group is wrong. */
  lemma WrongTally(g: Geo, d: Disk, d': Disk, t: nat)
    requires Shaped(g, d) && Shaped(g, d') && t < |d.ibits| && UsedDirsAgree(g, d) && SameDirs(d, d')
    requires Tallies(d'.groups) == Retallied(g, Tallies(d.groups), t, true, 1)
    ensures !UsedDirsAgree(g, d')
  {
    InodeGroupHolds(g, d, t);
    var k := InodeGroup(g, t);
    assert TallyOk(g, d, k);
    MovedAt(d.groups, d'.groups, k, 1, k);
    assert DirsIn(g, d', k) == DirsIn(g, d, k);
    WrapUp(|DirsIn(g, d, k)|);
    assert !TallyOk(g, d', k);
  }

  // ---------------------------------------------------------------- the directories in use, by operation

  lemma DirLive(g: Geo, d: Disk, live: set<nat>, meta: set<nat>, i: nat)
    requires Mounted(g, d, live, meta)
    ensures InUseDir(d, i) <==> i in live && i < |d.inodes| && IsDirectory(d.inodes[i])
  {
  }

  /** Two volumes whose inodes in use, and their kinds, differ at most in `but`. */
  ghost predicate Alike(g: Geo, s: Fs, s': Fs, but: set<nat>) {
    && Mounted(g, s.disk, s.live, s.meta) && Mounted(g, s'.disk, s'.live, s'.meta)
    && SameKinds(s.disk.inodes, s'.disk.inodes, s.live, but)
    && forall i: nat :: i !in but ==> (i in s.live <==> i in s'.live)
  }

  lemma AlikeDirs(g: Geo, s: Fs, s': Fs, but: set<nat>, i: nat)
    requires Alike(g, s, s', but) && i !in but
    ensures InUseDir(s'.disk, i) <==> InUseDir(s.disk, i)
  {
    DirLive(g, s.disk, s.live, s.meta, i);
    DirLive(g, s'.disk, s'.live, s'.meta, i);
  }

  /** Where they differ there is no directory on either side. */
  lemma AlikeSame(g: Geo, s: Fs, s': Fs, but: set<nat>)
    requires Alike(g, s, s', but)
    requires forall i: nat :: i in but ==> !InUseDir(s.disk, i) && !InUseDir(s'.disk, i)
    ensures SameDirs(s.disk, s'.disk)
  {
    forall i: nat ensures InUseDir(s'.disk, i) <==> InUseDir(s.disk, i) {
      if i !in but { AlikeDirs(g, s, s', but, i); }
    }
  }

  lemma AlikeMore(g: Geo, s: Fs, s': Fs, t: nat)
    requires Alike(g, s, s', {t}) && !InUseDir(s.disk, t) && InUseDir(s'.disk, t)
    ensures OneMoreDir(s.disk, s'.disk, t)
  {
    forall i: nat ensures InUseDir(s'.disk, i) <==> InUseDir(s.disk, i) || i == t {
      if i != t { AlikeDirs(g, s, s', {t}, i); }
    }
  }

  lemma AlikeLess(g: Geo, s: Fs, s': Fs, t: nat)
    requires Alike(g, s, s', {t}) && InUseDir(s.disk, t) && !InUseDir(s'.disk, t)
    ensures OneMoreDir(s'.disk, s.disk, t)
  {
    forall i: nat ensures InUseDir(s.disk, i) <==> InUseDir(s'.disk, i) || i == t {
      if i != t { AlikeDirs(g, s, s', {t}, i); }
    }
  }

  lemma MissedDirs(g: Geo, s: Fs, s': Fs, more: set<nat>, lost: set<nat>)
    requires Mounted(g, s.disk, s.live, s.meta) && Missed(g, s.disk, s'.disk, s.live, s.meta, more, lost)
    requires s'.live == s.live + more && s'.meta == s.meta + lost
    ensures SameDirs(s.disk, s'.disk)
  {
    EverybodyHeads(g, s.disk, s'.disk, s.live, {});
    AlikeSame(g, s, s', more - s.live);
  }

  lemma RewroteDirs(g: Geo, s: Fs, s': Fs, t: nat, data: seq<byte>)
    requires Mounted(g, s.disk, s.live, s.meta) && Rewrote(g, s.disk, s'.disk, s.live, s.meta, t, data)
    requires s'.live == s.live && s'.meta == s.meta
    ensures SameDirs(s.disk, s'.disk)
  {
    RewroteHeads(g, s.disk, s'.disk, s.live, s.meta, t, data);
    AlikeSame(g, s, s', {});
  }

  lemma CreatedDirs(g: Geo, s: Fs, s': Fs, p: nat, name: Name, t: nat, uid: nat, gid: nat, size: nat)
    requires Mounted(g, s.disk, s.live, s.meta) && DirOk(g, s.disk, p)
    requires Created(g, s.disk, s'.disk, s.live, s.meta, p, name, t, uid, gid, size)
    requires s'.live == s.live + {t} && s'.meta == s.meta
    ensures SameDirs(s.disk, s'.disk)
  {
    CreatedHeads(g, s.disk, s'.disk, s.live, s.meta, p, name, t, uid, gid, size);
    AlikeSame(g, s, s', {t});
  }

  lemma WriteDirs(g: Geo, s: Fs, op: Op, s': Fs)
    requires op.WriteOp? && Mounted(g, s.disk, s.live, s.meta) && Fit(g, s, op) && DidWrite(g, s, op, s')
    ensures SameDirs(s.disk, s'.disk) && Tallies(s'.disk.groups) == Tallies(s.disk.groups)
  {
    if !CanWrite(g, s.disk, s.live, op.p, op.name, |op.data|) {
      var more, lost :| Missed(g, s.disk, s'.disk, s.live, s.meta, more, lost) && s'.live == s.live + more
        && s'.meta == s.meta + lost;
      MissedDirs(g, s, s', more, lost);
    } else if op.name in Names(g, s.disk, op.p) {
      RewroteDirs(g, s, s', Target(g, s.disk, s.live, op.p, op.name), op.data);
    } else {
      var t :| Created(g, s.disk, s'.disk, s.live, s.meta, op.p, op.name, t, op.uid, op.gid, |op.data|)
        && s'.live == s.live + {t};
      CreatedDirs(g, s, s', op.p, op.name, t, op.uid, op.gid, |op.data|);
    }
  }

  lemma UnlinkDirs(g: Geo, s: Fs, op: Op, s': Fs)
    requires op.UnlinkOp? && Mounted(g, s.disk, s.live, s.meta) && Fit(g, s, op) && DidUnlink(g, s, op, s')
             && IsDirectory(s.disk.inodes[op.p])
    ensures SameDirs(s.disk, s'.disk) && Tallies(s'.disk.groups) == Tallies(s.disk.groups)
  {
    if IsFile(g, s.disk, s.live, op.p, op.name) {
      var t := Target(g, s.disk, s.live, op.p, op.name);
      UnlinkedHeads(g, s.disk, s'.disk, s.live, s.meta, op.p, op.name, t);
      AlikeSame(g, s, s', {t});
    }
  }

  lemma RmdirDirs(g: Geo, s: Fs, op: Op, s': Fs)
    requires op.RmdirOp? && Mounted(g, s.disk, s.live, s.meta) && Fit(g, s, op) && DidRmdir(g, s, op, s')
             && Removable(g, s.disk, s.live, op.p, op.name)
    ensures var t := Target(g, s.disk, s.live, op.p, op.name);
            && t < |s'.disk.ibits| && OneMoreDir(s'.disk, s.disk, t)
            && Tallies(s'.disk.groups) == Retallied(g, Tallies(s.disk.groups), t, true, -1)
  {
    var t := Target(g, s.disk, s.live, op.p, op.name);
    RemovedKinds(g, s.disk, s'.disk, s.live, s.meta, op.p, op.name, t);
    DirLive(g, s.disk, s.live, s.meta, t);
    DirLive(g, s'.disk, s'.live, s'.meta, t);
    AlikeLess(g, s, s', t);
  }

  lemma RemovedKinds(g: Geo, d0: Disk, d: Disk, live: set<nat>, meta: set<nat>, p: nat, name: Name, t: nat)
    requires DirOk(g, d0, p) && DirRemoved(g, d0, d, live, meta, p, name, t)
    ensures SameKinds(d0.inodes, d.inodes, live, {t})
  {
    EverybodyHeads(g, d0, d, live, {p, t});
  }

  lemma MadeDirs(g: Geo, s: Fs, op: Op, s': Fs, t: nat)
    requires op.MkdirOp? && Mounted(g, s.disk, s.live, s.meta) && Fit(g, s, op)
    requires DirMade(g, s.disk, s'.disk, s.live, s.meta, op.p, op.name, t, op.uid, op.gid)
             && s'.live == s.live + {t} && s'.meta == s.meta
    ensures t < |s.disk.ibits| && OneMoreDir(s.disk, s'.disk, t)
  {
    MadeHeads(g, s.disk, s'.disk, s.live, s.meta, op.p, op.name, t, op.uid, op.gid);
    NewDirKind(s'.disk.inodes[t]);
    assert t in s'.live;
    DirLive(g, s.disk, s.live, s.meta, t);
    DirLive(g, s'.disk, s'.live, s'.meta, t);
    AlikeMore(g, s, s', t);
  }

  lemma StuckDirs(g: Geo, s: Fs, s': Fs, t: nat)
    requires Mounted(g, s.disk, s.live, s.meta) && Spilt(g, s.disk, s'.disk, s.live, s.meta, {t}, {})
    requires StuckAt(g, s.disk, s'.disk, s.live, t) && s'.live == s.live + {t} && s'.meta == s.meta
    ensures t < |s.disk.ibits|
    ensures if s.disk.freeBlocks > 0 then OneMoreDir(s.disk, s'.disk, t) else SameDirs(s.disk, s'.disk)
  {
    PlusNothing(s.meta);
    EverybodyHeads(g, s.disk, s'.disk, s.live, {});
    assert t in s'.live;
    DirLive(g, s.disk, s.live, s.meta, t);
    DirLive(g, s'.disk, s'.live, s'.meta, t);
    if s.disk.freeBlocks > 0 { AlikeMore(g, s, s', t); } else { AlikeSame(g, s, s', {t}); }
  }

  // ---------------------------------------------------------------- exactly when the counts stay right

  /** A `mkdir` that finds an inode but no block: the inode stays counted as the directory it never becomes. */
  ghost predicate Miscounts(g: Geo, s: Fs, op: Op)
    requires Fit(g, s, op)
  {
    op.MkdirOp? && op.name !in Names(g, s.disk, op.p) && s.disk.freeInodes > 0 && s.disk.freeBlocks == 0
  }

  lemma MkdirTally(g: Geo, s: Fs, op: Op, s': Fs)
    requires op.MkdirOp? && Mounted(g, s.disk, s.live, s.meta) && Fit(g, s, op) && DidMkdir(g, s, op, s')
    requires UsedDirsAgree(g, s.disk)
    ensures UsedDirsAgree(g, s'.disk) <==> !Miscounts(g, s, op)
  {
    if CanMkdir(g, s.disk, op.p, op.name) {
      var t :| && DirMade(g, s.disk, s'.disk, s.live, s.meta, op.p, op.name, t, op.uid, op.gid)
               && s'.live == s.live + {t} && s'.dirs == s.dirs + {t};
      MadeDirs(g, s, op, s', t);
      MoreTally(g, s.disk, s'.disk, t);
    } else {
      var more :| && Stuck(g, s.disk, s'.disk, s.live, s.meta, more) && s'.live == s.live + more
                  && (more == {} <==> op.name in Names(g, s.disk, op.p) || s.disk.freeInodes == 0);
      if more != {} {
        var t :| more == {t} && StuckAt(g, s.disk, s'.disk, s.live, t);
        StuckTally(g, s, s', t);
      }
    }
  }

  lemma StuckTally(g: Geo, s: Fs, s': Fs, t: nat)
    requires Mounted(g, s.disk, s.live, s.meta) && Spilt(g, s.disk, s'.disk, s.live, s.meta, {t}, {})
    requires StuckAt(g, s.disk, s'.disk, s.live, t) && s'.live == s.live + {t} && s'.meta == s.meta
    requires UsedDirsAgree(g, s.disk)
    ensures UsedDirsAgree(g, s'.disk) <==> s.disk.freeBlocks > 0
  {
    StuckDirs(g, s, s', t);
    if s.disk.freeBlocks > 0 { MoreTally(g, s.disk, s'.disk, t); } else { WrongTally(g, s.disk, s'.disk, t); }
  }

  /** One operation keeps every group's used-directory count exactly when it is not such a `mkdir`. */
  lemma TallyExactly(g: Geo, s: Fs, root: nat, op: Op, s': Fs)
    requires VolumeOk(g, s, root) && op.p in s.dirs && Fit(g, s, op) && Did(g, s, op, s') && UsedDirsAgree(g, s.disk)
    ensures UsedDirsAgree(g, s'.disk) <==> !Miscounts(g, s, op)
  {
    TreeHome(g, s, root, op.p, op.name);
    match op
    case WriteOp(_, _, _, _, _) =>
      WriteDirs(g, s, op, s');
      SameTally(g, s.disk, s'.disk);
    case UnlinkOp(_, _) =>
      UnlinkDirs(g, s, op, s');
      SameTally(g, s.disk, s'.disk);
    case MkdirOp(_, _, _, _) => MkdirTally(g, s, op, s');
    case RmdirOp(_, _) => RmdirTally(g, s, op, s');
  }

  lemma RmdirTally(g: Geo, s: Fs, op: Op, s': Fs)
    requires op.RmdirOp? && Mounted(g, s.disk, s.live, s.meta) && Fit(g, s, op) && DidRmdir(g, s, op, s')
    requires UsedDirsAgree(g, s.disk)
    ensures UsedDirsAgree(g, s'.disk)
  {
    if Removable(g, s.disk, s.live, op.p, op.name) {
      RmdirDirs(g, s, op, s');
      LessTally(g, s.disk, s'.disk, Target(g, s.disk, s.live, op.p, op.name));
    }
  }

  ghost predicate MiscountsAt(g: Geo, s: Fs, op: Op) { Fit(g, s, op) && Miscounts(g, s, op) }

  ghost predicate AllTallied(g: Geo, ss: seq<Fs>, k: nat)
    requires k < |ss|
  {
    forall i {:trigger UsedDirsAgree(g, ss[i].disk)} :: 0 <= i <= k ==> UsedDirsAgree(g, ss[i].disk)
  }

  ghost predicate NoneMiscounts(g: Geo, ss: seq<Fs>, ops: seq<Op>, k: nat)
    requires |ss| == |ops| + 1 && k <= |ops|
  {
    forall i {:trigger MiscountsAt(g, ss[i], ops[i])} :: 0 <= i < k ==> !MiscountsAt(g, ss[i], ops[i])
  }

  lemma OneMoreTallied(g: Geo, ss: seq<Fs>, j: nat)
    requires j + 1 < |ss|
    ensures AllTallied(g, ss, j + 1) <==> AllTallied(g, ss, j) && UsedDirsAgree(g, ss[j + 1].disk)
  {
  }

  lemma OneMoreCounts(g: Geo, ss: seq<Fs>, ops: seq<Op>, j: nat)
    requires |ss| == |ops| + 1 && j < |ops|
    ensures NoneMiscounts(g, ss, ops, j + 1) <==> NoneMiscounts(g, ss, ops, j) && !MiscountsAt(g, ss[j], ops[j])
  {
  }

  lemma StepTally(g: Geo, ss: seq<Fs>, root: nat, ops: seq<Op>, j: nat)
    requires IsRun(g, ss, ops) && j < |ops| && VolumeOk(g, ss[j], root) && UsedDirsAgree(g, ss[j].disk)
    ensures UsedDirsAgree(g, ss[j + 1].disk) <==> !MiscountsAt(g, ss[j], ops[j])
  {
    assert Performed(g, ss, ops, j);
    TallyExactly(g, ss[j], root, ops[j], ss[j + 1]);
  }

  /** Over every sequence of harmless operations the counts are right throughout exactly when none is such a `mkdir`. */
  lemma {:induction false} RunTally(g: Geo, ss: seq<Fs>, root: nat, ops: seq<Op>, k: nat)
    requires IsRun(g, ss, ops) && VolumeOk(g, ss[0], root) && k <= |ops| && AllHarmless(g, ss, root, ops, k)
    requires UsedDirsAgree(g, ss[0].disk)
    ensures AllTallied(g, ss, k) <==> NoneMiscounts(g, ss, ops, k)
  {
    if k > 0 {
      var j: nat := k - 1;
      OneMoreHarmless(g, ss, root, ops, j);
      RunTally(g, ss, root, ops, j);
      OneMoreTallied(g, ss, j);
      OneMoreCounts(g, ss, ops, j);
      StillOk(g, ss, root, ops, j);
      if AllTallied(g, ss, j) {
        assert UsedDirsAgree(g, ss[j].disk);
        StepTally(g, ss, root, ops, j);
      }
    }
  }
}
