/** Every sequence of operations: what each step does to the volume, and exactly when the volume stays well formed. */
module Ext2Runs {
  import opened Common
  import opened Ext2Disk
  import opened Ext2Alloc
  import opened Ext2Overwrite
  import opened Ext2Records
  import opened Ext2Names
  import opened Ext2Namespace
  import opened Ext2Ops
  import opened Ext2Tree
  import opened Ext2Mkdir
  import opened Ext2Volume
  import opened Ext2Image

  /** An operation on a name in directory `p`. */
  datatype Op =
    | WriteOp(p: nat, name: Name, data: seq<byte>, uid: nat, gid: nat)
    | UnlinkOp(p: nat, name: Name)
    | MkdirOp(p: nat, name: Name, uid: nat, gid: nat)
    | RmdirOp(p: nat, name: Name)

  ghost predicate Fit(g: Geo, s: Fs, op: Op) {
    g.BlockSize() > 0 && Home(g, s.disk, s.live, op.p) && TargetOk(g, s.disk, s.live, op.p, op.name)
  }

  ghost predicate DidWrite(g: Geo, s: Fs, op: Op, s': Fs)
    requires op.WriteOp? && Fit(g, s, op)
  {
    && s'.dirs == s.dirs
    && if !CanWrite(g, s.disk, s.live, op.p, op.name, |op.data|) then
         exists more, lost ::
           Missed(g, s.disk, s'.disk, s.live, s.meta, more, lost) && s'.live == s.live + more
                  && s'.meta == s.meta + lost
       else if op.name in Names(g, s.disk, op.p) then
         && Rewrote(g, s.disk, s'.disk, s.live, s.meta, Target(g, s.disk, s.live, op.p, op.name), op.data)
         && s'.live == s.live && s'.meta == s.meta
       else
         exists t :: && Created(g, s.disk, s'.disk, s.live, s.meta, op.p, op.name, t, op.uid, op.gid, |op.data|)
                     && s'.live == s.live + {t} && s'.meta == s.meta
  }

  ghost predicate DidUnlink(g: Geo, s: Fs, op: Op, s': Fs)
    requires op.UnlinkOp? && Fit(g, s, op)
  {
    if !IsFile(g, s.disk, s.live, op.p, op.name) then s' == s
    else
      var t := Target(g, s.disk, s.live, op.p, op.name);
      && Unlinked(g, s.disk, s'.disk, s.live, s.meta, op.p, op.name, t)
      && s'.live == AfterUnlink(s.disk, s.live, t) && s'.meta == s.meta && s'.dirs == s.dirs
  }

  ghost predicate DidMkdir(g: Geo, s: Fs, op: Op, s': Fs)
    requires op.MkdirOp? && Fit(g, s, op)
  {
    && s'.meta == s.meta
    && if !CanMkdir(g, s.disk, op.p, op.name) then
         exists more ::
           && Stuck(g, s.disk, s'.disk, s.live, s.meta, more) && s'.live == s.live + more && s'.dirs == s.dirs
           && (more == {} <==> op.name in Names(g, s.disk, op.p) || s.disk.freeInodes == 0)
       else
         exists t :: && DirMade(g, s.disk, s'.disk, s.live, s.meta, op.p, op.name, t, op.uid, op.gid)
                     && s'.live == s.live + {t} && s'.dirs == s.dirs + {t}
  }

  ghost predicate DidRmdir(g: Geo, s: Fs, op: Op, s': Fs)
    requires op.RmdirOp? && Fit(g, s, op)
  {
    if !Removable(g, s.disk, s.live, op.p, op.name) then s' == s
    else
      var t := Target(g, s.disk, s.live, op.p, op.name);
      && DirRemoved(g, s.disk, s'.disk, s.live, s.meta, op.p, op.name, t)
      && s'.live == s.live - {t} && s'.meta == s.meta && s'.dirs == s.dirs - {t}
  }

  /** What the operation did, whether it succeeded or not. */
  ghost predicate Did(g: Geo, s: Fs, op: Op, s': Fs)
    requires Fit(g, s, op)
  {
    match op
    case WriteOp(_, _, _, _, _) => DidWrite(g, s, op, s')
    case UnlinkOp(_, _) => DidUnlink(g, s, op, s')
    case MkdirOp(_, _, _, _) => DidMkdir(g, s, op, s')
    case RmdirOp(_, _) => DidRmdir(g, s, op, s')
  }

  /**
   The operation does not overwrite a directory (unless with a directory that fits in its place), and does not
   remove a directory by its own dots.
   */
  ghost predicate Harmless(g: Geo, s: Fs, root: nat, op: Op)
    requires Fit(g, s, op)
  {
    match op
    case WriteOp(p, name, data, _, _) =>
      CanWrite(g, s.disk, s.live, p, name, |data|) && name in Names(g, s.disk, p) ==>
        Target(g, s.disk, s.live, p, name) !in s.dirs || Refits(g, s, root, Target(g, s.disk, s.live, p, name), data)
    case UnlinkOp(_, _) => true
    case MkdirOp(_, _, _, _) => true
    case RmdirOp(p, name) => Removable(g, s.disk, s.live, p, name) ==> !IsDots(name)
  }

  lemma WriteExactly(g: Geo, s: Fs, root: nat, op: Op, s': Fs)
    requires op.WriteOp? && VolumeOk(g, s, root) && op.p in s.dirs && Fit(g, s, op) && DidWrite(g, s, op, s')
    ensures VolumeOk(g, s', root) <==> Harmless(g, s, root, op)
  {
    if !CanWrite(g, s.disk, s.live, op.p, op.name, |op.data|) {
      var more, lost :| Missed(g, s.disk, s'.disk, s.live, s.meta, more, lost) && s'.live == s.live + more
        && s'.meta == s.meta + lost;
      SpiltStep(g, s, root, s', more, lost);
    } else if op.name in Names(g, s.disk, op.p) {
      RewroteExactly(g, s, root, s'.disk, Target(g, s.disk, s.live, op.p, op.name), op.data);
      assert s' == Fs(s'.disk, s.live, s.meta, s.dirs);
    } else {
      var t :| Created(g, s.disk, s'.disk, s.live, s.meta, op.p, op.name, t, op.uid, op.gid, |op.data|)
        && s'.live == s.live + {t};
      CreatedKeeps(g, s, root, s'.disk, op.p, op.name, t, op.uid, op.gid, |op.data|);
      assert s' == Fs(s'.disk, s.live + {t}, s.meta, s.dirs);
    }
  }

  lemma UnlinkExactly(g: Geo, s: Fs, root: nat, op: Op, s': Fs)
    requires op.UnlinkOp? && VolumeOk(g, s, root) && op.p in s.dirs && Fit(g, s, op) && DidUnlink(g, s, op, s')
    ensures VolumeOk(g, s', root)
  {
    if IsFile(g, s.disk, s.live, op.p, op.name) {
      var t := Target(g, s.disk, s.live, op.p, op.name);
      TreeHome(g, s, root, op.p, op.name);
      UnlinkedKeeps(g, s, root, s'.disk, op.p, op.name, t);
      assert s' == Fs(s'.disk, AfterUnlink(s.disk, s.live, t), s.meta, s.dirs);
    }
  }

  lemma MkdirExactly(g: Geo, s: Fs, root: nat, op: Op, s': Fs)
    requires op.MkdirOp? && VolumeOk(g, s, root) && op.p in s.dirs && Fit(g, s, op) && DidMkdir(g, s, op, s')
    ensures VolumeOk(g, s', root)
  {
    if !CanMkdir(g, s.disk, op.p, op.name) {
      var more :| Stuck(g, s.disk, s'.disk, s.live, s.meta, more) && s'.live == s.live + more && s'.dirs == s.dirs;
      MkdirSpilt(g, s, root, s', more);
    } else {
      var t :| && DirMade(g, s.disk, s'.disk, s.live, s.meta, op.p, op.name, t, op.uid, op.gid)
               && s'.live == s.live + {t} && s'.dirs == s.dirs + {t};
      MadeKeeps(g, s, root, s'.disk, op.p, op.name, t, op.uid, op.gid);
      assert s' == Fs(s'.disk, s.live + {t}, s.meta, s.dirs + {t});
    }
  }

  lemma MkdirSpilt(g: Geo, s: Fs, root: nat, s': Fs, more: set<nat>)
    requires VolumeOk(g, s, root) && Spilt(g, s.disk, s'.disk, s.live, s.meta, more, {})
    requires s'.live == s.live + more && s'.meta == s.meta && s'.dirs == s.dirs
    ensures VolumeOk(g, s', root)
  {
    PlusNothing(s.meta);
    SpiltStep(g, s, root, s', more, {});
  }

  lemma PlusNothing(m: set<nat>)
    ensures m + {} == m
  {
  }

  lemma SpiltStep(g: Geo, s: Fs, root: nat, s': Fs, more: set<nat>, lost: set<nat>)
    requires VolumeOk(g, s, root) && Spilt(g, s.disk, s'.disk, s.live, s.meta, more, lost)
    requires s'.live == s.live + more && s'.meta == s.meta + lost && s'.dirs == s.dirs
    ensures VolumeOk(g, s', root)
  {
    SpiltKeeps(g, s, root, s'.disk, more, lost);
  }

  lemma RmdirExactly(g: Geo, s: Fs, root: nat, op: Op, s': Fs)
    requires op.RmdirOp? && VolumeOk(g, s, root) && op.p in s.dirs && Fit(g, s, op) && DidRmdir(g, s, op, s')
    ensures VolumeOk(g, s', root) <==> Harmless(g, s, root, op)
  {
    if Removable(g, s.disk, s.live, op.p, op.name) {
      var t := Target(g, s.disk, s.live, op.p, op.name);
      RemovedExactly(g, s, root, s'.disk, op.p, op.name, t);
      assert s' == Fs(s'.disk, s.live - {t}, s.meta, s.dirs - {t});
    }
  }

  /** One operation, in a directory of the tree, leaves a well-formed volume exactly when it is harmless. */
  lemma StepExactly(g: Geo, s: Fs, root: nat, op: Op, s': Fs)
    requires VolumeOk(g, s, root) && op.p in s.dirs && Fit(g, s, op) && Did(g, s, op, s')
    ensures VolumeOk(g, s', root) <==> Harmless(g, s, root, op)
  {
    match op
    case WriteOp(_, _, _, _, _) => WriteExactly(g, s, root, op, s');
    case UnlinkOp(_, _) => UnlinkExactly(g, s, root, op, s');
    case MkdirOp(_, _, _, _) => MkdirExactly(g, s, root, op, s');
    case RmdirOp(_, _) => RmdirExactly(g, s, root, op, s');
  }

  // ---------------------------------------------------------------- runs

  /** Operation `i` was performed in a directory of the tree. */
  ghost predicate Performed(g: Geo, ss: seq<Fs>, ops: seq<Op>, i: nat)
    requires |ss| == |ops| + 1 && i < |ops|
  {
    ops[i].p in ss[i].dirs && Fit(g, ss[i], ops[i]) && Did(g, ss[i], ops[i], ss[i + 1])
  }

  ghost predicate IsRun(g: Geo, ss: seq<Fs>, ops: seq<Op>) {
    |ss| == |ops| + 1 && forall i {:trigger Performed(g, ss, ops, i)} :: 0 <= i < |ops| ==> Performed(g, ss, ops, i)
  }

  ghost predicate HarmlessAt(g: Geo, s: Fs, root: nat, op: Op) { Fit(g, s, op) && Harmless(g, s, root, op) }

  ghost predicate AllHarmless(g: Geo, ss: seq<Fs>, root: nat, ops: seq<Op>, k: nat)
    requires |ss| == |ops| + 1 && k <= |ops|
  {
    forall i {:trigger HarmlessAt(g, ss[i], root, ops[i])} :: 0 <= i < k ==> HarmlessAt(g, ss[i], root, ops[i])
  }

  ghost predicate AllOk(g: Geo, ss: seq<Fs>, root: nat, k: nat)
    requires k < |ss|
  {
    forall i {:trigger VolumeOk(g, ss[i], root)} :: 0 <= i <= k ==> VolumeOk(g, ss[i], root)
  }

  lemma OneMoreOk(g: Geo, ss: seq<Fs>, root: nat, j: nat)
    requires j + 1 < |ss|
    ensures AllOk(g, ss, root, j + 1) <==> AllOk(g, ss, root, j) && VolumeOk(g, ss[j + 1], root)
  {
  }

  lemma OneMoreHarmless(g: Geo, ss: seq<Fs>, root: nat, ops: seq<Op>, j: nat)
    requires |ss| == |ops| + 1 && j < |ops|
    ensures AllHarmless(g, ss, root, ops, j + 1) <==>
            AllHarmless(g, ss, root, ops, j) && HarmlessAt(g, ss[j], root, ops[j])
  {
  }

  /** Over every sequence of operations, the volume is well formed throughout exactly when every one is harmless. */
  lemma {:induction false} RunExactly(g: Geo, ss: seq<Fs>, root: nat, ops: seq<Op>, k: nat)
    requires IsRun(g, ss, ops) && VolumeOk(g, ss[0], root) && k <= |ops|
    ensures AllOk(g, ss, root, k) <==> AllHarmless(g, ss, root, ops, k)
  {
    if k > 0 {
      var j: nat := k - 1;
      RunExactly(g, ss, root, ops, j);
      OneMoreOk(g, ss, root, j);
      OneMoreHarmless(g, ss, root, ops, j);
      assert Performed(g, ss, ops, j);
      if AllOk(g, ss, root, j) {
        assert VolumeOk(g, ss[j], root);
        StepExactly(g, ss[j], root, ops[j], ss[j + 1]);
      }
    }
  }

  lemma StillOk(g: Geo, ss: seq<Fs>, root: nat, ops: seq<Op>, j: nat)
    requires IsRun(g, ss, ops) && VolumeOk(g, ss[0], root) && j < |ops| && AllHarmless(g, ss, root, ops, j)
    ensures VolumeOk(g, ss[j], root)
  {
    RunExactly(g, ss, root, ops, j);
  }

  // ---------------------------------------------------------------- the calls are such steps

  method DoWrite(v: Volume, op: Op, ghost s: Fs) returns (ghost s': Fs)
    requires op.WriteOp? && v.disk == s.disk && Mounted(v.geo, s.disk, s.live, s.meta) && Fit(v.geo, s, op)
    modifies v
    ensures v.disk == s'.disk && DidWrite(v.geo, s, op, s')
  {
    var r, more, lost, _ := WriteFile(v, op.p, op.name, op.data, op.uid, op.gid, s.live, s.meta);
    if r.None? { return Fs(v.disk, s.live + more, s.meta + lost, s.dirs); }
    ghost var t: nat := r.value;
    s' := AfterWrite(v.geo, s, op, v.disk, t);
    WrittenIs(v.geo, s, op, v.disk, t);
  }

  ghost function AfterWrite(g: Geo, s: Fs, op: Op, d: Disk, t: nat): Fs
    requires op.WriteOp? && Fit(g, s, op)
  {
    Fs(d, if op.name in Names(g, s.disk, op.p) then s.live else s.live + {t}, s.meta, s.dirs)
  }

  lemma WrittenIs(g: Geo, s: Fs, op: Op, d: Disk, t: nat)
    requires op.WriteOp? && Fit(g, s, op) && CanWrite(g, s.disk, s.live, op.p, op.name, |op.data|)
    requires Written(g, s.disk, d, s.live, s.meta, op.p, op.name, op.data, op.uid, op.gid, t)
    ensures DidWrite(g, s, op, AfterWrite(g, s, op, d, t))
  {
  }

  method DoUnlink(v: Volume, op: Op, ghost s: Fs) returns (ghost s': Fs)
    requires op.UnlinkOp? && v.disk == s.disk && Mounted(v.geo, s.disk, s.live, s.meta) && Fit(v.geo, s, op)
             && IsDirectory(s.disk.inodes[op.p])
    modifies v
    ensures v.disk == s'.disk && DidUnlink(v.geo, s, op, s')
  {
    var r := Unlink(v, op.p, op.name, s.live, s.meta);
    if r.None? { return s; }
    s' := Fs(v.disk, AfterUnlink(s.disk, s.live, r.value), s.meta, s.dirs);
  }

  method DoMkdir(v: Volume, op: Op, ghost s: Fs) returns (ghost s': Fs)
    requires op.MkdirOp? && v.disk == s.disk && Mounted(v.geo, s.disk, s.live, s.meta) && Fit(v.geo, s, op)
             && |op.name| < 256
    modifies v
    ensures v.disk == s'.disk && DidMkdir(v.geo, s, op, s')
  {
    var r, more := Mkdir(v, op.p, op.name, op.uid, op.gid, s.live, s.meta);
    s' := if r.None? then Fs(v.disk, s.live + more, s.meta, s.dirs) else AfterMkdir(s, v.disk, r.value);
  }

  function AfterMkdir(s: Fs, d: Disk, t: nat): Fs { Fs(d, s.live + {t}, s.meta, s.dirs + {t}) }

  method DoRmdir(v: Volume, op: Op, ghost s: Fs) returns (ghost s': Fs)
    requires op.RmdirOp? && v.disk == s.disk && Mounted(v.geo, s.disk, s.live, s.meta) && Fit(v.geo, s, op)
    modifies v
    ensures v.disk == s'.disk && DidRmdir(v.geo, s, op, s')
  {
    var r := Rmdir(v, op.p, op.name, s.live, s.meta);
    if r.None? { return s; }
    ghost var t: nat := r.value;
    s' := Fs(v.disk, s.live - {t}, s.meta, s.dirs - {t});
  }

  /** Any call in a directory of the tree is a step, and leaves a well-formed volume exactly when it is harmless. */
  method Perform(v: Volume, op: Op, ghost s: Fs, ghost root: nat) returns (ghost s': Fs)
    requires VolumeOk(v.geo, s, root) && v.disk == s.disk && op.p in s.dirs && (op.MkdirOp? ==> |op.name| < 256)
    modifies v
    ensures v.disk == s'.disk && Fit(v.geo, s, op) && Did(v.geo, s, op, s')
    ensures VolumeOk(v.geo, s', root) <==> Harmless(v.geo, s, root, op)
  {
    TreeHome(v.geo, s, root, op.p, op.name);
    match op {
      case WriteOp(_, _, _, _, _) => s' := DoWrite(v, op, s);
      case UnlinkOp(_, _) => s' := DoUnlink(v, op, s);
      case MkdirOp(_, _, _, _) => s' := DoMkdir(v, op, s);
      case RmdirOp(_, _) => s' := DoRmdir(v, op, s);
    }
    StepExactly(v.geo, s, root, op, s');
  }
}
