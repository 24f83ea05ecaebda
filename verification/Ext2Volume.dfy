/**
 The state of a volume between operations: blocks and inodes accounted for, every directory well formed, the
 directories a tree whose link counts count names. Each operation keeps it, exactly under the condition stated.
 */
module Ext2Volume {
  import opened Ext2Disk
  import opened Ext2Owners
  import opened Ext2Overwrite
  import opened Ext2Records
  import opened Ext2Names
  import opened Ext2Namespace
  import opened Ext2Ops
  import opened Ext2Tree
  import opened Ext2Mkdir

  /** A volume, its inodes in use, the used blocks no inode owns, and the directories below the root. */
  datatype Fs = Fs(disk: Disk, live: set<nat>, meta: set<nat>, dirs: set<nat>)

  ghost predicate DirAt(g: Geo, d: Disk, i: nat) { DirOk(g, d, i) && IsDirectory(d.inodes[i]) }

  ghost predicate DirsOk(g: Geo, d: Disk, dirs: set<nat>) {
    forall i {:trigger DirAt(g, d, i)} :: i in dirs ==> DirAt(g, d, i)
  }

  /** The names of a directory, none for anything else. */
  ghost function NamesAt(g: Geo, d: Disk, i: nat): map<Name, nat> { if DirOk(g, d, i) then Names(g, d, i) else map[] }

  ghost function View(g: Geo, d: Disk, dirs: set<nat>): Space { map i | i in dirs :: NamesAt(g, d, i) }

  /** What a name stands for, if it is a directory, is one of the tree's. */
  ghost predicate Marked(ns: Space, nodes: seq<Inode>) {
    forall p, n, i: nat :: Entry(ns, p, n, i) && i < |nodes| && IsDirectory(nodes[i]) ==> i in ns
  }

  ghost predicate TreeOk(g: Geo, d: Disk, live: set<nat>, ns: Space, root: nat) {
    IsTree(ns, live, root) && Counted(ns, d.inodes) && Marked(ns, d.inodes)
  }

  /** A volume between operations. */
  ghost predicate VolumeOk(g: Geo, s: Fs, root: nat) {
    && Mounted(g, s.disk, s.live, s.meta) && DirsOk(g, s.disk, s.dirs)
    && TreeOk(g, s.disk, s.live, View(g, s.disk, s.dirs), root)
  }

  lemma DirsLive(g: Geo, s: Fs, root: nat)
    requires VolumeOk(g, s, root)
    ensures s.dirs <= s.live
  {
    assert View(g, s.disk, s.dirs).Keys == s.dirs;
  }

  lemma ViewIs(g: Geo, d: Disk, dirs: set<nat>, i: nat)
    requires DirsOk(g, d, dirs) && i in dirs
    ensures DirOk(g, d, i) && IsDirectory(d.inodes[i]) && View(g, d, dirs)[i] == Names(g, d, i)
  {
    assert DirAt(g, d, i);
  }

  lemma TreeInodes(g: Geo, s: Fs, root: nat, p: nat, n: Name, i: nat)
    requires VolumeOk(g, s, root) && Entry(View(g, s.disk, s.dirs), p, n, i)
    ensures i in s.live && i < |s.disk.inodes|
  {
    assert FileOk(g, s.disk, s.meta, i);
  }

  /** A directory of the tree is fit for every operation below it. */
  lemma TreeHome(g: Geo, s: Fs, root: nat, p: nat, name: Name)
    requires VolumeOk(g, s, root) && p in s.dirs
    ensures Home(g, s.disk, s.live, p) && IsDirectory(s.disk.inodes[p]) && TargetOk(g, s.disk, s.live, p, name)
    ensures name in Names(g, s.disk, p) ==> Entry(View(g, s.disk, s.dirs), p, name, Target(g, s.disk, s.live, p, name))
    ensures name in Names(g, s.disk, p) ==>
              (Target(g, s.disk, s.live, p, name) in s.dirs <==>
                IsDirectory(s.disk.inodes[Target(g, s.disk, s.live, p, name)]))
  {
    var ns := View(g, s.disk, s.dirs);
    ViewIs(g, s.disk, s.dirs, p);
    forall n | n in Names(g, s.disk, p) ensures Names(g, s.disk, p)[n] > 0 && Names(g, s.disk, p)[n] - 1 in s.live {
      assert Entry(ns, p, n, Names(g, s.disk, p)[n] - 1);
    }
    if name in Names(g, s.disk, p) {
      var t := Target(g, s.disk, s.live, p, name);
      assert Entry(ns, p, name, t);
      TreeInodes(g, s, root, p, name, t);
      if t in s.dirs { ViewIs(g, s.disk, s.dirs, t); }
    }
  }

  /** Where runs start: an accounted-for volume whose root holds nothing but its dots and has two links. */
  lemma EmptyVolumeOk(g: Geo, d: Disk, live: set<nat>, meta: set<nat>, root: nat)
    requires Mounted(g, d, live, meta) && root in live && DirOk(g, d, root) && IsDirectory(d.inodes[root])
    requires Names(g, d, root) == DotNames(root + 1, root + 1) && d.inodes[root].links == 2
    ensures VolumeOk(g, Fs(d, live, meta, {root}), root)
  {
    var ns: Space := map[root := DotNames(root + 1, root + 1)];
    assert DirAt(g, d, root);
    RootView(g, d, root);
    RootTree(live, root);
    RootCounted(ns, d.inodes, root);
    assert forall q, n, i :: Entry(ns, q, n, i) ==> i == root by {
      forall q, n, i: nat ensures Entry(ns, q, n, i) ==> i == root { RootEntries(root, q, n, i); }
    }
  }

  lemma RootView(g: Geo, d: Disk, root: nat)
    requires DirAt(g, d, root) && Names(g, d, root) == DotNames(root + 1, root + 1)
    ensures DirsOk(g, d, {root}) && View(g, d, {root}) == map[root := DotNames(root + 1, root + 1)]
  {
  }

  lemma RootCounted(ns: Space, nodes: seq<Inode>, root: nat)
    requires ns.Keys == {root} && |Citing(ns, root)| == 2 && root < |nodes| && nodes[root].links == 2
    requires forall i: nat :: i != root ==> Citing(ns, i) == {}
    ensures Counted(ns, nodes)
  {
    forall i: nat {:trigger CountedAt(ns, nodes, i)} ensures CountedAt(ns, nodes, i) {
      if i != root { assert Citing(ns, i) == {}; }
    }
  }

  // ---------------------------------------------------------------- what stays

  lemma DirStaysAt(g: Geo, d: Disk, d': Disk, i: nat)
    requires DirAt(g, d, i) && SameFile(g, d, d', i)
    ensures DirAt(g, d', i) && NamesAt(g, d', i) == NamesAt(g, d, i)
  {
    DirStays(g, d, d', i);
  }

  lemma ViewEq(g: Geo, d: Disk, dirs: set<nat>, ns: Space)
    requires ns.Keys == dirs && forall i {:trigger ShownAt(g, d, ns, i)} :: i in dirs ==> ShownAt(g, d, ns, i)
    ensures DirsOk(g, d, dirs) && View(g, d, dirs) == ns
  {
    forall i | i in dirs ensures DirAt(g, d, i) && View(g, d, dirs)[i] == ns[i] { assert ShownAt(g, d, ns, i); }
  }

  /** `i` is a directory, with the names `ns` gives it. */
  ghost predicate ShownAt(g: Geo, d: Disk, ns: Space, i: nat) {
    DirAt(g, d, i) && i in ns && ns[i] == NamesAt(g, d, i)
  }

  lemma ShownStays(g: Geo, d: Disk, d': Disk, dirs: set<nat>, ns': Space, i: nat)
    requires DirsOk(g, d, dirs) && i in dirs && SameFile(g, d, d', i) && i in ns' && ns'[i] == View(g, d, dirs)[i]
    ensures ShownAt(g, d', ns', i)
  {
    assert DirAt(g, d, i);
    DirStaysAt(g, d, d', i);
  }

  lemma ViewStays(g: Geo, d: Disk, d': Disk, dirs: set<nat>)
    requires DirsOk(g, d, dirs) && Everybody(g, d, d', dirs)
    ensures DirsOk(g, d', dirs) && View(g, d', dirs) == View(g, d, dirs)
  {
    var ns := View(g, d, dirs);
    forall i | i in dirs ensures ShownAt(g, d', ns, i) {
      assert SameFile(g, d, d', i);
      ShownStays(g, d, d', dirs, ns, i);
    }
    ViewEq(g, d', dirs, ns);
  }

  /** Outside `but`, the inodes in use are of the kinds they were. */
  ghost predicate SameKinds(nodes: seq<Inode>, nodes': seq<Inode>, live: set<nat>, but: set<nat>) {
    forall i :: i in live && i !in but ==> i < |nodes| && i < |nodes'| && nodes'[i].mode == nodes[i].mode
  }

  lemma TreeMono(ns: Space, live: set<nat>, live': set<nat>, root: nat)
    requires IsTree(ns, live, root) && live <= live'
    ensures IsTree(ns, live', root)
  {
  }

  lemma CountedStays(ns: Space, nodes: seq<Inode>, nodes': seq<Inode>, live: set<nat>)
    requires Sound(ns, live) && Counted(ns, nodes) && SameLinks(nodes, nodes', live, {})
    ensures Counted(ns, nodes')
  {
    forall i: nat {:trigger CountedAt(ns, nodes', i)} ensures CountedAt(ns, nodes', i) {
      SameCounted(ns, ns, nodes, nodes', live, {}, i);
    }
  }

  lemma MarkedStays(ns: Space, nodes: seq<Inode>, nodes': seq<Inode>, live: set<nat>)
    requires Sound(ns, live) && Marked(ns, nodes) && SameKinds(nodes, nodes', live, {})
    ensures Marked(ns, nodes')
  {
  }

  lemma TreeStays(g: Geo, d: Disk, d': Disk, live: set<nat>, live': set<nat>, ns: Space, root: nat)
    requires TreeOk(g, d, live, ns, root) && live <= live'
    requires SameLinks(d.inodes, d'.inodes, live, {}) && SameKinds(d.inodes, d'.inodes, live, {})
    ensures TreeOk(g, d', live', ns, root)
  {
    TreeMono(ns, live, live', root);
    CountedStays(ns, d.inodes, d'.inodes, live);
    MarkedStays(ns, d.inodes, d'.inodes, live);
  }

  lemma EverybodyHeads(g: Geo, d: Disk, d': Disk, live: set<nat>, but: set<nat>)
    requires forall i :: i in live && i !in but ==> SameFile(g, d, d', i)
    ensures SameLinks(d.inodes, d'.inodes, live, but) && SameKinds(d.inodes, d'.inodes, live, but)
  {
    forall i | i in live && i !in but
      ensures i < |d.inodes| && i < |d'.inodes| && d'.inodes[i].links == d.inodes[i].links
              && d'.inodes[i].mode == d.inodes[i].mode
    {
      assert SameFile(g, d, d', i);
    }
  }

  /** A failed attempt keeps the volume well formed, with what it took in use and unnamed. */
  lemma SpiltKeeps(g: Geo, s: Fs, root: nat, d: Disk, more: set<nat>, lost: set<nat>)
    requires VolumeOk(g, s, root) && Spilt(g, s.disk, d, s.live, s.meta, more, lost)
    ensures VolumeOk(g, Fs(d, s.live + more, s.meta + lost, s.dirs), root)
  {
    ViewStays(g, s.disk, d, s.dirs);
    EverybodyHeads(g, s.disk, d, s.live, {});
    TreeStays(g, s.disk, d, s.live, s.live + more, View(g, s.disk, s.dirs), root);
  }

  // ---------------------------------------------------------------- create

  /** The space with directory `p`, and `p` only, showing other names. */
  lemma ShownChange(g: Geo, d: Disk, d': Disk, dirs: set<nat>, ns': Space, p: nat)
    requires DirsOk(g, d, dirs) && p in dirs && ns'.Keys == dirs && ShownAt(g, d', ns', p)
    requires forall i :: i in dirs && i != p ==> SameFile(g, d, d', i) && ns'[i] == View(g, d, dirs)[i]
    ensures DirsOk(g, d', dirs) && View(g, d', dirs) == ns'
  {
    forall i | i in dirs ensures ShownAt(g, d', ns', i) {
      if i != p { ShownStays(g, d, d', dirs, ns', i); }
    }
    ViewEq(g, d', dirs, ns');
  }

  lemma CreatedView(g: Geo, s: Fs, d: Disk, p: nat, name: Name, t: nat, uid: nat, gid: nat, size: nat)
    requires DirsOk(g, s.disk, s.dirs) && s.dirs <= s.live && p in s.dirs && DirOk(g, s.disk, p)
    requires Created(g, s.disk, d, s.live, s.meta, p, name, t, uid, gid, size)
    ensures DirsOk(g, d, s.dirs) && View(g, d, s.dirs) == Bind(View(g, s.disk, s.dirs), p, name, t)
  {
    ViewIs(g, s.disk, s.dirs, p);
    BindAt(View(g, s.disk, s.dirs), p, name, t);
    assert DirAt(g, d, p);
    ShownChange(g, s.disk, d, s.dirs, Bind(View(g, s.disk, s.dirs), p, name, t), p);
  }

  lemma CreatedTree(g: Geo, s: Fs, root: nat, d: Disk, p: nat, name: Name, t: nat, uid: nat, gid: nat, size: nat)
    requires VolumeOk(g, s, root) && p in s.dirs && DirOk(g, s.disk, p) && name !in Names(g, s.disk, p)
    requires Created(g, s.disk, d, s.live, s.meta, p, name, t, uid, gid, size)
    ensures TreeOk(g, d, s.live + {t}, Bind(View(g, s.disk, s.dirs), p, name, t), root)
  {
    var ns := View(g, s.disk, s.dirs);
    ViewIs(g, s.disk, s.dirs, p);
    BindTree(ns, s.live, s.live + {t}, root, p, name, t);
    CreatedHeads(g, s.disk, d, s.live, s.meta, p, name, t, uid, gid, size);
    BindCounted(ns, s.disk.inodes, d.inodes, s.live, p, name, t);
    BindMarked(ns, s.disk.inodes, d.inodes, s.live, p, name, t);
  }

  lemma CreatedHeads(g: Geo, d0: Disk, d: Disk, live: set<nat>, meta: set<nat>, p: nat, name: Name, t: nat, uid: nat,
                     gid: nat, size: nat)
    requires DirOk(g, d0, p) && Created(g, d0, d, live, meta, p, name, t, uid, gid, size)
    ensures SameLinks(d0.inodes, d.inodes, live, {t}) && SameKinds(d0.inodes, d.inodes, live, {t})
    ensures d.inodes[t].links == 1 && !IsDirectory(d.inodes[t])
  {
    EverybodyHeads(g, d0, d, live, {p});
    NewFileKind(d.inodes[t]);
  }

  lemma BindMarked(ns: Space, nodes: seq<Inode>, nodes': seq<Inode>, live: set<nat>, p: nat, name: Name, t: nat)
    requires Sound(ns, live) && Marked(ns, nodes) && SameKinds(nodes, nodes', live, {t}) && t !in live
    requires p in ns && name !in ns[p] && t < |nodes'| && !IsDirectory(nodes'[t])
    ensures Marked(Bind(ns, p, name, t), nodes')
  {
    BindNames(ns, p, name, t);
  }

  /** Creating a file keeps the volume. */
  lemma CreatedKeeps(g: Geo, s: Fs, root: nat, d: Disk, p: nat, name: Name, t: nat, uid: nat, gid: nat, size: nat)
    requires VolumeOk(g, s, root) && p in s.dirs && DirOk(g, s.disk, p) && name !in Names(g, s.disk, p)
    requires Created(g, s.disk, d, s.live, s.meta, p, name, t, uid, gid, size)
    ensures VolumeOk(g, Fs(d, s.live + {t}, s.meta, s.dirs), root)
  {
    CreatedView(g, s, d, p, name, t, uid, gid, size);
    CreatedTree(g, s, root, d, p, name, t, uid, gid, size);
  }

  // ---------------------------------------------------------------- unlink

  lemma UnlinkedView(g: Geo, s: Fs, d: Disk, p: nat, name: Name, t: nat)
    requires DirsOk(g, s.disk, s.dirs) && s.dirs <= s.live && p in s.dirs && DirOk(g, s.disk, p) && t !in s.dirs
    requires Unlinked(g, s.disk, d, s.live, s.meta, p, name, t)
    ensures DirsOk(g, d, s.dirs) && View(g, d, s.dirs) == Unbind(View(g, s.disk, s.dirs), p, name)
  {
    ViewIs(g, s.disk, s.dirs, p);
    UnbindAt(View(g, s.disk, s.dirs), p, name);
    assert DirAt(g, d, p);
    ShownChange(g, s.disk, d, s.dirs, Unbind(View(g, s.disk, s.dirs), p, name), p);
  }

  lemma UnlinkedHeads(g: Geo, d0: Disk, d: Disk, live: set<nat>, meta: set<nat>, p: nat, name: Name, t: nat)
    requires DirOk(g, d0, p) && p != t && Unlinked(g, d0, d, live, meta, p, name, t)
    ensures SameLinks(d0.inodes, d.inodes, live, {t}) && SameKinds(d0.inodes, d.inodes, live, {t})
    ensures d0.inodes[t].links > 1 ==>
            d.inodes[t].links == Bumped(d0.inodes[t].links, -1) && d.inodes[t].mode == d0.inodes[t].mode
  {
    EverybodyHeads(g, d0, d, live, {p, t});
  }

  lemma UnbindMarked(ns: Space, nodes: seq<Inode>, nodes': seq<Inode>, live: set<nat>, p: nat, name: Name, t: nat)
    requires Sound(ns, live) && Marked(ns, nodes) && SameKinds(nodes, nodes', live, {t}) && Entry(ns, p, name, t)
    requires OnlyThere(ns, p, name, t) || (t < |nodes| && t < |nodes'| && nodes'[t].mode == nodes[t].mode)
    ensures Marked(Unbind(ns, p, name), nodes')
  {
    UnbindNames(ns, p, name);
  }

  lemma UnlinkedTree(g: Geo, s: Fs, root: nat, d: Disk, p: nat, name: Name, t: nat)
    requires VolumeOk(g, s, root) && p in s.dirs && DirOk(g, s.disk, p) && t !in s.dirs
             && Entry(View(g, s.disk, s.dirs), p, name, t)
    requires Unlinked(g, s.disk, d, s.live, s.meta, p, name, t)
    ensures TreeOk(g, d, AfterUnlink(s.disk, s.live, t), Unbind(View(g, s.disk, s.dirs), p, name), root)
  {
    var ns := View(g, s.disk, s.dirs);
    UnlinkedHeads(g, s.disk, d, s.live, s.meta, p, name, t);
    assert CountedAt(ns, s.disk.inodes, t);
    CitingIs(ns, p, name, t);
    if s.disk.inodes[t].links <= 1 {
      LastLink(ns, s.disk.inodes, p, name, t);
    } else {
      BumpDown(s.disk.inodes[t].links);
    }
    UnbindTree(ns, s.live, AfterUnlink(s.disk, s.live, t), root, p, name, t);
    UnbindCounted(ns, s.disk.inodes, d.inodes, s.live, p, name, t);
    UnbindMarked(ns, s.disk.inodes, d.inodes, s.live, p, name, t);
  }

  /** Unlinking a file keeps the volume: when the inode goes, no name is left for it. */
  lemma UnlinkedKeeps(g: Geo, s: Fs, root: nat, d: Disk, p: nat, name: Name, t: nat)
    requires VolumeOk(g, s, root) && p in s.dirs && DirOk(g, s.disk, p) && t !in s.dirs
             && Entry(View(g, s.disk, s.dirs), p, name, t)
    requires Unlinked(g, s.disk, d, s.live, s.meta, p, name, t)
    ensures VolumeOk(g, Fs(d, AfterUnlink(s.disk, s.live, t), s.meta, s.dirs), root)
  {
    UnlinkedView(g, s, d, p, name, t);
    UnlinkedTree(g, s, root, d, p, name, t);
  }

  // ---------------------------------------------------------------- mkdir

  /** One more directory in view. */
  lemma ShownMore(g: Geo, d: Disk, dirs: set<nat>, t: nat)
    requires DirsOk(g, d, dirs) && t !in dirs && DirAt(g, d, t)
    ensures DirsOk(g, d, dirs + {t}) && View(g, d, dirs + {t}) == View(g, d, dirs)[t := NamesAt(g, d, t)]
  {
  }

  lemma MadeBelow(g: Geo, s: Fs, d: Disk, p: nat, name: Name, t: nat, uid: nat, gid: nat)
    requires DirsOk(g, s.disk, s.dirs) && s.dirs <= s.live && p in s.dirs && DirOk(g, s.disk, p)
    requires DirMade(g, s.disk, d, s.live, s.meta, p, name, t, uid, gid)
    ensures DirsOk(g, d, s.dirs) && View(g, d, s.dirs) == Bind(View(g, s.disk, s.dirs), p, name, t)
  {
    ViewIs(g, s.disk, s.dirs, p);
    BindAt(View(g, s.disk, s.dirs), p, name, t);
    assert DirAt(g, d, p);
    ShownChange(g, s.disk, d, s.dirs, Bind(View(g, s.disk, s.dirs), p, name, t), p);
  }

  lemma MadeDots(g: Geo, d0: Disk, d: Disk, live: set<nat>, meta: set<nat>, p: nat, name: Name, t: nat, uid: nat,
                 gid: nat)
    requires DirOk(g, d0, p) && DirMade(g, d0, d, live, meta, p, name, t, uid, gid)
    ensures DirAt(g, d, t) && NamesAt(g, d, t) == DotNames(t + 1, p + 1)
  {
    NewDirKind(d.inodes[t]);
  }

  lemma MadeView(g: Geo, s: Fs, d: Disk, p: nat, name: Name, t: nat, uid: nat, gid: nat)
    requires DirsOk(g, s.disk, s.dirs) && s.dirs <= s.live && p in s.dirs && DirOk(g, s.disk, p)
    requires DirMade(g, s.disk, d, s.live, s.meta, p, name, t, uid, gid)
    ensures DirsOk(g, d, s.dirs + {t}) && p in View(g, s.disk, s.dirs)
    ensures View(g, d, s.dirs + {t}) == Plant(View(g, s.disk, s.dirs), p, name, t)
  {
    MadeBelow(g, s, d, p, name, t, uid, gid);
    MadeDots(g, s.disk, d, s.live, s.meta, p, name, t, uid, gid);
    ShownMore(g, d, s.dirs, t);
    PlantIs(View(g, s.disk, s.dirs), p, name, t, NamesAt(g, d, t));
  }

  lemma MadeHeads(g: Geo, d0: Disk, d: Disk, live: set<nat>, meta: set<nat>, p: nat, name: Name, t: nat, uid: nat,
                  gid: nat)
    requires DirOk(g, d0, p) && DirMade(g, d0, d, live, meta, p, name, t, uid, gid)
    ensures SameLinks(d0.inodes, d.inodes, live, {p, t}) && SameKinds(d0.inodes, d.inodes, live, {t})
    ensures d.inodes[t].links == 2 && d.inodes[p].links == Bumped(d0.inodes[p].links, 1)
  {
    EverybodyHeads(g, d0, d, live, {p});
  }

  lemma PlantMarked(ns: Space, nodes: seq<Inode>, nodes': seq<Inode>, live: set<nat>, p: nat, name: Name, t: nat)
    requires Sound(ns, live) && Marked(ns, nodes) && SameKinds(nodes, nodes', live, {t}) && t !in live && p in ns
             && name !in ns[p]
    ensures Marked(Plant(ns, p, name, t), nodes')
  {
    PlantNames(ns, p, name, t);
  }

  lemma MadeTree(g: Geo, s: Fs, root: nat, d: Disk, p: nat, name: Name, t: nat, uid: nat, gid: nat)
    requires VolumeOk(g, s, root) && p in s.dirs && DirOk(g, s.disk, p) && name !in Names(g, s.disk, p)
    requires DirMade(g, s.disk, d, s.live, s.meta, p, name, t, uid, gid)
    ensures TreeOk(g, d, s.live + {t}, Plant(View(g, s.disk, s.dirs), p, name, t), root)
  {
    var ns := View(g, s.disk, s.dirs);
    ViewIs(g, s.disk, s.dirs, p);
    MadeHeads(g, s.disk, d, s.live, s.meta, p, name, t, uid, gid);
    PlantTree(ns, s.live, root, p, name, t);
    PlantCounted(ns, s.disk.inodes, d.inodes, s.live, p, name, t);
    PlantMarked(ns, s.disk.inodes, d.inodes, s.live, p, name, t);
  }

  /** Making a directory keeps the volume. */
  lemma MadeKeeps(g: Geo, s: Fs, root: nat, d: Disk, p: nat, name: Name, t: nat, uid: nat, gid: nat)
    requires VolumeOk(g, s, root) && p in s.dirs && DirOk(g, s.disk, p) && name !in Names(g, s.disk, p)
    requires DirMade(g, s.disk, d, s.live, s.meta, p, name, t, uid, gid)
    ensures VolumeOk(g, Fs(d, s.live + {t}, s.meta, s.dirs + {t}), root)
  {
    MadeView(g, s, d, p, name, t, uid, gid);
    MadeTree(g, s, root, d, p, name, t, uid, gid);
  }

  // ---------------------------------------------------------------- rmdir

  lemma ViewLess(g: Geo, d: Disk, dirs: set<nat>, t: nat)
    requires DirsOk(g, d, dirs)
    ensures DirsOk(g, d, dirs - {t}) && View(g, d, dirs - {t}) == View(g, d, dirs) - {t}
  {
  }

  lemma PruneIs(ns: Space, p: nat, name: Name, t: nat)
    requires p in ns && p != t
    ensures Prune(ns, p, name, t) == Unbind(ns - {t}, p, name)
  {
  }

  lemma RemovedView(g: Geo, s: Fs, d: Disk, p: nat, name: Name, t: nat)
    requires DirsOk(g, s.disk, s.dirs) && s.dirs <= s.live && p in s.dirs && DirOk(g, s.disk, p) && p != t
    requires DirRemoved(g, s.disk, d, s.live, s.meta, p, name, t)
    ensures DirsOk(g, d, s.dirs - {t}) && p in View(g, s.disk, s.dirs)
    ensures View(g, d, s.dirs - {t}) == Prune(View(g, s.disk, s.dirs), p, name, t)
  {
    var dirs, ns := s.dirs - {t}, View(g, s.disk, s.dirs);
    ViewIs(g, s.disk, s.dirs, p);
    ViewLess(g, s.disk, s.dirs, t);
    PruneIs(ns, p, name, t);
    UnbindAt(ns - {t}, p, name);
    assert DirAt(g, d, p);
    ShownChange(g, s.disk, d, dirs, Unbind(ns - {t}, p, name), p);
  }

  lemma RemovedHeads(g: Geo, d0: Disk, d: Disk, live: set<nat>, meta: set<nat>, p: nat, name: Name, t: nat)
    requires DirOk(g, d0, p) && p != t && DirRemoved(g, d0, d, live, meta, p, name, t)
    ensures SameLinks(d0.inodes, d.inodes, live, {p, t}) && SameKinds(d0.inodes, d.inodes, live, {t})
    ensures p < |d.inodes| && d.inodes[p].links == Bumped(d0.inodes[p].links, -1)
  {
    EverybodyHeads(g, d0, d, live, {p, t});
  }

  lemma PruneMarked(ns: Space, nodes: seq<Inode>, nodes': seq<Inode>, live: set<nat>, root: nat, p: nat, name: Name,
                    t: nat)
    requires Prunable(ns, live, root, p, name, t) && p != t && Marked(ns, nodes) && SameKinds(nodes, nodes', live, {t})
    ensures Marked(Prune(ns, p, name, t), nodes')
  {
    PruneNames(ns, p, name, t);
    var ns' := Prune(ns, p, name, t);
    forall q, n, i: nat | Entry(ns', q, n, i) && i < |nodes'| && IsDirectory(nodes'[i]) ensures i in ns' {
      assert Entry(ns, q, n, i);
      if i == t { EmptyNamedTwice(ns, live, root, p, name, t, q, n); }
    }
  }

  lemma RemovedTree(g: Geo, s: Fs, root: nat, d: Disk, p: nat, name: Name, t: nat)
    requires VolumeOk(g, s, root) && p in s.dirs && DirOk(g, s.disk, p) && p != t
    requires Prunable(View(g, s.disk, s.dirs), s.live, root, p, name, t)
             && DirRemoved(g, s.disk, d, s.live, s.meta, p, name, t)
    ensures TreeOk(g, d, s.live - {t}, Prune(View(g, s.disk, s.dirs), p, name, t), root)
  {
    var ns := View(g, s.disk, s.dirs);
    RemovedHeads(g, s.disk, d, s.live, s.meta, p, name, t);
    PruneTree(ns, s.live, root, p, name, t);
    PruneCounted(ns, s.disk.inodes, d.inodes, s.live, root, p, name, t);
    PruneMarked(ns, s.disk.inodes, d.inodes, s.live, root, p, name, t);
  }

  /** The name stands for an empty directory of the tree. */
  lemma RemovableIs(g: Geo, s: Fs, root: nat, p: nat, name: Name)
    requires VolumeOk(g, s, root) && p in s.dirs && Home(g, s.disk, s.live, p) && TargetOk(g, s.disk, s.live, p, name)
    requires Removable(g, s.disk, s.live, p, name)
    ensures var ns, t := View(g, s.disk, s.dirs), Target(g, s.disk, s.live, p, name);
            t in s.dirs && Entry(ns, p, name, t) && (forall m :: m in ns[t] ==> IsDots(m))
  {
    TreeHome(g, s, root, p, name);
    ViewIs(g, s.disk, s.dirs, Target(g, s.disk, s.live, p, name));
  }

  /** Some other directory names `p`. */
  lemma NamedAbove(ns: Space, live: set<nat>, root: nat, p: nat) returns (q: nat, n: Name)
    requires IsTree(ns, live, root) && p in ns && p != root
    ensures q in ns && q != p && Entry(ns, q, n, p)
  {
    assert Filed(ns, p) && Dotted(ns, p);
    q := Up(ns, p);
    n :| !IsDots(n) && Entry(ns, q, n, p);
    if q == p { NotItself(ns, live, root, p, n); }
  }

  /** A directory that takes itself away leaves a tree without its root, or a name for an inode not in use. */
  lemma SelfRemoved(g: Geo, s: Fs, root: nat, d: Disk, p: nat, name: Name)
    requires VolumeOk(g, s, root) && p in s.dirs && DirOk(g, s.disk, p)
             && DirRemoved(g, s.disk, d, s.live, s.meta, p, name, p)
    ensures !VolumeOk(g, Fs(d, s.live - {p}, s.meta, s.dirs - {p}), root)
  {
    var ns, ns' := View(g, s.disk, s.dirs), View(g, d, s.dirs - {p});
    if p != root {
      var q, n := NamedAbove(ns, s.live, root, p);
      ViewIs(g, s.disk, s.dirs, q);
      DirStaysAt(g, s.disk, d, q);
      assert Entry(ns', q, n, p);
    }
  }

  /** Removing a directory keeps the volume exactly when it is not called by its own `.` or `..`. */
  lemma RemovedExactly(g: Geo, s: Fs, root: nat, d: Disk, p: nat, name: Name, t: nat)
    requires VolumeOk(g, s, root) && p in s.dirs && Home(g, s.disk, s.live, p) && TargetOk(g, s.disk, s.live, p, name)
    requires Removable(g, s.disk, s.live, p, name) && t == Target(g, s.disk, s.live, p, name)
    requires DirRemoved(g, s.disk, d, s.live, s.meta, p, name, t)
    ensures VolumeOk(g, Fs(d, s.live - {t}, s.meta, s.dirs - {t}), root) <==> !IsDots(name)
    ensures t == p <==> IsDots(name)
  {
    RemovableIs(g, s, root, p, name);
    if IsDots(name) {
      EmptyByDots(View(g, s.disk, s.dirs), s.live, root, p, name, t);
      SelfRemoved(g, s, root, d, p, name);
    } else {
      ParentIs(View(g, s.disk, s.dirs), s.live, root, p, name, t);
      RemovedView(g, s, d, p, name, t);
      RemovedTree(g, s, root, d, p, name, t);
    }
  }

  /** Some name outside `gone` stands for inode `i`. */
  ghost predicate Naming(m: map<Name, nat>, gone: set<Name>, i: nat) {
    exists n :: n in m && n !in gone && m[n] == i + 1
  }

  lemma NamesAlive(m: map<Name, nat>, m': map<Name, nat>, gone: set<Name>, live: set<nat>, t: nat)
    requires m' == m - gone && forall n :: n in m ==> m[n] > 0 && m[n] - 1 in live
    ensures (forall n :: n in m' ==> m'[n] > 0 && m'[n] - 1 in live - {t}) <==> !Naming(m, gone, t)
  {
    forall n | n in m && n !in gone ensures n in m' && m'[n] == m[n] {}
  }

  lemma HomeAgain(g: Geo, d0: Disk, d: Disk, live: set<nat>, gone: set<Name>, t: nat, q: nat)
    requires Home(g, d0, live, q) && q != t && DirOk(g, d, q) && Names(g, d, q) == Names(g, d0, q) - gone
    ensures Home(g, d, live - {t}, q) <==> !Naming(Names(g, d0, q), gone, t)
  {
    NamesAlive(Names(g, d0, q), Names(g, d, q), gone, live, t);
  }

  /**
   Whatever the tree looks like: after `t` has been removed from `p`, a directory is still fit for further
   operations exactly when it is not `t` itself and has no other name for it.
   */
  lemma RemovedHome(g: Geo, d0: Disk, d: Disk, live: set<nat>, meta: set<nat>, p: nat, name: Name, t: nat, q: nat)
    requires Home(g, d0, live, p) && Home(g, d0, live, q) && DirRemoved(g, d0, d, live, meta, p, name, t)
    ensures Home(g, d, live - {t}, q) <==> q != t && !Naming(Names(g, d0, q), if q == p then {name} else {}, t)
  {
    if q != t && q == p {
      HomeAgain(g, d0, d, live, {name}, t, p);
    } else if q != t {
      DirStays(g, d0, d, q);
      NothingGone(Names(g, d0, q));
      HomeAgain(g, d0, d, live, {}, t, q);
    }
  }

  lemma NothingGone(m: map<Name, nat>)
    ensures m - {} == m
  {
  }

  /** `rmdir` of `.`: the parent keeps a name for the freed inode, whose record still points at its freed blocks. */
  lemma RemovedByDot(g: Geo, s: Fs, root: nat, d: Disk, p: nat) returns (q: nat, n: Name)
    requires VolumeOk(g, s, root) && p in s.dirs && p != root && DirOk(g, s.disk, p)
             && DirRemoved(g, s.disk, d, s.live, s.meta, p, DOT, p)
    ensures q in s.dirs && q != p && DirOk(g, d, q) && n in Names(g, d, q) && Names(g, d, q)[n] == p + 1
    ensures p !in s.live - {p} && !Home(g, d, s.live - {p}, q)
    ensures p < |d.inodes| && p < |s.disk.inodes| && d.inodes[p].block == s.disk.inodes[p].block
  {
    q, n := NamedAbove(View(g, s.disk, s.dirs), s.live, root, p);
    ViewIs(g, s.disk, s.dirs, q);
    DirStays(g, s.disk, d, q);
  }
}
