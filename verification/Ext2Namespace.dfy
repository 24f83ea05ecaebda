/**
 The directory tree, as the map from each directory to its names: what makes it a tree whose link counts count
 names, and why creating, removing, making and removing directories keep it one.
 */
module Ext2Namespace {
  import opened Ext2Disk
  import opened Ext2Records

  const DOT: Name := [46]
  const DOTDOT: Name := [46, 46]

  predicate IsDots(name: Name) { name == DOT || name == DOTDOT }

  /** From a directory's index to its names, each standing for an inode number, one more than the index. */
  type Space = map<nat, map<Name, nat>>

  /** Directory `p` has the name `n` for inode `i`. */
  predicate Entry(ns: Space, p: nat, n: Name, i: nat) { p in ns && n in ns[p] && ns[p][n] == i + 1 }

  /** Every place that names inode `i`. */
  ghost function Citing(ns: Space, i: nat): set<(nat, Name)> {
    set p, n | p in ns && n in ns[p] && ns[p][n] == i + 1 :: (p, n)
  }

  /** A link count moved by `delta`, in the width of its field. */
  function Bumped(links: nat, delta: int): nat { (links + delta) % TWO16 }

  // ---------------------------------------------------------------- a tree

  /** Names stand for inodes in use, `.` for the directory itself and `..` for a directory. */
  ghost predicate Sound(ns: Space, live: set<nat>) {
    && ns.Keys <= live && Numbered(ns)
    && (forall p, n, i :: Entry(ns, p, n, i) ==> i in live)
    && (forall p {:trigger Dotted(ns, p)} :: p in ns ==> Dotted(ns, p))
  }

  /** Inode numbers start at 1. */
  ghost predicate Numbered(ns: Space) { forall p, n :: p in ns && n in ns[p] ==> ns[p][n] > 0 }

  ghost predicate Dotted(ns: Space, p: nat) {
    Entry(ns, p, DOT, p) && Entry(ns, p, DOTDOT, Up(ns, p)) && Up(ns, p) in ns
  }

  /** Where `..` leads. */
  function Up(ns: Space, c: nat): nat {
    if c in ns && DOTDOT in ns[c] && ns[c][DOTDOT] > 0 then ns[c][DOTDOT] - 1 else c
  }

  /** No directory has two names besides the dots. */
  ghost predicate OneName(ns: Space) {
    forall p, m, q, n, c {:trigger Entry(ns, p, m, c), Entry(ns, q, n, c)} ::
      Entry(ns, p, m, c) && Entry(ns, q, n, c) && c in ns && !IsDots(m) && !IsDots(n) ==> p == q && m == n
  }

  /** A directory other than the root has a name in its parent. */
  ghost predicate Filed(ns: Space, c: nat) {
    exists n :: !IsDots(n) && Entry(ns, Up(ns, c), n, c)
  }

  /** Going up `k` times leads to the root. */
  ghost predicate Climbs(ns: Space, root: nat, c: nat, k: nat)
    decreases k
  {
    c in ns && if c == root then k == 0 else k > 0 && Climbs(ns, root, Up(ns, c), k - 1)
  }

  ghost predicate Reachable(ns: Space, root: nat, c: nat) { exists k: nat :: Climbs(ns, root, c, k) }

  /** The names form a tree below the root. */
  ghost predicate IsTree(ns: Space, live: set<nat>, root: nat) {
    && Sound(ns, live) && OneName(ns)
    && root in ns && Entry(ns, root, DOTDOT, root) && (forall p, n :: Entry(ns, p, n, root) ==> IsDots(n))
    && (forall c {:trigger Filed(ns, c)} :: c in ns && c != root ==> Filed(ns, c))
    && (forall c {:trigger Reachable(ns, root, c)} :: c in ns ==> Reachable(ns, root, c))
  }

  /**
   A directory's link count is the number of its names, the dots included, in the width of its field; a file
   that is named at all has at least as many links as names.
   */
  ghost predicate Counted(ns: Space, nodes: seq<Inode>) {
    forall i: nat {:trigger CountedAt(ns, nodes, i)} :: CountedAt(ns, nodes, i)
  }

  ghost predicate CountedAt(ns: Space, nodes: seq<Inode>, i: nat) {
    var n := |Citing(ns, i)|;
    && (i in ns ==> i < |nodes| && nodes[i].links == n % TWO16)
    && (i !in ns && n > 0 ==> i < |nodes| && n <= nodes[i].links < TWO16)
  }

  /** Outside `but`, the inodes in use have the link counts they had. */
  ghost predicate SameLinks(nodes: seq<Inode>, nodes': seq<Inode>, live: set<nat>, but: set<nat>) {
    forall i :: i in live && i !in but ==> i < |nodes| && i < |nodes'| && nodes'[i].links == nodes[i].links
  }

  lemma Uncited(ns: Space, live: set<nat>, i: nat)
    requires Sound(ns, live) && i !in live
    ensures i !in ns && Citing(ns, i) == {}
  {
    forall x | x in Citing(ns, i) ensures false { CitingIs(ns, x.0, x.1, i); }
  }

  lemma SameCounted(ns: Space, ns': Space, nodes: seq<Inode>, nodes': seq<Inode>, live: set<nat>, but: set<nat>, i: nat)
    requires Sound(ns, live) && Counted(ns, nodes) && SameLinks(nodes, nodes', live, but) && i !in but
    requires (i in ns' <==> i in ns) && Citing(ns', i) == Citing(ns, i)
    ensures CountedAt(ns', nodes', i)
  {
    assert CountedAt(ns, nodes, i);
    if i !in live { Uncited(ns, live, i); }
  }

  lemma CitingIs(ns: Space, p: nat, n: Name, i: nat)
    ensures (p, n) in Citing(ns, i) <==> Entry(ns, p, n, i)
  {
  }

  /** No directory is its own parent but the root. */
  lemma {:induction false} NoSelf(ns: Space, root: nat, c: nat, k: nat)
    requires Climbs(ns, root, c, k) && c != root
    ensures Up(ns, c) != c
    decreases k
  {
    if Up(ns, c) == c { NoSelf(ns, root, c, k - 1); }
  }

  /** A name besides the dots never stands for the directory that holds it. */
  lemma NotItself(ns: Space, live: set<nat>, root: nat, p: nat, n: Name)
    requires IsTree(ns, live, root) && Entry(ns, p, n, p)
    ensures IsDots(n)
  {
    if !IsDots(n) {
      assert p != root && Filed(ns, p) && Reachable(ns, root, p);
      var m :| !IsDots(m) && Entry(ns, Up(ns, p), m, p);
      var k: nat :| Climbs(ns, root, p, k);
      NoSelf(ns, root, p, k);
    }
  }

  /** What a name besides the dots stands for is a directory whose `..` leads back, or no directory. */
  lemma ParentIs(ns: Space, live: set<nat>, root: nat, p: nat, n: Name, c: nat)
    requires IsTree(ns, live, root) && Entry(ns, p, n, c) && !IsDots(n) && c in ns
    ensures c != root && c != p && Entry(ns, c, DOTDOT, p)
  {
    if c == p { NotItself(ns, live, root, p, n); }
    assert Filed(ns, c);
    var m :| !IsDots(m) && Entry(ns, Up(ns, c), m, c);
  }

  /** An empty directory has no directory below it. */
  lemma EmptyHasNoChild(ns: Space, live: set<nat>, root: nat, t: nat, c: nat)
    requires IsTree(ns, live, root) && t in ns && (forall n :: n in ns[t] ==> IsDots(n)) && Entry(ns, c, DOTDOT, t)
    ensures c == root && t == root
  {
    assert c != root ==> Filed(ns, c);
  }

  // ---------------------------------------------------------------- the four changes

  function Bind(ns: Space, p: nat, name: Name, i: nat): Space
    requires p in ns
  {
    var names: map<Name, nat> := ns[p][name := i + 1];
    ns[p := names]
  }

  function Unbind(ns: Space, p: nat, name: Name): Space
    requires p in ns
  {
    var names: map<Name, nat> := ns[p] - {name};
    ns[p := names]
  }

  lemma BindAt(ns: Space, p: nat, name: Name, i: nat)
    requires p in ns
    ensures Bind(ns, p, name, i).Keys == ns.Keys && Bind(ns, p, name, i)[p] == ns[p][name := i + 1]
    ensures forall q :: q in ns && q != p ==> Bind(ns, p, name, i)[q] == ns[q]
  {
  }

  lemma UnbindAt(ns: Space, p: nat, name: Name)
    requires p in ns
    ensures Unbind(ns, p, name).Keys == ns.Keys && Unbind(ns, p, name)[p] == ns[p] - {name}
    ensures forall q :: q in ns && q != p ==> Unbind(ns, p, name)[q] == ns[q]
  {
  }

  /** The names of an empty directory. */
  function DotNames(self: nat, parent: nat): map<Name, nat> { map[DOT := self, DOTDOT := parent] }

  /** A new empty directory `t` below `p`. */
  function Plant(ns: Space, p: nat, name: Name, t: nat): Space
    requires p in ns
  {
    Bind(ns, p, name, t)[t := DotNames(t + 1, p + 1)]
  }

  lemma PlantIs(ns: Space, p: nat, name: Name, t: nat, dots: map<Name, nat>)
    requires p in ns && dots == DotNames(t + 1, p + 1)
    ensures Plant(ns, p, name, t) == Bind(ns, p, name, t)[t := dots]
  {
  }

  /** Directory `t` below `p` taken away. */
  function Prune(ns: Space, p: nat, name: Name, t: nat): Space
    requires p in ns
  {
    Unbind(ns, p, name) - {t}
  }

  ghost predicate SameUps(ns: Space, ns': Space) {
    forall x {:trigger Up(ns', x)} :: x in ns ==> Up(ns', x) == Up(ns, x)
  }

  /** Two spaces that agree on `..` climb alike. */
  lemma {:induction false} ClimbsStill(ns: Space, ns': Space, root: nat, c: nat, k: nat)
    requires Climbs(ns, root, c, k)
    requires SameUps(ns, ns') && ns.Keys <= ns'.Keys
    ensures Climbs(ns', root, c, k)
    decreases k
  {
    if c != root { ClimbsStill(ns, ns', root, Up(ns, c), k - 1); }
  }

  lemma StillReachable(ns: Space, ns': Space, root: nat)
    requires forall c {:trigger Reachable(ns, root, c)} :: c in ns ==> Reachable(ns, root, c)
    requires SameUps(ns, ns') && ns.Keys <= ns'.Keys
    ensures forall c {:trigger Reachable(ns', root, c)} :: c in ns ==> Reachable(ns', root, c)
  {
    forall c | c in ns ensures Reachable(ns', root, c) {
      assert Reachable(ns, root, c);
      var k: nat :| Climbs(ns, root, c, k);
      ClimbsStill(ns, ns', root, c, k);
    }
  }

  // ---------------------------------------------------------------- naming a file

  /** One more name, and no other change. */
  ghost predicate Named(ns: Space, ns': Space, p: nat, name: Name, t: nat) {
    && ns'.Keys == ns.Keys && (Numbered(ns) ==> Numbered(ns'))
    && (forall q, n, i :: Entry(ns', q, n, i) <==> Entry(ns, q, n, i) || (q == p && n == name && i == t))
  }

  lemma BindNames(ns: Space, p: nat, name: Name, t: nat)
    requires p in ns && name !in ns[p]
    ensures Named(ns, Bind(ns, p, name, t), p, name, t)
  {
  }

  lemma UpIs(ns: Space, c: nat, q: nat)
    requires Entry(ns, c, DOTDOT, q)
    ensures Up(ns, c) == q
  {
  }

  lemma NamedDots(ns: Space, ns': Space, live: set<nat>, p: nat, name: Name, t: nat, x: nat)
    requires Sound(ns, live) && Named(ns, ns', p, name, t) && x in ns
    ensures Dotted(ns', x) && Up(ns', x) == Up(ns, x)
  {
    assert Dotted(ns, x);
    assert Entry(ns', x, DOTDOT, Up(ns, x)) && Entry(ns', x, DOT, x);
    UpIs(ns', x, Up(ns, x));
  }

  lemma NamedSound(ns: Space, ns': Space, live: set<nat>, live': set<nat>, p: nat, name: Name, t: nat)
    requires Sound(ns, live) && Named(ns, ns', p, name, t) && t in live' && live <= live'
    ensures Sound(ns', live') && SameUps(ns, ns')
  {
    forall x {:trigger Dotted(ns', x)} | x in ns ensures Dotted(ns', x) { NamedDots(ns, ns', live, p, name, t, x); }
    forall x {:trigger Up(ns', x)} | x in ns ensures Up(ns', x) == Up(ns, x) {
      NamedDots(ns, ns', live, p, name, t, x);
    }
  }

  lemma NamedOnce(ns: Space, ns': Space, p: nat, name: Name, t: nat)
    requires OneName(ns) && Named(ns, ns', p, name, t) && t !in ns
    ensures OneName(ns')
  {
  }

  /** A name is added for an inode that is no directory. */
  lemma BindTree(ns: Space, live: set<nat>, live': set<nat>, root: nat, p: nat, name: Name, t: nat)
    requires IsTree(ns, live, root) && p in ns && name !in ns[p] && t !in ns && t in live' && live <= live'
    ensures IsTree(Bind(ns, p, name, t), live', root)
  {
    var ns' := Bind(ns, p, name, t);
    BindNames(ns, p, name, t);
    NamedSound(ns, ns', live, live', p, name, t);
    NamedOnce(ns, ns', p, name, t);
    NamedFiled(ns, ns', root, p, name, t);
    StillReachable(ns, ns', root);
  }

  lemma NamedFiled(ns: Space, ns': Space, root: nat, p: nat, name: Name, t: nat)
    requires Named(ns, ns', p, name, t) && SameUps(ns, ns')
    requires forall c {:trigger Filed(ns, c)} :: c in ns && c != root ==> Filed(ns, c)
    ensures forall c {:trigger Filed(ns', c)} :: c in ns' && c != root ==> Filed(ns', c)
  {
    forall c | c in ns' && c != root ensures Filed(ns', c) {
      assert Filed(ns, c);
      var n :| !IsDots(n) && Entry(ns, Up(ns, c), n, c);
      assert Entry(ns', Up(ns', c), n, c);
    }
  }

  /** The new name is the only one of a file nobody named before. */
  lemma BindCounted(ns: Space, nodes: seq<Inode>, nodes': seq<Inode>, live: set<nat>, p: nat, name: Name, t: nat)
    requires Sound(ns, live) && Counted(ns, nodes) && p in ns && name !in ns[p] && t !in live
    requires t < |nodes'| && nodes'[t].links == 1 && SameLinks(nodes, nodes', live, {t})
    ensures Counted(Bind(ns, p, name, t), nodes')
  {
    var ns' := Bind(ns, p, name, t);
    BindNames(ns, p, name, t);
    forall i: nat {:trigger CountedAt(ns', nodes', i)} ensures CountedAt(ns', nodes', i) {
      if i == t {
        CitingOne(ns', t, p, name);
      } else {
        SameCiting(ns, ns', i);
        SameCounted(ns, ns', nodes, nodes', live, {t}, i);
      }
    }
  }

  lemma SameCiting(ns: Space, ns': Space, i: nat)
    requires forall p, n :: Entry(ns', p, n, i) <==> Entry(ns, p, n, i)
    ensures Citing(ns', i) == Citing(ns, i)
  {
    forall x | x in Citing(ns', i) || x in Citing(ns, i) ensures x in Citing(ns', i) && x in Citing(ns, i) {
      CitingIs(ns, x.0, x.1, i);
      CitingIs(ns', x.0, x.1, i);
    }
  }

  lemma CitingOne(ns: Space, i: nat, p: nat, n: Name)
    requires forall q, m :: Entry(ns, q, m, i) <==> q == p && m == n
    ensures Citing(ns, i) == {(p, n)} && |Citing(ns, i)| == 1
  {
    forall x | x in Citing(ns, i) ensures x == (p, n) { CitingIs(ns, x.0, x.1, i); }
    CitingIs(ns, p, n, i);
  }

  // ---------------------------------------------------------------- taking a file's name away

  /** One name less, and no other change. */
  ghost predicate Unnamed(ns: Space, ns': Space, p: nat, name: Name) {
    && ns'.Keys == ns.Keys && (Numbered(ns) ==> Numbered(ns'))
    && (forall q, n, i :: Entry(ns', q, n, i) <==> Entry(ns, q, n, i) && !(q == p && n == name))
  }

  lemma UnbindNames(ns: Space, p: nat, name: Name)
    requires p in ns
    ensures Unnamed(ns, Unbind(ns, p, name), p, name)
  {
  }

  /** The dots stand for directories. */
  lemma FileNoDots(ns: Space, live: set<nat>, p: nat, name: Name, t: nat)
    requires Sound(ns, live) && Entry(ns, p, name, t) && t !in ns
    ensures !IsDots(name)
  {
    assert Dotted(ns, p);
  }

  /** No name other than `name` in `p` stands for `t`. */
  ghost predicate OnlyThere(ns: Space, p: nat, name: Name, t: nat) {
    forall q, n :: Entry(ns, q, n, t) ==> q == p && n == name
  }

  lemma UnnamedDots(ns: Space, ns': Space, live: set<nat>, p: nat, name: Name, x: nat)
    requires Sound(ns, live) && Unnamed(ns, ns', p, name) && !IsDots(name) && x in ns
    ensures Dotted(ns', x) && Up(ns', x) == Up(ns, x)
  {
    assert Dotted(ns, x);
    assert Entry(ns', x, DOTDOT, Up(ns, x)) && Entry(ns', x, DOT, x);
    UpIs(ns', x, Up(ns, x));
  }

  lemma UnnamedSound(ns: Space, ns': Space, live: set<nat>, live': set<nat>, p: nat, name: Name, t: nat)
    requires Sound(ns, live) && Unnamed(ns, ns', p, name) && !IsDots(name) && t !in ns
    requires live - {t} <= live' && (t in live' || OnlyThere(ns, p, name, t))
    ensures Sound(ns', live') && SameUps(ns, ns')
  {
    forall x {:trigger Dotted(ns', x)} | x in ns ensures Dotted(ns', x) { UnnamedDots(ns, ns', live, p, name, x); }
    forall x {:trigger Up(ns', x)} | x in ns ensures Up(ns', x) == Up(ns, x) { UnnamedDots(ns, ns', live, p, name, x); }
  }

  lemma UnnamedFiled(ns: Space, ns': Space, root: nat, p: nat, name: Name, t: nat)
    requires Unnamed(ns, ns', p, name) && SameUps(ns, ns') && Entry(ns, p, name, t) && t !in ns
    requires forall c {:trigger Filed(ns, c)} :: c in ns && c != root ==> Filed(ns, c)
    ensures forall c {:trigger Filed(ns', c)} :: c in ns' && c != root ==> Filed(ns', c)
  {
    forall c | c in ns' && c != root ensures Filed(ns', c) {
      assert Filed(ns, c);
      var n :| !IsDots(n) && Entry(ns, Up(ns, c), n, c);
      assert Entry(ns', Up(ns', c), n, c);
    }
  }

  /** A file's name is taken away; the file may go with it if it was its only one. */
  lemma UnbindTree(ns: Space, live: set<nat>, live': set<nat>, root: nat, p: nat, name: Name, t: nat)
    requires IsTree(ns, live, root) && Entry(ns, p, name, t) && t !in ns
    requires live - {t} <= live' && (t in live' || OnlyThere(ns, p, name, t))
    ensures IsTree(Unbind(ns, p, name), live', root)
  {
    var ns' := Unbind(ns, p, name);
    FileNoDots(ns, live, p, name, t);
    UnbindNames(ns, p, name);
    UnnamedSound(ns, ns', live, live', p, name, t);
    UnnamedFiled(ns, ns', root, p, name, t);
    StillReachable(ns, ns', root);
    assert Dotted(ns, root);
    assert Entry(ns', root, DOTDOT, root);
  }

  lemma CitingLess(ns: Space, ns': Space, i: nat, p: nat, name: Name)
    requires Entry(ns, p, name, i) && forall q, n :: Entry(ns', q, n, i) <==>
             Entry(ns, q, n, i) && !(q == p && n == name)
    ensures Citing(ns', i) == Citing(ns, i) - {(p, name)} && |Citing(ns', i)| + 1 == |Citing(ns, i)|
  {
    forall x ensures x in Citing(ns', i) <==> x in Citing(ns, i) - {(p, name)} {
      CitingIs(ns, x.0, x.1, i);
      CitingIs(ns', x.0, x.1, i);
    }
    CitingIs(ns, p, name, i);
  }

  /** A file with one link has no second name. */
  lemma LastLink(ns: Space, nodes: seq<Inode>, p: nat, name: Name, t: nat)
    requires Counted(ns, nodes) && Entry(ns, p, name, t) && t !in ns && t < |nodes| && nodes[t].links <= 1
    ensures OnlyThere(ns, p, name, t)
  {
    assert CountedAt(ns, nodes, t);
    CitingIs(ns, p, name, t);
    forall q, n | Entry(ns, q, n, t) ensures q == p && n == name {
      CitingIs(ns, q, n, t);
      if (q, n) != (p, name) {
        var two := {(q, n), (p, name)};
        assert two <= Citing(ns, t);
        SubsetSize(two, Citing(ns, t));
      }
    }
  }

  lemma {:induction false} SubsetSize<T>(a: set<T>, b: set<T>)
    requires a <= b
    ensures |a| <= |b|
  {
    if a != {} {
      var x :| x in a;
      SubsetSize(a - {x}, b - {x});
    }
  }

  /** The link count follows: it falls with the name, or the file goes with its last one. */
  lemma UnbindCounted(ns: Space, nodes: seq<Inode>, nodes': seq<Inode>, live: set<nat>, p: nat, name: Name, t: nat)
    requires Sound(ns, live) && Counted(ns, nodes) && Entry(ns, p, name, t) && t !in ns && t < |nodes| && t < |nodes'|
    requires nodes[t].links > 1 ==> nodes'[t].links == nodes[t].links - 1
    requires SameLinks(nodes, nodes', live, {t})
    ensures Counted(Unbind(ns, p, name), nodes')
  {
    var ns' := Unbind(ns, p, name);
    UnbindNames(ns, p, name);
    forall i: nat {:trigger CountedAt(ns', nodes', i)} ensures CountedAt(ns', nodes', i) {
      if i == t {
        assert CountedAt(ns, nodes, t);
        CitingLess(ns, ns', t, p, name);
      } else {
        SameCiting(ns, ns', i);
        SameCounted(ns, ns', nodes, nodes', live, {t}, i);
      }
    }
  }

  // ---------------------------------------------------------------- a new directory

  ghost predicate Planted(ns: Space, ns': Space, p: nat, name: Name, t: nat) {
    && ns'.Keys == ns.Keys + {t} && (Numbered(ns) ==> Numbered(ns'))
    && (forall q, n, i :: Entry(ns', q, n, i) <==>
          Entry(ns, q, n, i) || (q == p && n == name && i == t) || (q == t && n == DOT && i == t)
                || (q == t && n == DOTDOT && i == p))
  }

  lemma PlantNames(ns: Space, p: nat, name: Name, t: nat)
    requires p in ns && name !in ns[p] && t !in ns
    ensures Planted(ns, Plant(ns, p, name, t), p, name, t)
  {
    var ns' := Plant(ns, p, name, t);
    forall q: nat, n, i: nat
      ensures Entry(ns', q, n, i) <==>
              Entry(ns, q, n, i) || (q == p && n == name && i == t) || (q == t && n == DOT && i == t)
                    || (q == t && n == DOTDOT && i == p)
    {
      if q == t { assert ns'[q] == DotNames(t + 1, p + 1); }
    }
  }

  lemma PlantedDots(ns: Space, ns': Space, live: set<nat>, p: nat, name: Name, t: nat, x: nat)
    requires Sound(ns, live) && Planted(ns, ns', p, name, t) && p in ns && t !in live && x in ns
    ensures Dotted(ns', x) && Up(ns', x) == Up(ns, x)
  {
    assert Dotted(ns, x);
    assert Entry(ns', x, DOTDOT, Up(ns, x)) && Entry(ns', x, DOT, x);
    UpIs(ns', x, Up(ns, x));
  }

  lemma PlantedSound(ns: Space, ns': Space, live: set<nat>, p: nat, name: Name, t: nat)
    requires Sound(ns, live) && Planted(ns, ns', p, name, t) && p in ns && t !in live
    ensures Sound(ns', live + {t}) && SameUps(ns, ns') && Up(ns', t) == p
  {
    assert Entry(ns', t, DOTDOT, p) && Entry(ns', t, DOT, t);
    UpIs(ns', t, p);
    forall x {:trigger Dotted(ns', x)} | x in ns' ensures Dotted(ns', x) {
      if x != t { PlantedDots(ns, ns', live, p, name, t, x); }
    }
    forall x {:trigger Up(ns', x)} | x in ns ensures Up(ns', x) == Up(ns, x) {
      PlantedDots(ns, ns', live, p, name, t, x);
    }
  }

  lemma PlantedOnce(ns: Space, ns': Space, live: set<nat>, p: nat, name: Name, t: nat)
    requires Sound(ns, live) && OneName(ns) && Planted(ns, ns', p, name, t) && t !in live
    ensures OneName(ns')
  {
    forall q, n | Entry(ns', q, n, t) && !IsDots(n) ensures q == p && n == name {}
  }

  lemma PlantedFiled(ns: Space, ns': Space, root: nat, p: nat, name: Name, t: nat)
    requires Planted(ns, ns', p, name, t) && SameUps(ns, ns') && Up(ns', t) == p && !IsDots(name)
    requires forall c {:trigger Filed(ns, c)} :: c in ns && c != root ==> Filed(ns, c)
    ensures forall c {:trigger Filed(ns', c)} :: c in ns' && c != root ==> Filed(ns', c)
  {
    assert Entry(ns', p, name, t);
    forall c | c in ns' && c != root ensures Filed(ns', c) {
      if c in ns {
        assert Filed(ns, c);
        var n :| !IsDots(n) && Entry(ns, Up(ns, c), n, c);
        assert Entry(ns', Up(ns', c), n, c);
      }
    }
  }

  lemma PlantedReachable(ns: Space, ns': Space, root: nat, p: nat, t: nat)
    requires p in ns && t != root && ns'.Keys == ns.Keys + {t} && SameUps(ns, ns') && Up(ns', t) == p
    requires forall c {:trigger Reachable(ns, root, c)} :: c in ns ==> Reachable(ns, root, c)
    ensures forall c {:trigger Reachable(ns', root, c)} :: c in ns' ==> Reachable(ns', root, c)
  {
    StillReachable(ns, ns', root);
    assert Reachable(ns', root, p);
    var k: nat :| Climbs(ns', root, p, k);
    assert Climbs(ns', root, t, k + 1);
  }

  /** A new empty directory below `p`. */
  lemma PlantTree(ns: Space, live: set<nat>, root: nat, p: nat, name: Name, t: nat)
    requires IsTree(ns, live, root) && p in ns && name !in ns[p] && t !in live
    ensures IsTree(Plant(ns, p, name, t), live + {t}, root)
  {
    var ns' := Plant(ns, p, name, t);
    assert Dotted(ns, p);
    PlantNames(ns, p, name, t);
    PlantedSound(ns, ns', live, p, name, t);
    PlantedOnce(ns, ns', live, p, name, t);
    PlantedFiled(ns, ns', root, p, name, t);
    PlantedReachable(ns, ns', root, p, t);
    PlantedRoot(ns, ns', live, root, p, name, t);
  }

  lemma PlantedRoot(ns: Space, ns': Space, live: set<nat>, root: nat, p: nat, name: Name, t: nat)
    requires Sound(ns, live) && Planted(ns, ns', p, name, t) && t !in live && root in ns
    requires Entry(ns, root, DOTDOT, root) && forall q, n :: Entry(ns, q, n, root) ==> IsDots(n)
    ensures Entry(ns', root, DOTDOT, root) && forall q, n :: Entry(ns', q, n, root) ==> IsDots(n)
  {
  }

  lemma CitingMore(ns: Space, ns': Space, i: nat, p: nat, name: Name)
    requires !Entry(ns, p, name, i) && forall q, n :: Entry(ns', q, n, i) <==>
             Entry(ns, q, n, i) || (q == p && n == name)
    ensures |Citing(ns', i)| == |Citing(ns, i)| + 1
  {
    CitingLess(ns', ns, i, p, name);
  }

  lemma CitingTwo(ns: Space, i: nat, p: nat, m: Name, q: nat, n: Name)
    requires (p, m) != (q, n) && forall x, y :: Entry(ns, x, y, i) <==> (x == p && y == m) || (x == q && y == n)
    ensures |Citing(ns, i)| == 2
  {
    forall x ensures x in Citing(ns, i) <==> x in {(p, m), (q, n)} { CitingIs(ns, x.0, x.1, i); }
    assert Citing(ns, i) == {(p, m), (q, n)};
  }

  lemma BumpDown(links: nat)
    requires 0 < links < TWO16
    ensures Bumped(links, -1) == links - 1
  {
  }

  lemma WrapStep(n: nat, links: nat, delta: int)
    requires links == n % TWO16 && n + delta >= 0
    ensures Bumped(links, delta) == (n + delta) % TWO16
  {
  }

  /** A new directory starts with two links, and its parent gains one. */
  lemma PlantCounted(ns: Space, nodes: seq<Inode>, nodes': seq<Inode>, live: set<nat>, p: nat, name: Name, t: nat)
    requires Sound(ns, live) && Counted(ns, nodes) && p in ns && name !in ns[p] && t !in live
    requires p < |nodes| && p < |nodes'| && t < |nodes'|
    requires nodes'[t].links == 2 && nodes'[p].links == Bumped(nodes[p].links, 1)
    requires SameLinks(nodes, nodes', live, {p, t})
    ensures Counted(Plant(ns, p, name, t), nodes')
  {
    var ns' := Plant(ns, p, name, t);
    assert Dotted(ns, p);
    PlantNames(ns, p, name, t);
    forall i: nat {:trigger CountedAt(ns', nodes', i)} ensures CountedAt(ns', nodes', i) {
      if i == t {
        CitingTwo(ns', t, p, name, t, DOT);
      } else if i == p {
        assert CountedAt(ns, nodes, p);
        CitingMore(ns, ns', p, t, DOTDOT);
        WrapStep(|Citing(ns, p)|, nodes[p].links, 1);
      } else {
        SameCiting(ns, ns', i);
        SameCounted(ns, ns', nodes, nodes', live, {p, t}, i);
      }
    }
  }

  // ---------------------------------------------------------------- a directory less

  ghost predicate Pruned(ns: Space, ns': Space, p: nat, name: Name, t: nat) {
    && ns'.Keys == ns.Keys - {t} && (Numbered(ns) ==> Numbered(ns'))
    && (forall q, n, i :: Entry(ns', q, n, i) <==> Entry(ns, q, n, i) && q != t && !(q == p && n == name))
  }

  lemma PruneNames(ns: Space, p: nat, name: Name, t: nat)
    requires p in ns && p != t
    ensures Pruned(ns, Prune(ns, p, name, t), p, name, t)
  {
  }

  /** An empty directory is named by its own `.` and by its one name in its parent. */
  lemma EmptyNamedTwice(ns: Space, live: set<nat>, root: nat, p: nat, name: Name, t: nat, q: nat, n: Name)
    requires IsTree(ns, live, root) && Entry(ns, p, name, t) && !IsDots(name) && t in ns
             && (forall m :: m in ns[t] ==> IsDots(m))
    requires Entry(ns, q, n, t)
    ensures (q == p && n == name) || (q == t && n == DOT)
  {
    ParentIs(ns, live, root, p, name, t);
    if n == DOT {
      assert Dotted(ns, q);
    } else if n == DOTDOT {
      EmptyHasNoChild(ns, live, root, t, q);
    }
  }

  ghost predicate Prunable(ns: Space, live: set<nat>, root: nat, p: nat, name: Name, t: nat) {
    IsTree(ns, live, root) && Entry(ns, p, name, t) && !IsDots(name) && t in ns
           && (forall m :: m in ns[t] ==> IsDots(m))
  }

  lemma PrunedDots(ns: Space, ns': Space, live: set<nat>, root: nat, p: nat, name: Name, t: nat, x: nat)
    requires Prunable(ns, live, root, p, name, t) && Pruned(ns, ns', p, name, t) && x in ns && x != t
    ensures Dotted(ns', x) && Up(ns', x) == Up(ns, x) && Up(ns, x) != t
  {
    assert Dotted(ns, x);
    if Up(ns, x) == t { EmptyNamedTwice(ns, live, root, p, name, t, x, DOTDOT); }
    assert Entry(ns', x, DOTDOT, Up(ns, x)) && Entry(ns', x, DOT, x);
    UpIs(ns', x, Up(ns, x));
  }

  lemma PrunedSound(ns: Space, ns': Space, live: set<nat>, root: nat, p: nat, name: Name, t: nat)
    requires Prunable(ns, live, root, p, name, t) && Pruned(ns, ns', p, name, t)
    ensures Sound(ns', live - {t})
  {
    forall x {:trigger Dotted(ns', x)} | x in ns' ensures Dotted(ns', x) {
      PrunedDots(ns, ns', live, root, p, name, t, x);
    }
    forall q, n, i | Entry(ns', q, n, i) ensures i in live - {t} {
      if i == t { EmptyNamedTwice(ns, live, root, p, name, t, q, n); }
    }
  }

  lemma PrunedFiled(ns: Space, ns': Space, live: set<nat>, root: nat, p: nat, name: Name, t: nat)
    requires Prunable(ns, live, root, p, name, t) && Pruned(ns, ns', p, name, t)
    ensures forall c {:trigger Filed(ns', c)} :: c in ns' && c != root ==> Filed(ns', c)
  {
    forall c | c in ns' && c != root ensures Filed(ns', c) {
      PrunedDots(ns, ns', live, root, p, name, t, c);
      assert Filed(ns, c);
      var n :| !IsDots(n) && Entry(ns, Up(ns, c), n, c);
      assert Entry(ns', Up(ns', c), n, c);
    }
  }

  lemma {:induction false} PrunedClimbs(ns: Space, ns': Space, live: set<nat>, root: nat, p: nat, name: Name, t: nat,
                                        c: nat, k: nat)
    requires Prunable(ns, live, root, p, name, t) && Pruned(ns, ns', p, name, t) && c != t && Climbs(ns, root, c, k)
    ensures Climbs(ns', root, c, k)
    decreases k
  {
    if c != root {
      PrunedDots(ns, ns', live, root, p, name, t, c);
      PrunedClimbs(ns, ns', live, root, p, name, t, Up(ns, c), k - 1);
    }
  }

  lemma PrunedReachable(ns: Space, ns': Space, live: set<nat>, root: nat, p: nat, name: Name, t: nat)
    requires Prunable(ns, live, root, p, name, t) && Pruned(ns, ns', p, name, t)
    ensures forall c {:trigger Reachable(ns', root, c)} :: c in ns' ==> Reachable(ns', root, c)
  {
    forall c | c in ns' ensures Reachable(ns', root, c) {
      assert Reachable(ns, root, c);
      var k: nat :| Climbs(ns, root, c, k);
      PrunedClimbs(ns, ns', live, root, p, name, t, c, k);
    }
  }

  /** An empty directory is taken away by its name. */
  lemma PruneTree(ns: Space, live: set<nat>, root: nat, p: nat, name: Name, t: nat)
    requires Prunable(ns, live, root, p, name, t)
    ensures p != t && t != root && IsTree(Prune(ns, p, name, t), live - {t}, root)
  {
    var ns' := Prune(ns, p, name, t);
    ParentIs(ns, live, root, p, name, t);
    PruneNames(ns, p, name, t);
    PrunedSound(ns, ns', live, root, p, name, t);
    PrunedFiled(ns, ns', live, root, p, name, t);
    PrunedReachable(ns, ns', live, root, p, name, t);
    assert OneName(ns');
  }

  /** The parent loses the link of the child's `..`. */
  lemma PruneCounted(ns: Space, nodes: seq<Inode>, nodes': seq<Inode>, live: set<nat>, root: nat, p: nat, name: Name,
                     t: nat)
    requires Prunable(ns, live, root, p, name, t) && Counted(ns, nodes)
    requires p < |nodes| && p < |nodes'| && nodes'[p].links == Bumped(nodes[p].links, -1)
    requires SameLinks(nodes, nodes', live, {p, t})
    ensures p != t && Counted(Prune(ns, p, name, t), nodes')
  {
    var ns' := Prune(ns, p, name, t);
    ParentIs(ns, live, root, p, name, t);
    PruneNames(ns, p, name, t);
    forall i: nat {:trigger CountedAt(ns', nodes', i)} ensures CountedAt(ns', nodes', i) {
      PrunedCited(ns, ns', live, root, p, name, t, i);
      if i == p {
        assert CountedAt(ns, nodes, p);
        WrapStep(|Citing(ns, p)|, nodes[p].links, -1);
      } else if i != t {
        SameCounted(ns, ns', nodes, nodes', live, {p, t}, i);
      }
    }
  }

  lemma PrunedCited(ns: Space, ns': Space, live: set<nat>, root: nat, p: nat, name: Name, t: nat, i: nat)
    requires Prunable(ns, live, root, p, name, t) && Pruned(ns, ns', p, name, t) && p != t && Entry(ns, t, DOTDOT, p)
    ensures i == t ==> Citing(ns', i) == {}
    ensures i == p ==> |Citing(ns', i)| + 1 == |Citing(ns, i)|
    ensures i != t && i != p ==> Citing(ns', i) == Citing(ns, i)
  {
    assert Dotted(ns, t);
    if i == t {
      forall x | x in Citing(ns', t) ensures false {
        CitingIs(ns', x.0, x.1, t);
        EmptyNamedTwice(ns, live, root, p, name, t, x.0, x.1);
      }
    } else if i == p {
      CitingLess(ns, ns', p, t, DOTDOT);
    } else {
      SameCiting(ns, ns', i);
    }
  }

  /** Only a directory itself, by its `.` or the root by its `..`, is named by dots and empty. */
  lemma EmptyByDots(ns: Space, live: set<nat>, root: nat, p: nat, name: Name, t: nat)
    requires IsTree(ns, live, root) && Entry(ns, p, name, t) && IsDots(name) && t in ns
             && (forall m :: m in ns[t] ==> IsDots(m))
    ensures t == p
  {
    assert Dotted(ns, p);
    if name == DOTDOT { EmptyHasNoChild(ns, live, root, t, p); }
  }

  // ---------------------------------------------------------------- the smallest tree

  lemma RootEntries(root: nat, q: nat, n: Name, i: nat)
    ensures Entry(map[root := DotNames(root + 1, root + 1)], q, n, i) <==> q == root && i == root && IsDots(n)
  {
  }

  /** A root directory holding nothing but its dots is a tree, with two names for the root. */
  lemma RootTree(live: set<nat>, root: nat)
    requires root in live
    ensures var ns: Space := map[root := DotNames(root + 1, root + 1)];
            IsTree(ns, live, root) && |Citing(ns, root)| == 2 && forall i: nat :: i != root ==> Citing(ns, i) == {}
  {
    var ns: Space := map[root := DotNames(root + 1, root + 1)];
    forall q, n, i: nat ensures Entry(ns, q, n, i) <==> q == root && i == root && IsDots(n) {
      RootEntries(root, q, n, i);
    }
    UpIs(ns, root, root);
    assert Dotted(ns, root) && Climbs(ns, root, root, 0) && Reachable(ns, root, root);
    CitingTwo(ns, root, root, DOT, root, DOTDOT);
    forall i: nat | i != root ensures Citing(ns, i) == {} {
      forall x | x in Citing(ns, i) ensures false { CitingIs(ns, x.0, x.1, i); }
    }
  }
}
