/** What it takes for the volume to stay well formed when an inode gains blocks, appears or goes away. */
module Ext2Adopt {
  import opened Common
  import opened Ext2Disk
  import opened Ext2Layout
  import opened Ext2Owners
  import opened Ext2Overwrite

  /** The blocks of `t` that count: none if it was not live. */
  function Stake(d: Disk, live: set<nat>, t: nat): seq<nat> { if t in live then OwnedBy(d, t) else [] }

  /** Records and inode bits differ at most at `t`. */
  ghost predicate OnlyInode(d0: Disk, d: Disk, t: nat, used: bool) {
    && t < |d0.ibits| && d.ibits == d0.ibits[t := used]
    && t < |d0.inodes| && |d.inodes| == |d0.inodes| && forall i :: 0 <= i < |d.inodes| && i != t ==>
       d.inodes[i] == d0.inodes[i]
  }

  /** Inode `t` is in use and owns, besides what it owned before, exactly the blocks of `taken`, which were free. */
  ghost predicate Adopted(g: Geo, d0: Disk, d: Disk, live: set<nat>, t: nat, taken: seq<nat>) {
    && Ready(g, d) && OnlyInode(d0, d, t, true)
    && (forall b :: Used(g, d, b) <==> Used(g, d0, b) || b in taken)
    && (forall b :: b in taken ==> !Used(g, d0, b))
    && (forall b :: Used(g, d0, b) && b !in Stake(d0, live, t) ==> BlockAt(d, b) == BlockAt(d0, b))
    && NoDup(OwnedBy(d, t)) && (forall b :: b in OwnedBy(d, t) <==> b in Stake(d0, live, t) || b in taken)
  }

  lemma AdoptedOther(g: Geo, d0: Disk, d: Disk, live: set<nat>, meta: set<nat>, t: nat, taken: seq<nat>, i: nat)
    requires Safe(g, d0, live, meta) && Adopted(g, d0, d, live, t, taken) && i in live && i != t
    ensures SameFile(g, d0, d, i) && FileOk(g, d, meta, i)
    ensures forall b :: b in OwnedBy(d, i) ==> b !in OwnedBy(d, t)
  {
    assert FileOk(g, d0, meta, i);
    if t in live { assert Apart(d0, i, t); }
    FileStays(g, d0, d, meta, i);
  }

  lemma AdoptedSelf(g: Geo, d0: Disk, d: Disk, live: set<nat>, meta: set<nat>, t: nat, taken: seq<nat>)
    requires Safe(g, d0, live, meta) && Adopted(g, d0, d, live, t, taken)
    ensures FileOk(g, d, meta, t)
  {
    if t in live { assert FileOk(g, d0, meta, t); }
    forall b | b in OwnedBy(d, t) ensures Used(g, d, b) && b !in meta {
      if b in taken { assert !Used(g, d0, b); }
    }
  }

  lemma AdoptedApart(g: Geo, d0: Disk, d: Disk, live: set<nat>, meta: set<nat>, t: nat, taken: seq<nat>, i: nat, j: nat)
    requires Safe(g, d0, live, meta) && Adopted(g, d0, d, live, t, taken) && i in live + {t} && j in live + {t}
             && i != j
    ensures Apart(d, i, j)
  {
    if i != t { AdoptedOther(g, d0, d, live, meta, t, taken, i); }
    if j != t { AdoptedOther(g, d0, d, live, meta, t, taken, j); }
    if i != t && j != t { assert Apart(d0, i, j); }
  }

  lemma AdoptedNoLeak(g: Geo, d0: Disk, d: Disk, live: set<nat>, meta: set<nat>, t: nat, taken: seq<nat>)
    requires Mounted(g, d0, live, meta) && Adopted(g, d0, d, live, t, taken)
    ensures NoLeak(g, d, live + {t}, meta)
  {
    forall b | Used(g, d, b) && b !in meta ensures exists i :: i in live + {t} && b in OwnedBy(d, i) {
      if b in taken {
        assert t in live + {t} && b in OwnedBy(d, t);
      } else {
        var i :| i in live && b in OwnedBy(d0, i);
        if i != t { AdoptedOther(g, d0, d, live, meta, t, taken, i); }
        assert i in live + {t} && b in OwnedBy(d, i);
      }
    }
  }

  lemma AdoptedSafe(g: Geo, d0: Disk, d: Disk, live: set<nat>, meta: set<nat>, t: nat, taken: seq<nat>)
    requires Safe(g, d0, live, meta) && Adopted(g, d0, d, live, t, taken)
    ensures Safe(g, d, live + {t}, meta)
  {
    forall i | i in live + {t} ensures FileOk(g, d, meta, i) {
      if i == t {
        AdoptedSelf(g, d0, d, live, meta, t, taken);
      } else {
        AdoptedOther(g, d0, d, live, meta, t, taken, i);
      }
    }
    forall i, j | i in live + {t} && j in live + {t} && i != j ensures Apart(d, i, j) {
      AdoptedApart(g, d0, d, live, meta, t, taken, i, j);
    }
  }

  /** Adopting free blocks keeps the volume well formed and everybody else's file the same. */
  lemma AdoptKeeps(g: Geo, d0: Disk, d: Disk, live: set<nat>, meta: set<nat>, t: nat, taken: seq<nat>)
    requires Mounted(g, d0, live, meta) && Adopted(g, d0, d, live, t, taken)
    ensures Mounted(g, d, live + {t}, meta)
    ensures forall i :: i in live && i != t ==> SameFile(g, d0, d, i)
  {
    forall i | i in live && i != t ensures SameFile(g, d0, d, i) { AdoptedOther(g, d0, d, live, meta, t, taken, i); }
    AdoptedSafe(g, d0, d, live, meta, t, taken);
    AdoptedNoLeak(g, d0, d, live, meta, t, taken);
  }

  /** The same for an inode that was live already. */
  lemma AdoptInPlace(g: Geo, d: Disk, d': Disk, live: set<nat>, meta: set<nat>, t: nat, taken: seq<nat>)
    requires Mounted(g, d, live, meta) && t in live && Adopted(g, d, d', live, t, taken)
    ensures Mounted(g, d', live, meta) && forall i :: i in live && i != t ==> SameFile(g, d, d', i)
  {
    AdoptKeeps(g, d, d', live, meta, t, taken);
    assert live + {t} == live;
  }

  /** Inode `t` is free, and so are exactly the blocks it owned. */
  ghost predicate Retired(g: Geo, d0: Disk, d: Disk, t: nat) {
    && Ready(g, d) && OnlyInode(d0, d, t, false) && d.blocks == d0.blocks
    && (forall b :: Used(g, d, b) <==> Used(g, d0, b) && b !in OwnedBy(d0, t))
  }

  lemma RetiredOther(g: Geo, d0: Disk, d: Disk, live: set<nat>, meta: set<nat>, t: nat, i: nat)
    requires Safe(g, d0, live, meta) && Retired(g, d0, d, t) && t in live && i in live && i != t
    ensures SameFile(g, d0, d, i) && FileOk(g, d, meta, i)
  {
    assert FileOk(g, d0, meta, i) && Apart(d0, i, t);
    FileStays(g, d0, d, meta, i);
  }

  lemma RetiredSafe(g: Geo, d0: Disk, d: Disk, live: set<nat>, meta: set<nat>, t: nat)
    requires Safe(g, d0, live, meta) && Retired(g, d0, d, t) && t in live
    ensures Safe(g, d, live - {t}, meta)
  {
    assert FileOk(g, d0, meta, t);
    forall i | i in live - {t} ensures FileOk(g, d, meta, i) { RetiredOther(g, d0, d, live, meta, t, i); }
    forall i, j | i in live - {t} && j in live - {t} && i != j ensures Apart(d, i, j) {
      RetiredOther(g, d0, d, live, meta, t, i);
      RetiredOther(g, d0, d, live, meta, t, j);
      assert Apart(d0, i, j);
    }
  }

  lemma RetiredOwner(g: Geo, d0: Disk, d: Disk, live: set<nat>, meta: set<nat>, t: nat, b: nat) returns (i: nat)
    requires Safe(g, d0, live, meta) && NoLeak(g, d0, live, meta) && Retired(g, d0, d, t) && t in live
    requires Used(g, d, b) && b !in meta
    ensures i in live && i != t && b in OwnedBy(d, i)
  {
    assert Used(g, d0, b) && b !in OwnedBy(d0, t);
    i :| i in live && b in OwnedBy(d0, i);
    RetiredOther(g, d0, d, live, meta, t, i);
  }

  lemma RetiredNoLeak(g: Geo, d0: Disk, d: Disk, live: set<nat>, meta: set<nat>, t: nat)
    requires Safe(g, d0, live, meta) && NoLeak(g, d0, live, meta) && Retired(g, d0, d, t) && t in live
    ensures NoLeak(g, d, live - {t}, meta)
  {
    forall b | Used(g, d, b) && b !in meta ensures exists i :: i in live - {t} && b in OwnedBy(d, i) {
      var i := RetiredOwner(g, d0, d, live, meta, t, b);
      assert i in live - {t} && b in OwnedBy(d, i);
    }
  }

  /** Retiring an inode keeps the volume well formed and everybody else's file the same. */
  lemma RetireKeeps(g: Geo, d0: Disk, d: Disk, live: set<nat>, meta: set<nat>, t: nat)
    requires Mounted(g, d0, live, meta) && Retired(g, d0, d, t) && t in live
    ensures Mounted(g, d, live - {t}, meta)
    ensures forall i :: i in live && i != t ==> SameFile(g, d0, d, i)
  {
    forall i | i in live && i != t ensures SameFile(g, d0, d, i) { RetiredOther(g, d0, d, live, meta, t, i); }
    RetiredSafe(g, d0, d, live, meta, t);
    RetiredNoLeak(g, d0, d, live, meta, t);
  }
}
