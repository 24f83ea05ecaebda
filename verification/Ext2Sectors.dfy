/**
 The byte-level disk: reads and read-modify-writes of arbitrary ranges through whole sectors, and why a change
 confined to one sector is atomic. This is what lets bitmap, counter and inode updates count as single writes.
 */
module Ext2Sectors {
  import opened Common
  import opened Ext2Disk
  import opened Ext2Alloc

  /** Some whole number of leading sectors has been replaced. */
  ghost predicate Between(was: seq<byte>, now: seq<byte>, s: seq<byte>) {
    |was| == |now| && exists k: nat {:trigger SectorEnd(k)} ::
      SectorEnd(k) <= |was| && s == Torn(was, now, SectorEnd(k))
  }

  function SectorEnd(k: nat): nat { SECTOR * k }

  /** The disk. Every sector write that returned is durable; `past` holds the bytes after each of them. */
  class Device {
    var bytes: seq<byte>
    ghost var past: seq<seq<byte>>

    constructor (bytes: seq<byte>)
      ensures this.bytes == bytes && past == [bytes]
    {
      this.bytes, this.past := bytes, [bytes];
    }

    /** One sector, written whole. */
    method WriteSector(lba: nat, data: seq<byte>)
      requires |data| == SECTOR && SECTOR * lba + SECTOR <= |bytes|
      modifies this
      ensures bytes == Splice(old(bytes), SECTOR * lba, data) && past == old(past) + [bytes]
    {
      bytes := Splice(bytes, SECTOR * lba, data);
      past := past + [bytes];
    }

    /** `ahci::write`: consecutive sectors in ascending order. */
    method WriteRun(lba: nat, data: seq<byte>, ghost was: seq<byte>, ghost now: seq<byte>)
      requires |was| == |now| == |bytes| && |data| % SECTOR == 0 && SECTOR * lba + |data| <= |bytes|
      requires bytes == Torn(was, now, SECTOR * lba) && data == now[SECTOR * lba..SECTOR * lba + |data|]
      modifies this
      ensures bytes == Torn(was, now, SECTOR * lba + |data|) && old(past) <= past
      ensures forall i :: |old(past)| <= i < |past| ==> Between(was, now, past[i])
    {
      var n := |data| / SECTOR;
      var k := 0;
      while k < n
        invariant 0 <= k <= n && bytes == Torn(was, now, SECTOR * (lba + k)) && old(past) <= past
        invariant forall i :: |old(past)| <= i < |past| ==> Between(was, now, past[i])
      {
        var chunk := data[SECTOR * k..SECTOR * k + SECTOR];
        SliceOfSlice(now, SECTOR * lba, |data|, SECTOR * k, SECTOR);
        MixStep(was, now, lba + k, chunk);
        WriteSector(lba + k, chunk);
        assert SectorEnd(lba + k + 1) == SECTOR * (lba + k + 1);
        assert Between(was, now, bytes);
        k := k + 1;
      }
    }

    /** `ahci::read`. */
    method ReadRun(lba: nat, count: nat) returns (r: seq<byte>)
      requires SECTOR * lba + SECTOR * count <= |bytes|
      ensures r == bytes[SECTOR * lba..SECTOR * lba + SECTOR * count]
    {
      r := bytes[SECTOR * lba..SECTOR * lba + SECTOR * count];
    }

    /** The sectors `[lba, lba + count)`, at most 64 at a time. */
    method ReadSectors(lba: nat, count: nat) returns (raw: seq<byte>)
      requires SECTOR * lba + SECTOR * count <= |bytes|
      ensures raw == bytes[SECTOR * lba..SECTOR * lba + SECTOR * count]
    {
      raw := [];
      var done := 0;
      while done < count
        invariant 0 <= done <= count && raw == bytes[SECTOR * lba..SECTOR * lba + SECTOR * done]
      {
        var n := Min(count - done, 64);
        var part := ReadRun(lba + done, n);
        SliceJoin(bytes, SECTOR * lba, SECTOR * lba + SECTOR * done, SECTOR * lba + SECTOR * (done + n));
        raw := raw + part;
        done := done + n;
      }
    }

    /** `disk_range`. */
    method ReadRange(off: nat, len: nat) returns (r: seq<byte>)
      requires off + len <= |bytes| && |bytes| % SECTOR == 0
      ensures r == bytes[off..off + len]
    {
      var start, end := off / SECTOR, (off + len + SECTOR - 1) / SECTOR;
      SectorSpan(off, len, |bytes|);
      var raw := ReadSectors(start, end - start);
      var skip := off - start * SECTOR;
      r := raw[skip..skip + len];
      SliceOfSlice(bytes, SECTOR * start, SECTOR * (end - start), skip, len);
    }

    /**
     `disk_write`: read the covering sectors, patch them, write them back. Afterwards exactly the range has
     changed; at every moment in between some leading sectors have and the others have not.
     */
    method WriteRange(off: nat, data: seq<byte>)
      requires off + |data| <= |bytes| && |bytes| % SECTOR == 0
      modifies this
      ensures bytes == Splice(old(bytes), off, data) && old(past) <= past
      ensures forall i :: |old(past)| <= i < |past| ==> Between(old(bytes), bytes, past[i])
    {
      if data == [] {
        assert Splice(bytes, off, data) == bytes;
        return;
      }
      var start, end := off / SECTOR, (off + |data| + SECTOR - 1) / SECTOR;
      var sectors := end - start;
      SectorSpan(off, |data|, |bytes|);
      ghost var was, now := bytes, Splice(bytes, off, data);
      var raw := ReadSectors(start, sectors);
      var skip := off - start * SECTOR;
      raw := Splice(raw, skip, data);
      SpliceSlice(was, SECTOR * start, SECTOR * sectors, skip, data);
      MixStarts(was, off, data, SECTOR * start);
      WriteBack(start, raw, was, now);
      MixEnds(was, off, data, SECTOR * end);
    }

    /** Write the patched sectors back, at most 64 at a time. */
    method WriteBack(start: nat, raw: seq<byte>, ghost was: seq<byte>, ghost now: seq<byte>)
      requires |was| == |now| == |bytes| && |raw| % SECTOR == 0 && SECTOR * start + |raw| <= |bytes|
      requires bytes == Torn(was, now, SECTOR * start) && raw == now[SECTOR * start..SECTOR * start + |raw|]
      modifies this
      ensures bytes == Torn(was, now, SECTOR * start + |raw|) && old(past) <= past
      ensures forall i :: |old(past)| <= i < |past| ==> Between(was, now, past[i])
    {
      var sectors := |raw| / SECTOR;
      var done := 0;
      while done < sectors
        invariant 0 <= done <= sectors && bytes == Torn(was, now, SECTOR * (start + done)) && old(past) <= past
        invariant forall i :: |old(past)| <= i < |past| ==> Between(was, now, past[i])
      {
        var n := Min(sectors - done, 64);
        var part := raw[SECTOR * done..SECTOR * (done + n)];
        SliceOfSlice(now, SECTOR * start, |raw|, SECTOR * done, SECTOR * n);
        WriteRun(start + done, part, was, now);
        done := done + n;
      }
    }
  }

  lemma SliceJoin(s: seq<byte>, a: nat, b: nat, c: nat)
    requires a <= b <= c <= |s|
    ensures s[a..b] + s[b..c] == s[a..c]
  {
  }

  /** Patching a slice is slicing the patched whole. */
  lemma SpliceSlice(s: seq<byte>, a: nat, n: nat, skip: nat, data: seq<byte>)
    requires a + n <= |s| && skip + |data| <= n
    ensures Splice(s[a..a + n], skip, data) == Splice(s, a + skip, data)[a..a + n]
  {
  }

  lemma MixStep(was: seq<byte>, now: seq<byte>, k: nat, chunk: seq<byte>)
    requires |was| == |now| && SECTOR * k + SECTOR <= |was| && chunk == now[SECTOR * k..SECTOR * k + SECTOR]
    ensures Splice(Torn(was, now, SECTOR * k), SECTOR * k, chunk) == Torn(was, now, SECTOR * (k + 1))
  {
  }

  lemma MixStarts(was: seq<byte>, off: nat, data: seq<byte>, n: nat)
    requires off + |data| <= |was| && n <= off
    ensures Torn(was, Splice(was, off, data), n) == was
  {
  }

  lemma MixEnds(was: seq<byte>, off: nat, data: seq<byte>, n: nat)
    requires off + |data| <= n <= |was|
    ensures Torn(was, Splice(was, off, data), n) == Splice(was, off, data)
  {
  }

  // ---------------------------------------------------------------- atomic updates

  /** The two contents differ in sector `k` only. */
  ghost predicate DifferIn(was: seq<byte>, now: seq<byte>, k: nat) {
    |was| == |now| && forall i :: 0 <= i < |was| && was[i] != now[i] ==> SECTOR * k <= i < SECTOR * (k + 1)
  }

  /** A change confined to one sector is all there or not at all. */
  lemma OneSectorAtomic(was: seq<byte>, now: seq<byte>, k: nat, s: seq<byte>)
    requires DifferIn(was, now, k) && Between(was, now, s)
    ensures s == was || s == now
  {
    var n: nat :| SectorEnd(n) <= |was| && s == Torn(was, now, SectorEnd(n));
    if n <= k { assert s == was; } else { assert s == now; }
  }

  /** A range that stays within one sector changes only that one. */
  lemma WithinOneSector(was: seq<byte>, off: nat, data: seq<byte>)
    requires off + |data| <= |was| && data != [] && off / SECTOR == (off + |data| - 1) / SECTOR
    ensures DifferIn(was, Splice(was, off, data), off / SECTOR)
  {
  }

  /** Rewriting a whole block of which only one byte differs changes only that byte's sector. */
  lemma OneByteDiffers(was: seq<byte>, off: nat, data: seq<byte>, at: nat)
    requires off + |data| <= |was| && at < |data|
    requires forall i :: 0 <= i < |data| && i != at ==> data[i] == was[off + i]
    ensures DifferIn(was, Splice(was, off, data), (off + at) / SECTOR)
  {
  }

  /** Records of `size` bytes, `per` to a sector, do not straddle one. */
  lemma AlignedWithin(q: nat, size: nat, per: nat)
    requires size > 0 && per > 0 && size * per == SECTOR
    ensures (q * size) / SECTOR == (q * size + size - 1) / SECTOR == q / per
  {
    var a := q / per;
    var b: nat := q - a * per;
    DivBounds(q, per);
    Distribute(a, per, b, size);
    SlotFits(b, size, per);
    SlotSector(q * size, a, b * size, size);
  }

  lemma SlotFits(b: nat, size: nat, per: nat)
    requires size * per == SECTOR && b < per
    ensures b * size + size <= SECTOR
  {
    MulMono(b + 1, per, size);
    MulSucc(b, size);
  }

  lemma SlotSector(x: nat, a: nat, rest: nat, size: nat)
    requires x == a * SECTOR + rest && rest + size <= SECTOR && size > 0
    ensures x / SECTOR == (x + size - 1) / SECTOR == a
  {
    DivUnique(x, SECTOR, a);
    DivUnique(x + size - 1, SECTOR, a);
  }

  lemma Distribute(a: nat, per: nat, b: nat, size: nat)
    ensures (a * per + b) * size == a * (size * per) + b * size
  {
  }

  /** The sectors that cover a range, on a disk of whole sectors. */
  lemma SectorSpan(off: nat, len: nat, total: nat)
    requires off + len <= total && total % SECTOR == 0
    ensures var start, end := off / SECTOR, (off + len + SECTOR - 1) / SECTOR;
            start <= end && SECTOR * start <= off && off + len <= SECTOR * end <= total
  {
  }

  /**
   An inode never straddles a sector: its size divides a sector, its table starts on a block, and it stands at a
   multiple of its size. So patching it is atomic.
   */
  lemma InodeWithinSector(g: Geo, table: nat, idx: nat, inodeSize: nat)
    requires ValidGeo(g) && inodeSize in {128, 256, 512}
    ensures var off := table * g.BlockSize() + idx * inodeSize;
            off / SECTOR == (off + inodeSize - 1) / SECTOR
  {
    var per := SECTOR / inodeSize;
    var q := table * g.sectors * per + idx;
    assert per * inodeSize == SECTOR;
    InodeOffset(table, g.sectors, per, inodeSize, idx);
    AlignedWithin(q, inodeSize, per);
  }

  lemma InodeOffset(table: nat, sectors: nat, per: nat, size: nat, idx: nat)
    requires per * size == SECTOR
    ensures table * (SECTOR * sectors) + idx * size == (table * sectors * per + idx) * size
  {
    assert (table * sectors * per) * size == (table * sectors) * (per * size);
  }

  /**
   Every state the disk passes through while an inode is patched holds the old inode or the new one, and nothing else
   changed.
   */
  lemma PatchIsAtomic(g: Geo, was: seq<byte>, table: nat, idx: nat, node: seq<byte>, s: seq<byte>)
    requires ValidGeo(g) && |node| in {128, 256, 512}
    requires var off := table * g.BlockSize() + idx * |node|;
             off + |node| <= |was| && Between(was, Splice(was, off, node), s)
    ensures s == was || s == Splice(was, table * g.BlockSize() + idx * |node|, node)
  {
    var off := table * g.BlockSize() + idx * |node|;
    InodeWithinSector(g, table, idx, |node|);
    WithinOneSector(was, off, node);
    OneSectorAtomic(was, Splice(was, off, node), off / SECTOR, s);
  }
}
