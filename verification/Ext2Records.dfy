/** Directory blocks at byte level: a chain of variable-length records. */
module Ext2Records {
  import opened Common
  import opened Ext2Disk

  type Name = seq<byte>

  /** One directory record. A record with inode 0 is a gap and has no name. */
  datatype Rec = Rec(ino: nat, len: nat, kind: byte, name: Name)

  /** What could be read at each offset. */
  type Reading = seq<Option<Rec>>

  function Round4(n: nat): (r: nat)
    ensures r % 4 == 0 && n <= r < n + 4
  {
    (n + 3) / 4 * 4
  }

  /** Bytes a record needs. */
  function Needs(name: Name): nat { Round4(8 + |name|) }

  // ---------------------------------------------------------------- chains

  /** Records lead from `a` exactly to `b`. */
  predicate Chain(p: Reading, a: nat, b: nat)
    decreases b - a
  {
    a == b || (a < b && a < |p| && p[a].Some? && 0 < p[a].value.len && Chain(p, a + p[a].value.len, b))
  }

  function Recs(p: Reading, a: nat, b: nat): seq<Rec>
    requires Chain(p, a, b)
    decreases b - a
  {
    if a == b then [] else [p[a].value] + Recs(p, a + p[a].value.len, b)
  }

  lemma ChainCons(p: Reading, a: nat, b: nat, r: Rec)
    requires a < b && a < |p| && p[a] == Some(r) && 0 < r.len && Chain(p, a + r.len, b)
    ensures Chain(p, a, b) && Recs(p, a, b) == [r] + Recs(p, a + r.len, b)
  {
  }

  lemma {:induction false} ChainBound(p: Reading, a: nat, b: nat)
    requires Chain(p, a, b)
    ensures a <= b
    decreases b - a
  {
  }

  lemma {:induction false} ChainJoin(p: Reading, a: nat, m: nat, b: nat)
    requires Chain(p, a, m) && Chain(p, m, b)
    ensures Chain(p, a, b) && Recs(p, a, b) == Recs(p, a, m) + Recs(p, m, b)
    decreases m - a
  {
    if a < m {
      var r := p[a].value;
      ChainJoin(p, a + r.len, m, b);
      ChainCons(p, a, b, r);
      ConcatAssoc([r], Recs(p, a + r.len, m), Recs(p, m, b));
    } else {
      assert Recs(p, a, m) == [];
    }
  }

  lemma ChainSnoc(p: Reading, a: nat, off: nat, r: Rec)
    requires Chain(p, a, off) && off < |p| && p[off] == Some(r) && 0 < r.len
    ensures Chain(p, a, off + r.len) && Recs(p, a, off + r.len) == Recs(p, a, off) + [r]
  {
    assert Recs(p, off + r.len, off + r.len) == [];
    ChainCons(p, off, off + r.len, r);
    ChainJoin(p, a, off, off + r.len);
  }

  /** Whole records between `a` and `b` are read the same, `s` further on, in `q`. */
  ghost predicate Agree(p: Reading, a: nat, b: nat, q: Reading, s: int) {
    forall i {:trigger p[i]} :: a <= i < b && i < |p| && p[i].Some? && i + p[i].value.len <= b ==>
      0 <= i + s < |q| && q[i + s] == p[i]
  }

  lemma AgreeLater(p: Reading, a: nat, a': nat, b: nat, q: Reading, s: int)
    requires Agree(p, a, b, q, s) && a <= a'
    ensures Agree(p, a', b, q, s)
  {
  }

  lemma AgreeAt(p: Reading, a: nat, b: nat, q: Reading, s: int, r: Rec)
    requires Agree(p, a, b, q, s) && a < b && a < |p| && p[a] == Some(r) && a + r.len <= b
    ensures 0 <= a + s < |q| && q[a + s] == Some(r)
  {
  }

  lemma {:induction false} SameRecs(p: Reading, a: nat, b: nat, q: Reading, s: int)
    requires Chain(p, a, b) && Agree(p, a, b, q, s) && a + s >= 0
    ensures Chain(q, a + s, b + s) && Recs(q, a + s, b + s) == Recs(p, a, b)
    decreases b - a
  {
    if a < b {
      var r := p[a].value;
      var next := a + r.len;
      ChainBound(p, next, b);
      AgreeLater(p, a, next, b, q, s);
      SameRecs(p, next, b, q, s);
      AgreeAt(p, a, b, q, s, r);
      assert (a + s) + r.len == next + s;
      ChainCons(q, a + s, b + s, r);
    }
  }

  /** Re-reading the inside of one stretch of the chain leaves the records before and after it. */
  lemma EditChain(p: Reading, q: Reading, a: nat, b: nat, n: nat)
    requires Chain(p, 0, a) && Chain(p, b, n) && Chain(q, a, b)
    requires Agree(p, 0, a, q, 0) && Agree(p, b, n, q, 0)
    ensures Chain(q, 0, n) && Recs(q, 0, n) == Recs(p, 0, a) + (Recs(q, a, b) + Recs(p, b, n))
  {
    SameRecs(p, 0, a, q, 0);
    SameRecs(p, b, n, q, 0);
    ChainJoin(q, a, b, n);
    ChainJoin(q, 0, a, n);
  }

  lemma OneRec(p: Reading, a: nat, r: Rec)
    requires a < |p| && p[a] == Some(r) && 0 < r.len
    ensures Chain(p, a, a + r.len) && Recs(p, a, a + r.len) == [r]
  {
    assert Recs(p, a + r.len, a + r.len) == [];
  }

  lemma TwoRecs(p: Reading, a: nat, r: Rec, s: Rec)
    requires a < |p| && p[a] == Some(r) && 0 < r.len
    requires a + r.len < |p| && p[a + r.len] == Some(s) && 0 < s.len
    ensures Chain(p, a, a + r.len + s.len) && Recs(p, a, a + r.len + s.len) == [r, s]
  {
    OneRec(p, a + r.len, s);
    ChainCons(p, a, a + r.len + s.len, r);
  }

  // ---------------------------------------------------------------- reading bytes

  function RecLen(blk: Block, off: nat): nat
    requires off + 8 <= |blk|
  {
    Le16(blk, off + 4)
  }

  /** A usable record: aligned, inside the block, and long enough for its name. */
  predicate RecOk(blk: Block, off: nat) {
    && off + 8 <= |blk|
    && 8 <= RecLen(blk, off) && RecLen(blk, off) % 4 == 0 && off + RecLen(blk, off) <= |blk|
    && (Le32(blk, off) != 0 ==> 8 + blk[off + 6] as nat <= RecLen(blk, off))
  }

  function RecAt(blk: Block, off: nat): Rec
    requires RecOk(blk, off)
  {
    if Le32(blk, off) == 0 then Rec(0, RecLen(blk, off), 0, [])
    else Rec(Le32(blk, off), RecLen(blk, off), blk[off + 7], blk[off + 8..off + 8 + blk[off + 6] as nat])
  }

  function Parse(blk: Block, off: nat): (r: Option<Rec>)
    ensures r.Some? ==> 8 <= r.value.len && r.value.len % 4 == 0 && off + r.value.len <= |blk|
    ensures r.Some? && r.value.ino != 0 ==> Needs(r.value.name) <= r.value.len
  {
    if RecOk(blk, off) then Some(RecAt(blk, off)) else None
  }

  /** The first `n` offsets. */
  function ReadsTo(blk: Block, n: nat): (p: Reading)
    ensures |p| == n
  {
    if n == 0 then [] else ReadsTo(blk, n - 1) + [Parse(blk, n - 1)]
  }

  function Reads(blk: Block): (p: Reading)
    ensures |p| == |blk|
  {
    ReadsTo(blk, |blk|)
  }

  lemma {:induction false} ReadsToAt(blk: Block, n: nat, off: nat)
    requires off < n
    ensures ReadsTo(blk, n)[off] == Parse(blk, off)
  {
    if off < n - 1 { ReadsToAt(blk, n - 1, off); }
  }

  lemma ReadsAt(blk: Block, off: nat)
    requires off < |blk|
    ensures Reads(blk)[off] == Parse(blk, off)
  {
    ReadsToAt(blk, |blk|, off);
  }

  /** A record stands at this offset. */
  ghost predicate Stands(blk: Block, off: nat, rec: Rec) {
    off < |blk| && Reads(blk)[off] == Some(rec)
  }

  lemma StandsFits(blk: Block, off: nat, rec: Rec)
    requires Stands(blk, off, rec)
    ensures 8 <= rec.len && rec.len % 4 == 0 && off + rec.len <= |blk| && (rec.ino != 0 ==> Needs(rec.name) <= rec.len)
  {
    ReadsAt(blk, off);
  }

  /** A chain to the end of the block has no room for a stray tail. */
  lemma ChainEnds(blk: Block, off: nat)
    requires Chain(Reads(blk), off, |blk|) && off + 8 > |blk|
    ensures off == |blk|
  {
    if off < |blk| { StandsFits(blk, off, Reads(blk)[off].value); }
  }

  /** What the header bytes say about the record that stands there. */
  lemma HeaderIs(blk: Block, off: nat, rec: Rec)
    requires Stands(blk, off, rec)
    ensures 8 <= rec.len && rec.len % 4 == 0 && off + rec.len <= |blk| && (rec.ino != 0 ==> Needs(rec.name) <= rec.len)
    ensures Le32(blk, off) == rec.ino && RecLen(blk, off) == rec.len
            && (rec.ino != 0 ==> blk[off + 6] as nat == |rec.name|)
    ensures rec.ino != 0 ==> blk[off + 7] == rec.kind && blk[off + 8..off + 8 + |rec.name|] == rec.name
  {
    ReadsAt(blk, off);
  }

  /** `blk'` at `a'` repeats `n` bytes of `blk` from `a` on. */
  ghost predicate SameBytes(blk: Block, a: nat, blk': Block, a': nat, n: nat) {
    a + n <= |blk| && a' + n <= |blk'| && blk[a..a + n] == blk'[a'..a' + n]
  }

  lemma SubBytes(blk: Block, a: nat, blk': Block, a': nat, n: nat, i: nat, k: nat)
    requires SameBytes(blk, a, blk', a', n) && i + k <= n
    ensures SameBytes(blk, a + i, blk', a' + i, k)
  {
    SliceOfSlice(blk, a, n, i, k);
    SliceOfSlice(blk', a', n, i, k);
  }

  lemma SameByte(blk: Block, a: nat, blk': Block, a': nat, n: nat, i: nat)
    requires SameBytes(blk, a, blk', a', n) && i < n
    ensures blk'[a' + i] == blk[a + i]
  {
    assert blk[a..a + n][i] == blk[a + i] && blk'[a'..a' + n][i] == blk'[a' + i];
  }

  /** The same bytes parse to the same record, wherever they stand. */
  lemma SameParse(blk: Block, a: nat, blk': Block, a': nat, n: nat)
    requires SameBytes(blk, a, blk', a', n) && Parse(blk, a).Some? && Parse(blk, a).value.len <= n
    ensures Parse(blk', a') == Parse(blk, a)
  {
    SubBytes(blk, a, blk', a', n, 0, 4);
    SubBytes(blk, a, blk', a', n, 4, 2);
    SameByte(blk, a, blk', a', n, 6);
    SameByte(blk, a, blk', a', n, 7);
    if Le32(blk, a) != 0 { SubBytes(blk, a, blk', a', n, 8, blk[a + 6] as nat); }
  }

  lemma SameAgree(blk: Block, a: nat, b: nat, blk': Block, s: int)
    requires a <= b && a + s >= 0 && SameBytes(blk, a, blk', a + s, b - a)
    ensures Agree(Reads(blk), a, b, Reads(blk'), s)
  {
    forall i | a <= i < b && Reads(blk)[i].Some? && i + Reads(blk)[i].value.len <= b
      ensures 0 <= i + s < |blk'| && Reads(blk')[i + s] == Reads(blk)[i]
    {
      ReadsAt(blk, i);
      SubBytes(blk, a, blk', a + s, b - a, i - a, b - i);
      SameParse(blk, i, blk', i + s, b - i);
      ReadsAt(blk', i + s);
    }
  }

  // ---------------------------------------------------------------- writing records

  /** The bytes of a record's header and name. */
  function Encode(child: nat, len: nat, kind: byte, name: Name): (r: seq<byte>)
    requires |name| < 256
    ensures |r| == 8 + |name|
  {
    Bytes32(child) + Bytes16(len) + [|name| as byte, kind] + name
  }

  lemma EncodeParts(child: nat, len: nat, kind: byte, name: Name)
    requires |name| < 256
    ensures var e := Encode(child, len, kind, name);
            e[..4] == Bytes32(child) && e[4..6] == Bytes16(len) && e[6] as nat == |name| && e[7] == kind
              && e[8..] == name
  {
  }

  lemma WrittenParse(blk: Block, off: nat, child: nat, len: nat, kind: byte, name: Name)
    requires |name| < 256 && 0 < child < TWO32 && len < TWO16
    requires 8 + |name| <= len && len % 4 == 0 && off + len <= |blk|
    ensures Parse(Splice(blk, off, Encode(child, len, kind, name)), off) == Some(Rec(child, len, kind, name))
  {
    var e := Encode(child, len, kind, name);
    var blk' := Splice(blk, off, e);
    EncodeParts(child, len, kind, name);
    assert blk'[off..off + 4] == e[..4] && blk'[off + 4..off + 6] == e[4..6];
    Widths();
    LeRoundTrip(child, 4);
    LeRoundTrip(len, 2);
    assert blk'[off + 6] == e[6] && blk'[off + 7] == e[7] && blk'[off + 8..off + 8 + |name|] == e[8..];
  }

  lemma RelengthParse(blk: Block, off: nat, len: nat)
    requires Parse(blk, off).Some? && len < TWO16 && len % 4 == 0 && 8 <= len && off + len <= |blk|
    requires Parse(blk, off).value.ino != 0 ==> 8 + |Parse(blk, off).value.name| <= len
    ensures Parse(Splice(blk, off + 4, Bytes16(len)), off) == Some(Parse(blk, off).value.(len := len))
  {
    var blk' := Splice(blk, off + 4, Bytes16(len));
    Le16Splice(blk, off + 4, len);
    Le32Frame(blk, off + 4, Bytes16(len), off);
    if Le32(blk, off) != 0 {
      assert blk'[off + 8..off + 8 + blk[off + 6] as nat] == blk[off + 8..off + 8 + blk[off + 6] as nat];
    }
  }

  lemma ErasedParse(blk: Block, off: nat)
    requires Parse(blk, off).Some?
    ensures Parse(Splice(blk, off, Bytes32(0)), off) == Some(Rec(0, Parse(blk, off).value.len, 0, []))
  {
    Le32Splice(blk, off, 0);
    Le16Frame(blk, off, Bytes32(0), off + 4);
  }

  lemma WrittenRec(blk: Block, off: nat, child: nat, len: nat, kind: byte, name: Name)
    requires |name| < 256 && 0 < child < TWO32 && len < TWO16
    requires 8 + |name| <= len && len % 4 == 0 && off + len <= |blk|
    ensures Stands(Splice(blk, off, Encode(child, len, kind, name)), off, Rec(child, len, kind, name))
  {
    WrittenParse(blk, off, child, len, kind, name);
    ReadsAt(Splice(blk, off, Encode(child, len, kind, name)), off);
  }

  lemma RelengthRec(blk: Block, off: nat, rec: Rec, len: nat)
    requires Stands(blk, off, rec) && len < TWO16 && len % 4 == 0 && 8 <= len && off + len <= |blk|
    requires rec.ino != 0 ==> 8 + |rec.name| <= len
    ensures Stands(Splice(blk, off + 4, Bytes16(len)), off, rec.(len := len))
  {
    ReadsAt(blk, off);
    RelengthParse(blk, off, len);
    ReadsAt(Splice(blk, off + 4, Bytes16(len)), off);
  }

  lemma ErasedRec(blk: Block, off: nat, rec: Rec)
    requires Stands(blk, off, rec) && off + 4 <= |blk|
    ensures Stands(Splice(blk, off, Bytes32(0)), off, Rec(0, rec.len, 0, []))
  {
    ReadsAt(blk, off);
    ErasedParse(blk, off);
    ReadsAt(Splice(blk, off, Bytes32(0)), off);
  }

  lemma SameStands(blk: Block, a: nat, rec: Rec, blk': Block, a': nat, n: nat)
    requires Stands(blk, a, rec) && SameBytes(blk, a, blk', a', n) && 0 < rec.len <= n
    ensures Stands(blk', a', rec)
  {
    ReadsAt(blk, a);
    SameParse(blk, a, blk', a', n);
    ReadsAt(blk', a');
  }

  lemma SpliceKeeps(blk: Block, off: nat, data: seq<byte>, a: nat, b: nat)
    requires off + |data| <= |blk| && a <= b <= |blk| && (b <= off || off + |data| <= a)
    ensures SameBytes(blk, a, Splice(blk, off, data), a, b - a)
  {
    assert blk[a..b] == Splice(blk, off, data)[a..b];
  }
}
