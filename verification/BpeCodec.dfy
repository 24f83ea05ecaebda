/** The tokenizer: building it from a merge list, encoding by lowest rank, decoding. */
module BpeCodec {
  import opened Common
  import opened Bpe

  datatype Tokenizer = Tokenizer(merges: seq<Pair>, rank: map<Pair, nat>, expand: seq<seq<byte>>)

  function VocabSize(t: Tokenizer): nat { 256 + |t.merges| }

  /** What one id stands for, straight from the merge list. */
  function Expansion(merges: seq<Pair>, id: nat): seq<byte>
    requires Grounded(merges) && id < 256 + |merges|
    decreases id
  {
    if id < 256 then [id as byte]
    else Expansion(merges, merges[id - 256].0) + Expansion(merges, merges[id - 256].1)
  }

  /** `rank` sends exactly the merged pairs to a position where they occur. */
  ghost predicate RankOk(rank: map<Pair, nat>, merges: seq<Pair>) {
    && (forall p :: p in rank ==> rank[p] < |merges| && merges[rank[p]] == p)
    && (forall k :: 0 <= k < |merges| ==> merges[k] in rank)
  }

  ghost predicate Valid(t: Tokenizer) {
    && Grounded(t.merges)
    && RankOk(t.rank, t.merges)
    && |t.expand| == 256 + |t.merges|
    && forall i :: 0 <= i < |t.expand| ==> t.expand[i] == Expansion(t.merges, i)
  }

  lemma {:induction false} ExpansionPrefix(merges: seq<Pair>, more: seq<Pair>, id: nat)
    requires Grounded(merges + more) && Grounded(merges) && id < 256 + |merges|
    ensures Expansion(merges + more, id) == Expansion(merges, id)
    decreases id
  {
    if id >= 256 {
      assert (merges + more)[id - 256] == merges[id - 256];
      ExpansionPrefix(merges, more, merges[id - 256].0);
      ExpansionPrefix(merges, more, merges[id - 256].1);
    }
  }

  /**
   The constructor. It succeeds exactly on merge lists whose pairs use earlier ids (otherwise indexing the
   half-built expansion table fails), and then every table entry is what its id stands for.
   */
  method MakeTokenizer(merges: seq<Pair>) returns (r: Option<Tokenizer>)
    ensures r.Some? <==> Grounded(merges)
    ensures r.Some? ==> Valid(r.value) && r.value.merges == merges
  {
    var rank: map<Pair, nat> := map[];
    var i := 0;
    while i < |merges|
      invariant 0 <= i <= |merges|
      invariant forall p :: p in rank ==> rank[p] < i && merges[rank[p]] == p
      invariant forall k :: 0 <= k < i ==> merges[k] in rank
    {
      rank := rank[merges[i] := i];
      i := i + 1;
    }
    var expand: seq<seq<byte>> := seq(256, b requires 0 <= b < 256 => [b as byte]);
    i := 0;
    while i < |merges|
      invariant 0 <= i <= |merges| && |expand| == 256 + i
      invariant Grounded(merges[..i])
      invariant forall k :: 0 <= k < |expand| ==> expand[k] == Expansion(merges[..i], k)
    {
      var (a, b) := merges[i];
      if a >= |expand| || b >= |expand| {
        assert !Grounded(merges);
        return None;
      }
      assert merges[..i + 1] == merges[..i] + [merges[i]];
      forall k | 0 <= k < |expand| ensures expand[k] == Expansion(merges[..i + 1], k) {
        ExpansionPrefix(merges[..i], [merges[i]], k);
      }
      expand := expand + [expand[a] + expand[b]];
      i := i + 1;
    }
    assert merges[..i] == merges;
    return Some(Tokenizer(merges, rank, expand));
  }

  // ---------------------------------------------------------------- encoding one chunk

  /** The scan of `_encode_chunk` over the first `n` adjacent pairs: lowest rank so far, first position of it. */
  function BestUpTo(rank: map<Pair, nat>, ids: seq<nat>, n: nat): Option<(nat, nat)>
    requires n == 0 || n < |ids|
  {
    if n == 0 then None
    else
      var best := BestUpTo(rank, ids, n - 1);
      var p := (ids[n - 1], ids[n]);
      if p in rank && (best.None? || rank[p] < best.value.0) then Some((rank[p], n - 1)) else best
  }

  lemma {:induction false} BestIsLowestLeftmost(rank: map<Pair, nat>, ids: seq<nat>, n: nat)
    requires n == 0 || n < |ids|
    ensures var best := BestUpTo(rank, ids, n);
            if best.None? then forall j :: 0 <= j < n ==> (ids[j], ids[j + 1]) !in rank
            else var (r, i) := best.value;
                 && i < n && (ids[i], ids[i + 1]) in rank && rank[(ids[i], ids[i + 1])] == r
                 && (forall j :: 0 <= j < n && (ids[j], ids[j + 1]) in rank ==> r <= rank[(ids[j], ids[j + 1])])
                 && (forall j :: 0 <= j < i && (ids[j], ids[j + 1]) in rank ==> r < rank[(ids[j], ids[j + 1])])
  {
    if n > 0 {
      BestIsLowestLeftmost(rank, ids, n - 1);
    }
  }

  /** `_encode_chunk`: merge the lowest-ranked pair, leftmost first, until none is left. */
  function EncodeChunk(rank: map<Pair, nat>, ids: seq<nat>): seq<nat>
    decreases |ids|
  {
    if |ids| < 2 then ids
    else
      var best := BestUpTo(rank, ids, |ids| - 1);
      BestIsLowestLeftmost(rank, ids, |ids| - 1);
      if best.None? then ids
      else
        var (r, i) := best.value;
        EncodeChunk(rank, MergeAt(ids, i, 256 + r))
  }

  method EncodeChunkLoop(t: Tokenizer, chunk: seq<nat>) returns (ids: seq<nat>)
    requires RankOk(t.rank, t.merges)
    ensures ids == EncodeChunk(t.rank, chunk)
  {
    ids := chunk;
    if t.merges == [] {
      if |ids| >= 2 { BestIsLowestLeftmost(t.rank, ids, |ids| - 1); }
      return;
    }
    while |ids| >= 2
      invariant EncodeChunk(t.rank, ids) == EncodeChunk(t.rank, chunk)
      decreases |ids|
    {
      var best: Option<(nat, nat)> := None;
      var i := 0;
      while i < |ids| - 1
        invariant 0 <= i <= |ids| - 1
        invariant best == BestUpTo(t.rank, ids, i)
      {
        var pair := (ids[i], ids[i + 1]);
        if pair in t.rank && (best.None? || t.rank[pair] < best.value.0) {
          best := Some((t.rank[pair], i));
        }
        i := i + 1;
      }
      BestIsLowestLeftmost(t.rank, ids, |ids| - 1);
      if best.None? { return; }
      ids := MergeAt(ids, best.value.1, 256 + best.value.0);
    }
  }

  // ---------------------------------------------------------------- the encoder agrees with the trainer

  /** No adjacent pair of `ids` is a merge of rank below `k`. */
  ghost predicate NoneBelow(merges: seq<Pair>, ids: seq<nat>, k: nat) {
    forall j :: 0 <= j < k && j < |merges| ==> !HasPair(ids, merges[j])
  }

  lemma {:induction false} PassesSkip(ids: seq<nat>, merges: seq<Pair>, k: nat, r: nat)
    requires k <= r <= |merges| && NoneBelow(merges, ids, r)
    ensures Passes(ids, merges, k) == Passes(ids, merges, r)
    decreases r - k
  {
    if k < r {
      ApplyAbsent(ids, merges[k], 256 + k);
      PassesSkip(ids, merges, k + 1, r);
    }
  }

  /** Merging one occurrence of pair `r` can only create pairs of higher rank. */
  lemma MergeRaisesRank(merges: seq<Pair>, ids: seq<nat>, i: nat, r: nat)
    requires Grounded(merges) && r < |merges| && PairAt(ids, i, merges[r]) && NoneBelow(merges, ids, r)
    ensures NoneBelow(merges, MergeAt(ids, i, 256 + r), r)
  {
    var merged := MergeAt(ids, i, 256 + r);
    forall j | 0 <= j < r ensures !HasPair(merged, merges[j]) {
      forall k: nat ensures !PairAt(merged, k, merges[j]) {
        if k + 1 < i {
          assert !PairAt(ids, k, merges[j]);
        } else if i < k && k + 1 < |merged| {
          assert !PairAt(ids, k + 1, merges[j]);
          assert merged[k] == ids[k + 1] && merged[k + 1] == ids[k + 2];
        } else if k + 1 < |merged| {
          assert merged[i] == 256 + r;
        }
      }
    }
  }

  /** When the scan finds nothing, no merge applies. */
  lemma NothingToMerge(t: Tokenizer, ids: seq<nat>)
    requires RankOk(t.rank, t.merges)
    requires |ids| < 2 || BestUpTo(t.rank, ids, |ids| - 1).None?
    ensures NoneBelow(t.merges, ids, |t.merges|)
  {
    if |ids| >= 2 { BestIsLowestLeftmost(t.rank, ids, |ids| - 1); }
    forall j | 0 <= j < |t.merges| ensures !HasPair(ids, t.merges[j]) {
      forall i: nat ensures !PairAt(ids, i, t.merges[j]) {
        if i + 1 < |ids| { assert (ids[i], ids[i + 1]) !in t.rank; }
      }
    }
  }

  /** What the scan finds is the leftmost occurrence of the lowest-ranked pair. */
  lemma ScanFinds(t: Tokenizer, ids: seq<nat>) returns (r: nat, i: nat)
    requires RankOk(t.rank, t.merges) && NoDup(t.merges)
    requires |ids| >= 2 && BestUpTo(t.rank, ids, |ids| - 1).Some?
    ensures BestUpTo(t.rank, ids, |ids| - 1) == Some((r, i))
    ensures r < |t.merges| && PairAt(ids, i, t.merges[r]) && NoneBelow(t.merges, ids, r)
    ensures forall j :: 0 <= j < i ==> !PairAt(ids, j, t.merges[r])
  {
    BestIsLowestLeftmost(t.rank, ids, |ids| - 1);
    r, i := BestUpTo(t.rank, ids, |ids| - 1).value.0, BestUpTo(t.rank, ids, |ids| - 1).value.1;
    LowestMeansNoneBelow(t, ids, r);
    forall j | 0 <= j < i ensures !PairAt(ids, j, t.merges[r]) {
      assert (ids[j], ids[j + 1]) in t.rank ==> r < t.rank[(ids[j], ids[j + 1])];
    }
  }

  lemma EncodeStep(rank: map<Pair, nat>, ids: seq<nat>, r: nat, i: nat)
    requires |ids| >= 2 && BestUpTo(rank, ids, |ids| - 1) == Some((r, i)) && i + 1 < |ids|
    ensures EncodeChunk(rank, ids) == EncodeChunk(rank, MergeAt(ids, i, 256 + r))
  {
  }

  lemma {:induction false} EncodeFromRank(t: Tokenizer, ids: seq<nat>, k: nat)
    requires Grounded(t.merges) && RankOk(t.rank, t.merges) && NoDup(t.merges)
    requires k <= |t.merges| && NoneBelow(t.merges, ids, k)
    ensures EncodeChunk(t.rank, ids) == Passes(ids, t.merges, k)
    decreases |ids|
  {
    if |ids| < 2 || BestUpTo(t.rank, ids, |ids| - 1).None? {
      NothingToMerge(t, ids);
      PassesSkip(ids, t.merges, k, |t.merges|);
    } else {
      var r, i := ScanFinds(t, ids);
      EncodeStep(t.rank, ids, r, i);
      assert HasPair(ids, t.merges[r]);
      assert k <= r;
      PassesSkip(ids, t.merges, k, r);
      MergeRaisesRank(t.merges, ids, i, r);
      MergeThenPasses(t.merges, ids, i, r);
      EncodeFromRank(t, MergeAt(ids, i, 256 + r), r);
    }
  }

  /** Merging the leftmost occurrence of pair `r` by hand does not change the passes from `r` on. */
  lemma MergeThenPasses(merges: seq<Pair>, ids: seq<nat>, i: nat, r: nat)
    requires Grounded(merges) && r < |merges| && PairAt(ids, i, merges[r])
    requires forall j :: 0 <= j < i ==> !PairAt(ids, j, merges[r])
    ensures Passes(MergeAt(ids, i, 256 + r), merges, r) == Passes(ids, merges, r)
  {
    ApplyAfterLeftmost(ids, i, merges[r], 256 + r);
  }

  lemma LowestMeansNoneBelow(t: Tokenizer, ids: seq<nat>, r: nat)
    requires RankOk(t.rank, t.merges) && NoDup(t.merges) && r < |t.merges|
    requires forall j :: 0 <= j < |ids| - 1 && (ids[j], ids[j + 1]) in t.rank ==> r <= t.rank[(ids[j], ids[j + 1])]
    ensures NoneBelow(t.merges, ids, r)
  {
    forall j | 0 <= j < r ensures !HasPair(ids, t.merges[j]) {
      assert t.rank[t.merges[j]] == j;
      forall i: nat ensures !PairAt(ids, i, t.merges[j]) {
        if i + 1 < |ids| {
          var q := (ids[i], ids[i + 1]);
          assert q in t.rank ==> r <= t.rank[q];
        }
      }
    }
  }

  /** For a merge list of distinct, grounded pairs the encoder computes one whole pass per merge, in order. */
  lemma EncodeIsPasses(t: Tokenizer, ids: seq<nat>)
    requires Valid(t) && NoDup(t.merges)
    ensures EncodeChunk(t.rank, ids) == Passes(ids, t.merges, 0)
  {
    EncodeFromRank(t, ids, 0);
  }

  // ---------------------------------------------------------------- decoding

  /** `decode`: ids outside the table contribute nothing. */
  function Decode(t: Tokenizer, ids: seq<nat>): seq<byte> {
    if ids == [] then []
    else (if ids[0] < |t.expand| then t.expand[ids[0]] else []) + Decode(t, ids[1..])
  }

  method DecodeLoop(t: Tokenizer, ids: seq<nat>) returns (out: seq<byte>)
    ensures out == Decode(t, ids)
  {
    out := [];
    var i := 0;
    while i < |ids|
      invariant 0 <= i <= |ids|
      invariant out + Decode(t, ids[i..]) == Decode(t, ids)
    {
      assert ids[i..][1..] == ids[i + 1..];
      var piece := if ids[i] < |t.expand| then t.expand[ids[i]] else [];
      ConcatAssoc(out, piece, Decode(t, ids[i + 1..]));
      out := out + piece;
      i := i + 1;
    }
  }

  lemma {:induction false} DecodeConcat(t: Tokenizer, a: seq<nat>, b: seq<nat>)
    ensures Decode(t, a + b) == Decode(t, a) + Decode(t, b)
  {
    if a == [] {
      assert a + b == b;
    } else {
      assert (a + b)[1..] == a[1..] + b;
      DecodeConcat(t, a[1..], b);
    }
  }

  /** Merging a pair into its id does not change what the sequence stands for. */
  lemma MergeKeepsMeaning(t: Tokenizer, ids: seq<nat>, i: nat, r: nat)
    requires Valid(t) && r < |t.merges| && PairAt(ids, i, t.merges[r])
    ensures Decode(t, MergeAt(ids, i, 256 + r)) == Decode(t, ids)
  {
    var (a, b) := t.merges[r];
    var front, back := ids[..i], ids[i + 2..];
    assert ids == front + ([a, b] + back);
    assert MergeAt(ids, i, 256 + r) == front + ([256 + r] + back);
    DecodeConcat(t, front, [a, b] + back);
    DecodeConcat(t, [a, b], back);
    DecodeConcat(t, front, [256 + r] + back);
    DecodeConcat(t, [256 + r], back);
    DecodeMergedPair(t, r);
  }

  lemma DecodeOne(t: Tokenizer, x: nat)
    requires x < |t.expand|
    ensures Decode(t, [x]) == t.expand[x]
  {
    assert [x][1..] == [];
  }

  lemma DecodeMergedPair(t: Tokenizer, r: nat)
    requires Valid(t) && r < |t.merges|
    ensures Decode(t, [256 + r]) == Decode(t, [t.merges[r].0, t.merges[r].1])
  {
    var (a, b) := t.merges[r];
    DecodeOne(t, 256 + r);
    DecodeOne(t, a);
    DecodeOne(t, b);
    DecodeConcat(t, [a], [b]);
    assert [a] + [b] == [a, b];
    assert t.expand[256 + r] == Expansion(t.merges, a) + Expansion(t.merges, b);
  }

  /** Encoding keeps the meaning, keeps ids inside the vocabulary and never lengthens. */
  lemma {:induction false} EncodeKeepsMeaning(t: Tokenizer, ids: seq<nat>)
    requires Valid(t) && Below(ids, VocabSize(t))
    ensures Decode(t, EncodeChunk(t.rank, ids)) == Decode(t, ids)
    ensures Below(EncodeChunk(t.rank, ids), VocabSize(t))
    ensures |EncodeChunk(t.rank, ids)| <= |ids|
    decreases |ids|
  {
    if |ids| >= 2 {
      BestIsLowestLeftmost(t.rank, ids, |ids| - 1);
      var best := BestUpTo(t.rank, ids, |ids| - 1);
      if best.Some? {
        var (r, i) := best.value;
        MergeKeepsMeaning(t, ids, i, r);
        assert Below(MergeAt(ids, i, 256 + r), VocabSize(t));
        EncodeKeepsMeaning(t, MergeAt(ids, i, 256 + r));
      }
    }
  }

  // ---------------------------------------------------------------- the whole codec

  function EncodeChunks(t: Tokenizer, chunks: seq<seq<byte>>): seq<nat> {
    if chunks == [] then [] else EncodeChunk(t.rank, Ids(chunks[0])) + EncodeChunks(t, chunks[1..])
  }

  /** `encode`. */
  function Encode(t: Tokenizer, data: seq<byte>): seq<nat> {
    EncodeChunks(t, Chunks(data))
  }

  method EncodeLoop(t: Tokenizer, data: seq<byte>) returns (out: seq<nat>)
    requires RankOk(t.rank, t.merges)
    ensures out == Encode(t, data)
  {
    var chunks := Chunks(data);
    out := [];
    var i := 0;
    while i < |chunks|
      invariant 0 <= i <= |chunks|
      invariant out + EncodeChunks(t, chunks[i..]) == EncodeChunks(t, chunks)
    {
      assert chunks[i..][1..] == chunks[i + 1..];
      var ids := EncodeChunkLoop(t, Ids(chunks[i]));
      ConcatAssoc(out, ids, EncodeChunks(t, chunks[i + 1..]));
      out := out + ids;
      i := i + 1;
    }
  }

  lemma {:induction false} DecodeBytes(t: Tokenizer, bytes: seq<byte>)
    requires Valid(t)
    ensures Decode(t, Ids(bytes)) == bytes
  {
    if bytes != [] {
      assert Ids(bytes)[1..] == Ids(bytes[1..]);
      DecodeBytes(t, bytes[1..]);
      assert t.expand[bytes[0] as nat] == [bytes[0]];
    }
  }

  lemma {:induction false} DecodeChunks(t: Tokenizer, chunks: seq<seq<byte>>)
    requires Valid(t)
    ensures Decode(t, EncodeChunks(t, chunks)) == Flatten(chunks)
    ensures Below(EncodeChunks(t, chunks), VocabSize(t))
  {
    if chunks != [] {
      var ids := Ids(chunks[0]);
      EncodeKeepsMeaning(t, ids);
      DecodeBytes(t, chunks[0]);
      DecodeChunks(t, chunks[1..]);
      DecodeConcat(t, EncodeChunk(t.rank, ids), EncodeChunks(t, chunks[1..]));
    }
  }

  /** decode(encode(x)) == x for every byte string and every grounded merge list; every id is in the vocabulary. */
  lemma RoundTrip(t: Tokenizer, data: seq<byte>)
    requires Valid(t)
    ensures Decode(t, Encode(t, data)) == data
    ensures Below(Encode(t, data), VocabSize(t))
  {
    DecodeChunks(t, Chunks(data));
    ChunksCover(data);
  }
}
