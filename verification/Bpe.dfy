/** Byte-level BPE: one merge pass, adjacent-pair occurrences, chunking. */
module Bpe {
  import opened Common

  type Pair = (nat, nat)

  /** `_apply`: replace every occurrence of `p`, left to right without overlap, by `id`. */
  function ApplyMerge(ids: seq<nat>, p: Pair, id: nat): seq<nat> {
    if |ids| == 0 then []
    else if |ids| >= 2 && ids[0] == p.0 && ids[1] == p.1 then [id] + ApplyMerge(ids[2..], p, id)
    else [ids[0]] + ApplyMerge(ids[1..], p, id)
  }

  /** `_apply` as the loop it is. */
  method ApplyLoop(ids: seq<nat>, p: Pair, id: nat) returns (out: seq<nat>)
    ensures out == ApplyMerge(ids, p, id)
  {
    out := [];
    var i := 0;
    while i < |ids|
      invariant 0 <= i <= |ids|
      invariant out + ApplyMerge(ids[i..], p, id) == ApplyMerge(ids, p, id)
    {
      if i + 1 < |ids| && ids[i] == p.0 && ids[i + 1] == p.1 {
        assert ids[i..][2..] == ids[i + 2..];
        ConcatAssoc(out, [id], ApplyMerge(ids[i + 2..], p, id));
        out := out + [id];
        i := i + 2;
      } else {
        assert ids[i..][1..] == ids[i + 1..];
        ConcatAssoc(out, [ids[i]], ApplyMerge(ids[i + 1..], p, id));
        out := out + [ids[i]];
        i := i + 1;
      }
    }
    assert ids[i..] == [];
  }

  predicate PairAt(ids: seq<nat>, i: nat, p: Pair) {
    i + 1 < |ids| && ids[i] == p.0 && ids[i + 1] == p.1
  }

  /** The pair at `i` replaced by one id. */
  function MergeAt(ids: seq<nat>, i: nat, id: nat): (r: seq<nat>)
    requires i + 1 < |ids|
    ensures |r| == |ids| - 1
  {
    ids[..i] + [id] + ids[i + 2..]
  }

  ghost predicate HasPair(ids: seq<nat>, p: Pair) {
    exists i: nat :: PairAt(ids, i, p)
  }

  /** Every id of the sequence is below `n`. */
  ghost predicate Below(ids: seq<nat>, n: nat) {
    forall i :: 0 <= i < |ids| ==> ids[i] < n
  }

  lemma PairInTail(ids: seq<nat>, k: nat, p: Pair)
    requires k <= |ids| && HasPair(ids[k..], p)
    ensures HasPair(ids, p)
  {
    var i: nat :| PairAt(ids[k..], i, p);
    assert PairAt(ids, k + i, p);
  }

  lemma PairInCons(x: nat, rest: seq<nat>, p: Pair)
    ensures HasPair([x] + rest, p) <==> (rest != [] && (x, rest[0]) == p) || HasPair(rest, p)
  {
    var s := [x] + rest;
    if HasPair(s, p) {
      var i: nat :| PairAt(s, i, p);
      if i > 0 { assert PairAt(rest, i - 1, p); } else { assert s[1] == rest[0]; }
    }
    if rest != [] && (x, rest[0]) == p { assert PairAt(s, 0, p); }
    if HasPair(rest, p) {
      assert s[1..] == rest;
      PairInTail(s, 1, p);
    }
  }

  /** A pass changes nothing exactly where the pair does not occur, and shortens the list where it does. */
  lemma {:induction false} ApplyAbsent(ids: seq<nat>, p: Pair, id: nat)
    ensures ApplyMerge(ids, p, id) == ids <==> !HasPair(ids, p)
    ensures |ApplyMerge(ids, p, id)| < |ids| <==> HasPair(ids, p)
    ensures |ApplyMerge(ids, p, id)| <= |ids|
  {
    if |ids| > 0 {
      assert ids == [ids[0]] + ids[1..];
      PairInCons(ids[0], ids[1..], p);
      if PairAt(ids, 0, p) { ApplyAbsent(ids[2..], p, id); } else { ApplyAbsent(ids[1..], p, id); }
    }
  }

  /** The first output id is the first input id or the new one. */
  lemma ApplyHead(ids: seq<nat>, p: Pair, id: nat)
    requires |ids| > 0
    ensures var r := ApplyMerge(ids, p, id); |r| > 0 && (r[0] == id || (r[0] == ids[0] && !PairAt(ids, 0, p)))
  {
  }

  /**
   What a pass with a fresh id does to adjacent pairs: the merged pair is gone for good, and every other pair
   of the output was already adjacent in the input or involves the new id.
   */
  lemma {:induction false} ApplyPairs(ids: seq<nat>, p: Pair, id: nat, q: Pair)
    requires Below(ids, id) && p.0 < id && p.1 < id
    requires HasPair(ApplyMerge(ids, p, id), q)
    ensures q != p
    ensures HasPair(ids, q) || q.0 == id || q.1 == id
    decreases |ids|
  {
    var r := ApplyMerge(ids, p, id);
    var k := if PairAt(ids, 0, p) then 2 else 1;
    var rest := ApplyMerge(ids[k..], p, id);
    var head := if k == 2 then id else ids[0];
    assert r == [head] + rest;
    PairInCons(head, rest, q);
    if HasPair(rest, q) {
      ApplyPairs(ids[k..], p, id, q);
      if HasPair(ids[k..], q) { PairInTail(ids, k, q); }
    } else if |ids[k..]| > 0 {
      ApplyHead(ids[k..], p, id);
      if head != id && rest[0] != id {
        assert PairAt(ids, 0, q);
      }
    }
  }

  lemma {:induction false} ApplyBelow(ids: seq<nat>, p: Pair, id: nat)
    requires Below(ids, id)
    ensures Below(ApplyMerge(ids, p, id), id + 1)
    decreases |ids|
  {
    if |ids| > 0 {
      ApplyBelow(ids[if PairAt(ids, 0, p) then 2 else 1..], p, id);
    }
  }

  /** A pass after its leftmost occurrence was merged by hand gives the same result. */
  lemma {:induction false} ApplyAfterLeftmost(ids: seq<nat>, i: nat, p: Pair, id: nat)
    requires PairAt(ids, i, p) && forall j :: 0 <= j < i ==> !PairAt(ids, j, p)
    requires p.0 != id && p.1 != id
    ensures ApplyMerge(MergeAt(ids, i, id), p, id) == ApplyMerge(ids, p, id)
  {
    var merged := MergeAt(ids, i, id);
    if i == 0 {
      assert merged == [id] + ids[2..];
      assert merged[1..] == ids[2..];
    } else {
      var rest := ids[1..];
      assert PairAt(rest, i - 1, p);
      forall j | 0 <= j < i - 1 ensures !PairAt(rest, j, p) {
        assert !PairAt(ids, j + 1, p);
      }
      ApplyAfterLeftmost(rest, i - 1, p, id);
      assert !PairAt(ids, 0, p);
      assert merged[1..] == MergeAt(rest, i - 1, id);
      assert !PairAt(merged, 0, p) by {
        if i > 1 { assert merged[1] == ids[1]; }
      }
    }
  }

  // ---------------------------------------------------------------- chunks

  /** The bytes Python's `\s` matches. */
  predicate IsSpace(b: byte)
    ensures IsSpace(b) <==> b in {9, 10, 11, 12, 13, 32}
  {
    9 <= b <= 13 || b == 32
  }

  /** Length of the maximal run of one class at the front. */
  function RunLength(data: seq<byte>): (n: nat)
    ensures n <= |data| && (data != [] ==> n > 0)
    ensures forall i :: 0 <= i < n ==> IsSpace(data[i]) == IsSpace(data[0])
    ensures 0 < n < |data| ==> IsSpace(data[n]) != IsSpace(data[0])
  {
    if data == [] then 0
    else if |data| == 1 || IsSpace(data[1]) != IsSpace(data[0]) then 1
    else 1 + RunLength(data[1..])
  }

  /** The matches of `\s+|\S+`: maximal whitespace and non-whitespace runs. */
  function Chunks(data: seq<byte>): seq<seq<byte>>
    decreases |data|
  {
    if data == [] then []
    else [data[..RunLength(data)]] + Chunks(data[RunLength(data)..])
  }

  /** A non-empty piece, all whitespace or all not. */
  ghost predicate OneClass(c: seq<byte>) {
    c != [] && forall i :: 0 <= i < |c| ==> (IsSpace(c[i]) <==> IsSpace(c[0]))
  }

  /** Pieces of one class each, no two neighbours of the same. */
  ghost predicate Alternating(cs: seq<seq<byte>>) {
    && (forall k :: 0 <= k < |cs| ==> OneClass(cs[k]))
    && forall k :: 0 < k < |cs| ==> IsSpace(cs[k][0]) != IsSpace(cs[k - 1][0])
  }

  lemma AlternatingCons(c: seq<byte>, cs: seq<seq<byte>>)
    requires OneClass(c) && Alternating(cs) && (cs != [] ==> IsSpace(cs[0][0]) != IsSpace(c[0]))
    ensures Alternating([c] + cs)
  {
    var all := [c] + cs;
    forall k | 0 < k < |all| ensures IsSpace(all[k][0]) != IsSpace(all[k - 1][0]) {
      if k > 1 { assert all[k - 1] == cs[k - 2] && all[k] == cs[k - 1]; }
    }
  }

  lemma FlattenHead(cs: seq<seq<byte>>)
    requires cs != [] && cs[0] != []
    ensures Flatten(cs) != [] && Flatten(cs)[0] == cs[0][0]
  {
  }

  lemma ChunksCons(data: seq<byte>, n: nat)
    requires data != [] && n == RunLength(data)
    ensures Chunks(data) == [data[..n]] + Chunks(data[n..]) && data[..n] + data[n..] == data
  {
  }

  lemma FirstIsRun(data: seq<byte>, n: nat)
    requires data != [] && n == RunLength(data)
    ensures OneClass(data[..n])
  {
    var c := data[..n];
    forall i | 0 <= i < |c| ensures IsSpace(c[i]) <==> IsSpace(c[0]) { assert c[i] == data[i] && c[0] == data[0]; }
  }

  /**
   Chunking loses no byte and invents none, and its pieces are the runs of whitespace and of everything else: one class
   each, neighbours of different classes.
   */
  lemma {:induction false} ChunksCover(data: seq<byte>)
    ensures Flatten(Chunks(data)) == data && Alternating(Chunks(data))
    decreases |data|
  {
    if data != [] {
      var n := RunLength(data);
      var rest := Chunks(data[n..]);
      ChunksCons(data, n);
      FirstIsRun(data, n);
      ChunksCover(data[n..]);
      ChunksMeet(data, n, rest);
      AlternatingCons(data[..n], rest);
      assert ([data[..n]] + rest)[1..] == rest;
    }
  }

  /** The second chunk is of the other class than the first. */
  lemma ChunksMeet(data: seq<byte>, n: nat, rest: seq<seq<byte>>)
    requires data != [] && n == RunLength(data) && Flatten(rest) == data[n..] && Alternating(rest)
    ensures rest != [] ==> IsSpace(rest[0][0]) != IsSpace(data[0])
  {
    if rest != [] { FlattenHead(rest); }
  }

  /** Any such pieces of the data are its chunks. */
  lemma {:induction false} ChunksUnique(cs: seq<seq<byte>>)
    requires Alternating(cs)
    ensures Chunks(Flatten(cs)) == cs
  {
    if cs != [] {
      var data, n := Flatten(cs), |cs[0]|;
      var rest := cs[1..];
      assert Alternating(rest) by {
        forall k | 0 < k < |rest| ensures IsSpace(rest[k][0]) != IsSpace(rest[k - 1][0]) {
          assert rest[k] == cs[k + 1] && rest[k - 1] == cs[k];
        }
      }
      ChunksUnique(rest);
      assert data[..n] == cs[0] && data[n..] == Flatten(rest);
      assert RunLength(data) == n by {
        assert OneClass(cs[0]);
        forall i | 0 <= i < n ensures IsSpace(data[i]) == IsSpace(data[0]) { assert data[i] == cs[0][i]; }
        if rest != [] { FlattenHead(rest); assert data[n] == cs[1][0]; }
      }
    }
  }

  /** `list(chunk)`: bytes as token ids. */
  function Ids(bytes: seq<byte>): seq<nat> {
    seq(|bytes|, i requires 0 <= i < |bytes| => bytes[i] as nat)
  }

  // ---------------------------------------------------------------- merge lists

  /** Merge `k` joins two ids that existed before it. */
  predicate Grounded(merges: seq<Pair>) {
    forall k :: 0 <= k < |merges| ==> merges[k].0 < 256 + k && merges[k].1 < 256 + k
  }

  /** Apply merges `k`, `k + 1`, ... once each, in order. */
  function Passes(ids: seq<nat>, merges: seq<Pair>, k: nat): seq<nat>
    requires k <= |merges|
    decreases |merges| - k
  {
    if k == |merges| then ids else Passes(ApplyMerge(ids, merges[k], 256 + k), merges, k + 1)
  }

  /** One more merge is one more pass at the end. */
  lemma {:induction false} PassesSnoc(ids: seq<nat>, merges: seq<Pair>, k: nat, p: Pair)
    requires k <= |merges|
    ensures Passes(ids, merges + [p], k) == ApplyMerge(Passes(ids, merges, k), p, 256 + |merges|)
    decreases |merges| - k
  {
    if k < |merges| {
      PassesSnoc(ApplyMerge(ids, merges[k], 256 + k), merges, k + 1, p);
    }
  }
}
