/**
 The BPE trainer: incremental pair counts, a reverse index and a lazy heap over a table of distinct chunks,
 proved to learn exactly the merges of the trainer that recounts the whole corpus every round.
 */
module BpeTrainer {
  import opened Common
  import opened Bpe

  // ---------------------------------------------------------------- the simple trainer

  /** Occurrences of `p` as an adjacent pair of `ids`, each counted `c` times. */
  function Weight(ids: seq<nat>, p: Pair, c: nat): nat {
    if |ids| < 2 then 0
    else Weight(ids[..|ids| - 1], p, c) + (if (ids[|ids| - 2], ids[|ids| - 1]) == p then c else 0)
  }

  /** Occurrences of `p` in the whole corpus, chunk by chunk. */
  function CorpusCount(corpus: seq<seq<nat>>, p: Pair): nat {
    if corpus == [] then 0
    else CorpusCount(corpus[..|corpus| - 1], p) + Weight(corpus[|corpus| - 1], p, 1)
  }

  predicate PairLe(p: Pair, q: Pair) {
    p.0 < q.0 || (p.0 == q.0 && p.1 <= q.1)
  }

  /** `p` occurs at least twice, most often, and is the smallest such pair. */
  ghost predicate IsBest(corpus: seq<seq<nat>>, p: Pair) {
    && CorpusCount(corpus, p) >= 2
    && forall q ::
       CorpusCount(corpus, q) < CorpusCount(corpus, p)
                   || (CorpusCount(corpus, q) == CorpusCount(corpus, p) && PairLe(p, q))
  }

  lemma BestUnique(corpus: seq<seq<nat>>, p: Pair, q: Pair)
    requires IsBest(corpus, p) && IsBest(corpus, q)
    ensures p == q
  {
    assert CorpusCount(corpus, q) <= CorpusCount(corpus, p) && CorpusCount(corpus, p) <= CorpusCount(corpus, q);
  }

  function ApplyAll(corpus: seq<seq<nat>>, p: Pair, id: nat): seq<seq<nat>> {
    seq(|corpus|, j requires 0 <= j < |corpus| => ApplyMerge(corpus[j], p, id))
  }

  /** Recount everything, merge the best pair everywhere, repeat. */
  ghost function NaiveTrain(corpus: seq<seq<nat>>, target: nat, k: nat): seq<Pair>
    decreases target - k
  {
    if k >= target || !exists p :: IsBest(corpus, p) then []
    else
      var p :| IsBest(corpus, p);
      [p] + NaiveTrain(ApplyAll(corpus, p, 256 + k), target, k + 1)
  }

  /** The corpus as the trainer first sees it. */
  function Corpus(data: seq<byte>): seq<seq<nat>> {
    var chunks := Chunks(data);
    seq(|chunks|, j requires 0 <= j < |chunks| => Ids(chunks[j]))
  }

  // ---------------------------------------------------------------- counting

  lemma PairInSnoc(ids: seq<nat>, p: Pair)
    requires |ids| >= 2
    ensures HasPair(ids, p) <==> HasPair(ids[..|ids| - 1], p) || (ids[|ids| - 2], ids[|ids| - 1]) == p
  {
    var front := ids[..|ids| - 1];
    if HasPair(ids, p) {
      var i: nat :| PairAt(ids, i, p);
      if i + 2 < |ids| { assert PairAt(front, i, p); }
    }
    if HasPair(front, p) {
      var i: nat :| PairAt(front, i, p);
      assert PairAt(ids, i, p);
    }
    if (ids[|ids| - 2], ids[|ids| - 1]) == p { assert PairAt(ids, |ids| - 2, p); }
  }

  lemma {:induction false} WeightPositive(ids: seq<nat>, p: Pair, c: nat)
    requires c > 0
    ensures Weight(ids, p, c) > 0 <==> HasPair(ids, p)
    decreases |ids|
  {
    if |ids| >= 2 {
      PairInSnoc(ids, p);
      WeightPositive(ids[..|ids| - 1], p, c);
    }
  }

  lemma {:induction false} WeightAdds(ids: seq<nat>, p: Pair, c: nat)
    ensures Weight(ids, p, c + 1) == Weight(ids, p, c) + Weight(ids, p, 1)
    decreases |ids|
  {
    if |ids| >= 2 { WeightAdds(ids[..|ids| - 1], p, c); }
  }

  lemma {:induction false} CountedOccurs(corpus: seq<seq<nat>>, p: Pair)
    ensures CorpusCount(corpus, p) > 0 ==> exists j :: 0 <= j < |corpus| && HasPair(corpus[j], p)
  {
    if corpus != [] {
      var front := corpus[..|corpus| - 1];
      CountedOccurs(front, p);
      WeightPositive(corpus[|corpus| - 1], p, 1);
      if CorpusCount(front, p) > 0 {
        var j :| 0 <= j < |front| && HasPair(front[j], p);
        assert HasPair(corpus[j], p);
      }
    }
  }

  // ---------------------------------------------------------------- the shape of what is learned

  ghost predicate AllBelow(corpus: seq<seq<nat>>, n: nat) {
    forall j :: 0 <= j < |corpus| ==> Below(corpus[j], n)
  }

  ghost predicate Nowhere(corpus: seq<seq<nat>>, p: Pair) {
    forall j :: 0 <= j < |corpus| ==> !HasPair(corpus[j], p)
  }

  lemma BestIsBelow(corpus: seq<seq<nat>>, p: Pair, n: nat)
    requires IsBest(corpus, p) && AllBelow(corpus, n)
    ensures p.0 < n && p.1 < n && !Nowhere(corpus, p)
  {
    CountedOccurs(corpus, p);
    var j :| 0 <= j < |corpus| && HasPair(corpus[j], p);
    var i: nat :| PairAt(corpus[j], i, p);
  }

  lemma ApplyAllShape(corpus: seq<seq<nat>>, p: Pair, id: nat)
    requires AllBelow(corpus, id) && p.0 < id && p.1 < id
    ensures AllBelow(ApplyAll(corpus, p, id), id + 1)
    ensures Nowhere(ApplyAll(corpus, p, id), p)
    ensures forall q: Pair :: Nowhere(corpus, q) && q.0 < id && q.1 < id ==> Nowhere(ApplyAll(corpus, p, id), q)
  {
    var after := ApplyAll(corpus, p, id);
    forall j | 0 <= j < |after| ensures Below(after[j], id + 1) { ApplyBelow(corpus[j], p, id); }
    forall j | 0 <= j < |after| ensures !HasPair(after[j], p) {
      if HasPair(after[j], p) { ApplyPairs(corpus[j], p, id, p); }
    }
    forall q: Pair, j | Nowhere(corpus, q) && q.0 < id && q.1 < id && 0 <= j < |after| ensures !HasPair(after[j], q) {
      if HasPair(after[j], q) { ApplyPairs(corpus[j], p, id, q); }
    }
  }

  /** A pair that occurs nowhere, made of existing ids, is never learned later. */
  lemma {:induction false} NeverLearned(corpus: seq<seq<nat>>, target: nat, k: nat, q: Pair)
    requires AllBelow(corpus, 256 + k) && Nowhere(corpus, q) && q.0 < 256 + k && q.1 < 256 + k
    ensures q !in NaiveTrain(corpus, target, k)
    decreases target - k
  {
    if k < target && exists p :: IsBest(corpus, p) {
      var p :| IsBest(corpus, p)
        && NaiveTrain(corpus, target, k) == [p] + NaiveTrain(ApplyAll(corpus, p, 256 + k), target, k + 1);
      BestIsBelow(corpus, p, 256 + k);
      ApplyAllShape(corpus, p, 256 + k);
      NeverLearned(ApplyAll(corpus, p, 256 + k), target, k + 1, q);
    }
  }

  /** Learned merges use only earlier ids, are pairwise distinct and no more than asked for. */
  lemma {:induction false} LearnedShape(corpus: seq<seq<nat>>, target: nat, k: nat)
    requires AllBelow(corpus, 256 + k)
    ensures var m := NaiveTrain(corpus, target, k);
            && (forall j :: 0 <= j < |m| ==> m[j].0 < 256 + k + j && m[j].1 < 256 + k + j)
            && NoDup(m)
            && (k <= target ==> |m| <= target - k)
    decreases target - k
  {
    if k < target && exists p :: IsBest(corpus, p) {
      var p :| IsBest(corpus, p)
        && NaiveTrain(corpus, target, k) == [p] + NaiveTrain(ApplyAll(corpus, p, 256 + k), target, k + 1);
      var rest := NaiveTrain(ApplyAll(corpus, p, 256 + k), target, k + 1);
      BestIsBelow(corpus, p, 256 + k);
      ApplyAllShape(corpus, p, 256 + k);
      NeverLearned(ApplyAll(corpus, p, 256 + k), target, k + 1, p);
      LearnedShape(ApplyAll(corpus, p, 256 + k), target, k + 1);
      assert p !in rest;
    }
  }

  // ---------------------------------------------------------------- the table of distinct chunks

  datatype Word = Word(ids: seq<nat>, count: nat)

  function Total(words: seq<Word>, p: Pair): nat {
    if words == [] then 0
    else Total(words[..|words| - 1], p) + Weight(words[|words| - 1].ids, p, words[|words| - 1].count)
  }

  lemma {:induction false} TotalUpdate(words: seq<Word>, i: nat, w: Word, p: Pair)
    requires i < |words|
    ensures Total(words[i := w], p) == Total(words, p) - Weight(words[i].ids, p, words[i].count) + Weight(w.ids, p,
            w.count)
  {
    var n := |words|;
    if i == n - 1 {
      assert words[i := w][..n - 1] == words[..n - 1];
    } else {
      assert words[i := w][..n - 1] == words[..n - 1][i := w];
      TotalUpdate(words[..n - 1], i, w, p);
    }
  }

  /** Position of a chunk in the table, or the table's length. */
  function IndexOf(table: seq<Word>, ids: seq<nat>): (i: nat)
    ensures i <= |table|
    ensures i < |table| ==> table[i].ids == ids
    ensures forall j :: 0 <= j < i ==> table[j].ids != ids
  {
    if table == [] then 0 else if table[0].ids == ids then 0 else 1 + IndexOf(table[1..], ids)
  }

  /** Count one more chunk. */
  function AddChunk(table: seq<Word>, ids: seq<nat>): seq<Word> {
    var i := IndexOf(table, ids);
    if i < |table| then table[i := Word(ids, table[i].count + 1)] else table + [Word(ids, 1)]
  }

  /** The `Counter` over all chunks. */
  function Table(corpus: seq<seq<nat>>): (t: seq<Word>)
    ensures forall i :: 0 <= i < |t| ==> t[i].count > 0
  {
    if corpus == [] then [] else AddChunk(Table(corpus[..|corpus| - 1]), corpus[|corpus| - 1])
  }

  method BuildTable(corpus: seq<seq<nat>>) returns (table: seq<Word>)
    ensures table == Table(corpus)
  {
    table := [];
    var n := 0;
    while n < |corpus|
      invariant 0 <= n <= |corpus| && table == Table(corpus[..n])
    {
      assert corpus[..n + 1][..n] == corpus[..n];
      var i := IndexOf(table, corpus[n]);
      table := if i < |table| then table[i := Word(corpus[n], table[i].count + 1)] else table + [Word(corpus[n], 1)];
      n := n + 1;
    }
    assert corpus[..n] == corpus;
  }

  /** The table, and the corpus, after the given merges. */
  function Merged(words: seq<Word>, merges: seq<Pair>): seq<Word> {
    seq(|words|, i requires 0 <= i < |words| => Word(Passes(words[i].ids, merges, 0), words[i].count))
  }

  function MergedCorpus(corpus: seq<seq<nat>>, merges: seq<Pair>): seq<seq<nat>> {
    seq(|corpus|, j requires 0 <= j < |corpus| => Passes(corpus[j], merges, 0))
  }

  lemma AddChunkCounts(table: seq<Word>, ids: seq<nat>, merges: seq<Pair>, p: Pair)
    ensures Total(Merged(AddChunk(table, ids), merges), p)
            == Total(Merged(table, merges), p) + Weight(Passes(ids, merges, 0), p, 1)
  {
    var i := IndexOf(table, ids);
    if i < |table| {
      assert AddChunk(table, ids) == table[i := Word(table[i].ids, table[i].count + 1)];
      OldChunkCounts(table, i, merges, p);
    } else {
      assert AddChunk(table, ids) == table + [Word(ids, 1)];
      NewChunkCounts(table, ids, merges, p);
    }
  }

  lemma NewChunkCounts(table: seq<Word>, ids: seq<nat>, merges: seq<Pair>, p: Pair)
    ensures Total(Merged(table + [Word(ids, 1)], merges), p)
            == Total(Merged(table, merges), p) + Weight(Passes(ids, merges, 0), p, 1)
  {
    var after := Merged(table + [Word(ids, 1)], merges);
    assert after[..|table|] == Merged(table, merges);
    assert after[|table|] == Word(Passes(ids, merges, 0), 1);
  }

  lemma OldChunkCounts(table: seq<Word>, i: nat, merges: seq<Pair>, p: Pair)
    requires i < |table|
    ensures Total(Merged(table[i := Word(table[i].ids, table[i].count + 1)], merges), p)
            == Total(Merged(table, merges), p) + Weight(Passes(table[i].ids, merges, 0), p, 1)
  {
    var done := Passes(table[i].ids, merges, 0);
    var before := Merged(table, merges);
    assert Merged(table[i := Word(table[i].ids, table[i].count + 1)], merges)
      == before[i := Word(done, table[i].count + 1)];
    TotalUpdate(before, i, Word(done, table[i].count + 1), p);
    WeightAdds(done, p, table[i].count);
  }

  /** Counting on the table of distinct chunks is counting on the corpus, after any merges. */
  lemma {:induction false} TableCounts(corpus: seq<seq<nat>>, merges: seq<Pair>, p: Pair)
    ensures Total(Merged(Table(corpus), merges), p) == CorpusCount(MergedCorpus(corpus, merges), p)
  {
    if corpus != [] {
      var front, last := corpus[..|corpus| - 1], corpus[|corpus| - 1];
      TableCounts(front, merges, p);
      AddChunkCounts(Table(front), last, merges, p);
      assert MergedCorpus(corpus, merges)[..|corpus| - 1] == MergedCorpus(front, merges);
    }
  }

  lemma MergedSnoc(words: seq<Word>, corpus: seq<seq<nat>>, merges: seq<Pair>, p: Pair)
    ensures MergedCorpus(corpus, merges + [p]) == ApplyAll(MergedCorpus(corpus, merges), p, 256 + |merges|)
    ensures forall i :: 0 <= i < |words| ==>
              Merged(words, merges + [p])[i]
                     == Word(ApplyMerge(Merged(words, merges)[i].ids, p, 256 + |merges|), words[i].count)
  {
    forall ids: seq<nat> ensures Passes(ids, merges + [p], 0) == ApplyMerge(Passes(ids, merges, 0), p, 256 + |merges|) {
      PassesSnoc(ids, merges, 0, p);
    }
  }

  // ---------------------------------------------------------------- stats, where, heap

  type Stats = map<Pair, int>
  type Where = map<Pair, set<nat>>
  type Entry = (int, Pair)

  function Stat(stats: Stats, p: Pair): int { if p in stats then stats[p] else 0 }
  function Places(whr: Where, p: Pair): set<nat> { if p in whr then whr[p] else {} }

  ghost predicate StatsExact(stats: Stats, words: seq<Word>) {
    forall p {:trigger Stat(stats, p)} {:trigger Total(words, p)} :: Stat(stats, p) == Total(words, p)
  }

  ghost predicate WhereExact(whr: Where, words: seq<Word>) {
    forall p, i: nat {:trigger i in Places(whr, p)} {:trigger HasPair(words[i].ids, p)} ::
      i in Places(whr, p) <==> i < |words| && HasPair(words[i].ids, p)
  }

  /** The heap holds the current count of every pair that could still be chosen. */
  ghost predicate HeapFresh(heap: multiset<Entry>, stats: Stats) {
    forall p {:trigger Stat(stats, p)} :: Stat(stats, p) >= 2 ==> (-Stat(stats, p), p) in heap
  }

  predicate EntryLe(a: Entry, b: Entry) {
    a.0 < b.0 || (a.0 == b.0 && PairLe(a.1, b.1))
  }

  lemma {:induction false} HeapHasMin(heap: multiset<Entry>)
    requires |heap| > 0
    ensures exists e :: e in heap && forall x :: x in heap ==> EntryLe(e, x)
    decreases |heap|
  {
    var y :| y in heap;
    var rest := heap - multiset{y};
    assert forall x :: x in heap ==> x == y || x in rest;
    if |rest| > 0 {
      HeapHasMin(rest);
      var e :| e in rest && forall x :: x in rest ==> EntryLe(e, x);
      assert e in heap;
      if EntryLe(e, y) {
        assert forall x :: x in heap ==> EntryLe(e, x);
      } else {
        assert forall x :: x in rest ==> EntryLe(y, x);
      }
    } else {
      assert rest == multiset{};
      assert forall x :: x in heap ==> EntryLe(y, x);
    }
  }

  /** Discard stale tops; the first current one is the best pair, if its count is at least two. */
  method PickBest(heap0: multiset<Entry>, stats: Stats) returns (heap: multiset<Entry>, pair: Option<Pair>)
    requires HeapFresh(heap0, stats)
    ensures HeapFresh(heap, stats)
    ensures pair.None? ==> forall q {:trigger Stat(stats, q)} :: Stat(stats, q) < 2
    ensures pair.Some? ==> forall q {:trigger Stat(stats, q)} :: Stat(stats, q) >= 2 ==>
              Stat(stats, q) < Stat(stats, pair.value)
                   || (Stat(stats, q) == Stat(stats, pair.value) && PairLe(pair.value, q))
  {
    heap := heap0;
    while |heap| > 0
      invariant HeapFresh(heap, stats)
      decreases |heap|
    {
      HeapHasMin(heap);
      var top :| top in heap && forall x :: x in heap ==> EntryLe(top, x);
      if Stat(stats, top.1) == -top.0 {
        return heap, Some(top.1);
      }
      heap := heap - multiset{top};
    }
    return heap, None;
  }

  /** `stats` is `stats0` with `ids` counted in, `c` each. */
  ghost predicate CountedIn(stats: Stats, stats0: Stats, ids: seq<nat>, c: nat) {
    && (forall p {:trigger Stat(stats, p)} :: Stat(stats, p) == Stat(stats0, p) + Weight(ids, p, c))
    && (forall p {:trigger p in stats} :: p in stats <==> p in stats0 || HasPair(ids, p))
  }

  /** `whr` is `whr0` with `i` recorded at every pair of `ids`. */
  ghost predicate Recorded(whr: Where, whr0: Where, ids: seq<nat>, i: nat) {
    forall p {:trigger Places(whr, p)} :: Places(whr, p) == Places(whr0, p) + if HasPair(ids, p) then {i} else {}
  }

  ghost predicate Forgotten(whr: Where, whr0: Where, ids: seq<nat>, i: nat) {
    forall p {:trigger Places(whr, p)} :: Places(whr, p) == Places(whr0, p) - if HasPair(ids, p) then {i} else {}
  }

  ghost predicate Touches(touched: set<Pair>, touched0: set<Pair>, ids: seq<nat>) {
    forall p {:trigger p in touched} :: p in touched <==> p in touched0 || HasPair(ids, p)
  }

  lemma StatSet(stats: Stats, p: Pair, v: int)
    ensures forall q {:trigger Stat(stats[p := v], q)} :: Stat(stats[p := v], q) == if q == p then v else Stat(stats, q)
  {
  }

  lemma PlacesSet(whr: Where, p: Pair, v: set<nat>)
    ensures forall q {:trigger Places(whr[p := v], q)} :: Places(whr[p := v], q) == if q == p then v else Places(whr, q)
  {
  }

  lemma NoPairs(ids: seq<nat>, c: nat)
    requires |ids| < 2
    ensures forall p :: Weight(ids, p, c) == 0
    ensures forall p :: !HasPair(ids, p)
  {
  }

  /** `stats` is `stats0` with `ids` taken out, `c` each. */
  ghost predicate CountedOut(stats: Stats, stats0: Stats, ids: seq<nat>, c: nat) {
    forall p {:trigger Stat(stats, p)} :: Stat(stats, p) == Stat(stats0, p) - Weight(ids, p, c)
  }

  /** The ids whose adjacent pairs the first `j` rounds of a `zip` loop have seen. */
  function Seen(ids: seq<nat>, j: nat): seq<nat> {
    if j < |ids| then ids[..j + 1] else ids
  }

  lemma SeenStep(ids: seq<nat>, j: nat, p: Pair, c: nat)
    requires j + 1 < |ids|
    ensures Weight(Seen(ids, j + 1), p, c) == Weight(Seen(ids, j), p, c) + if (ids[j], ids[j + 1]) == p then c else 0
    ensures HasPair(Seen(ids, j + 1), p) <==> HasPair(Seen(ids, j), p) || (ids[j], ids[j + 1]) == p
  {
    assert Seen(ids, j + 1)[..j + 1] == Seen(ids, j);
    PairInSnoc(Seen(ids, j + 1), p);
  }

  lemma StatsInStep(stats: Stats, stats0: Stats, ids: seq<nat>, j: nat, c: nat)
    requires j + 1 < |ids| && CountedIn(stats, stats0, Seen(ids, j), c)
    ensures var p := (ids[j], ids[j + 1]); CountedIn(stats[p := Stat(stats, p) + c], stats0, Seen(ids, j + 1), c)
  {
    forall q: Pair { SeenStep(ids, j, q, c); }
    StatSet(stats, (ids[j], ids[j + 1]), Stat(stats, (ids[j], ids[j + 1])) + c);
  }

  lemma StatsOutStep(stats: Stats, stats0: Stats, ids: seq<nat>, j: nat, c: nat)
    requires j + 1 < |ids| && CountedOut(stats, stats0, Seen(ids, j), c)
    ensures var p := (ids[j], ids[j + 1]); CountedOut(stats[p := Stat(stats, p) - c], stats0, Seen(ids, j + 1), c)
  {
    forall q: Pair { SeenStep(ids, j, q, c); }
    StatSet(stats, (ids[j], ids[j + 1]), Stat(stats, (ids[j], ids[j + 1])) - c);
  }

  lemma RecordStep(whr: Where, whr0: Where, ids: seq<nat>, j: nat, i: nat)
    requires j + 1 < |ids| && Recorded(whr, whr0, Seen(ids, j), i)
    ensures var p := (ids[j], ids[j + 1]); Recorded(whr[p := Places(whr, p) + {i}], whr0, Seen(ids, j + 1), i)
  {
    forall q: Pair { SeenStep(ids, j, q, 0); }
    PlacesSet(whr, (ids[j], ids[j + 1]), Places(whr, (ids[j], ids[j + 1])) + {i});
  }

  lemma ForgetStep(whr: Where, whr0: Where, ids: seq<nat>, j: nat, i: nat)
    requires j + 1 < |ids| && Forgotten(whr, whr0, Seen(ids, j), i)
    ensures var p := (ids[j], ids[j + 1]); Forgotten(whr[p := Places(whr, p) - {i}], whr0, Seen(ids, j + 1), i)
  {
    forall q: Pair { SeenStep(ids, j, q, 0); }
    PlacesSet(whr, (ids[j], ids[j + 1]), Places(whr, (ids[j], ids[j + 1])) - {i});
  }

  lemma TouchStep(touched: set<Pair>, touched0: set<Pair>, ids: seq<nat>, j: nat)
    requires j + 1 < |ids| && Touches(touched, touched0, Seen(ids, j))
    ensures Touches(touched + {(ids[j], ids[j + 1])}, touched0, Seen(ids, j + 1))
  {
    forall q: Pair { SeenStep(ids, j, q, 0); }
  }

  /** The inner loops over `zip(ids, ids[1:])` that add a word's pairs. */
  method AddWord(stats0: Stats, whr0: Where, touched0: set<Pair>, i: nat, w: Word)
    returns (stats: Stats, whr: Where, touched: set<Pair>)
    ensures CountedIn(stats, stats0, w.ids, w.count)
    ensures Recorded(whr, whr0, w.ids, i)
    ensures Touches(touched, touched0, w.ids)
  {
    stats, whr, touched := stats0, whr0, touched0;
    var j := 0;
    NoPairs(Seen(w.ids, 0), w.count);
    while j + 1 < |w.ids|
      invariant j + 1 <= |w.ids| || (j == 0 && w.ids == [])
      invariant CountedIn(stats, stats0, Seen(w.ids, j), w.count)
      invariant Recorded(whr, whr0, Seen(w.ids, j), i)
      invariant Touches(touched, touched0, Seen(w.ids, j))
    {
      var p := (w.ids[j], w.ids[j + 1]);
      StatsInStep(stats, stats0, w.ids, j, w.count);
      RecordStep(whr, whr0, w.ids, j, i);
      TouchStep(touched, touched0, w.ids, j);
      stats := stats[p := Stat(stats, p) + w.count];
      whr := whr[p := Places(whr, p) + {i}];
      touched := touched + {p};
      j := j + 1;
    }
    assert Seen(w.ids, j) == w.ids;
  }

  /** The inner loop that takes a word's pairs out before it is rewritten. */
  method RemoveWord(stats0: Stats, whr0: Where, touched0: set<Pair>, i: nat, w: Word)
    returns (stats: Stats, whr: Where, touched: set<Pair>)
    ensures CountedOut(stats, stats0, w.ids, w.count)
    ensures Forgotten(whr, whr0, w.ids, i)
    ensures Touches(touched, touched0, w.ids)
  {
    stats, whr, touched := stats0, whr0, touched0;
    var j := 0;
    NoPairs(Seen(w.ids, 0), w.count);
    while j + 1 < |w.ids|
      invariant j + 1 <= |w.ids| || (j == 0 && w.ids == [])
      invariant CountedOut(stats, stats0, Seen(w.ids, j), w.count)
      invariant Forgotten(whr, whr0, Seen(w.ids, j), i)
      invariant Touches(touched, touched0, Seen(w.ids, j))
    {
      var p := (w.ids[j], w.ids[j + 1]);
      StatsOutStep(stats, stats0, w.ids, j, w.count);
      ForgetStep(whr, whr0, w.ids, j, i);
      TouchStep(touched, touched0, w.ids, j);
      stats := stats[p := Stat(stats, p) - w.count];
      whr := whr[p := Places(whr, p) - {i}];
      touched := touched + {p};
      j := j + 1;
    }
    assert Seen(w.ids, j) == w.ids;
  }

  ghost predicate Counted(words: seq<Word>) {
    forall i :: 0 <= i < |words| ==> words[i].count > 0
  }

  /** The initial scan over all words. */
  method CountAll(words: seq<Word>) returns (stats: Stats, whr: Where)
    requires Counted(words)
    ensures StatsExact(stats, words) && WhereExact(whr, words)
    ensures forall p :: Total(words, p) > 0 ==> p in stats
  {
    stats, whr := map[], map[];
    var i := 0;
    while i < |words|
      invariant 0 <= i <= |words|
      invariant StatsExact(stats, words[..i]) && WhereExact(whr, words[..i])
      invariant forall p {:trigger p in stats} :: Total(words[..i], p) > 0 ==> p in stats
    {
      var stats', whr', _ := AddWord(stats, whr, {}, i, words[i]);
      CountOneMore(stats, whr, words[..i], words[i], stats', whr');
      assert words[..i + 1] == words[..i] + [words[i]];
      stats, whr := stats', whr';
      i := i + 1;
    }
    assert words[..i] == words;
  }

  lemma CountOneMore(stats: Stats, whr: Where, words: seq<Word>, w: Word, stats': Stats, whr': Where)
    requires StatsExact(stats, words) && WhereExact(whr, words) && w.count > 0
    requires CountedIn(stats', stats, w.ids, w.count) && Recorded(whr', whr, w.ids, |words|)
    requires forall p {:trigger p in stats} :: Total(words, p) > 0 ==> p in stats
    ensures StatsExact(stats', words + [w]) && WhereExact(whr', words + [w])
    ensures forall p {:trigger p in stats'} :: Total(words + [w], p) > 0 ==> p in stats'
  {
    forall p: Pair ensures Stat(stats', p) == Total(words + [w], p) && (Total(words + [w], p) > 0 ==> p in stats') {
      TotalSnoc(words, w, p);
      assert Stat(stats, p) == Total(words, p);
      WeightPositive(w.ids, p, w.count);
    }
    IndexOneMore(whr, words, w, whr');
  }

  lemma TotalSnoc(words: seq<Word>, w: Word, p: Pair)
    ensures Total(words + [w], p) == Total(words, p) + Weight(w.ids, p, w.count)
  {
    assert (words + [w])[..|words|] == words;
  }

  lemma IndexOneMore(whr: Where, words: seq<Word>, w: Word, whr': Where)
    requires WhereExact(whr, words) && Recorded(whr', whr, w.ids, |words|)
    ensures WhereExact(whr', words + [w])
  {
    var longer := words + [w];
    forall p: Pair, i: nat ensures i in Places(whr', p) <==> i < |longer| && HasPair(longer[i].ids, p) {
      assert i in Places(whr, p) <==> i < |words| && HasPair(words[i].ids, p);
      assert i < |words| ==> longer[i] == words[i];
    }
  }

  /** Taking word `i` out and putting its rewritten form back keeps the counts and the index exact. */
  lemma RewriteExact(words: seq<Word>, i: nat, w: Word, stats: Stats, whr: Where, mid: Stats, midw: Where,
                     stats': Stats, whr': Where)
    requires i < |words| && StatsExact(stats, words) && WhereExact(whr, words) && w.count == words[i].count
    requires CountedOut(mid, stats, words[i].ids, words[i].count)
    requires Forgotten(midw, whr, words[i].ids, i)
    requires CountedIn(stats', mid, w.ids, w.count) && Recorded(whr', midw, w.ids, i)
    ensures StatsExact(stats', words[i := w]) && WhereExact(whr', words[i := w])
  {
    var words' := words[i := w];
    forall p: Pair ensures Stat(stats', p) == Total(words', p) {
      assert Stat(mid, p) == Stat(stats, p) - Weight(words[i].ids, p, words[i].count);
      assert Stat(stats, p) == Total(words, p);
      TotalUpdate(words, i, w, p);
    }
    forall p: Pair, k: nat ensures k in Places(whr', p) <==> k < |words'| && HasPair(words'[k].ids, p) {
      assert Places(midw, p) == Places(whr, p) - if HasPair(words[i].ids, p) then {i} else {};
      assert k in Places(whr, p) <==> k < |words| && HasPair(words[k].ids, p);
    }
  }

  lemma RewriteTouches(words: seq<Word>, i: nat, w: Word, touched: set<Pair>)
    requires i < |words| && w.count == words[i].count && w.count > 0
    requires forall p {:trigger p in touched} :: HasPair(words[i].ids, p) || HasPair(w.ids, p) ==> p in touched
    ensures forall p {:trigger p in touched} :: Total(words[i := w], p) != Total(words, p) ==> p in touched
  {
    forall p: Pair | Total(words[i := w], p) != Total(words, p) ensures p in touched {
      TotalUpdate(words, i, w, p);
      WeightPositive(words[i].ids, p, w.count);
      WeightPositive(w.ids, p, w.count);
    }
  }

  /** The word `w` after one merge. */
  function Rewritten(w: Word, p: Pair, id: nat): Word { Word(ApplyMerge(w.ids, p, id), w.count) }

  /** Rewrite one word: take its pairs out, apply the merge, put the new pairs in. */
  method RewriteWord(words0: seq<Word>, stats0: Stats, whr0: Where, touched0: set<Pair>, i: nat, pair: Pair, id: nat)
    returns (words: seq<Word>, stats: Stats, whr: Where, touched: set<Pair>)
    requires i < |words0| && words0[i].count > 0 && StatsExact(stats0, words0) && WhereExact(whr0, words0)
    ensures words == words0[i := Rewritten(words0[i], pair, id)]
    ensures StatsExact(stats, words) && WhereExact(whr, words)
    ensures touched0 <= touched
    ensures forall p {:trigger p in touched} :: Total(words, p) != Total(words0, p) ==> p in touched
  {
    var mid, midw, touched1 := RemoveWord(stats0, whr0, touched0, i, words0[i]);
    var ids := ApplyLoop(words0[i].ids, pair, id);
    var w := Word(ids, words0[i].count);
    stats, whr, touched := AddWord(mid, midw, touched1, i, w);
    RewriteExact(words0, i, w, stats0, whr0, mid, midw, stats, whr);
    forall p: Pair | p in touched0 || HasPair(words0[i].ids, p) || HasPair(w.ids, p) ensures p in touched {
      assert p in touched1 <==> p in touched0 || HasPair(words0[i].ids, p);
    }
    RewriteTouches(words0, i, w, touched);
    words := words0[i := w];
  }

  /** One merge: rewrite exactly the words the index names, keeping counts and index up to date. */
  method MergeRound(words0: seq<Word>, stats0: Stats, whr0: Where, pair: Pair, id: nat)
    returns (words: seq<Word>, stats: Stats, whr: Where, touched: set<Pair>)
    requires Counted(words0) && StatsExact(stats0, words0) && WhereExact(whr0, words0)
    ensures |words| == |words0| && forall i :: 0 <= i < |words| ==> words[i] == Rewritten(words0[i], pair, id)
    ensures StatsExact(stats, words) && WhereExact(whr, words)
    ensures forall p {:trigger p in touched} :: Total(words, p) != Total(words0, p) ==> p in touched
  {
    words, stats, whr, touched := words0, stats0, whr0, {};
    var todo := Places(whr0, pair);
    while todo != {}
      invariant todo <= Places(whr0, pair) && |words| == |words0|
      invariant forall i :: 0 <= i < |words| ==>
                words[i] == if i in Places(whr0, pair) && i !in todo then Rewritten(words0[i], pair, id) else words0[i]
      invariant StatsExact(stats, words) && WhereExact(whr, words)
      invariant forall p {:trigger p in touched} :: Total(words, p) != Total(words0, p) ==> p in touched
      decreases todo
    {
      var i :| i in todo;
      assert i in Places(whr0, pair);
      words, stats, whr, touched := RewriteWord(words, stats, whr, touched, i, pair, id);
      todo := todo - {i};
    }
    forall i | 0 <= i < |words| ensures words[i] == Rewritten(words0[i], pair, id) {
      if i !in Places(whr0, pair) { ApplyAbsent(words0[i].ids, pair, id); }
    }
  }

  /** Push the current count of every touched pair that occurs at least twice. */
  method PushTouched(heap0: multiset<Entry>, stats: Stats, touched: set<Pair>) returns (heap: multiset<Entry>)
    ensures heap0 <= heap
    ensures forall p :: p in touched && Stat(stats, p) >= 2 ==> (-Stat(stats, p), p) in heap
  {
    heap := heap0;
    var todo := touched;
    while todo != {}
      invariant todo <= touched && heap0 <= heap
      invariant forall p :: p in touched && p !in todo && Stat(stats, p) >= 2 ==> (-Stat(stats, p), p) in heap
      decreases todo
    {
      var p :| p in todo;
      var v := Stat(stats, p);
      if v >= 2 { heap := heap + multiset{(-v, p)}; }
      todo := todo - {p};
    }
  }

  /** `heapify` over every counted pair. */
  method InitialHeap(stats: Stats) returns (heap: multiset<Entry>)
    ensures forall p :: p in stats ==> (-stats[p], p) in heap
  {
    heap := multiset{};
    var todo := stats.Keys;
    while todo != {}
      invariant todo <= stats.Keys
      invariant forall p :: p in stats && p !in todo ==> (-stats[p], p) in heap
      decreases todo
    {
      var p :| p in todo;
      heap := heap + multiset{(-stats[p], p)};
      todo := todo - {p};
    }
  }

  // ---------------------------------------------------------------- the whole trainer

  /** Everything the main loop keeps true, for the corpus it was started on. */
  ghost predicate TrainerOk(corpus: seq<seq<nat>>, merges: seq<Pair>, words: seq<Word>, stats: Stats, whr: Where,
                            heap: multiset<Entry>) {
    && words == Merged(Table(corpus), merges)
    && StatsExact(stats, words) && WhereExact(whr, words) && HeapFresh(heap, stats)
    && AllBelow(MergedCorpus(corpus, merges), 256 + |merges|)
  }

  /** The trainer's count of any pair is the corpus count. */
  lemma StatIsCorpusCount(corpus: seq<seq<nat>>, merges: seq<Pair>, words: seq<Word>, stats: Stats, p: Pair)
    requires words == Merged(Table(corpus), merges) && StatsExact(stats, words)
    ensures Stat(stats, p) == CorpusCount(MergedCorpus(corpus, merges), p)
  {
    TableCounts(corpus, merges, p);
    assert Stat(stats, p) == Total(words, p);
  }

  /** The pair on top of the heap, once current, is the best pair of the corpus. */
  lemma TopIsBest(corpus: seq<seq<nat>>, merges: seq<Pair>, words: seq<Word>, stats: Stats, pair: Pair)
    requires words == Merged(Table(corpus), merges) && StatsExact(stats, words)
    requires Stat(stats, pair) >= 2
    requires forall q {:trigger Stat(stats, q)} :: Stat(stats, q) >= 2 ==>
               Stat(stats, q) < Stat(stats, pair) || (Stat(stats, q) == Stat(stats, pair) && PairLe(pair, q))
    ensures IsBest(MergedCorpus(corpus, merges), pair)
  {
    var now := MergedCorpus(corpus, merges);
    StatIsCorpusCount(corpus, merges, words, stats, pair);
    forall q: Pair
      ensures CorpusCount(now, q) < CorpusCount(now, pair)
              || (CorpusCount(now, q) == CorpusCount(now, pair) && PairLe(pair, q)) {
      StatIsCorpusCount(corpus, merges, words, stats, q);
    }
  }

  lemma NothingIsBest(corpus: seq<seq<nat>>, merges: seq<Pair>, words: seq<Word>, stats: Stats)
    requires words == Merged(Table(corpus), merges) && StatsExact(stats, words)
    requires forall q {:trigger Stat(stats, q)} :: Stat(stats, q) < 2
    ensures !exists p :: IsBest(MergedCorpus(corpus, merges), p)
  {
    forall p: Pair ensures !IsBest(MergedCorpus(corpus, merges), p) {
      StatIsCorpusCount(corpus, merges, words, stats, p);
    }
  }

  /** The words after a round are the table merged once more. */
  lemma RoundIsMerged(corpus: seq<seq<nat>>, merges: seq<Pair>, words: seq<Word>, words': seq<Word>, p: Pair)
    requires words == Merged(Table(corpus), merges) && |words'| == |words|
    requires forall i :: 0 <= i < |words| ==> words'[i] == Rewritten(words[i], p, 256 + |merges|)
    ensures words' == Merged(Table(corpus), merges + [p])
  {
    MergedSnoc(Table(corpus), corpus, merges, p);
  }

  /** `where.pop(pair)`: the merged pair occurs nowhere any more, so its entry is empty. */
  lemma PoppedExact(words0: seq<Word>, words: seq<Word>, whr: Where, pair: Pair, id: nat)
    requires |words| == |words0| && forall i :: 0 <= i < |words| ==> words[i] == Rewritten(words0[i], pair, id)
    requires forall i :: 0 <= i < |words0| ==> Below(words0[i].ids, id)
    requires pair.0 < id && pair.1 < id && WhereExact(whr, words)
    ensures WhereExact(whr - {pair}, words)
  {
    forall i | 0 <= i < |words| ensures !HasPair(words[i].ids, pair) {
      if HasPair(words[i].ids, pair) { ApplyPairs(words0[i].ids, pair, id, pair); }
    }
    forall p: Pair, i: nat ensures i in Places(whr - {pair}, p) <==> i < |words| && HasPair(words[i].ids, p) {
      assert i in Places(whr, p) <==> i < |words| && HasPair(words[i].ids, p);
    }
  }

  lemma HeapStaysFresh(heap: multiset<Entry>, heap': multiset<Entry>, words: seq<Word>, words': seq<Word>, stats: Stats,
                       stats': Stats, touched: set<Pair>)
    requires HeapFresh(heap, stats) && StatsExact(stats, words) && StatsExact(stats', words') && heap <= heap'
    requires forall p {:trigger p in touched} :: Total(words', p) != Total(words, p) ==> p in touched
    requires forall p :: p in touched && Stat(stats', p) >= 2 ==> (-Stat(stats', p), p) in heap'
    ensures HeapFresh(heap', stats')
  {
    forall p: Pair | Stat(stats', p) >= 2 ensures (-Stat(stats', p), p) in heap' {
      assert Stat(stats', p) == Total(words', p) && Stat(stats, p) == Total(words, p);
      if p !in touched { assert (-Stat(stats, p), p) in heap; }
    }
  }

  /** Every chunk of the table is a chunk of the corpus, so its ids are small. */
  lemma {:induction false} TableBelow(corpus: seq<seq<nat>>, merges: seq<Pair>, n: nat)
    requires AllBelow(MergedCorpus(corpus, merges), n)
    ensures forall i :: 0 <= i < |Table(corpus)| ==> Below(Merged(Table(corpus), merges)[i].ids, n)
  {
    if corpus != [] {
      var front, last := corpus[..|corpus| - 1], corpus[|corpus| - 1];
      assert forall j :: 0 <= j < |front| ==> MergedCorpus(front, merges)[j] == MergedCorpus(corpus, merges)[j];
      TableBelow(front, merges, n);
      assert MergedCorpus(corpus, merges)[|corpus| - 1] == Passes(last, merges, 0);
      forall i | 0 <= i < |Table(corpus)| ensures Below(Merged(Table(corpus), merges)[i].ids, n) {
        if i < |Table(front)| && Table(corpus)[i].ids == Table(front)[i].ids {
          assert Below(Merged(Table(front), merges)[i].ids, n);
        }
      }
    }
  }

  /** The state before the first round. */
  method StartTraining(corpus: seq<seq<nat>>)
    returns (words: seq<Word>, stats: Stats, whr: Where, heap: multiset<Entry>)
    requires AllBelow(corpus, 256)
    ensures TrainerOk(corpus, [], words, stats, whr, heap)
  {
    words := BuildTable(corpus);
    stats, whr := CountAll(words);
    heap := InitialHeap(stats);
    assert words == Merged(words, []);
    assert MergedCorpus(corpus, []) == corpus;
    forall p: Pair | Stat(stats, p) >= 2 ensures (-Stat(stats, p), p) in heap {
      assert p in stats;
    }
  }

  /** One round of the main loop, once the pair is chosen. */
  method TrainRound(ghost corpus: seq<seq<nat>>, ghost merges: seq<Pair>, words0: seq<Word>, stats0: Stats, whr0: Where,
                    heap0: multiset<Entry>,
                    p: Pair, id: nat)
    returns (words: seq<Word>, stats: Stats, whr: Where, heap: multiset<Entry>)
    requires TrainerOk(corpus, merges, words0, stats0, whr0, heap0) && id == 256 + |merges|
    requires IsBest(MergedCorpus(corpus, merges), p)
    ensures TrainerOk(corpus, merges + [p], words, stats, whr, heap)
  {
    BestIsBelow(MergedCorpus(corpus, merges), p, id);
    TableBelow(corpus, merges, id);
    var whr1, touched;
    words, stats, whr1, touched := MergeRound(words0, stats0, whr0, p, id);
    RoundIsMerged(corpus, merges, words0, words, p);
    PoppedExact(words0, words, whr1, p, id);
    heap := PushTouched(heap0, stats, touched);
    HeapStaysFresh(heap0, heap, words0, words, stats0, stats, touched);
    whr := whr1 - {p};
    ApplyAllShape(MergedCorpus(corpus, merges), p, id);
    MergedSnoc([], corpus, merges, p);
  }

  /** `train_bpe` learns exactly the merges of the trainer that recounts the corpus every round. */
  method TrainBpe(data: seq<byte>, vocabSize: nat) returns (merges: seq<Pair>)
    requires vocabSize >= 256
    ensures merges == NaiveTrain(Corpus(data), vocabSize - 256, 0)
  {
    var corpus := Corpus(data);
    var words, stats, whr, heap := StartTraining(corpus);
    merges := [];
    var target := vocabSize - 256;
    assert MergedCorpus(corpus, []) == corpus;
    while |merges| < target
      invariant |merges| <= target
      invariant TrainerOk(corpus, merges, words, stats, whr, heap)
      invariant NaiveTrain(corpus, target, 0) == merges + NaiveTrain(MergedCorpus(corpus, merges), target, |merges|)
    {
      var pair;
      heap, pair := PickBest(heap, stats);
      if pair.None? || Stat(stats, pair.value) < 2 {
        NothingIsBest(corpus, merges, words, stats);
        return;
      }
      var p := pair.value;
      TopIsBest(corpus, merges, words, stats, p);
      NaiveStep(MergedCorpus(corpus, merges), target, |merges|, p);
      MergedSnoc([], corpus, merges, p);
      ConcatAssoc(merges, [p], NaiveTrain(MergedCorpus(corpus, merges + [p]), target, |merges| + 1));
      words, stats, whr, heap := TrainRound(corpus, merges, words, stats, whr, heap, p, 256 + |merges|);
      merges := merges + [p];
    }
  }

  lemma NaiveStep(corpus: seq<seq<nat>>, target: nat, k: nat, p: Pair)
    requires k < target && IsBest(corpus, p)
    ensures NaiveTrain(corpus, target, k) == [p] + NaiveTrain(ApplyAll(corpus, p, 256 + k), target, k + 1)
  {
    var q :| IsBest(corpus, q)
      && NaiveTrain(corpus, target, k) == [q] + NaiveTrain(ApplyAll(corpus, q, 256 + k), target, k + 1);
    BestUnique(corpus, p, q);
  }
}
