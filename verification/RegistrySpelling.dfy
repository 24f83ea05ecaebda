/** Which spellings of a path or a name mean the same. */
module RegistrySpelling {
  import opened Common
  import opened Registry
  import opened RegistryPaths
  import opened RegistryLive

  /** The same byte, or one letter in both cases. */
  predicate SameLetter(x: byte, y: byte) {
    x == y || (65 <= x <= 90 && y == x + 32) || (65 <= y <= 90 && x == y + 32)
  }

  /** The same, where either separator also stands for the other. */
  predicate SameMark(x: byte, y: byte) { SameLetter(x, y) || (x in {47, 92} && y in {47, 92}) }

  ghost predicate SameButCase(a: Str, b: Str) {
    |a| == |b| && forall i :: 0 <= i < |a| ==> SameLetter(a[i], b[i])
  }

  ghost predicate SameSpelling(a: Str, b: Str) {
    |a| == |b| && forall i :: 0 <= i < |a| ==> SameMark(a[i], b[i])
  }

  /** Names are the same once lower-cased exactly when they differ in letter case only. */
  lemma {:induction false} LowerSame(a: Str, b: Str)
    ensures Lower(a) == Lower(b) <==> SameButCase(a, b)
  {
    if Lower(a) == Lower(b) {
      forall i | 0 <= i < |a| ensures SameLetter(a[i], b[i]) {
        LowerAt(a, i);
        LowerAt(b, i);
      }
    }
    if SameButCase(a, b) {
      forall i | 0 <= i < |a| ensures Lower(a)[i] == Lower(b)[i] {
        LowerAt(a, i);
        LowerAt(b, i);
      }
    }
  }

  lemma LowerHasNoCapital(s: Str, i: nat)
    requires i < |s|
    ensures !(65 <= Lower(s)[i] <= 90)
  {
    LowerAt(s, i);
  }

  // ---------------------------------------------------------------- splitting

  /** The components before a leading `registry` is dropped. */
  function Split(path: Str): seq<Str> { Normalised(Pieces(path)) }

  lemma {:induction false} NormalisedConcat(ps: seq<Str>, qs: seq<Str>)
    ensures Normalised(ps + qs) == Normalised(ps) + Normalised(qs)
  {
    if ps == [] {
      assert ps + qs == qs;
    } else {
      assert (ps + qs)[0] == ps[0] && (ps + qs)[1..] == ps[1..] + qs;
      NormalisedConcat(ps[1..], qs);
    }
  }

  /** A slash or backslash separates: the parts are split on their own. */
  lemma SplitAtSeparator(a: Str, sep: byte, b: Str)
    requires sep == 47 || sep == 92
    ensures Split(a + [sep] + b) == Split(a) + Split(b)
  {
    PiecesJoin(a, sep, b);
    NormalisedConcat(Pieces(a), Pieces(b));
  }

  /** What has no separator is one name, lower-cased; nothing is no name. */
  lemma SplitName(s: Str)
    requires forall i :: 0 <= i < |s| ==> s[i] != 47 && s[i] != 92
    ensures Split(s) == if s == [] then [] else [Lower(s)]
  {
    PiecesPlain(s);
    assert [s][1..] == [];
    assert Normalised([]) == [];
  }

  /** `\Registry\Machine` and `Machine` name the same key, however `registry` is spelled. */
  lemma RegistryIsOptional(word: Str, sep: byte, path: Str)
    requires (sep == 47 || sep == 92) && SameButCase(word, REGISTRY)
    ensures Components(word + [sep] + path) == Split(path)
    ensures Split(path) != [] && Split(path)[0] != REGISTRY ==> Components(path) == Split(path)
  {
    SplitAtSeparator(word, sep, path);
    assert Lower(REGISTRY) == REGISTRY by { RegistryLowered(); }
    LowerSame(word, REGISTRY);
    forall i | 0 <= i < |word| ensures word[i] != 47 && word[i] != 92 { assert SameLetter(word[i], REGISTRY[i]); }
    SplitName(word);
    assert ([REGISTRY] + Split(path))[1..] == Split(path);
  }

  lemma RegistryLowered()
    ensures Lower(REGISTRY) == REGISTRY
  {
    forall i | 0 <= i < |REGISTRY| ensures Lower(REGISTRY)[i] == REGISTRY[i] { LowerAt(REGISTRY, i); }
  }

  // ---------------------------------------------------------------- spelling does not matter

  ghost predicate AllSameButCase(ps: seq<Str>, qs: seq<Str>) {
    |ps| == |qs| && forall i :: 0 <= i < |ps| ==> SameButCase(ps[i], qs[i])
  }

  lemma {:induction false} PiecesSame(a: Str, b: Str)
    requires SameSpelling(a, b)
    ensures AllSameButCase(Pieces(a), Pieces(b))
  {
    if a != [] {
      assert SameMark(a[0], b[0]);
      PiecesSame(a[1..], b[1..]);
      var ra, rb := Pieces(a[1..]), Pieces(b[1..]);
      if !IsSep(a[0]) { assert SameButCase([a[0]] + ra[0], [b[0]] + rb[0]) by { assert SameButCase(ra[0], rb[0]); } }
    }
  }

  lemma {:induction false} NormalisedSame(ps: seq<Str>, qs: seq<Str>)
    requires AllSameButCase(ps, qs)
    ensures Normalised(ps) == Normalised(qs)
  {
    if ps != [] {
      NormalisedSame(ps[1..], qs[1..]);
      assert SameButCase(ps[0], qs[0]);
      LowerSame(ps[0], qs[0]);
    }
  }

  /** Two paths that differ in letter case and in the choice of separators only have the same components. */
  lemma SpellingIsFree(a: Str, b: Str)
    requires SameSpelling(a, b)
    ensures Components(a) == Components(b)
  {
    PiecesSame(a, b);
    NormalisedSame(Pieces(a), Pieces(b));
  }

  lemma {:induction false} NormalisedClean(ps: seq<Str>, i: nat)
    requires AllPlain(ps) && i < |Normalised(ps)|
    ensures Clean(Normalised(ps)[i])
  {
    assert Plain(ps[0]);
    if ps[0] == [] {
      NormalisedClean(ps[1..], i);
    } else if i > 0 {
      NormalisedClean(ps[1..], i - 1);
    } else {
      forall j | 0 <= j < |ps[0]| ensures CleanByte(Lower(ps[0])[j]) { LowerAt(ps[0], j); }
    }
  }

  predicate CleanByte(b: byte) { b != 47 && b != 92 && !(65 <= b <= 90) }

  /** Not empty, without separators and without capital letters. */
  ghost predicate Clean(n: Str) { n != [] && forall j :: 0 <= j < |n| ==> CleanByte(n[j]) }

  /** Every component of every path is such a name. */
  lemma ComponentsClean(path: Str, i: nat)
    requires i < |Components(path)|
    ensures Clean(Components(path)[i])
  {
    PiecesPlainAll(path);
    var c := Normalised(Pieces(path));
    NormalisedClean(Pieces(path), i);
    if c[0] == REGISTRY { NormalisedClean(Pieces(path), i + 1); }
  }
}
