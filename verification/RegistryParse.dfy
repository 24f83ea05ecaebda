/** Exactly what the parser of a hive file accepts. */
module RegistryParse {
  import opened Common
  import opened Registry
  import opened RegistryText

  /** `b` is the hexadecimal digit of value `v`, in either case. */
  predicate HexIs(b: byte, v: nat) {
    (v < 10 && b as nat == 48 + v) || (10 <= v < 16 && (b as nat == 97 + (v - 10) || b as nat == 65 + (v - 10)))
  }

  /** Two characters stand for `x`: two digits, or a plus sign and one. */
  ghost predicate PairIs(a: byte, b: byte, x: byte) {
    || (a == 43 && HexIs(b, x as nat))
    || exists hi: nat, lo: nat :: HexIs(a, hi) && HexIs(b, lo) && x as nat == 16 * hi + lo
  }

  lemma DigitIs(b: byte, v: nat)
    ensures DigitOf(b, 16) == Some(v) <==> HexIs(b, v)
  {
  }

  lemma PairExactly(a: byte, b: byte, x: byte)
    ensures PairOf(a, b) == Some(x) <==> PairIs(a, b, x)
  {
    if PairOf(a, b) == Some(x) {
      var lo := DigitOf(b, 16).value;
      DigitIs(b, lo);
      if a != 43 { DigitIs(a, DigitOf(a, 16).value); }
    }
    if PairIs(a, b, x) {
      if a == 43 && HexIs(b, x as nat) {
        DigitIs(b, x as nat);
      } else {
        var hi: nat, lo: nat :| HexIs(a, hi) && HexIs(b, lo) && x as nat == 16 * hi + lo;
        DigitIs(a, hi);
        DigitIs(b, lo);
      }
    }
  }

  ghost predicate PairsAre(s: Str, r: Str) {
    |s| == 2 * |r| && forall i :: 0 <= i < |r| ==> PairIs(s[2 * i], s[2 * i + 1], r[i])
  }

  lemma {:induction false} PairsExactly(s: Str, r: Str)
    requires |s| % 2 == 0
    ensures UnhexPairs(s) == Some(r) <==> PairsAre(s, r)
  {
    if s != [] && r != [] {
      var t, q := s[2..], r[1..];
      PairExactly(s[0], s[1], r[0]);
      PairsExactly(t, q);
      assert r == [r[0]] + q;
      if PairsAre(s, r) {
        forall i | 0 <= i < |q| ensures PairIs(t[2 * i], t[2 * i + 1], q[i]) {
          assert PairIs(s[2 * (i + 1)], s[2 * (i + 1) + 1], r[i + 1]);
        }
      }
      if PairsAre(t, q) && PairIs(s[0], s[1], r[0]) {
        forall i | 0 <= i < |r| ensures PairIs(s[2 * i], s[2 * i + 1], r[i]) {
          if i > 0 { assert PairIs(t[2 * (i - 1)], t[2 * (i - 1) + 1], q[i - 1]); }
        }
      }
    }
  }

  /** A field reads as `r` exactly when it is a dash and `r` empty, or consists of the pairs of its bytes. */
  lemma UnhexExactly(s: Str, r: Str)
    ensures Unhex(s) == Some(r) <==> (s == [45] && r == []) || PairsAre(s, r)
  {
    if |s| % 2 == 0 { PairsExactly(s, r); }
  }

  // ---------------------------------------------------------------- numbers

  function Noughts(k: nat): Str { seq(k, _ => 48) }

  lemma {:induction false} DigitsExactly(s: Str, n: nat) returns (k: nat)
    requires s != [] && Digits(s) == Some(n)
    ensures s == Noughts(k) + Dec(n)
    decreases |s|
  {
    var front, c := s[..|s| - 1], s[|s| - 1];
    var v := DigitOf(c, 10).value;
    assert s == front + [c] && c as nat == 48 + v;
    if front == [] {
      k := 0;
    } else {
      var m := Digits(front).value;
      k := DigitsExactly(front, m);
      if m == 0 {
        k := k + 1;
        assert front == Noughts(k);
      } else {
        assert n / 10 == m && n % 10 == v;
        assert Dec(n) == Dec(m) + [c];
      }
    }
  }

  lemma {:induction false} NoughtsThen(k: nat, s: Str, n: nat)
    requires Digits(s) == Some(n)
    ensures Digits(Noughts(k) + s) == Some(n)
    decreases k + |s|
  {
    var t := Noughts(k) + s;
    if s == [] {
      if k > 0 {
        NoughtsThen(k - 1, [], 0);
        assert t[..|t| - 1] == Noughts(k - 1) + [];
      }
    } else {
      NoughtsThen(k, s[..|s| - 1], Digits(s[..|s| - 1]).value);
      assert t[..|t| - 1] == Noughts(k) + s[..|s| - 1];
    }
  }

  /** `s` is a number below 2^32 in decimal, with any leading noughts and perhaps a plus sign. */
  ghost predicate NumberIs(s: Str, n: nat) {
    n < TWO32 && exists k: nat :: s == Noughts(k) + Dec(n) || s == [43] + (Noughts(k) + Dec(n))
  }

  lemma NumberParsed(s: Str, n: nat)
    requires ParseU32(s) == Some(n)
    ensures NumberIs(s, n)
  {
    var digits := if s[0] == PLUS then s[1..] else s;
    var k := DigitsExactly(digits, n);
    assert s[0] == PLUS ==> s == [43] + digits;
  }

  lemma NumberReads(k: nat, n: nat)
    requires n < TWO32
    ensures var d := Noughts(k) + Dec(n); ParseU32(d) == Some(n) && ParseU32([43] + d) == Some(n)
  {
    var d := Noughts(k) + Dec(n);
    DecDigits(n);
    NoughtsThen(k, Dec(n), n);
    assert d != [] && d[0] != PLUS;
    assert ([43] + d)[1..] == d;
  }

  /** A field is a number exactly when it is written like one. */
  lemma NumberExactly(s: Str, n: nat)
    ensures ParseU32(s) == Some(n) <==> NumberIs(s, n)
  {
    if ParseU32(s) == Some(n) { NumberParsed(s, n); }
    if NumberIs(s, n) {
      var k: nat :| s == Noughts(k) + Dec(n) || s == [43] + (Noughts(k) + Dec(n));
      NumberReads(k, n);
    }
  }

  // ---------------------------------------------------------------- lines

  /** A line ends at a newline, less a carriage return before it; what follows is split on its own. */
  lemma LinesNext(a: Str, b: Str)
    requires 10 !in a
    ensures Lines(a + [10] + b) == [if a != [] && a[|a| - 1] == 13 then a[..|a| - 1] else a] + Lines(b)
  {
    SplitFirst(a, NEWLINE, b);
    var ps := SplitOn(b, NEWLINE);
    var all := [a] + ps;
    assert all[|all| - 1] == ps[|ps| - 1] && all[..|all| - 1] == [a] + ps[..|ps| - 1];
  }

  /** What follows the last newline is a line, as it is, unless it is empty. */
  lemma LinesLast(a: Str)
    requires 10 !in a
    ensures Lines(a) == if a == [] then [] else [a]
  {
    SplitNone(a, NEWLINE);
  }
}
