/** The hive file: one record per line, fields in hexadecimal. */
module RegistryText {
  import opened Common
  import opened Registry
  import opened RegistryPaths
  import opened RegistryHive
  import Utf8

  const NEWLINE: byte := 10
  const RETURN: byte := 13
  const SPACE: byte := 32
  const DASH: byte := 45
  const PLUS: byte := 43

  // ---------------------------------------------------------------- splitting

  /** `split` on one byte; always at least one piece. */
  function SplitOn(s: Str, sep: byte): (r: seq<Str>)
    ensures r != []
  {
    if s == [] then [[]]
    else if s[0] == sep then [[]] + SplitOn(s[1..], sep)
    else
      var rest := SplitOn(s[1..], sep);
      [[s[0]] + rest[0]] + rest[1..]
  }

  lemma {:induction false} SplitNone(s: Str, sep: byte)
    requires sep !in s
    ensures SplitOn(s, sep) == [s]
  {
    if s != [] {
      SplitNone(s[1..], sep);
      assert [s[0]] + s[1..] == s;
    }
  }

  /** A piece without the separator comes off the front whole. */
  lemma {:induction false} SplitFirst(a: Str, sep: byte, b: Str)
    requires sep !in a
    ensures SplitOn(a + [sep] + b, sep) == [a] + SplitOn(b, sep)
  {
    var s := a + [sep] + b;
    if a == [] {
      assert s[0] == sep && s[1..] == b;
    } else {
      assert s[0] == a[0] && s[1..] == a[1..] + [sep] + b;
      SplitFirst(a[1..], sep, b);
      LongerHead(a, SplitOn(b, sep));
    }
  }

  lemma LongerHead(a: Str, rest: seq<Str>)
    requires a != []
    ensures [[a[0]] + ([a[1..]] + rest)[0]] + ([a[1..]] + rest)[1..] == [a] + rest
  {
    assert ([a[1..]] + rest)[1..] == rest && [a[0]] + a[1..] == a;
  }

  /**
   `lines`: split at newlines, a carriage return in front of one cut off; what follows the last newline is a line as
   it is, unless it is empty.
   */
  function Lines(text: Str): seq<Str> {
    var ps := SplitOn(text, NEWLINE);
    var last := ps[|ps| - 1];
    Stripped(ps[..|ps| - 1]) + if last == [] then [] else [last]
  }

  function StripReturn(l: Str): Str { if l != [] && l[|l| - 1] == RETURN then l[..|l| - 1] else l }

  function Stripped(ls: seq<Str>): seq<Str> {
    if ls == [] then [] else [StripReturn(ls[0])] + Stripped(ls[1..])
  }

  // ---------------------------------------------------------------- hexadecimal

  function HexDigit(n: nat): byte
    requires n < 16
  {
    if n < 10 then (48 + n) as byte else (87 + n) as byte
  }

  /** `hex`; an empty field becomes a dash so that it still is a token. */
  function Hex(s: Str): Str { if s == [] then [DASH] else HexPairs(s) }

  function HexPairs(s: Str): (r: Str)
    ensures |r| == 2 * |s|
  {
    if s == [] then [] else [HexDigit(s[0] as nat / 16), HexDigit(s[0] as nat % 16)] + HexPairs(s[1..])
  }

  function DigitOf(b: byte, radix: nat): Option<nat> {
    var v := if 48 <= b <= 57 then b as nat - 48 else if 97 <= b <= 122 then b as nat - 87 else if 65 <= b <= 90
      then b as nat - 55 else 36;
    if v < radix then Some(v) else None
  }

  /** `u8::from_str_radix` of two characters, base 16: a leading plus sign is allowed. */
  function PairOf(a: byte, b: byte): Option<byte> {
    var lo := DigitOf(b, 16);
    if a == PLUS then (if lo.Some? then Some(lo.value as byte) else None)
    else
      var hi := DigitOf(a, 16);
      if hi.Some? && lo.Some? then Some((16 * hi.value + lo.value) as byte) else None
  }

  function UnhexPairs(s: Str): Option<Str>
    requires |s| % 2 == 0
  {
    if s == [] then Some([])
    else
      var b, rest := PairOf(s[0], s[1]), UnhexPairs(s[2..]);
      if b.Some? && rest.Some? then Some([b.value] + rest.value) else None
  }

  /** `unhex_bytes`. */
  function Unhex(s: Str): Option<Str> {
    if s == [DASH] then Some([]) else if |s| % 2 != 0 then None else UnhexPairs(s)
  }

  lemma PairRoundTrip(b: byte)
    ensures PairOf(HexDigit(b as nat / 16), HexDigit(b as nat % 16)) == Some(b)
  {
    assert b as nat == 16 * (b as nat / 16) + b as nat % 16;
  }

  lemma {:induction false} PairsRoundTrip(s: Str)
    ensures UnhexPairs(HexPairs(s)) == Some(s)
  {
    if s != [] {
      PairRoundTrip(s[0]);
      PairsRoundTrip(s[1..]);
      assert HexPairs(s)[2..] == HexPairs(s[1..]);
      assert [s[0]] + s[1..] == s;
    }
  }

  lemma HexRoundTrip(s: Str)
    ensures Unhex(Hex(s)) == Some(s)
  {
    PairsRoundTrip(s);
  }

  /** Neither space nor line break. */
  ghost predicate Token(s: Str) { forall i :: 0 <= i < |s| ==> s[i] != SPACE && s[i] != NEWLINE && s[i] != RETURN }

  lemma {:induction false} HexToken(s: Str)
    ensures Token(HexPairs(s))
  {
    if s != [] { HexToken(s[1..]); }
  }

  // ---------------------------------------------------------------- decimal

  function Dec(n: nat): (r: Str)
    ensures r != [] && forall i :: 0 <= i < |r| ==> 48 <= r[i] <= 57
  {
    if n < 10 then [(48 + n) as byte] else Dec(n / 10) + [(48 + n % 10) as byte]
  }

  /** The value of a run of digits. */
  function Digits(s: Str): Option<nat> {
    if s == [] then Some(0)
    else
      var rest, d := Digits(s[..|s| - 1]), DigitOf(s[|s| - 1], 10);
      if rest.Some? && d.Some? then Some(10 * rest.value + d.value) else None
  }

  /** `parse::<u32>`: at least one digit, a leading plus sign allowed, and the value fits. */
  function ParseU32(s: Str): Option<nat> {
    var digits := if s != [] && s[0] == PLUS then s[1..] else s;
    if digits == [] then None
    else
      var v := Digits(digits);
      if v.Some? && v.value < TWO32 then v else None
  }

  lemma {:induction false} DecDigits(n: nat)
    ensures Digits(Dec(n)) == Some(n)
  {
    if n < 10 {
      assert Dec(n)[..0] == [];
    } else {
      DecDigits(n / 10);
      assert Dec(n)[..|Dec(n)| - 1] == Dec(n / 10);
    }
  }

  lemma DecRoundTrip(n: nat)
    requires n < TWO32
    ensures ParseU32(Dec(n)) == Some(n)
  {
    DecDigits(n);
  }

  // ---------------------------------------------------------------- lines

  /** Tokens separated by single spaces. */
  function Spaced(ts: seq<Str>): Str
    requires ts != []
  {
    if |ts| == 1 then ts[0] else ts[0] + [SPACE] + Spaced(ts[1..])
  }

  ghost predicate Tokens(ts: seq<Str>) { forall i :: 0 <= i < |ts| ==> Token(ts[i]) }

  lemma {:induction false} SplitSpaced(ts: seq<Str>)
    requires ts != [] && Tokens(ts)
    ensures SplitOn(Spaced(ts), SPACE) == ts && NEWLINE !in Spaced(ts) && RETURN !in Spaced(ts)
    decreases |ts|
  {
    assert Token(ts[0]);
    if |ts| == 1 {
      SplitNone(ts[0], SPACE);
    } else {
      SplitSpaced(ts[1..]);
      SplitFirst(ts[0], SPACE, Spaced(ts[1..]));
      assert [ts[0]] + ts[1..] == ts;
    }
  }

  const LETTER_K: Str := [75]
  const LETTER_O: Str := [79]
  const LETTER_V: Str := [86]

  /** The fields of a line of `serialize_hive`. */
  function Fields(r: Rec): (ts: seq<Str>)
    ensures ts != []
  {
    match r.act
    case Touch => [LETTER_K, Hex(r.path)]
    case SetOwner(uid) => [LETTER_O, Hex(r.path), Dec(uid)]
    case SetValue(n, v) => [LETTER_V, Hex(r.path), Hex(n), Dec(v.ty), Hex(v.data)]
  }

  function UnhexField(ts: seq<Str>, i: nat): Option<Str> { if i < |ts| then Unhex(ts[i]) else None }

  /** `unhex_string`: the bytes must be text. */
  function TextField(ts: seq<Str>, i: nat): Option<Str> {
    var b := UnhexField(ts, i);
    if b.Some? && Utf8.Valid(b.value) then b else None
  }

  function NumberField(ts: seq<Str>, i: nat): Option<nat> { if i < |ts| then ParseU32(ts[i]) else None }

  /** What `deserialize_hive` makes of a line; `None` is a line it skips. */
  function ParseFields(ts: seq<Str>): Option<Rec>
    requires ts != []
  {
    var p := TextField(ts, 1);
    if ts[0] == LETTER_K then (if p.Some? then Some(Rec(p.value, Touch)) else None)
    else if ts[0] == LETTER_O then
      var uid := NumberField(ts, 2);
      if p.Some? && uid.Some? then Some(Rec(p.value, SetOwner(uid.value))) else None
    else if ts[0] == LETTER_V then
      var n, ty, data := TextField(ts, 2), NumberField(ts, 3), UnhexField(ts, 4);
      if p.Some? && n.Some? && ty.Some?
        && data.Some? then Some(Rec(p.value, SetValue(n.value, Value(ty.value, data.value)))) else None
    else None
  }

  function ParseLine(line: Str): Option<Rec> { ParseFields(SplitOn(line, SPACE)) }

  /** The numbers of a record fit 32 bits, and its strings are text. */
  predicate Fits(r: Rec) {
    && Utf8.Valid(r.path)
    && match r.act
       case Touch => true
       case SetOwner(uid) => uid < TWO32
       case SetValue(n, v) => v.ty < TWO32 && Utf8.Valid(n)
  }

  lemma FieldsRoundTrip(r: Rec)
    requires Fits(r)
    ensures ParseFields(Fields(r)) == Some(r)
  {
    HexRoundTrip(r.path);
    match r.act {
      case Touch =>
      case SetOwner(uid) => DecRoundTrip(uid);
      case SetValue(n, v) =>
        HexRoundTrip(n);
        DecRoundTrip(v.ty);
        HexRoundTrip(v.data);
    }
  }

  lemma FieldsAreTokens(r: Rec)
    ensures Tokens(Fields(r))
  {
    HexToken(r.path);
    match r.act {
      case Touch =>
      case SetOwner(uid) =>
      case SetValue(n, v) =>
        HexToken(n);
        HexToken(v.data);
    }
  }

  /** A line, printed and parsed again. */
  lemma LineRoundTrip(r: Rec)
    requires Fits(r)
    ensures ParseLine(Spaced(Fields(r))) == Some(r) && NEWLINE !in Spaced(Fields(r)) && RETURN !in Spaced(Fields(r))
  {
    FieldsAreTokens(r);
    SplitSpaced(Fields(r));
    FieldsRoundTrip(r);
  }

  // ---------------------------------------------------------------- the file

  /** `thos-hive v1`. */
  const HEADER: Str := [116, 104, 111, 115, 45, 104, 105, 118, 101, 32, 118, 49]

  function Printed(recs: seq<Rec>): Str {
    if recs == [] then [] else Spaced(Fields(recs[0])) + [NEWLINE] + Printed(recs[1..])
  }

  /** `serialize_hive`. */
  function Serialize(k: Key): Str { HEADER + [NEWLINE] + Printed(Walk(k, [])) }

  /** The records of the lines that are not skipped. */
  function ParseLines(ls: seq<Str>): seq<Rec> {
    if ls == [] then []
    else
      var r := ParseLine(ls[0]);
      (if r.Some? then [r.value] else []) + ParseLines(ls[1..])
  }

  ghost predicate AllFit(recs: seq<Rec>) { forall i :: 0 <= i < |recs| ==> Fits(recs[i]) }

  function LinesOf(recs: seq<Rec>): seq<Str> {
    if recs == [] then [] else [Spaced(Fields(recs[0]))] + LinesOf(recs[1..])
  }

  lemma {:induction false} SplitPrinted(recs: seq<Rec>)
    requires AllFit(recs)
    ensures SplitOn(Printed(recs), NEWLINE) == LinesOf(recs) + [[]] && Stripped(LinesOf(recs)) == LinesOf(recs)
    decreases |recs|
  {
    if recs != [] {
      var l := Spaced(Fields(recs[0]));
      LineRoundTrip(recs[0]);
      SplitFirst(l, NEWLINE, Printed(recs[1..]));
      SplitPrinted(recs[1..]);
      ConcatAssoc([l], LinesOf(recs[1..]), [[]]);
      assert StripReturn(l) == l by { if l != [] { assert l[|l| - 1] in l; } }
      assert ([l] + LinesOf(recs[1..]))[1..] == LinesOf(recs[1..]);
    }
  }

  lemma {:induction false} ParsePrinted(recs: seq<Rec>)
    requires AllFit(recs)
    ensures ParseLines(LinesOf(recs)) == recs
    decreases |recs|
  {
    if recs != [] {
      LineRoundTrip(recs[0]);
      ParsePrinted(recs[1..]);
      assert LinesOf(recs)[1..] == LinesOf(recs[1..]);
      assert [recs[0]] + recs[1..] == recs;
    }
  }

  lemma HeaderSkipped()
    ensures ParseLine(HEADER).None? && NEWLINE !in HEADER && StripReturn(HEADER) == HEADER
  {
    var a: Str, b: Str := HEADER[..9], HEADER[10..];
    assert HEADER == a + [SPACE] + b;
    WordSkipped(a, b);
  }

  /** A line whose first word is not one letter is skipped. */
  lemma WordSkipped(a: Str, b: Str)
    requires SPACE !in a && |a| > 1
    ensures ParseLine(a + [SPACE] + b).None?
  {
    SplitFirst(a, SPACE, b);
  }

  /** A text whose every line is ended by a newline. */
  lemma LinesEnded(text: Str, ls: seq<Str>)
    requires SplitOn(text, NEWLINE) == ls + [[]]
    ensures Lines(text) == Stripped(ls)
  {
    assert (ls + [[]])[..|ls|] == ls && Stripped(ls) + [] == Stripped(ls);
  }

  /** The file, printed and split again, gives the header and the records. */
  lemma FileRecords(k: Key)
    requires AllFit(Walk(k, []))
    ensures ParseLines(Lines(Serialize(k))) == Walk(k, [])
  {
    var recs := Walk(k, []);
    HeaderSkipped();
    SplitFirst(HEADER, NEWLINE, Printed(recs));
    SplitPrinted(recs);
    var ls := [HEADER] + LinesOf(recs);
    assert SplitOn(Serialize(k), NEWLINE) == ls + [[]];
    LinesEnded(Serialize(k), ls);
    assert ls[1..] == LinesOf(recs);
    assert Stripped(ls) == ls;
    ParsePrinted(recs);
  }

  /** What loading a file does: nothing unless the whole file is text. */
  function Loaded(base: Key, text: Str): Key {
    if Utf8.Valid(text) then Run(base, Decoded(ParseLines(Lines(text)))) else base
  }

  /** `deserialize_hive`: line by line, find-or-create the key and change it. */
  method Deserialize(base: Key, text: Str) returns (k: Key)
    ensures k == Loaded(base, text)
  {
    k := base;
    if !Utf8.Valid(text) { return; }
    var ls := Lines(text);
    var i := 0;
    assert ls[0..] == ls;
    while i < |ls|
      invariant 0 <= i <= |ls|
      invariant Run(base, Decoded(ParseLines(ls))) == Run(k, Decoded(ParseLines(ls[i..])))
    {
      var r := ParseLine(ls[i]);
      assert ls[i..][1..] == ls[i + 1..];
      if r.Some? {
        ghost var rest := ParseLines(ls[i + 1..]);
        assert ([r.value] + rest)[1..] == rest;
        k := Modify(k, Components(r.value.path), LowerAct(r.value.act));
      } else {
        assert ParseLines(ls[i..]) == ParseLines(ls[i + 1..]);
      }
      i := i + 1;
    }
  }

  // ---------------------------------------------------------------- numbers fit, strings are text

  lemma {:induction false} ValuesFit(prefix: Str, vals: seq<Val>)
    requires Utf8.Valid(prefix) && forall i :: 0 <= i < |vals| ==> HeldVal(vals[i])
    ensures AllFit(ValueRecs(prefix, vals))
    decreases |vals|
  {
    if vals != [] {
      assert HeldVal(vals[|vals| - 1]);
      ValuesFit(prefix, vals[..|vals| - 1]);
    }
  }

  lemma ChildText(prefix: Str, n: Str)
    requires Utf8.Valid(prefix) && Utf8.Valid(n)
    ensures Utf8.Valid(ChildPath(prefix, n))
  {
    Utf8.AsciiValid([BACKSLASH]);
    Utf8.ValidConcat(prefix, [BACKSLASH]);
    Utf8.ValidConcat(prefix + [BACKSLASH], n);
  }

  lemma {:induction false} SubsFit(k: Key, prefix: Str, i: nat)
    requires Held(k) && Utf8.Valid(prefix) && i <= |k.subkeys|
    ensures AllFit(WalkSubs(k, prefix, i))
    decreases k, i
  {
    if i > 0 {
      var j: nat := i - 1;
      SubsFit(k, prefix, j);
      HeldSub(k, j);
      ChildText(prefix, k.subkeys[j].name);
      WalkFits(k.subkeys[j].key, ChildPath(prefix, k.subkeys[j].name));
    }
  }

  lemma {:induction false} WalkFits(k: Key, prefix: Str)
    requires Held(k) && Utf8.Valid(prefix)
    ensures AllFit(Walk(k, prefix))
    decreases k, |k.subkeys| + 1
  {
    ValuesFit(prefix, k.values);
    SubsFit(k, prefix, |k.subkeys|);
  }

  ghost predicate Ascii(s: Str) { forall i :: 0 <= i < |s| ==> s[i] < 0x80 }

  lemma {:induction false} HexAscii(s: Str)
    ensures Ascii(HexPairs(s))
  {
    if s != [] { HexAscii(s[1..]); }
  }

  lemma {:induction false} SpacedAscii(ts: seq<Str>)
    requires ts != [] && forall i :: 0 <= i < |ts| ==> Ascii(ts[i])
    ensures Ascii(Spaced(ts))
  {
    assert Ascii(ts[0]);
    if |ts| > 1 { SpacedAscii(ts[1..]); }
  }

  lemma FieldsAscii(r: Rec)
    ensures forall i :: 0 <= i < |Fields(r)| ==> Ascii(Fields(r)[i])
  {
    HexAscii(r.path);
    match r.act {
      case Touch =>
      case SetOwner(uid) =>
      case SetValue(n, v) =>
        HexAscii(n);
        HexAscii(v.data);
    }
  }

  lemma {:induction false} PrintedAscii(recs: seq<Rec>)
    ensures Ascii(Printed(recs))
  {
    if recs != [] {
      FieldsAscii(recs[0]);
      SpacedAscii(Fields(recs[0]));
      PrintedAscii(recs[1..]);
    }
  }

  /** A printed hive is text. */
  lemma SerializedText(k: Key)
    ensures Utf8.Valid(Serialize(k))
  {
    PrintedAscii(Walk(k, []));
    HeaderAscii();
    AsciiLines(HEADER, Printed(Walk(k, [])));
    Utf8.AsciiValid(Serialize(k));
  }

  lemma HeaderAscii()
    ensures Ascii(HEADER)
  {
    var h: Str := HEADER;
    assert |h| == 12;
  }

  lemma AsciiLines(a: Str, b: Str)
    requires Ascii(a) && Ascii(b)
    ensures Ascii(a + [NEWLINE] + b)
  {
  }

  /**
   The hive round trip: a hive written as text and parsed into an empty key comes back exactly - if and only if
   no direct child of its root is called `registry`.
   */
  lemma HiveRoundTrip(k: Key)
    requires Held(k) && Sorted(k)
    ensures Loaded(EMPTY, Serialize(k)) == k <==> !HasRegistryChild(k)
  {
    WalkFits(k, []);
    FileRecords(k);
    SerializedText(k);
    HiveRecords(k);
  }

  /** A hive that does not survive: one empty key called `registry`. */
  lemma RegistryKeyIsLost()
    ensures var k := Key([Entry(REGISTRY, EMPTY)], [], 0);
            Held(k) && Sorted(k) && Loaded(EMPTY, Serialize(k)) != k
  {
    RegistryIsNormal();
    OneKeyHeld(REGISTRY);
    HiveRoundTrip(Key([Entry(REGISTRY, EMPTY)], [], 0));
  }

  lemma OneKeyHeld(n: Str)
    requires HeldName(n)
    ensures var k := Key([Entry(n, EMPTY)], [], 0); Held(k) && Sorted(k) && (n == REGISTRY ==> HasRegistryChild(k))
  {
    var k := Key([Entry(n, EMPTY)], [], 0);
    assert Held(EMPTY) && Sorted(EMPTY);
    assert k.subkeys[0].name == n && k.subkeys[0].key == EMPTY;
  }

  lemma RegistryIsNormal()
    ensures HeldName(REGISTRY)
  {
    PlainWord(REGISTRY);
  }

  /** A word of lower-case letters is a name. */
  lemma PlainWord(s: Str)
    requires s != [] && forall i :: 0 <= i < |s| ==> 97 <= s[i] <= 122
    ensures HeldName(s)
  {
    LowerIs(s);
    Utf8.AsciiValid(s);
  }

  lemma {:induction false} LowerIs(s: Str)
    requires forall i :: 0 <= i < |s| ==> 97 <= s[i] <= 122
    ensures Lower(s) == s
  {
    if s != [] {
      LowerIs(s[1..]);
      assert [s[0]] + s[1..] == s;
    }
  }
}
