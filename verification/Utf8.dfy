/** Well-formed UTF-8, as `from_utf8` accepts it: table 3-7 of the Unicode standard. */
module Utf8 {
  import opened Common

  predicate Tail(b: byte) { 0x80 <= b <= 0xBF }

  /** The second byte allowed after the first. */
  predicate Second(a: byte, b: byte) {
    if a == 0xE0 then 0xA0 <= b <= 0xBF
    else if a == 0xED then 0x80 <= b <= 0x9F
    else if a == 0xF0 then 0x90 <= b <= 0xBF
    else if a == 0xF4 then 0x80 <= b <= 0x8F
    else Tail(b)
  }

  /** How long a character starting with this byte is; 0 for a byte that starts none. */
  function Width(a: byte): nat {
    if a < 0x80 then 1
    else if a < 0xC2 then 0
    else if a < 0xE0 then 2
    else if a < 0xF0 then 3
    else if a < 0xF5 then 4
    else 0
  }

  /** The length of the character at the front; 0 if there is none. */
  function CharLen(s: seq<byte>): (n: nat)
    ensures n <= |s|
  {
    if s == [] then 0
    else
      var n := Width(s[0]);
      if n > |s| then 0
      else if n >= 2 && !Second(s[0], s[1]) then 0
      else if n >= 3 && !Tail(s[2]) then 0
      else if n >= 4 && !Tail(s[3]) then 0
      else n
  }

  predicate Valid(s: seq<byte>) { s == [] || (CharLen(s) > 0 && Valid(s[CharLen(s)..])) }

  /** A character is one whatever follows it. */
  lemma CharLenConcat(a: seq<byte>, b: seq<byte>)
    requires CharLen(a) > 0
    ensures CharLen(a + b) == CharLen(a)
  {
  }

  lemma {:induction false} ValidConcat(a: seq<byte>, b: seq<byte>)
    requires Valid(a) && Valid(b)
    ensures Valid(a + b)
  {
    if a == [] {
      assert a + b == b;
    } else {
      var n := CharLen(a);
      CharLenConcat(a, b);
      ValidConcat(a[n..], b);
      assert (a + b)[n..] == a[n..] + b;
    }
  }

  lemma {:induction false} AsciiValid(s: seq<byte>)
    requires forall i :: 0 <= i < |s| ==> s[i] < 0x80
    ensures Valid(s)
  {
    if s != [] { AsciiValid(s[1..]); }
  }

  /** The bytes of a character after its first are no ASCII. */
  lemma CharTail(s: seq<byte>, i: nat)
    requires 0 < i < CharLen(s)
    ensures s[i] >= 0x80 && s[0] >= 0x80
  {
  }

  /** The front character by itself. */
  lemma CharAlone(s: seq<byte>)
    requires CharLen(s) > 0
    ensures CharLen(s[..CharLen(s)]) == CharLen(s) && Valid(s[..CharLen(s)])
  {
    var n := CharLen(s);
    var c := s[..n];
    assert CharLen(c) == n;
    assert c[n..] == [];
  }

  // ---------------------------------------------------------------- characters

  /** A Unicode scalar value: no surrogate. */
  predicate Scalar(c: nat) { c < 0xD800 || 0xE000 <= c < 0x110000 }

  /** The bytes of a character: its number in groups of six bits behind a lead byte that tells how many. */
  function Encode(c: nat): seq<byte>
    requires Scalar(c)
  {
    if c < 0x80 then [c as byte]
    else if c < 0x800 then [(0xC0 + c / 0x40) as byte, (0x80 + c % 0x40) as byte]
    else if c < 0x10000 then [(0xE0 + c / 0x1000) as byte, (0x80 + c / 0x40 % 0x40) as byte, (0x80 + c % 0x40) as byte]
    else [(0xF0 + c / 0x40000) as byte, (0x80 + c / 0x1000 % 0x40) as byte, (0x80 + c / 0x40 % 0x40) as byte,
          (0x80 + c % 0x40) as byte]
  }

  ghost predicate AllScalar(cs: seq<nat>) { forall i :: 0 <= i < |cs| ==> Scalar(cs[i]) }

  function EncodeAll(cs: seq<nat>): seq<byte>
    requires AllScalar(cs)
  {
    if cs == [] then [] else Encode(cs[0]) + EncodeAll(cs[1..])
  }

  lemma EncodedIsChar(c: nat)
    requires Scalar(c)
    ensures CharLen(Encode(c)) == |Encode(c)| > 0
  {
  }

  /** Every well-formed character is the encoding of a scalar value. */
  lemma CharIsEncoded(s: seq<byte>) returns (c: nat)
    requires CharLen(s) > 0
    ensures Scalar(c) && s[..CharLen(s)] == Encode(c)
  {
    match CharLen(s)
    case 1 => c := s[0] as nat;
    case 2 => c := TwoBytes(s[0], s[1]); assert s[..2] == [s[0], s[1]];
    case 3 => c := ThreeBytes(s[0], s[1], s[2]); assert s[..3] == [s[0], s[1], s[2]];
    case _ => c := FourBytes(s[0], s[1], s[2], s[3]); assert s[..4] == [s[0], s[1], s[2], s[3]];
  }

  lemma TwoBytes(a: byte, b: byte) returns (c: nat)
    requires 0xC2 <= a < 0xE0 && Tail(b)
    ensures Scalar(c) && Encode(c) == [a, b]
  {
    c := (a as nat - 0xC0) * 0x40 + (b as nat - 0x80);
  }

  lemma ThreeBytes(a: byte, b: byte, d: byte) returns (c: nat)
    requires 0xE0 <= a < 0xF0 && Second(a, b) && Tail(d)
    ensures Scalar(c) && Encode(c) == [a, b, d]
  {
    var hi := (a as nat - 0xE0) * 0x40 + (b as nat - 0x80);
    c := hi * 0x40 + (d as nat - 0x80);
    assert c / 0x40 == hi;
  }

  lemma FourBytes(a: byte, b: byte, d: byte, e: byte) returns (c: nat)
    requires 0xF0 <= a < 0xF5 && Second(a, b) && Tail(d) && Tail(e)
    ensures Scalar(c) && Encode(c) == [a, b, d, e]
  {
    var top := (a as nat - 0xF0) * 0x40 + (b as nat - 0x80);
    var hi := top * 0x40 + (d as nat - 0x80);
    c := hi * 0x40 + (e as nat - 0x80);
    assert c / 0x40 == hi && hi / 0x40 == top;
    assert c / 0x1000 == top;
  }

  lemma {:induction false} EncodedValid(cs: seq<nat>)
    requires AllScalar(cs)
    ensures Valid(EncodeAll(cs))
  {
    if cs != [] {
      var c := Encode(cs[0]);
      EncodedIsChar(cs[0]);
      CharLenConcat(c, EncodeAll(cs[1..]));
      EncodedValid(cs[1..]);
      assert EncodeAll(cs)[|c|..] == EncodeAll(cs[1..]);
    }
  }

  lemma {:induction false} ValidEncoded(s: seq<byte>) returns (cs: seq<nat>)
    requires Valid(s)
    ensures AllScalar(cs) && EncodeAll(cs) == s
  {
    if s == [] {
      cs := [];
    } else {
      var n := CharLen(s);
      var c := CharIsEncoded(s);
      var rest := ValidEncoded(s[n..]);
      cs := [c] + rest;
      assert cs[1..] == rest && s[..n] + s[n..] == s;
    }
  }

  /** A byte string is well formed exactly when it is the encoding of some characters. */
  lemma ValidExactly(s: seq<byte>)
    ensures Valid(s) <==> exists cs :: AllScalar(cs) && EncodeAll(cs) == s
  {
    if Valid(s) { var cs := ValidEncoded(s); }
    if cs :| AllScalar(cs) && EncodeAll(cs) == s { EncodedValid(cs); }
  }
}
