/** Text as the standard has it: UTF-8 is the encoding of code points, and a byte
    string is accepted exactly when some text encodes to it. */
module Utf8 {
  import opened Prelude
  import opened ByteCoding

  /** Unicode scalar values: code points without the surrogates. */
  predicate IsScalar(c: int) {
    0 <= c <= 0x10FFFF && !(0xD800 <= c <= 0xDFFF)
  }

  type Scalar = c: int | IsScalar(c)

  /** A byte that continues a character carries six bits of it. */
  function Trail(bits: int): Byte {
    0x80 + bits % 0x40
  }

  /** Table 3-6 of the Unicode standard, by arithmetic on the code point. */
  function Encode(c: Scalar): (s: Bytes)
    ensures 1 <= |s| <= 4
  {
    assert IsScalar(c);
    if c < 0x80 then
      var lead: Byte := c;
      [lead]
    else if c < 0x800 then
      var lead: Byte := 0xC0 + c / 0x40;
      [lead, Trail(c)]
    else if c < 0x10000 then
      var lead: Byte := 0xE0 + c / 0x1000;
      [lead, Trail(c / 0x40), Trail(c)]
    else
      var lead: Byte := 0xF0 + c / 0x40000;
      [lead, Trail(c / 0x1000), Trail(c / 0x40), Trail(c)]
  }

  function EncodeAll(text: seq<Scalar>): Bytes {
    if text == [] then [] else Encode(text[0]) + EncodeAll(text[1..])
  }

  // ---- one character -------------------------------------------------------

  /** Digits to the base of 64. */
  lemma Digits2(a: int, b: int)
    requires 0 <= b < 0x40
    ensures (a * 0x40 + b) / 0x40 == a && (a * 0x40 + b) % 0x40 == b
  {}

  lemma Digits3(a: int, b: int, d: int)
    requires 0 <= b < 0x40 && 0 <= d < 0x40
    ensures var c := a * 0x1000 + b * 0x40 + d;
            c / 0x1000 == a && c / 0x40 % 0x40 == b && c % 0x40 == d
  {
    var c := a * 0x1000 + b * 0x40 + d;
    Digits2(a * 0x40 + b, d);
    assert c == (a * 0x40 + b) * 0x40 + d;
    Digits2(a, b);
  }

  lemma Digits4(a: int, b: int, d: int, e: int)
    requires 0 <= b < 0x40 && 0 <= d < 0x40 && 0 <= e < 0x40
    ensures var c := a * 0x40000 + b * 0x1000 + d * 0x40 + e;
            c / 0x40000 == a && c / 0x1000 % 0x40 == b && c / 0x40 % 0x40 == d && c % 0x40 == e
  {
    var c := a * 0x40000 + b * 0x1000 + d * 0x40 + e;
    Digits2((a * 0x40 + b) * 0x40 + d, e);
    assert c == ((a * 0x40 + b) * 0x40 + d) * 0x40 + e;
    Digits3(a, b, d);
  }

  /** What a byte string of one character stands for. */
  function CodePoint(s: Bytes): int
    requires 1 <= |s| <= 4
  {
    if |s| == 1 then s[0] as int
    else if |s| == 2 then (s[0] as int - 0xC0) * 0x40 + Bits(s[1])
    else if |s| == 3 then (s[0] as int - 0xE0) * 0x1000 + Bits(s[1]) * 0x40 + Bits(s[2])
    else (s[0] as int - 0xF0) * 0x40000 + Bits(s[1]) * 0x1000 + Bits(s[2]) * 0x40 + Bits(s[3])
  }

  function Bits(b: Byte): int {
    b as int - 0x80
  }

  lemma EncodedStarts(c: Scalar)
    ensures CharLength(Encode(c)) == |Encode(c)|
  {
    assert IsScalar(c);
    if 0x800 <= c < 0x10000 {
      assert c / 0x40 == c / 0x1000 * 0x40 + c / 0x40 % 0x40;
    } else if 0x10000 <= c {
      assert c / 0x1000 == c / 0x40000 * 0x40 + c / 0x1000 % 0x40;
    }
  }

  /** A character is seen from its own bytes, whatever follows. */
  lemma LengthFromFront(s: Bytes, rest: Bytes)
    requires CharLength(s) == |s| > 0
    ensures CharLength(s + rest) == |s|
  {
    assert forall i :: 0 <= i < |s| ==> (s + rest)[i] == s[i];
  }

  lemma EncodedIsChar(c: Scalar, rest: Bytes)
    ensures CharLength(Encode(c) + rest) == |Encode(c)|
  {
    EncodedStarts(c);
    LengthFromFront(Encode(c), rest);
  }

  lemma PairIsEncoded(s: Bytes)
    requires |s| == 2 && CharLength(s) == 2
    ensures IsScalar(CodePoint(s)) && Encode(CodePoint(s)) == s
  {
    Digits2(s[0] as int - 0xC0, Bits(s[1]));
  }

  lemma TripleIsEncoded(s: Bytes)
    requires |s| == 3 && CharLength(s) == 3
    ensures IsScalar(CodePoint(s)) && Encode(CodePoint(s)) == s
  {
    Digits3(s[0] as int - 0xE0, Bits(s[1]), Bits(s[2]));
  }

  lemma QuadIsEncoded(s: Bytes)
    requires |s| == 4 && CharLength(s) == 4
    ensures IsScalar(CodePoint(s)) && Encode(CodePoint(s)) == s
  {
    Digits4(s[0] as int - 0xF0, Bits(s[1]), Bits(s[2]), Bits(s[3]));
  }

  lemma CharIsEncoded(s: Bytes)
    requires CharLength(s) == |s| > 0
    ensures |s| <= 4 && IsScalar(CodePoint(s)) && Encode(CodePoint(s)) == s
  {
    if |s| == 2 {
      PairIsEncoded(s);
    } else if |s| == 3 {
      TripleIsEncoded(s);
    } else if |s| == 4 {
      QuadIsEncoded(s);
    }
  }

  lemma FrontIsChar(s: Bytes)
    requires CharLength(s) > 0
    ensures CharLength(s) <= |s| && CharLength(s[..CharLength(s)]) == CharLength(s)
  {}

  // ---- whole texts ---------------------------------------------------------

  lemma {:induction false} EncodedIsUtf8(text: seq<Scalar>)
    ensures IsUtf8(EncodeAll(text))
    decreases |text|
  {
    if text != [] {
      var head, tail := Encode(text[0]), EncodeAll(text[1..]);
      EncodedIsChar(text[0], tail);
      assert (head + tail)[|head|..] == tail;
      EncodedIsUtf8(text[1..]);
    }
  }

  lemma {:induction false} Utf8IsEncoded(s: Bytes) returns (text: seq<Scalar>)
    requires IsUtf8(s)
    ensures s == EncodeAll(text)
    decreases |s|
  {
    if s == [] {
      text := [];
    } else {
      var n := CharLength(s);
      FrontIsChar(s);
      CharIsEncoded(s[..n]);
      var rest := Utf8IsEncoded(s[n..]);
      text := [CodePoint(s[..n])] + rest;
      assert text[1..] == rest && s == s[..n] + s[n..];
    }
  }

  /** The encoding of some text. */
  ghost predicate IsText(s: Bytes) {
    exists text: seq<Scalar> :: s == EncodeAll(text)
  }

  /** The decoders' test for text is exact. */
  lemma TextExactlyWhen(s: Bytes)
    ensures IsUtf8(s) <==> IsText(s)
  {
    if IsUtf8(s) {
      var text := Utf8IsEncoded(s);
    }
    if text: seq<Scalar> :| s == EncodeAll(text) {
      EncodedIsUtf8(text);
    }
  }

  /** A cut through a text leaves text exactly when it falls between two of its
      characters. */
  lemma CutIsText(text: seq<Scalar>, n: nat)
    requires n <= |EncodeAll(text)|
    ensures IsUtf8(EncodeAll(text)[..n]) <==>
            exists k :: 0 <= k <= |text| && EncodeAll(text)[..n] == EncodeAll(text[..k])
  {
    var s := EncodeAll(text);
    if IsUtf8(s[..n]) {
      var k := CutBetween(text, n);
    }
    if k :| 0 <= k <= |text| && s[..n] == EncodeAll(text[..k]) {
      EncodedIsUtf8(text[..k]);
    }
  }

  lemma {:induction false} CutBetween(text: seq<Scalar>, n: nat) returns (k: nat)
    requires n <= |EncodeAll(text)| && IsUtf8(EncodeAll(text)[..n])
    ensures k <= |text| && EncodeAll(text)[..n] == EncodeAll(text[..k])
    decreases |text|
  {
    if n == 0 {
      k := 0;
    } else {
      var head, tail := Encode(text[0]), EncodeAll(text[1..]);
      FirstSurvivesCut(text[0], tail, n);
      CutBehind(head, tail, n);
      var more := CutBetween(text[1..], n - |head|);
      k := more + 1;
      assert text[..k][1..] == text[1..][..more];
    }
  }

  lemma CutBehind(head: Bytes, tail: Bytes, n: nat)
    requires |head| <= n <= |head + tail|
    ensures (head + tail)[..n] == head + tail[..n - |head|]
    ensures (head + tail)[..n][|head|..] == tail[..n - |head|]
  {}

  /** What is left of a character by a cut is no character. */
  lemma FirstSurvivesCut(c: Scalar, tail: Bytes, n: nat)
    requires 0 < n <= |Encode(c) + tail| && CharLength((Encode(c) + tail)[..n]) > 0
    ensures CharLength((Encode(c) + tail)[..n]) == |Encode(c)| <= n
  {
    var s := Encode(c) + tail;
    EncodedIsChar(c, tail);
    FrontIsChar(s[..n]);
    assert forall i :: 0 <= i < n ==> s[..n][i] == s[i];
  }
}
