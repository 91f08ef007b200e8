/** Integers and text as bytes: little-endian words and well-formed UTF-8. */
module ByteCoding {
  import opened Prelude

  function Pow256(k: nat): nat {
    if k == 0 then 1 else 256 * Pow256(k - 1)
  }

  /** An unsigned number in `k` little-endian bytes. */
  function Le(n: nat, k: nat): (s: Bytes)
    ensures |s| == k
  {
    if k == 0 then [] else [n % 256] + Le(n / 256, k - 1)
  }

  function FromLe(s: Bytes): nat {
    if s == [] then 0 else s[0] + 256 * FromLe(s[1..])
  }

  lemma {:induction false} FromLeOfLe(n: nat, k: nat)
    requires n < Pow256(k)
    ensures FromLe(Le(n, k)) == n
    decreases k
  {
    if k > 0 {
      assert n / 256 < Pow256(k - 1);
      FromLeOfLe(n / 256, k - 1);
      assert Le(n, k)[1..] == Le(n / 256, k - 1);
    }
  }

  lemma {:induction false} LeOfFromLe(s: Bytes)
    ensures FromLe(s) < Pow256(|s|)
    ensures Le(FromLe(s), |s|) == s
    decreases |s|
  {
    if s != [] {
      LeOfFromLe(s[1..]);
      assert FromLe(s) / 256 == FromLe(s[1..]) && FromLe(s) % 256 == s[0];
    }
  }

  lemma Widths()
    ensures Pow256(2) == 0x1_0000
    ensures Pow256(4) == 0x1_0000_0000
    ensures Pow256(8) == 0x1_0000_0000_0000_0000
  {
    assert Pow256(1) == 256;
    assert Pow256(3) == 256 * Pow256(2);
    assert Pow256(5) == 256 * Pow256(4);
    assert Pow256(6) == 256 * Pow256(5);
    assert Pow256(7) == 256 * Pow256(6);
  }

  predicate FitsSigned(x: int, k: nat) {
    0 <= 2 * x + Pow256(k) < 2 * Pow256(k)
  }

  /** Two's complement in `k` little-endian bytes. */
  function Signed(x: int, k: nat): (s: Bytes)
    requires FitsSigned(x, k)
    ensures |s| == k
  {
    Le(if x < 0 then x + Pow256(k) else x, k)
  }

  function FromSigned(s: Bytes): int {
    var n := FromLe(s);
    if 2 * n >= Pow256(|s|) then n - Pow256(|s|) else n
  }

  lemma FromSignedOfSigned(x: int, k: nat)
    requires FitsSigned(x, k)
    ensures FromSigned(Signed(x, k)) == x
  {
    FromLeOfLe(if x < 0 then x + Pow256(k) else x, k);
  }

  lemma SignedOfFromSigned(s: Bytes)
    ensures FitsSigned(FromSigned(s), |s|)
    ensures Signed(FromSigned(s), |s|) == s
  {
    LeOfFromLe(s);
  }

  // ---- text ----------------------------------------------------------------

  predicate Continuation(b: Byte) {
    0x80 <= b < 0xC0
  }

  /** The length of the character a byte sequence starts with, or 0 when it
      does not start with one: no overlong forms, surrogates or values beyond
      the last code point. */
  function CharLength(s: Bytes): nat {
    if s == [] then 0
    else if s[0] < 0x80 then 1
    else if 0xC2 <= s[0] < 0xE0 then
      if |s| >= 2 && Continuation(s[1]) then 2 else 0
    else if 0xE0 <= s[0] < 0xF0 then
      if && |s| >= 3 && Continuation(s[1]) && Continuation(s[2])
         && (s[0] == 0xE0 ==> s[1] >= 0xA0) && (s[0] == 0xED ==> s[1] < 0xA0) then 3 else 0
    else if 0xF0 <= s[0] < 0xF5 then
      if && |s| >= 4 && Continuation(s[1]) && Continuation(s[2]) && Continuation(s[3])
         && (s[0] == 0xF0 ==> s[1] >= 0x90) && (s[0] == 0xF4 ==> s[1] < 0x90) then 4 else 0
    else 0
  }

  predicate IsUtf8(s: Bytes)
    decreases |s|
  {
    s == [] || (0 < CharLength(s) <= |s| && IsUtf8(s[CharLength(s)..]))
  }

  predicate IsAscii(s: Bytes) {
    forall i :: 0 <= i < |s| ==> s[i] < 0x80
  }

  lemma {:induction false} AsciiIsUtf8(s: Bytes)
    requires IsAscii(s)
    ensures IsUtf8(s)
    decreases |s|
  {
    if s != [] {
      AsciiIsUtf8(s[1..]);
    }
  }

  /** Appending plain ASCII neither completes nor spoils a text. */
  lemma {:induction false} AsciiSuffix(s: Bytes, tail: Bytes)
    requires IsAscii(tail) && tail != []
    ensures IsUtf8(s + tail) <==> IsUtf8(s)
    decreases |s|
  {
    if s == [] {
      assert s + tail == tail;
      AsciiIsUtf8(tail);
    } else {
      var n := CharLength(s);
      assert CharLength(s + tail) == n by {
        assert (s + tail)[|s|] == tail[0];
      }
      if n > 0 {
        assert (s + tail)[n..] == s[n..] + tail;
        AsciiSuffix(s[n..], tail);
      }
    }
  }

  lemma {:induction false} AsciiPrefix(s: Bytes, tail: Bytes)
    requires IsAscii(s)
    ensures IsUtf8(s + tail) <==> IsUtf8(tail)
    decreases |s|
  {
    if s == [] {
      assert s + tail == tail;
    } else {
      assert (s + tail)[1..] == s[1..] + tail;
      AsciiPrefix(s[1..], tail);
    }
  }
}
