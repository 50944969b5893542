/**
 * The UTF-8 encoding of a string, as bcryptjs applies it to a password
 * before hashing. A character is a Unicode scalar value; bytes are
 * integers in 0..255.
 */
module Utf8 {
  /** The number of bytes a sequence starting with lead byte `b` has. */
  function LeadLength(b: int): nat {
    if b < 0x80 then 1 else if b < 0xE0 then 2 else if b < 0xF0 then 3 else 4
  }

  predicate IsContinuation(b: int) {
    0x80 <= b < 0xC0
  }

  /** The bytes of one character. */
  function EncodeChar(c: char): (b: seq<int>)
    ensures 1 <= |b| <= 4
    ensures |b| == LeadLength(b[0])
    ensures 0 <= b[0] < 0xF8
    ensures forall i :: 1 <= i < |b| ==> IsContinuation(b[i])
    ensures b[0] == 0 ==> c == '\0'
  {
    var n := c as int;
    if n < 0x80 then [n]
    else if n < 0x800 then [0xC0 + n / 64, 0x80 + n % 64]
    else if n < 0x10000 then [0xE0 + n / 4096, 0x80 + (n / 64) % 64, 0x80 + n % 64]
    else [0xF0 + n / 262144, 0x80 + (n / 4096) % 64, 0x80 + (n / 64) % 64, 0x80 + n % 64]
  }

  /** The code point a well-formed byte group stands for. */
  function DecodeGroup(b: seq<int>): int
    requires 1 <= |b| <= 4
  {
    if |b| == 1 then b[0]
    else if |b| == 2 then (b[0] - 0xC0) * 64 + (b[1] - 0x80)
    else if |b| == 3 then (b[0] - 0xE0) * 4096 + (b[1] - 0x80) * 64 + (b[2] - 0x80)
    else (b[0] - 0xF0) * 262144 + (b[1] - 0x80) * 4096 + (b[2] - 0x80) * 64 + (b[3] - 0x80)
  }

  lemma DivModSplit(n: nat, d: nat)
    requires d > 0
    ensures n == (n / d) * d + n % d
  {
  }

  /** Decoding a character's bytes gives the character back. */
  lemma DecodeEncodeChar(c: char)
    ensures DecodeGroup(EncodeChar(c)) == c as int
  {
    var n := c as int;
    DivModSplit(n, 64);
    if n >= 0x800 {
      DivModSplit(n / 64, 64);
      assert (n / 64) / 64 == n / 4096;
      if n >= 0x10000 {
        DivModSplit(n / 4096, 64);
        assert (n / 4096) / 64 == n / 262144;
      }
    }
  }

  lemma EncodeCharInjective(c: char, d: char)
    requires EncodeChar(c) == EncodeChar(d)
    ensures c == d
  {
    DecodeEncodeChar(c);
    DecodeEncodeChar(d);
  }

  /** The bytes of a string, character by character. */
  function Encode(s: string): (b: seq<int>)
    ensures s == [] <==> b == []
  {
    if s == [] then [] else EncodeChar(s[0]) + Encode(s[1..])
  }

  lemma {:induction false} EncodeAppend(s: string, t: string)
    ensures Encode(s + t) == Encode(s) + Encode(t)
  {
    if s != [] {
      assert (s + t)[0] == s[0];
      assert (s + t)[1..] == s[1..] + t;
      EncodeAppend(s[1..], t);
    } else {
      assert s + t == t;
    }
  }

  /** Different strings have different encodings. */
  lemma {:induction false} EncodeInjective(s: string, t: string)
    requires Encode(s) == Encode(t)
    ensures s == t
  {
    if s != [] {
      var b := Encode(s);
      var k := |EncodeChar(s[0])|;
      assert t != [];
      assert b[0] == EncodeChar(s[0])[0] == EncodeChar(t[0])[0];
      assert |EncodeChar(t[0])| == k;
      assert EncodeChar(s[0]) == b[..k] == EncodeChar(t[0]);
      EncodeCharInjective(s[0], t[0]);
      assert Encode(s[1..]) == b[k..] == Encode(t[1..]);
      EncodeInjective(s[1..], t[1..]);
      assert s == [s[0]] + s[1..];
      assert t == [t[0]] + t[1..];
    }
  }

  predicate NoNul(s: string) {
    forall i :: 0 <= i < |s| ==> s[i] != '\0'
  }

  predicate Ascii(s: string) {
    forall i :: 0 <= i < |s| ==> s[i] as int < 0x80
  }

  /** Only the NUL character is encoded with a zero byte. */
  lemma {:induction false} NoNulNoZeroByte(s: string)
    requires NoNul(s)
    ensures forall i :: 0 <= i < |Encode(s)| ==> Encode(s)[i] != 0
  {
    if s != [] {
      assert NoNul(s[1..]);
      NoNulNoZeroByte(s[1..]);
      var head := EncodeChar(s[0]);
      forall i | 0 <= i < |Encode(s)|
        ensures Encode(s)[i] != 0
      {
        if i >= |head| {
          assert Encode(s)[i] == Encode(s[1..])[i - |head|];
        }
      }
    }
  }

  /** An ASCII string takes one byte per character. */
  lemma {:induction false} AsciiLength(s: string)
    requires Ascii(s)
    ensures |Encode(s)| == |s|
  {
    if s != [] {
      assert Ascii(s[1..]);
      AsciiLength(s[1..]);
    }
  }
}
