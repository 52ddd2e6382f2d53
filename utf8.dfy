/** UTF-8, the encoding in which the password hasher reads a password. */
module Utf8 {

  type Byte = x: int | 0 <= x < 256

  /** How many bytes a character's encoding has, read from its first byte. */
  function LeadLength(b: Byte): nat
  {
    if b < 0x80 then 1 else if b < 0xE0 then 2 else if b < 0xF0 then 3 else 4
  }

  /** The UTF-8 bytes of one character: one byte below U+0080, then two,
      three or four, each continuation byte carrying six bits. */
  function EncodeChar(c: char): (bytes: seq<Byte>)
    ensures 1 <= |bytes| <= 4
    ensures |bytes| == LeadLength(bytes[0])
    ensures (bytes[0] == 0) <==> c == '\0'
    ensures forall i :: 1 <= i < |bytes| ==> 0x80 <= bytes[i] < 0xC0
  {
    var cp := c as int;
    if cp < 0x80 then [cp]
    else if cp < 0x800 then [0xC0 + cp / 64, 0x80 + cp % 64]
    else if cp < 0x10000 then [0xE0 + cp / 64 / 64, 0x80 + cp / 64 % 64, 0x80 + cp % 64]
    else [0xF0 + cp / 64 / 64 / 64, 0x80 + cp / 64 / 64 % 64, 0x80 + cp / 64 % 64, 0x80 + cp % 64]
  }

  /** The six payload bits of continuation byte `i`, or 0 past the end. */
  function Continuation(bytes: seq<Byte>, i: nat): int
  {
    if i < |bytes| then bytes[i] as int - 0x80 else 0
  }

  /** The code point the bytes of one character stand for. */
  function DecodeChar(bytes: seq<Byte>): int
    requires 1 <= |bytes| <= 4
  {
    var b0, b1, b2, b3 := bytes[0] as int, Continuation(bytes, 1), Continuation(bytes, 2), Continuation(bytes, 3);
    if |bytes| == 1 then b0
    else if |bytes| == 2 then (b0 - 0xC0) * 64 + b1
    else if |bytes| == 3 then (b0 - 0xE0) * 4096 + b1 * 64 + b2
    else (b0 - 0xF0) * 262144 + b1 * 4096 + b2 * 64 + b3
  }

  /** Decoding a character's bytes gives the character back. */
  lemma DecodeEncodeChar(c: char)
    ensures DecodeChar(EncodeChar(c)) == c as int
  {
    var cp := c as int;
    if 0x800 <= cp < 0x10000 {
      ThreeByteSplit(cp);
    } else if 0x10000 <= cp {
      FourByteSplit(cp);
    }
  }

  lemma ThreeByteSplit(cp: nat)
    ensures cp / 64 / 64 * 4096 + cp / 64 % 64 * 64 + cp % 64 == cp
  {
    var a := cp / 64;
    assert cp == a * 64 + cp % 64;
    assert a == a / 64 * 64 + a % 64;
  }

  lemma FourByteSplit(cp: nat)
    ensures cp / 64 / 64 / 64 * 262144 + cp / 64 / 64 % 64 * 4096 + cp / 64 % 64 * 64 + cp % 64 == cp
  {
    var b := cp / 64 / 64;
    assert b == b / 64 * 64 + b % 64;
    ThreeByteSplit(cp);
  }

  /** The UTF-8 bytes of a string. */
  function Encode(s: string): (bytes: seq<Byte>)
    ensures |bytes| >= |s|
    ensures s != [] ==> bytes == EncodeChar(s[0]) + Encode(s[1..])
  {
    if s == [] then [] else EncodeChar(s[0]) + Encode(s[1..])
  }

  /** Different strings have different encodings. */
  lemma {:induction false} EncodeInjective(s: string, t: string)
    requires Encode(s) == Encode(t)
    ensures s == t
    decreases |s|
  {
    if s != [] {
      var es, et := EncodeChar(s[0]), EncodeChar(t[0]);
      assert Encode(s)[0] == es[0] && Encode(t)[0] == et[0];
      assert |es| == |et|;
      assert es == Encode(s)[..|es|] && et == Encode(t)[..|et|];
      DecodeEncodeChar(s[0]);
      DecodeEncodeChar(t[0]);
      assert Encode(s[1..]) == Encode(s)[|es|..] == Encode(t)[|et|..] == Encode(t[1..]);
      EncodeInjective(s[1..], t[1..]);
      assert s == [s[0]] + s[1..] && t == [t[0]] + t[1..];
    }
  }

  /** Encoding a concatenation concatenates the encodings. */
  lemma {:induction false} EncodeAppend(s: string, t: string)
    ensures Encode(s + t) == Encode(s) + Encode(t)
    decreases |s|
  {
    if s == [] {
      assert s + t == t;
    } else {
      var u := s + t;
      assert u[0] == s[0] && u[1..] == s[1..] + t;
      EncodeAppend(s[1..], t);
      calc {
        Encode(u);
        EncodeChar(s[0]) + Encode(s[1..] + t);
        EncodeChar(s[0]) + (Encode(s[1..]) + Encode(t));
        (EncodeChar(s[0]) + Encode(s[1..])) + Encode(t);
      }
    }
  }

  /** A string holding U+0000 has a zero byte in its encoding, where the
      character sits. */
  lemma NulEncodesToZero(s: string, k: nat)
    requires k < |s| && s[k] == '\0'
    ensures |Encode(s[..k])| < |Encode(s)| && Encode(s)[|Encode(s[..k])|] == 0
  {
    var rest := s[k..];
    assert s == s[..k] + rest;
    EncodeAppend(s[..k], rest);
    assert Encode(rest)[0] == EncodeChar(rest[0])[0] == 0;
  }

  /** Only the NUL character encodes to a zero byte. */
  lemma {:induction false} NoZeroByte(s: string)
    requires forall i :: 0 <= i < |s| ==> s[i] != '\0'
    ensures forall i :: 0 <= i < |Encode(s)| ==> Encode(s)[i] != 0
    decreases |s|
  {
    if s != [] {
      NoZeroByte(s[1..]);
      var es := EncodeChar(s[0]);
      forall i | 0 <= i < |Encode(s)|
        ensures Encode(s)[i] != 0
      {
        if i >= |es| {
          assert Encode(s)[i] == Encode(s[1..])[i - |es|];
        }
      }
    }
  }

  /** A string of characters below U+0080 encodes to one byte per character,
      the character's own code. */
  lemma {:induction false} AsciiEncode(s: string)
    requires forall i :: 0 <= i < |s| ==> s[i] as int < 0x80
    ensures |Encode(s)| == |s|
    ensures forall i :: 0 <= i < |s| ==> Encode(s)[i] == s[i] as int
    decreases |s|
  {
    if s != [] {
      AsciiEncode(s[1..]);
      forall i | 1 <= i < |s|
        ensures Encode(s)[i] == s[i] as int
      {
        assert s[1..][i - 1] == s[i];
      }
    }
  }
}
