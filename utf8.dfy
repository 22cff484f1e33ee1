/** UTF-8 as section 3 of RFC 3629 defines it, for the string payloads of packets.
    Text is a Dafny `string`, whose characters are Unicode scalar values.
    `Encode` is what Java's String.getBytes(UTF_8) produces; `Decode` is what
    new String(bytes, UTF_8) produces: it accepts every byte string and writes
    U+FFFD where the bytes are ill-formed, consuming what Java's decoder consumes.
    That is the maximal ill-formed subpart, except that a three-byte unit which
    decodes to a surrogate (ED A0..BF xx) is replaced by a single U+FFFD. */
module Utf8 {

  type byte = b: int | 0 <= b < 256

  /** U+FFFD REPLACEMENT CHARACTER. */
  const Replacement: char := '\U{FFFD}'

  /** A continuation byte 10xxxxxx. */
  predicate IsContinuation(b: byte)
  {
    0x80 <= b <= 0xBF
  }

  /** The encoding of one scalar value: 1 to 4 bytes, by the ranges of RFC 3629 section 3. */
  function EncodeChar(c: char): (bytes: seq<byte>)
    ensures 1 <= |bytes| <= 4
    ensures |bytes| == 1 <==> c as int < 0x80
  {
    var n := c as int;
    if n < 0x80 then [n]
    else if n < 0x800 then [0xC0 + n / 64, 0x80 + n % 64]
    else if n < 0x10000 then [0xE0 + n / 4096, 0x80 + (n / 64) % 64, 0x80 + n % 64]
    else [0xF0 + n / 262144, 0x80 + (n / 4096) % 64, 0x80 + (n / 64) % 64, 0x80 + n % 64]
  }

  /** The UTF-8 encoding of a text: each character's encoding, in order. */
  function Encode(s: string): (bytes: seq<byte>)
    ensures |s| <= |bytes| <= 4 * |s|
  {
    if s == [] then [] else EncodeChar(s[0]) + Encode(s[1..])
  }

  /** Decodes the character at the head of `b`: the character and how many bytes it
      took, or U+FFFD and the length of the maximal ill-formed subpart there. The
      allowed range of the second byte follows the table of RFC 3629 section 4, which
      excludes overlong forms and values above U+10FFFF; a three-byte unit that
      decodes to a surrogate is one ill-formed unit, as Java reads it. */
  function DecodeStep(b: seq<byte>): (r: (char, nat))
    requires |b| > 0
    ensures 1 <= r.1 <= |b| && r.1 <= 4
  {
    var b0: int := b[0];
    if b0 < 0x80 then (b0 as char, 1)
    else if 0xC2 <= b0 <= 0xDF then
      if |b| >= 2 && IsContinuation(b[1]) then (((b0 - 0xC0) * 64 + (b[1] as int - 0x80)) as char, 2)
      else (Replacement, 1)
    else if 0xE0 <= b0 <= 0xEF then
      var lo := if b0 == 0xE0 then 0xA0 else 0x80;
      if |b| >= 2 && lo <= b[1] <= 0xBF then
        if |b| >= 3 && IsContinuation(b[2]) then
          var n := (b0 - 0xE0) * 4096 + (b[1] as int - 0x80) * 64 + (b[2] as int - 0x80);
          if 0xD800 <= n <= 0xDFFF then (Replacement, 3) else (n as char, 3)
        else (Replacement, 2)
      else (Replacement, 1)
    else if 0xF0 <= b0 <= 0xF4 then
      var lo := if b0 == 0xF0 then 0x90 else 0x80;
      var hi := if b0 == 0xF4 then 0x8F else 0xBF;
      if |b| >= 2 && lo <= b[1] <= hi then
        if |b| >= 3 && IsContinuation(b[2]) then
          if |b| >= 4 && IsContinuation(b[3]) then
            (((b0 - 0xF0) * 262144 + (b[1] as int - 0x80) * 4096 + (b[2] as int - 0x80) * 64 + (b[3] as int - 0x80)) as char, 4)
          else (Replacement, 3)
        else (Replacement, 2)
      else (Replacement, 1)
    else (Replacement, 1)
  }

  /** The text a byte string decodes to; never longer than the byte string. */
  function Decode(b: seq<byte>): (s: string)
    ensures |s| <= |b|
    decreases |b|
  {
    if b == [] then []
    else
      var (c, n) := DecodeStep(b);
      [c] + Decode(b[n..])
  }

  lemma Split64(n: nat)
    ensures n == (n / 64) * 64 + n % 64
    ensures n / 4096 == (n / 64) / 64
    ensures n / 262144 == (n / 4096) / 64
  {
  }

  lemma DecodeTwoBytes(n: int, b: seq<byte>)
    requires 0x80 <= n < 0x800 && |b| >= 2
    requires b[0] == 0xC0 + n / 64 && b[1] == 0x80 + n % 64
    ensures 0xC2 <= b[0] <= 0xDF && IsContinuation(b[1])
    ensures (b[0] as int - 0xC0) * 64 + (b[1] as int - 0x80) == n
  {
    Split64(n);
  }

  lemma DecodeThreeBytes(n: int, b: seq<byte>)
    requires 0x800 <= n < 0x10000 && |b| >= 3
    requires b[0] == 0xE0 + n / 4096 && b[1] == 0x80 + (n / 64) % 64 && b[2] == 0x80 + n % 64
    ensures 0xE0 <= b[0] <= 0xEF && IsContinuation(b[1]) && IsContinuation(b[2])
    ensures b[0] == 0xE0 ==> b[1] >= 0xA0
    ensures (b[0] as int - 0xE0) * 4096 + (b[1] as int - 0x80) * 64 + (b[2] as int - 0x80) == n
  {
    Split64(n);
    Split64(n / 64);
  }

  lemma DecodeFourBytes(n: int, b: seq<byte>)
    requires 0x10000 <= n < 0x110000 && |b| >= 4
    requires b[0] == 0xF0 + n / 262144 && b[1] == 0x80 + (n / 4096) % 64
    requires b[2] == 0x80 + (n / 64) % 64 && b[3] == 0x80 + n % 64
    ensures 0xF0 <= b[0] <= 0xF4 && IsContinuation(b[1]) && IsContinuation(b[2]) && IsContinuation(b[3])
    ensures (b[0] as int - 0xF0) * 262144 + (b[1] as int - 0x80) * 4096 + (b[2] as int - 0x80) * 64 + (b[3] as int - 0x80) == n
  {
    Split64(n);
    Split64(n / 64);
    Split64(n / 4096);
  }

  /** Decoding the encoding of a character followed by anything reads back exactly
      that character and consumes exactly its encoding. */
  lemma DecodeStepEncodeChar(c: char, rest: seq<byte>)
    ensures DecodeStep(EncodeChar(c) + rest) == (c, |EncodeChar(c)|)
  {
    var n := c as int;
    var b := EncodeChar(c) + rest;
    if n < 0x80 {
    } else if n < 0x800 {
      DecodeTwoBytes(n, b);
    } else if n < 0x10000 {
      DecodeThreeBytes(n, b);
    } else {
      DecodeFourBytes(n, b);
    }
  }

  /** Round trip: decoding the UTF-8 encoding of a text gives the text back. */
  lemma {:induction false} DecodeEncode(s: string)
    ensures Decode(Encode(s)) == s
  {
    if s != [] {
      var head := EncodeChar(s[0]);
      var rest := Encode(s[1..]);
      DecodeStepEncodeChar(s[0], rest);
      assert (head + rest)[|head|..] == rest;
      DecodeEncode(s[1..]);
      assert s == [s[0]] + s[1..];
    }
  }

  /** Encoding is injective: two texts with the same encoding are the same text. */
  lemma EncodeInjective(s: string, t: string)
    requires Encode(s) == Encode(t)
    ensures s == t
  {
    DecodeEncode(s);
    DecodeEncode(t);
  }

  /** A character the decoder produces other than U+FFFD is exactly the decoding of
      the bytes it consumed: their encoding is those bytes. */
  lemma DecodeStepSound(b: seq<byte>)
    requires |b| > 0
    ensures DecodeStep(b).0 == Replacement || EncodeChar(DecodeStep(b).0) == b[..DecodeStep(b).1]
  {
    var (c, n) := DecodeStep(b);
    if c != Replacement {
      var b0: int := b[0];
      if b0 < 0x80 {
      } else if n == 2 {
        Recombine2(b0 - 0xC0, b[1] as int - 0x80);
      } else if n == 3 {
        Recombine3(b0 - 0xE0, b[1] as int - 0x80, b[2] as int - 0x80);
      } else {
        Recombine4(b0 - 0xF0, b[1] as int - 0x80, b[2] as int - 0x80, b[3] as int - 0x80);
      }
    }
  }

  lemma Recombine2(x: int, y: int)
    requires 2 <= x < 32 && 0 <= y < 64
    ensures 0x80 <= x * 64 + y < 0x800
    ensures (x * 64 + y) / 64 == x && (x * 64 + y) % 64 == y
  {
  }

  lemma Recombine3(x: int, y: int, z: int)
    requires 0 <= x < 16 && 0 <= y < 64 && 0 <= z < 64
    ensures (x * 4096 + y * 64 + z) / 4096 == x
    ensures ((x * 4096 + y * 64 + z) / 64) % 64 == y && (x * 4096 + y * 64 + z) % 64 == z
  {
    var n := x * 4096 + y * 64 + z;
    assert n == (x * 64 + y) * 64 + z;
    assert n / 64 == x * 64 + y;
  }

  lemma Recombine4(w: int, x: int, y: int, z: int)
    requires 0 <= w < 8 && 0 <= x < 64 && 0 <= y < 64 && 0 <= z < 64
    ensures (w * 262144 + x * 4096 + y * 64 + z) / 262144 == w
    ensures ((w * 262144 + x * 4096 + y * 64 + z) / 4096) % 64 == x
    ensures ((w * 262144 + x * 4096 + y * 64 + z) / 64) % 64 == y
    ensures (w * 262144 + x * 4096 + y * 64 + z) % 64 == z
  {
    var n := w * 262144 + x * 4096 + y * 64 + z;
    assert n == ((w * 64 + x) * 64 + y) * 64 + z;
    assert n / 64 == (w * 64 + x) * 64 + y;
    assert n / 4096 == w * 64 + x;
  }

  /** An encoded surrogate (ED A0..BF followed by a continuation byte), which no
      text encodes to, reads as one U+FFFD for the three bytes. */
  lemma DecodeEncodedSurrogate(b1: byte, b2: byte, rest: seq<byte>)
    requires 0xA0 <= b1 <= 0xBF && IsContinuation(b2)
    ensures Decode([0xED, b1, b2] + rest) == [Replacement] + Decode(rest)
  {
    var b := [0xED, b1, b2] + rest;
    assert DecodeStep(b) == (Replacement, 3);
    assert b[3..] == rest;
  }

  /** A lone continuation byte reads as one U+FFFD and consumes only itself. */
  lemma DecodeLoneContinuation(b0: byte, rest: seq<byte>)
    requires IsContinuation(b0)
    ensures Decode([b0] + rest) == [Replacement] + Decode(rest)
  {
    var b := [b0] + rest;
    assert b[1..] == rest;
  }
}
