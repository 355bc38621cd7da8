/**
  The byte-level encodings the admin session relies on, as Node's `Buffer`
  performs them: text to bytes and back (UTF-8, RFC 3629), bytes to
  lower-case hex and back, and bytes to unpadded base64url (section 5 of
  RFC 4648) and back.  Each decoder is as lenient as Node's (the UTF-8
  one replaces each maximal ill-formed subpart by one U+FFFD); each round
  trip is proved.
 */
module Encoding {
  import opened Wrappers

  /** An octet. */
  type byte = b: int | 0 <= b < 256

  // ---------------------------------------------------------------------
  // UTF-8: `Buffer.from(text)` and `buf.toString('utf-8')`

  /** The one to four bytes that encode a scalar value. */
  function EncodeChar(c: char): (r: seq<byte>)
    ensures 1 <= |r| <= 4
  {
    var n := c as int;
    if n < 0x80 then [n]
    else if n < 0x800 then [0xC0 + n / 64, 0x80 + n % 64]
    else if n < 0x10000 then [0xE0 + n / 4096, 0x80 + (n / 64) % 64, 0x80 + n % 64]
    else [0xF0 + n / 262144, 0x80 + (n / 4096) % 64, 0x80 + (n / 64) % 64, 0x80 + n % 64]
  }

  /** `Buffer.from(s)`: the UTF-8 bytes of `s`. */
  function Utf8(s: string): seq<byte> {
    if |s| == 0 then [] else EncodeChar(s[0]) + Utf8(s[1..])
  }

  predicate IsCont(b: int) {
    0x80 <= b < 0xC0
  }

  /** U+FFFD, which the decoder puts in place of a byte it cannot use. */
  const Replacement: char := '\U{FFFD}'

  /** The bounds of the second byte after lead byte `b0` (section 4 of RFC 3629, table 3-7 of Unicode). */
  function SecondByteBounds(b0: int): (int, int) {
    if b0 == 0xE0 then (0xA0, 0xBF)
    else if b0 == 0xED then (0x80, 0x9F)
    else if b0 == 0xF0 then (0x90, 0xBF)
    else if b0 == 0xF4 then (0x80, 0x8F)
    else (0x80, 0xBF)
  }

  /**
    The character at the head of `bs` and how many bytes it took, by the
    WHATWG UTF-8 decoder that `buf.toString('utf-8')` follows.  A
    well-formed sequence gives its scalar value.  Otherwise the longest
    prefix that could still begin a well-formed sequence (its maximal
    subpart, at least one byte) becomes one U+FFFD; so a stray or
    out-of-range lead byte, an overlong form, a surrogate or a value past
    U+10FFFF costs one byte, and a truncated sequence costs the bytes it
    has.
   */
  function DecodeOne(bs: seq<byte>): (r: (char, nat))
    requires |bs| > 0
    ensures 1 <= r.1 <= |bs| && r.1 <= 4
  {
    var b0: int := bs[0];
    var b1: int := if |bs| > 1 then bs[1] else 0;
    var b2: int := if |bs| > 2 then bs[2] else 0;
    var b3: int := if |bs| > 3 then bs[3] else 0;
    var need := if 0xC2 <= b0 < 0xE0 then 1 else if 0xE0 <= b0 < 0xF0 then 2 else if 0xF0 <= b0 < 0xF5 then 3 else 0;
    var (lo, hi) := SecondByteBounds(b0);
    if b0 < 0x80 then (b0 as char, 1)
    else if need == 0 || |bs| < 2 || !(lo <= b1 <= hi) then (Replacement, 1)
    else if need == 1 then (((b0 - 0xC0) * 64 + (b1 - 0x80)) as char, 2)
    else if |bs| < 3 || !IsCont(b2) then (Replacement, 2)
    else if need == 2 then (((b0 - 0xE0) * 4096 + (b1 - 0x80) * 64 + (b2 - 0x80)) as char, 3)
    else if |bs| < 4 || !IsCont(b3) then (Replacement, 3)
    else (((b0 - 0xF0) * 262144 + (b1 - 0x80) * 4096 + (b2 - 0x80) * 64 + (b3 - 0x80)) as char, 4)
  }

  /** `buf.toString('utf-8')` */
  function Utf8Decode(bs: seq<byte>): string
    decreases |bs|
  {
    if |bs| == 0 then ""
    else
      var (c, k) := DecodeOne(bs);
      [c] + Utf8Decode(bs[k..])
  }

  /**
    A truncated sequence is one U+FFFD however many of its bytes arrived,
    while an impossible second byte costs only the lead byte.
   */
  lemma MaximalSubparts()
    ensures Utf8Decode([0xE2, 0x82, 0x41]) == [Replacement, 'A']
    ensures Utf8Decode([0xF0, 0x9F, 0x98]) == [Replacement]
    ensures Utf8Decode([0xE0, 0x80, 0x80]) == [Replacement, Replacement, Replacement]
  {
    var a: seq<byte> := [0xE2, 0x82, 0x41];
    assert DecodeOne(a) == (Replacement, 2) && a[2..] == [0x41];
    var t: seq<byte> := [0x41];
    assert DecodeOne(t) == ('A', 1) && t[1..] == [];
    var b: seq<byte> := [0xF0, 0x9F, 0x98];
    assert DecodeOne(b) == (Replacement, 3) && b[3..] == [];
    var c: seq<byte> := [0xE0, 0x80, 0x80];
    assert DecodeOne(c) == (Replacement, 1) && c[1..] == [0x80, 0x80];
    var c1: seq<byte> := [0x80, 0x80];
    assert DecodeOne(c1) == (Replacement, 1) && c1[1..] == [0x80];
    var c2: seq<byte> := [0x80];
    assert DecodeOne(c2) == (Replacement, 1) && c2[1..] == [];
  }

  /** The two-byte form splits a value into five and six bits. */
  lemma TwoByteDigits(n: int)
    requires 0x80 <= n < 0x800
    ensures 0xC2 <= 0xC0 + n / 64 < 0xE0 && IsCont(0x80 + n % 64)
    ensures (n / 64) * 64 + n % 64 == n
  {
  }

  /** The three-byte form splits a value into four, six and six bits. */
  lemma ThreeByteDigits(n: int)
    requires 0x800 <= n < 0x10000 && !(0xD800 <= n < 0xE000)
    ensures 0xE0 <= 0xE0 + n / 4096 < 0xF0
    ensures SecondByteBounds(0xE0 + n / 4096).0 <= 0x80 + (n / 64) % 64 <= SecondByteBounds(0xE0 + n / 4096).1
    ensures IsCont(0x80 + (n / 64) % 64) && IsCont(0x80 + n % 64)
    ensures (n / 4096) * 4096 + ((n / 64) % 64) * 64 + n % 64 == n
  {
    assert n / 4096 * 64 + (n / 64) % 64 == n / 64;
  }

  /** The four-byte form splits a value into three, six, six and six bits. */
  lemma FourByteDigits(n: int)
    requires 0x10000 <= n < 0x110000
    ensures 0xF0 <= 0xF0 + n / 262144 < 0xF5
    ensures SecondByteBounds(0xF0 + n / 262144).0 <= 0x80 + (n / 4096) % 64 <= SecondByteBounds(0xF0 + n / 262144).1
    ensures IsCont(0x80 + (n / 4096) % 64) && IsCont(0x80 + (n / 64) % 64) && IsCont(0x80 + n % 64)
    ensures (n / 262144) * 262144 + ((n / 4096) % 64) * 4096 + ((n / 64) % 64) * 64 + n % 64 == n
  {
    assert n / 262144 * 64 + (n / 4096) % 64 == n / 4096;
    assert n / 4096 * 64 + (n / 64) % 64 == n / 64;
  }

  /** The decoder reads back exactly the character the encoder wrote, and no further. */
  lemma DecodeEncodedChar(c: char, rest: seq<byte>)
    ensures DecodeOne(EncodeChar(c) + rest) == (c, |EncodeChar(c)|)
  {
    var n := c as int;
    var e := EncodeChar(c);
    var bs := e + rest;
    if n < 0x80 {
    } else if n < 0x800 {
      TwoByteDigits(n);
      assert bs[0] == e[0] && bs[1] == e[1];
    } else if n < 0x10000 {
      ThreeByteDigits(n);
      assert bs[0] == e[0] && bs[1] == e[1] && bs[2] == e[2];
    } else {
      FourByteDigits(n);
      assert bs[0] == e[0] && bs[1] == e[1] && bs[2] == e[2] && bs[3] == e[3];
    }
  }

  /** Decoding the UTF-8 bytes of a text gives the text back. */
  lemma {:induction false} Utf8RoundTrip(s: string)
    ensures Utf8Decode(Utf8(s)) == s
  {
    if |s| > 0 {
      var e := EncodeChar(s[0]);
      DecodeEncodedChar(s[0], Utf8(s[1..]));
      assert (e + Utf8(s[1..]))[|e|..] == Utf8(s[1..]);
      Utf8RoundTrip(s[1..]);
      assert s == [s[0]] + s[1..];
    }
  }

  /** So two texts with the same bytes are the same text. */
  lemma Utf8Injective(a: string, b: string)
    requires Utf8(a) == Utf8(b)
    ensures a == b
  {
    Utf8RoundTrip(a);
    Utf8RoundTrip(b);
  }

  /** Bytes of concatenated texts are the concatenated bytes. */
  lemma {:induction false} Utf8Concat(a: string, b: string)
    ensures Utf8(a + b) == Utf8(a) + Utf8(b)
  {
    if |a| > 0 {
      assert (a + b)[0] == a[0] && (a + b)[1..] == a[1..] + b;
      Utf8Concat(a[1..], b);
    } else {
      assert a + b == b;
    }
  }

  /** A text of characters below U+0080 takes one byte per character. */
  lemma {:induction false} Utf8Ascii(s: string)
    requires forall i :: 0 <= i < |s| ==> s[i] < '\U{80}'
    ensures |Utf8(s)| == |s|
    ensures forall i :: 0 <= i < |s| ==> Utf8(s)[i] == s[i] as int
  {
    if |s| > 0 {
      Utf8Ascii(s[1..]);
    }
  }

  // ---------------------------------------------------------------------
  // Hex: `digest('hex')`, `buf.toString('hex')` and `Buffer.from(text, 'hex')`

  function HexDigit(v: int): (c: char)
    requires 0 <= v < 16
    ensures IsLowerHex(c)
  {
    if v < 10 then ('0' as int + v) as char else ('a' as int + v - 10) as char
  }

  predicate IsLowerHex(c: char) {
    '0' <= c <= '9' || 'a' <= c <= 'f'
  }

  /** Two lower-case hex digits per byte, high nibble first. */
  function Hex(bs: seq<byte>): (r: string)
    ensures |r| == 2 * |bs|
    ensures forall i :: 0 <= i < |r| ==> IsLowerHex(r[i])
  {
    if |bs| == 0 then "" else [HexDigit(bs[0] / 16), HexDigit(bs[0] % 16)] + Hex(bs[1..])
  }

  /** The value of a hex digit of either case. */
  function HexValue(c: char): (r: Option<int>)
    ensures r.Some? ==> 0 <= r.value < 16
  {
    if '0' <= c <= '9' then Some(c as int - '0' as int)
    else if 'a' <= c <= 'f' then Some(c as int - 'a' as int + 10)
    else if 'A' <= c <= 'F' then Some(c as int - 'A' as int + 10)
    else None
  }

  /**
    Node's hex decoding: pairs of digits become bytes, and decoding stops
    silently at the first pair that is not two hex digits (an odd last digit
    included).
   */
  function HexDecode(s: string): seq<byte> {
    if |s| >= 2 && HexValue(s[0]).Some? && HexValue(s[1]).Some?
    then [HexValue(s[0]).value * 16 + HexValue(s[1]).value] + HexDecode(s[2..])
    else []
  }

  lemma HexDigitValue(v: int)
    requires 0 <= v < 16
    ensures HexValue(HexDigit(v)) == Some(v)
  {
  }

  /** Hex text decodes back to its bytes. */
  lemma {:induction false} HexRoundTrip(bs: seq<byte>)
    ensures HexDecode(Hex(bs)) == bs
  {
    if |bs| > 0 {
      var h := Hex(bs);
      HexDigitValue(bs[0] / 16);
      HexDigitValue(bs[0] % 16);
      assert h[2..] == Hex(bs[1..]);
      HexRoundTrip(bs[1..]);
      assert bs == [bs[0]] + bs[1..];
    }
  }

  /** Hex text never holds a dot. */
  lemma HexHasNoDot(bs: seq<byte>)
    ensures '.' !in Hex(bs)
  {
  }

  // ---------------------------------------------------------------------
  // base64url (section 5 of RFC 4648), without padding

  /** A six-bit group. */
  type sextet = v: int | 0 <= v < 64

  /** The URL- and filename-safe alphabet: A-Z, a-z, 0-9, '-', '_'. */
  function B64Char(v: sextet): char {
    if v < 26 then ('A' as int + v) as char
    else if v < 52 then ('a' as int + v - 26) as char
    else if v < 62 then ('0' as int + v - 52) as char
    else if v == 62 then '-'
    else '_'
  }

  /** The value of a character when decoding; the standard alphabet's '+' and '/' are accepted too. */
  function B64Value(c: char): Option<sextet> {
    if 'A' <= c <= 'Z' then Some(c as int - 'A' as int)
    else if 'a' <= c <= 'z' then Some(c as int - 'a' as int + 26)
    else if '0' <= c <= '9' then Some(c as int - '0' as int + 52)
    else if c == '-' || c == '+' then Some(62)
    else if c == '_' || c == '/' then Some(63)
    else None
  }

  lemma B64CharValue(v: sextet)
    ensures B64Value(B64Char(v)) == Some(v)
  {
  }

  /** Each group of three bytes as four sextets; a last group of one or two bytes as two or three. */
  function Sextets(bs: seq<byte>): (r: seq<sextet>)
    ensures |r| == (4 * |bs| + 2) / 3
  {
    if |bs| == 0 then []
    else
      var b0: int := bs[0];
      var b1: int := if |bs| > 1 then bs[1] else 0;
      var b2: int := if |bs| > 2 then bs[2] else 0;
      if |bs| == 1 then [b0 / 4, (b0 % 4) * 16]
      else if |bs| == 2 then [b0 / 4, (b0 % 4) * 16 + b1 / 16, (b1 % 16) * 4]
      else [b0 / 4, (b0 % 4) * 16 + b1 / 16, (b1 % 16) * 4 + b2 / 64, b2 % 64] + Sextets(bs[3..])
  }

  /** Sextets back to bytes: four give three; a trailing two or three give one or two; a single one is dropped. */
  function Octets(vs: seq<sextet>): seq<byte> {
    if |vs| < 2 then []
    else
      var v0: int, v1: int := vs[0], vs[1];
      var v2: int := if |vs| > 2 then vs[2] else 0;
      var v3: int := if |vs| > 3 then vs[3] else 0;
      if |vs| == 2 then [v0 * 4 + v1 / 16]
      else if |vs| == 3 then [v0 * 4 + v1 / 16, (v1 % 16) * 16 + v2 / 4]
      else [v0 * 4 + v1 / 16, (v1 % 16) * 16 + v2 / 4, (v2 % 4) * 64 + v3] + Octets(vs[4..])
  }

  function Letters(vs: seq<sextet>): (r: string)
    ensures |r| == |vs|
  {
    if |vs| == 0 then "" else [B64Char(vs[0])] + Letters(vs[1..])
  }

  /** `buf.toString('base64url')` */
  function Base64UrlEncode(bs: seq<byte>): string {
    Letters(Sextets(bs))
  }

  /**
    The sextets Node's decoder reads from a text: characters outside both
    alphabets are skipped, and an '=' ends the input.
   */
  function Values(s: string): seq<sextet> {
    if |s| == 0 || s[0] == '=' then []
    else if B64Value(s[0]).Some? then [B64Value(s[0]).value] + Values(s[1..])
    else Values(s[1..])
  }

  /** `Buffer.from(text, 'base64url')` */
  function Base64UrlDecode(s: string): seq<byte> {
    Octets(Values(s))
  }

  lemma {:induction false} ValuesOfLetters(vs: seq<sextet>)
    ensures Values(Letters(vs)) == vs
  {
    if |vs| > 0 {
      B64CharValue(vs[0]);
      assert Letters(vs)[1..] == Letters(vs[1..]);
      ValuesOfLetters(vs[1..]);
      assert vs == [vs[0]] + vs[1..];
    }
  }

  /** Three bytes cut into four sextets join back into the same bytes. */
  lemma GroupDigits(b0: byte, b1: byte, b2: byte)
    ensures (b0 / 4) * 4 + ((b0 % 4) * 16 + b1 / 16) / 16 == b0
    ensures (((b0 % 4) * 16 + b1 / 16) % 16) * 16 + ((b1 % 16) * 4 + b2 / 64) / 4 == b1
    ensures (((b1 % 16) * 4 + b2 / 64) % 4) * 64 + b2 % 64 == b2
  {
  }

  lemma {:induction false} OctetsOfSextets(bs: seq<byte>)
    ensures Octets(Sextets(bs)) == bs
  {
    if |bs| >= 3 {
      var vs := Sextets(bs);
      GroupDigits(bs[0], bs[1], bs[2]);
      assert vs[4..] == Sextets(bs[3..]);
      OctetsOfSextets(bs[3..]);
      assert Octets(vs) == bs[..3] + Octets(vs[4..]);
      assert bs == bs[..3] + bs[3..];
    } else if |bs| == 2 {
      GroupDigits(bs[0], bs[1], 0);
    } else if |bs| == 1 {
      GroupDigits(bs[0], 0, 0);
    }
  }

  /** Decoding the base64url text of some bytes gives the bytes back. */
  lemma Base64UrlRoundTrip(bs: seq<byte>)
    ensures Base64UrlDecode(Base64UrlEncode(bs)) == bs
  {
    ValuesOfLetters(Sextets(bs));
    OctetsOfSextets(bs);
  }

  /** The encoder writes only characters of the URL-safe alphabet, so no padding. */
  lemma {:induction false} Base64UrlAlphabet(vs: seq<sextet>)
    ensures forall i :: 0 <= i < |Letters(vs)| ==> B64Value(Letters(vs)[i]).Some? && Letters(vs)[i] != '='
  {
    if |vs| > 0 {
      B64CharValue(vs[0]);
      Base64UrlAlphabet(vs[1..]);
    }
  }
}
