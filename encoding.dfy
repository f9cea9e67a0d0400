/** The two Node `Buffer` conversions the modelled code relies on:
    UTF-8 (`Buffer.from(s, "utf8")` and `buf.toString("utf8")`) and
    base64 (`buf.toString("base64")` and `Buffer.from(s, "base64")`).
    Encoding follows RFC 3629 and section 4 of RFC 4648 (with padding);
    decoding is total, as Node's is: ill-formed UTF-8 becomes U+FFFD per
    maximal ill-formed subpart (the WHATWG decoder), and base64 decoding skips
    characters outside the alphabet and stops at the first '='. */
module Encoding {
  import opened Basics

  // ---------------------------------------------------------------------------
  // UTF-8
  // ---------------------------------------------------------------------------

  const Replacement: char := '\U{FFFD}'

  /** The UTF-8 bytes of one Unicode scalar value. */
  function EncodeChar(c: char): (b: seq<byte>)
    ensures 1 <= |b| <= 4
    ensures |b| == 1 <==> (c as int) < 0x80
  {
    var n := c as int;
    if n < 0x80 then [n]
    else if n < 0x800 then [0xC0 + n / 64, 0x80 + n % 64]
    else if n < 0x10000 then [0xE0 + n / 4096, 0x80 + (n / 64) % 64, 0x80 + n % 64]
    else [0xF0 + n / 0x40000, 0x80 + (n / 4096) % 64, 0x80 + (n / 64) % 64, 0x80 + n % 64]
  }

  function Utf8Encode(s: string): (b: seq<byte>)
    ensures |s| <= |b| <= 4 * |s|
  {
    if s == [] then [] else EncodeChar(s[0]) + Utf8Encode(s[1..])
  }

  predicate InRange(x: byte, lo: int, hi: int)
  {
    lo <= x <= hi
  }

  /** One step of the WHATWG UTF-8 decoder: the next character and how many
      bytes it used. A sequence that breaks off yields U+FFFD and uses only the
      bytes before the offending one (all remaining bytes at the end). */
  function DecodeOne(b: seq<byte>): (r: (char, nat))
    requires |b| > 0
    ensures 1 <= r.1 <= |b|
  {
    var b0 := b[0] as int;
    if b0 < 0x80 then (b0 as char, 1)
    else if 0xC2 <= b0 <= 0xDF then
      if |b| < 2 || !InRange(b[1], 0x80, 0xBF) then (Replacement, 1)
      else (((b0 - 0xC0) * 64 + (b[1] as int - 0x80)) as char, 2)
    else if 0xE0 <= b0 <= 0xEF then
      var lo := if b0 == 0xE0 then 0xA0 else 0x80;
      var hi := if b0 == 0xED then 0x9F else 0xBF;
      if |b| < 2 || !InRange(b[1], lo, hi) then (Replacement, 1)
      else if |b| < 3 || !InRange(b[2], 0x80, 0xBF) then (Replacement, 2)
      else (((b0 - 0xE0) * 4096 + (b[1] as int - 0x80) * 64 + (b[2] as int - 0x80)) as char, 3)
    else if 0xF0 <= b0 <= 0xF4 then
      var lo := if b0 == 0xF0 then 0x90 else 0x80;
      var hi := if b0 == 0xF4 then 0x8F else 0xBF;
      if |b| < 2 || !InRange(b[1], lo, hi) then (Replacement, 1)
      else if |b| < 3 || !InRange(b[2], 0x80, 0xBF) then (Replacement, 2)
      else if |b| < 4 || !InRange(b[3], 0x80, 0xBF) then (Replacement, 3)
      else (((b0 - 0xF0) * 0x40000 + (b[1] as int - 0x80) * 4096 + (b[2] as int - 0x80) * 64 + (b[3] as int - 0x80)) as char, 4)
    else (Replacement, 1)
  }

  function Utf8Decode(b: seq<byte>): (s: string)
    ensures |s| <= |b|
    decreases |b|
  {
    if b == [] then []
    else
      var (c, n) := DecodeOne(b);
      [c] + Utf8Decode(b[n..])
  }

  /** Decoding the bytes of one character, whatever follows, gives that
      character back and consumes exactly its bytes. */
  lemma DecodeEncodedChar(c: char, rest: seq<byte>)
    ensures DecodeOne(EncodeChar(c) + rest) == (c, |EncodeChar(c)|)
  {
    var n := c as int;
    if n < 0x80 {
    } else if n < 0x800 {
      DecodeTwoBytes(c, rest);
    } else if n < 0x10000 {
      DecodeThreeBytes(c, rest);
    } else {
      DecodeFourBytes(c, rest);
    }
  }

  lemma DecodeTwoBytes(c: char, rest: seq<byte>)
    requires 0x80 <= c as int < 0x800
    ensures DecodeOne(EncodeChar(c) + rest) == (c, 2)
  {
    var n := c as int;
    var b := EncodeChar(c) + rest;
    assert b[0] == 0xC0 + n / 64 && b[1] == 0x80 + n % 64;
    assert (b[0] as int - 0xC0) * 64 + (b[1] as int - 0x80) == n;
  }

  lemma ThreeByteDigits(n: int)
    requires 0x800 <= n < 0x10000
    ensures n == (n / 4096) * 4096 + ((n / 64) % 64) * 64 + n % 64
    ensures n / 4096 == 0 ==> (n / 64) % 64 >= 0x20
    ensures n / 4096 == 0xD && (n < 0xD800) ==> (n / 64) % 64 < 0x20
  {
  }

  lemma DecodeThreeBytes(c: char, rest: seq<byte>)
    requires 0x800 <= c as int < 0x10000
    ensures DecodeOne(EncodeChar(c) + rest) == (c, 3)
  {
    var n := c as int;
    var b := EncodeChar(c) + rest;
    var q, r1, r2 := n / 4096, (n / 64) % 64, n % 64;
    ThreeByteDigits(n);
    assert b[0] == 0xE0 + q && b[1] == 0x80 + r1 && b[2] == 0x80 + r2;
  }

  lemma FourByteDigits(n: int)
    requires 0x10000 <= n < 0x110000
    ensures n == (n / 0x40000) * 0x40000 + ((n / 4096) % 64) * 4096 + ((n / 64) % 64) * 64 + n % 64
    ensures n / 0x40000 == 0 ==> (n / 4096) % 64 >= 0x10
    ensures n / 0x40000 == 4 ==> (n / 4096) % 64 < 0x10
  {
    assert n / 64 == (n / 4096) * 64 + (n / 64) % 64;
    assert n / 4096 == (n / 0x40000) * 64 + (n / 4096) % 64;
  }

  lemma DecodeFourBytes(c: char, rest: seq<byte>)
    requires 0x10000 <= c as int
    ensures DecodeOne(EncodeChar(c) + rest) == (c, 4)
  {
    var n := c as int;
    var b := EncodeChar(c) + rest;
    var q, r1, r2, r3 := n / 0x40000, (n / 4096) % 64, (n / 64) % 64, n % 64;
    FourByteDigits(n);
    assert b[0] == 0xF0 + q && b[1] == 0x80 + r1 && b[2] == 0x80 + r2 && b[3] == 0x80 + r3;
  }

  /** Decoding undoes encoding: the text that went into a cursor comes back. */
  lemma {:induction false} Utf8RoundTrip(s: string)
    ensures Utf8Decode(Utf8Encode(s)) == s
  {
    if s != [] {
      var e := EncodeChar(s[0]);
      var b := Utf8Encode(s);
      assert b == e + Utf8Encode(s[1..]);
      DecodeEncodedChar(s[0], Utf8Encode(s[1..]));
      assert b[|e|..] == Utf8Encode(s[1..]);
      Utf8RoundTrip(s[1..]);
    }
  }

  // ---------------------------------------------------------------------------
  // Base64
  // ---------------------------------------------------------------------------

  /** The character for a 6-bit value in the standard alphabet of RFC 4648. */
  function B64Char(v: int): (c: char)
    requires 0 <= v < 64
  {
    if v < 26 then ('A' as int + v) as char
    else if v < 52 then ('a' as int + v - 26) as char
    else if v < 62 then ('0' as int + v - 52) as char
    else if v == 62 then '+'
    else '/'
  }

  /** The 6-bit value Node reads for a character: the standard alphabet and
      the URL-safe one ('-' and '_'); -1 for any other character. */
  function SextetOf(c: char): (v: int)
    ensures -1 <= v < 64
    ensures c == '=' ==> v == -1
  {
    if 'A' <= c <= 'Z' then c as int - 'A' as int
    else if 'a' <= c <= 'z' then c as int - 'a' as int + 26
    else if '0' <= c <= '9' then c as int - '0' as int + 52
    else if c == '+' || c == '-' then 62
    else if c == '/' || c == '_' then 63
    else -1
  }

  lemma SextetOfB64Char(v: int)
    requires 0 <= v < 64
    ensures SextetOf(B64Char(v)) == v
  {
  }

  /** The four 6-bit values of a group of three bytes. */
  function GroupSextets(b0: byte, b1: byte, b2: byte): (v: seq<int>)
    ensures |v| == 4 && AllSextets(v)
  {
    [b0 as int / 4, (b0 as int % 4) * 16 + b1 as int / 16, (b1 as int % 16) * 4 + b2 as int / 64, b2 as int % 64]
  }

  /** Four 6-bit values as three bytes. */
  function DecodeGroup(v0: int, v1: int, v2: int, v3: int): (b: seq<byte>)
    requires 0 <= v0 < 64 && 0 <= v1 < 64 && 0 <= v2 < 64 && 0 <= v3 < 64
    ensures |b| == 3
  {
    [v0 * 4 + v1 / 16, (v1 % 16) * 16 + v2 / 4, (v2 % 4) * 64 + v3]
  }

  predicate AllSextets(v: seq<int>)
  {
    forall i :: 0 <= i < |v| ==> 0 <= v[i] < 64
  }

  /** The characters of a sequence of 6-bit values. */
  function Chars(v: seq<int>): (t: string)
    requires AllSextets(v)
    ensures |t| == |v|
  {
    seq(|v|, i requires 0 <= i < |v| => B64Char(v[i]))
  }

  /** Base64 with '=' padding, as `buf.toString("base64")` writes it: each
      group of three bytes as four characters, a last group of two as three
      characters and '=', a last single byte as two characters and "==". */
  function Base64Encode(b: seq<byte>): (t: string)
    ensures |t| == 4 * ((|b| + 2) / 3)
  {
    if |b| >= 3 then Chars(GroupSextets(b[0], b[1], b[2])) + Base64Encode(b[3..])
    else if |b| == 2 then Chars(GroupSextets(b[0], b[1], 0)[..3]) + ['=']
    else if |b| == 1 then Chars(GroupSextets(b[0], 0, 0)[..2]) + ['=', '=']
    else []
  }

  /** The 6-bit values Node reads from `t`: characters outside the alphabet
      are skipped and the first '=' ends the input. */
  function Sextets(t: string): (v: seq<int>)
    ensures AllSextets(v)
    ensures |v| <= |t|
  {
    if t == [] || t[0] == '=' then []
    else if SextetOf(t[0]) >= 0 then [SextetOf(t[0])] + Sextets(t[1..])
    else Sextets(t[1..])
  }

  /** Every four values give three bytes; a tail of three gives two, of two
      gives one, of one gives none. */
  function SextetsToBytes(v: seq<int>): (b: seq<byte>)
    requires AllSextets(v)
    ensures |b| == (6 * |v|) / 8
  {
    if |v| >= 4 then DecodeGroup(v[0], v[1], v[2], v[3]) + SextetsToBytes(v[4..])
    else if |v| == 3 then DecodeGroup(v[0], v[1], v[2], 0)[..2]
    else if |v| == 2 then DecodeGroup(v[0], v[1], 0, 0)[..1]
    else []
  }

  /** `Buffer.from(t, "base64")`: at most three bytes for every four characters. */
  function Base64Decode(t: string): (b: seq<byte>)
    ensures 4 * |b| <= 3 * |t|
  {
    SextetsToBytes(Sextets(t))
  }

  /** Characters written by the encoder are read back as the values they stand for. */
  lemma {:induction false} SextetsOfChars(v: seq<int>, t: string)
    requires AllSextets(v)
    ensures Sextets(Chars(v) + t) == v + Sextets(t)
  {
    if v != [] {
      SextetOfB64Char(v[0]);
      var x := Chars(v) + t;
      assert x[0] == B64Char(v[0]) && x[0] != '=';
      assert x[1..] == Chars(v[1..]) + t;
      assert Sextets(x) == [v[0]] + Sextets(x[1..]);
      SextetsOfChars(v[1..], t);
      assert [v[0]] + (v[1..] + Sextets(t)) == v + Sextets(t);
    } else {
      assert Chars(v) + t == t;
    }
  }

  /** The three bytes of a group come back from its four values. */
  lemma GroupRoundTrip(b0: byte, b1: byte, b2: byte)
    ensures var v := GroupSextets(b0, b1, b2);
      DecodeGroup(v[0], v[1], v[2], v[3]) == [b0, b1, b2]
  {
    var v := GroupSextets(b0, b1, b2);
    assert v[1] / 16 == b0 % 4 && v[1] % 16 == b1 / 16;
    assert v[2] / 4 == b1 % 16 && v[2] % 4 == b2 / 64;
  }

  lemma GroupBytes(v: seq<int>, w: seq<int>)
    requires |v| == 4 && AllSextets(v) && AllSextets(w)
    ensures AllSextets(v + w)
    ensures SextetsToBytes(v + w) == DecodeGroup(v[0], v[1], v[2], v[3]) + SextetsToBytes(w)
  {
    assert (v + w)[4..] == w;
  }

  lemma FullGroupRoundTrip(b: seq<byte>)
    requires |b| >= 3
    ensures Base64Decode(Base64Encode(b)) == [b[0], b[1], b[2]] + Base64Decode(Base64Encode(b[3..]))
  {
    var v := GroupSextets(b[0], b[1], b[2]);
    var rest := Base64Encode(b[3..]);
    SextetsOfChars(v, rest);
    GroupBytes(v, Sextets(rest));
    GroupRoundTrip(b[0], b[1], b[2]);
  }

  lemma TwoByteTailRoundTrip(b0: byte, b1: byte)
    ensures Base64Decode(Base64Encode([b0, b1])) == [b0, b1]
  {
    var v := GroupSextets(b0, b1, 0);
    SextetsOfChars(v[..3], ['=']);
    assert Sextets(Base64Encode([b0, b1])) == v[..3];
    GroupRoundTrip(b0, b1, 0);
  }

  lemma OneByteTailRoundTrip(b0: byte)
    ensures Base64Decode(Base64Encode([b0])) == [b0]
  {
    var v := GroupSextets(b0, 0, 0);
    SextetsOfChars(v[..2], ['=', '=']);
    assert Sextets(Base64Encode([b0])) == v[..2];
    GroupRoundTrip(b0, 0, 0);
  }

  /** Decoding undoes encoding (section 4 of RFC 4648). */
  lemma {:induction false} Base64RoundTrip(b: seq<byte>)
    ensures Base64Decode(Base64Encode(b)) == b
  {
    if |b| >= 3 {
      FullGroupRoundTrip(b);
      Base64RoundTrip(b[3..]);
      assert b == [b[0], b[1], b[2]] + b[3..];
    } else if |b| == 2 {
      TwoByteTailRoundTrip(b[0], b[1]);
      assert b == [b[0], b[1]];
    } else if |b| == 1 {
      OneByteTailRoundTrip(b[0]);
      assert b == [b[0]];
    }
  }

  // ---------------------------------------------------------------------------
  // Cursors: text to UTF-8 to base64, and back.
  // ---------------------------------------------------------------------------

  /** `Buffer.from(s, "utf8").toString("base64")`: whole groups of four
      characters, none for the empty string, read back by the decoder as `s`. */
  function ToBase64Text(s: string): (t: string)
    ensures |t| % 4 == 0
    ensures t == [] <==> s == []
    ensures Utf8Decode(Base64Decode(t)) == s
  {
    var b := Utf8Encode(s);
    Base64RoundTrip(b);
    Utf8RoundTrip(s);
    EncodedLength(b);
    Base64Encode(b)
  }

  /** Base64 text is whole groups of four characters, and empty only when
      there are no bytes. */
  lemma EncodedLength(b: seq<byte>)
    ensures |Base64Encode(b)| % 4 == 0
    ensures Base64Encode(b) == [] <==> b == []
  {
    var g := (|b| + 2) / 3;
    assert |Base64Encode(b)| == g + g + g + g;
    assert b == [] <==> g == 0;
  }

  /** `Buffer.from(t, "base64").toString("utf8")`: at most three characters
      for every four characters of input. */
  function FromBase64Text(t: string): (r: string)
    ensures 4 * |r| <= 3 * |t|
  {
    Utf8Decode(Base64Decode(t))
  }

  /** A cursor made from a string decodes back to that string. */
  lemma Base64TextRoundTrip(s: string)
    ensures FromBase64Text(ToBase64Text(s)) == s
  {
  }
}
