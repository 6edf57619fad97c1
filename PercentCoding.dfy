/** Percent-decoding of a URI component, as the JavaScript built-in
    `decodeURIComponent` performs it (ECMA-262, "Decode" with an empty reserved
    set): each `%XY` escape, or run of escapes forming one UTF-8 encoded
    character, becomes that character; anything malformed is a URIError, here
    None. Its inverse, `encodeURIComponent`, is modelled beside it as the
    partner of the round-trip lemma. */
module PercentCoding {
  import opened Wrappers

  type Byte = b: int | 0 <= b < 0x100

  function HexValue(c: char): (v: Option<nat>)
    ensures v.Some? ==> v.value < 16
  {
    if '0' <= c <= '9' then Some(c as int - '0' as int)
    else if 'a' <= c <= 'f' then Some(c as int - 'a' as int + 10)
    else if 'A' <= c <= 'F' then Some(c as int - 'A' as int + 10)
    else None
  }

  /** The upper-case hex digit that encodeURIComponent writes. */
  function HexDigit(d: nat): (c: char)
    requires d < 16
    ensures HexValue(c) == Some(d)
  {
    if d < 10 then ('0' as int + d) as char else ('A' as int + d - 10) as char
  }

  /** The byte written as `%XY` at position k of s, if one is written there. */
  function EscapedByte(s: string, k: nat): Option<Byte>
  {
    if k + 2 < |s| && s[k] == '%' && HexValue(s[k + 1]).Some? && HexValue(s[k + 2]).Some? then
      Some(16 * HexValue(s[k + 1]).value + HexValue(s[k + 2]).value)
    else
      None
  }

  /** The six payload bits of a UTF-8 continuation byte (`10xxxxxx`) escaped at k. */
  function ContinuationBits(s: string, k: nat): (b: Option<int>)
    ensures b.Some? ==> 0 <= b.value < 64
  {
    match EscapedByte(s, k)
    case Some(x) => if 0x80 <= x < 0xC0 then Some(x - 0x80) else None
    case None => None
  }

  /** The escaped UTF-8 sequence at the front of s: the character it encodes and
      the number of characters of s it occupies. None when the lead byte is a
      continuation byte or longer than four bytes, when a continuation byte is
      missing or malformed, and when the sequence is overlong, a surrogate, or
      beyond U+10FFFF. A sequence it accepts is the shortest UTF-8 form of its
      character, so it takes 3, 6, 9 or 12 characters. */
  function DecodeSequence(s: string): (r: Option<(char, nat)>)
    ensures r.Some? ==> 3 <= r.value.1 <= |s|
    ensures r.Some? ==> r.value.1 == 3 * |Utf8(r.value.0)|
  {
    match EscapedByte(s, 0)
    case None => None
    case Some(b0) =>
      if b0 < 0x80 then
        Some((b0 as char, 3))
      else if 0xC0 <= b0 < 0xE0 then
        (match ContinuationBits(s, 3)
         case Some(b1) =>
           var cp := (b0 - 0xC0) * 64 + b1;
           if cp < 0x80 then None else Some((cp as char, 6))
         case None => None)
      else if 0xE0 <= b0 < 0xF0 then
        (match (ContinuationBits(s, 3), ContinuationBits(s, 6))
         case (Some(b1), Some(b2)) =>
           var cp := (b0 - 0xE0) * 4096 + b1 * 64 + b2;
           if cp < 0x800 || (0xD800 <= cp && cp < 0xE000) then None else Some((cp as char, 9))
         case _ => None)
      else if 0xF0 <= b0 < 0xF8 then
        (match (ContinuationBits(s, 3), ContinuationBits(s, 6), ContinuationBits(s, 9))
         case (Some(b1), Some(b2), Some(b3)) =>
           var cp := (b0 - 0xF0) * 0x40000 + b1 * 4096 + b2 * 64 + b3;
           if cp < 0x10000 || cp > 0x10FFFF then None else Some((cp as char, 12))
         case _ => None)
      else
        None
  }

  /** decodeURIComponent(s); None is the URIError it throws. The result is never
      longer than s, and only the empty string decodes to the empty string. */
  function Decode(s: string): (r: Option<string>)
    ensures r.Some? ==> |r.value| <= |s|
    ensures r.Some? ==> (r.value == [] <==> s == [])
    decreases |s|
  {
    if s == [] then
      Some([])
    else if s[0] != '%' then
      (match Decode(s[1..])
       case None => None
       case Some(rest) => Some([s[0]] + rest))
    else
      (match DecodeSequence(s)
       case None => None
       case Some((c, n)) =>
         (match Decode(s[n..])
          case None => None
          case Some(rest) => Some([c] + rest)))
  }

  /** The overlong two-byte form of U+0000 is rejected. */
  lemma RejectsOverlongForm()
    ensures DecodeSequence("%C0%80") == None
  {
    assert EscapedByte("%C0%80", 0) == Some(0xC0) && ContinuationBits("%C0%80", 3) == Some(0);
  }

  /** The encoded lone surrogate U+D800 is rejected. */
  lemma RejectsSurrogate()
    ensures DecodeSequence("%ED%A0%80") == None
  {
    var s := "%ED%A0%80";
    assert EscapedByte(s, 0) == Some(0xED);
    assert ContinuationBits(s, 3) == Some(0x20) && ContinuationBits(s, 6) == Some(0);
  }

  /** A four-byte sequence above U+10FFFF is rejected. */
  lemma RejectsBeyondUnicode()
    ensures DecodeSequence("%F4%90%80%80") == None
  {
    var s := "%F4%90%80%80";
    assert EscapedByte(s, 0) == Some(0xF4);
    assert ContinuationBits(s, 3) == Some(0x10);
    assert ContinuationBits(s, 6) == Some(0) && ContinuationBits(s, 9) == Some(0);
  }

  /** A string without any `%` decodes to itself. */
  lemma {:induction false} DecodeWithoutEscapes(s: string)
    requires '%' !in s
    ensures Decode(s) == Some(s)
  {
    if s != [] {
      assert '%' !in s[1..] by {
        forall i | 0 <= i < |s[1..]| ensures s[1..][i] != '%' { assert s[1..][i] == s[i + 1]; }
      }
      DecodeWithoutEscapes(s[1..]);
      assert [s[0]] + s[1..] == s;
    }
  }

  // ---------------------------------------------------------------------------
  // encodeURIComponent, the inverse

  /** The characters encodeURIComponent leaves as they are. */
  predicate Unreserved(c: char) {
    ('A' <= c <= 'Z') || ('a' <= c <= 'z') || ('0' <= c <= '9') || c in "-_.!~*'()"
  }

  /** The UTF-8 encoding of one character. */
  function Utf8(c: char): (bs: seq<Byte>)
    ensures 1 <= |bs| <= 4
  {
    var cp := c as int;
    if cp < 0x80 then [cp]
    else if cp < 0x800 then [0xC0 + cp / 64, 0x80 + cp % 64]
    else if cp < 0x10000 then [0xE0 + cp / 4096, 0x80 + cp / 64 % 64, 0x80 + cp % 64]
    else [0xF0 + cp / 0x40000, 0x80 + cp / 4096 % 64, 0x80 + cp / 64 % 64, 0x80 + cp % 64]
  }

  /** One byte written as `%XY`, with upper-case hex digits. */
  function EscapeByte(b: Byte): (s: string)
    ensures |s| == 3 && s[0] == '%' && ';' !in s
  {
    ['%', HexDigit(b / 16), HexDigit(b % 16)]
  }

  /** Each byte written as `%XY`. */
  function Escape(bs: seq<Byte>): (s: string)
    ensures |s| == 3 * |bs|
    ensures ';' !in s
  {
    if bs == [] then [] else EscapeByte(bs[0]) + Escape(bs[1..])
  }

  /** The escape of byte i sits at position 3 * i. */
  lemma {:induction false} EscapeAt(bs: seq<Byte>, i: nat)
    requires i < |bs|
    ensures Escape(bs)[3 * i..3 * i + 3] == EscapeByte(bs[i])
  {
    if i > 0 {
      EscapeAt(bs[1..], i - 1);
      assert Escape(bs)[3 * i..3 * i + 3] == Escape(bs[1..])[3 * (i - 1)..3 * (i - 1) + 3];
    }
  }

  function EncodeChar(c: char): (s: string)
    ensures 1 <= |s| && ';' !in s
  {
    if Unreserved(c) then [c] else Escape(Utf8(c))
  }

  /** encodeURIComponent(s). The result never contains `;`, so it can stand as
      a cookie value, and is empty only when s is. */
  function Encode(s: string): (r: string)
    ensures ';' !in r
    ensures |s| <= |r|
    ensures r == [] <==> s == []
  {
    if s == [] then [] else EncodeChar(s[0]) + Encode(s[1..])
  }

  lemma DivBy64Twice(x: int)
    requires 0 <= x
    ensures x / 4096 == x / 64 / 64
    ensures x / 64 % 64 * 64 + x % 64 == x % 4096
  {
    var q, r := x / 64, x % 64;
    var q2, r2 := q / 64, q % 64;
    assert x == 4096 * q2 + (64 * r2 + r);
  }

  lemma Div4096By64(x: int)
    requires 0 <= x
    ensures x / 0x40000 == x / 4096 / 64
    ensures x / 4096 % 64 * 4096 + x % 4096 == x % 0x40000
  {
    var q, r := x / 4096, x % 4096;
    var q2, r2 := q / 64, q % 64;
    assert x == 0x40000 * q2 + (4096 * r2 + r);
  }

  lemma EscapedByteIntro(s: string, k: nat, b: Byte)
    requires k + 2 < |s| && s[k] == '%'
    requires HexValue(s[k + 1]) == Some(b / 16) && HexValue(s[k + 2]) == Some(b % 16)
    ensures EscapedByte(s, k) == Some(b)
  {
  }

  /** `%XY` reads back as the byte it was written for. */
  lemma EscapeByteReadsBack(b: Byte, s: string, k: nat)
    requires k + 3 <= |s| && s[k..k + 3] == EscapeByte(b)
    ensures EscapedByte(s, k) == Some(b)
  {
    assert s[k] == '%' && s[k + 1] == HexDigit(b / 16) && s[k + 2] == HexDigit(b % 16) by {
      assert s[k..k + 3][0] == s[k] && s[k..k + 3][1] == s[k + 1] && s[k..k + 3][2] == s[k + 2];
    }
    EscapedByteIntro(s, k, b);
  }

  /** Byte i of an escaped sequence reads back at position 3 * i, whatever follows. */
  lemma EscapedByteOfEscape(bs: seq<Byte>, rest: string, i: nat)
    requires i < |bs|
    ensures EscapedByte(Escape(bs) + rest, 3 * i) == Some(bs[i])
  {
    var e := Escape(bs);
    EscapeAt(bs, i);
    SliceOfPrefix(e, rest, 3 * i, 3 * i + 3);
    EscapeByteReadsBack(bs[i], e + rest, 3 * i);
  }

  lemma SliceOfPrefix(e: string, rest: string, i: nat, j: nat)
    requires i <= j <= |e|
    ensures (e + rest)[i..j] == e[i..j]
  {
  }

  /** A continuation byte written as `%XY` yields its six payload bits. */
  lemma ContinuationOfEscape(bs: seq<Byte>, rest: string, i: nat)
    requires i < |bs| && 0x80 <= bs[i] < 0xC0
    ensures ContinuationBits(Escape(bs) + rest, 3 * i) == Some(bs[i] - 0x80)
  {
    var s, x := Escape(bs) + rest, bs[i];
    EscapedByteOfEscape(bs, rest, i);
    assert EscapedByte(s, 3 * i) == Some(x);
    assert 0x80 <= x < 0xC0;
  }

  lemma DecodeTwoByteSequence(c: char, rest: string)
    requires 0x80 <= c as int < 0x800
    ensures DecodeSequence(Escape(Utf8(c)) + rest) == Some((c, 6))
  {
    var cp, bs := c as int, Utf8(c);
    var s := Escape(bs) + rest;
    EscapedByteOfEscape(bs, rest, 0);
    ContinuationOfEscape(bs, rest, 1);
    assert (bs[0] - 0xC0) * 64 + cp % 64 == cp;
  }

  lemma DecodeThreeByteSequence(c: char, rest: string)
    requires 0x800 <= c as int < 0x10000
    ensures DecodeSequence(Escape(Utf8(c)) + rest) == Some((c, 9))
  {
    var cp, bs := c as int, Utf8(c);
    var s := Escape(bs) + rest;
    DivBy64Twice(cp);
    EscapedByteOfEscape(bs, rest, 0);
    ContinuationOfEscape(bs, rest, 1);
    ContinuationOfEscape(bs, rest, 2);
    assert (bs[0] - 0xE0) * 4096 + (cp / 64 % 64) * 64 + cp % 64 == cp;
  }

  lemma DecodeFourByteSequence(c: char, rest: string)
    requires 0x10000 <= c as int
    ensures DecodeSequence(Escape(Utf8(c)) + rest) == Some((c, 12))
  {
    var cp, bs := c as int, Utf8(c);
    var s := Escape(bs) + rest;
    DivBy64Twice(cp);
    Div4096By64(cp);
    EscapedByteOfEscape(bs, rest, 0);
    ContinuationOfEscape(bs, rest, 1);
    ContinuationOfEscape(bs, rest, 2);
    ContinuationOfEscape(bs, rest, 3);
    assert (bs[0] - 0xF0) * 0x40000 + (cp / 4096 % 64) * 4096 + (cp / 64 % 64) * 64 + cp % 64 == cp;
  }

  /** The escaped UTF-8 bytes of one character decode back to that character. */
  lemma DecodeSequenceOfEscape(c: char, rest: string)
    ensures DecodeSequence(Escape(Utf8(c)) + rest) == Some((c, 3 * |Utf8(c)|))
  {
    var cp := c as int;
    if cp < 0x80 {
      EscapedByteOfEscape(Utf8(c), rest, 0);
    } else if cp < 0x800 {
      DecodeTwoByteSequence(c, rest);
    } else if cp < 0x10000 {
      DecodeThreeByteSequence(c, rest);
    } else {
      DecodeFourByteSequence(c, rest);
    }
  }

  lemma DecodeEncodedChar(c: char, rest: string)
    requires Decode(rest).Some?
    ensures Decode(EncodeChar(c) + rest) == Some([c] + Decode(rest).value)
  {
    var s := EncodeChar(c) + rest;
    if Unreserved(c) {
      assert s[0] == c && s[1..] == rest;
    } else {
      DecodeSequenceOfEscape(c, rest);
      assert s[0] == '%';
      assert s[3 * |Utf8(c)|..] == rest;
    }
  }

  /** decodeURIComponent(encodeURIComponent(s)) == s for every string. */
  lemma {:induction false} DecodeEncode(s: string)
    ensures Decode(Encode(s)) == Some(s)
  {
    if s != [] {
      DecodeEncode(s[1..]);
      DecodeEncodedChar(s[0], Encode(s[1..]));
      assert [s[0]] + s[1..] == s;
    }
  }
}
