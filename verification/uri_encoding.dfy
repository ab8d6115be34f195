/** `encodeURIComponent` as section 19.2.6.5 of ECMA-262 defines it: every
    character outside the unreserved set is written as the UTF-8 octets of
    its code point, each as `%` and two upper-case hexadecimal digits
    (percent-encoding in the sense of section 2.1 of RFC 3986). The
    inverse, `decodeURIComponent` (section 19.2.6.3 of ECMA-262), is given
    as an independent definition and the round trip is proved. */
module UriEncoding {
  import opened Optional

  /** ECMA-262 uriUnreserved: letters, decimal digits and `-_.!~*'()`. */
  predicate IsUnreserved(c: char) {
    || ('A' <= c <= 'Z') || ('a' <= c <= 'z') || ('0' <= c <= '9')
    || c == '-' || c == '_' || c == '.' || c == '!' || c == '~'
    || c == '*' || c == '\'' || c == '(' || c == ')'
  }

  predicate IsUpperHex(c: char) {
    ('0' <= c <= '9') || ('A' <= c <= 'F')
  }

  /** The characters an encoded component is made of. */
  predicate IsEncodedChar(c: char) {
    IsUnreserved(c) || c == '%' || IsUpperHex(c)
  }

  function HexDigit(d: nat): (c: char)
    requires d < 16
    ensures IsUpperHex(c)
  {
    if d < 10 then ('0' as int + d) as char else ('A' as int + d - 10) as char
  }

  /** A hexadecimal digit of either case, as the decoder accepts it. */
  function HexValue(c: char): Option<nat> {
    if '0' <= c <= '9' then Some(c as int - '0' as int)
    else if 'A' <= c <= 'F' then Some(c as int - 'A' as int + 10)
    else if 'a' <= c <= 'f' then Some(c as int - 'a' as int + 10)
    else None
  }

  lemma HexRoundTrip(d: nat)
    requires d < 16
    ensures HexValue(HexDigit(d)) == Some(d)
  {
  }

  predicate IsByte(b: int) {
    0 <= b < 256
  }

  /** The UTF-8 octets of a Unicode scalar value (section 3 of RFC 3629). */
  function Utf8(c: char): (bs: seq<int>)
    ensures 1 <= |bs| <= 4
    ensures forall i :: 0 <= i < |bs| ==> IsByte(bs[i])
    ensures |bs| == 1 <==> (c as int) < 0x80
  {
    var cp := c as int;
    if cp < 0x80 then [cp]
    else if cp < 0x800 then [0xC0 + cp / 64, 0x80 + cp % 64]
    else if cp < 0x10000 then [0xE0 + cp / 4096, 0x80 + (cp / 64) % 64, 0x80 + cp % 64]
    else [0xF0 + cp / 262144, 0x80 + (cp / 4096) % 64, 0x80 + (cp / 64) % 64, 0x80 + cp % 64]
  }

  /** One octet as `%XY`. */
  function Escape(b: int): (r: string)
    requires IsByte(b)
    ensures |r| == 3 && r[0] == '%'
  {
    ['%', HexDigit(b / 16), HexDigit(b % 16)]
  }

  function EscapeBytes(bs: seq<int>): (r: string)
    requires forall i :: 0 <= i < |bs| ==> IsByte(bs[i])
    ensures |r| == 3 * |bs|
    ensures forall i :: 0 <= i < |r| ==> IsEncodedChar(r[i])
  {
    if |bs| == 0 then "" else Escape(bs[0]) + EscapeBytes(bs[1..])
  }

  /** The encoding of one character: itself when unreserved, its escaped
      UTF-8 octets otherwise. */
  function EncodeChar(c: char): (r: string)
    ensures 1 <= |r| <= 12
    ensures forall i :: 0 <= i < |r| ==> IsEncodedChar(r[i])
    ensures IsUnreserved(c) <==> r == [c]
  {
    if IsUnreserved(c) then [c] else EscapeBytes(Utf8(c))
  }

  /** `encodeURIComponent(s)`. Characters that would change the structure
      of a URL (`/`, `?`, `&`, `#`, `=`, space) never appear in the result. */
  function Encode(s: string): (r: string)
    ensures forall i :: 0 <= i < |r| ==> IsEncodedChar(r[i])
    ensures |s| <= |r| <= 12 * |s|
  {
    if |s| == 0 then "" else EncodeChar(s[0]) + Encode(s[1..])
  }

  /** The octet written as `%XY` at index `k` of `t`. */
  function ByteAt(t: string, k: nat): Option<int> {
    if k + 3 <= |t| && t[k] == '%' && HexValue(t[k + 1]).Some? && HexValue(t[k + 2]).Some?
    then Some(16 * HexValue(t[k + 1]).value + HexValue(t[k + 2]).value)
    else None
  }

  /** The low six bits of a UTF-8 continuation octet written at index `k`. */
  function ContinuationAt(t: string, k: nat): Option<int> {
    match ByteAt(t, k)
    case Some(b) => if 0x80 <= b < 0xC0 then Some(b - 0x80) else None
    case None => None
  }

  /** The first decoded character of `t` and the number of characters of `t`
      it takes, or None where decodeURIComponent throws a URIError: a
      malformed escape, a stray continuation octet, a truncated sequence, an
      overlong form, a surrogate or a code point above U+10FFFF. */
  function DecodeFirst(t: string): (r: Option<(char, nat)>)
    requires |t| > 0
    ensures r.Some? ==> 1 <= r.value.1 <= |t|
  {
    if t[0] != '%' then Some((t[0], 1))
    else match ByteAt(t, 0)
      case None => None
      case Some(b) =>
        if b < 0x80 then Some((b as char, 3))
        else if 0xC2 <= b < 0xE0 then
          match ContinuationAt(t, 3)
          case None => None
          case Some(c1) => Some((((b - 0xC0) * 64 + c1) as char, 6))
        else if 0xE0 <= b < 0xF0 then
          match (ContinuationAt(t, 3), ContinuationAt(t, 6))
          case (Some(c1), Some(c2)) =>
            var cp := (b - 0xE0) * 4096 + c1 * 64 + c2;
            if cp < 0x800 || (0xD800 <= cp <= 0xDFFF) then None else Some((cp as char, 9))
          case _ => None
        else if 0xF0 <= b < 0xF5 then
          match (ContinuationAt(t, 3), ContinuationAt(t, 6), ContinuationAt(t, 9))
          case (Some(c1), Some(c2), Some(c3)) =>
            var cp := (b - 0xF0) * 262144 + c1 * 4096 + c2 * 64 + c3;
            if cp < 0x10000 || cp > 0x10FFFF then None else Some((cp as char, 12))
          case _ => None
        else None
  }

  /** `decodeURIComponent(t)`, None where it throws a URIError. */
  function Decode(t: string): Option<string>
    decreases |t|
  {
    if |t| == 0 then Some("")
    else match DecodeFirst(t)
      case None => None
      case Some((c, n)) =>
        match Decode(t[n..])
        case None => None
        case Some(rest) => Some([c] + rest)
  }

  lemma ByteAtEscape(x: string, b: int, y: string)
    requires IsByte(b)
    ensures ByteAt(x + Escape(b) + y, |x|) == Some(b)
  {
    var t := x + Escape(b) + y;
    assert t[|x|] == '%' && t[|x| + 1] == HexDigit(b / 16) && t[|x| + 2] == HexDigit(b % 16);
    HexRoundTrip(b / 16);
    HexRoundTrip(b % 16);
  }

  /** An octet read at `k` that is a continuation octet gives its low six
      bits. */
  lemma ContinuationOf(t: string, k: nat, b: int)
    requires ByteAt(t, k) == Some(b) && 0x80 <= b < 0xC0
    ensures ContinuationAt(t, k) == Some(b - 0x80)
  {
  }

  lemma EscapeTwo(b0: int, b1: int)
    requires IsByte(b0) && IsByte(b1)
    ensures EscapeBytes([b0, b1]) == Escape(b0) + Escape(b1)
  {
    assert [b0, b1][1..] == [b1];
  }

  lemma EscapeThree(b0: int, b1: int, b2: int)
    requires IsByte(b0) && IsByte(b1) && IsByte(b2)
    ensures EscapeBytes([b0, b1, b2]) == Escape(b0) + Escape(b1) + Escape(b2)
  {
    EscapeTwo(b1, b2);
    assert [b0, b1, b2][1..] == [b1, b2];
  }

  lemma EscapeFour(b0: int, b1: int, b2: int, b3: int)
    requires IsByte(b0) && IsByte(b1) && IsByte(b2) && IsByte(b3)
    ensures EscapeBytes([b0, b1, b2, b3]) == Escape(b0) + Escape(b1) + Escape(b2) + Escape(b3)
  {
    EscapeThree(b1, b2, b3);
    assert [b0, b1, b2, b3][1..] == [b1, b2, b3];
  }

  /** The octets of escapes followed by anything read back in order. */
  lemma BytesOfTwo(b0: int, b1: int, rest: string)
    requires IsByte(b0) && IsByte(b1)
    ensures var t := Escape(b0) + Escape(b1) + rest;
      ByteAt(t, 0) == Some(b0) && ByteAt(t, 3) == Some(b1)
  {
    var t := Escape(b0) + Escape(b1) + rest;
    ByteAtEscape([], b0, Escape(b1) + rest);
    assert [] + Escape(b0) + (Escape(b1) + rest) == t;
    ByteAtEscape(Escape(b0), b1, rest);
  }

  lemma BytesOfThree(b0: int, b1: int, b2: int, rest: string)
    requires IsByte(b0) && IsByte(b1) && IsByte(b2)
    ensures var t := Escape(b0) + Escape(b1) + Escape(b2) + rest;
      ByteAt(t, 0) == Some(b0) && ByteAt(t, 3) == Some(b1) && ByteAt(t, 6) == Some(b2)
  {
    var t := Escape(b0) + Escape(b1) + Escape(b2) + rest;
    BytesOfTwo(b0, b1, Escape(b2) + rest);
    assert Escape(b0) + Escape(b1) + (Escape(b2) + rest) == t;
    ByteAtEscape(Escape(b0) + Escape(b1), b2, rest);
  }

  lemma BytesOfFour(b0: int, b1: int, b2: int, b3: int, rest: string)
    requires IsByte(b0) && IsByte(b1) && IsByte(b2) && IsByte(b3)
    ensures var t := Escape(b0) + Escape(b1) + Escape(b2) + Escape(b3) + rest;
      && ByteAt(t, 0) == Some(b0) && ByteAt(t, 3) == Some(b1)
      && ByteAt(t, 6) == Some(b2) && ByteAt(t, 9) == Some(b3)
  {
    var t := Escape(b0) + Escape(b1) + Escape(b2) + Escape(b3) + rest;
    BytesOfThree(b0, b1, b2, Escape(b3) + rest);
    assert Escape(b0) + Escape(b1) + Escape(b2) + (Escape(b3) + rest) == t;
    ByteAtEscape(Escape(b0) + Escape(b1) + Escape(b2), b3, rest);
  }

  // ----- Two octets -----

  lemma Utf8TwoArithmetic(cp: int, b0: int, b1: int)
    requires 0x80 <= cp < 0x800
    requires b0 == 0xC0 + cp / 64 && b1 == 0x80 + cp % 64
    ensures 0xC2 <= b0 < 0xE0 && 0x80 <= b1 < 0xC0
    ensures (b0 - 0xC0) * 64 + (b1 - 0x80) == cp
  {
  }

  lemma DecodeFirstOfTwoOctets(t: string, b0: int, c1: int, cp: int)
    requires |t| > 0 && t[0] == '%'
    requires ByteAt(t, 0) == Some(b0) && 0xC2 <= b0 < 0xE0
    requires ContinuationAt(t, 3) == Some(c1)
    requires cp == (b0 - 0xC0) * 64 + c1 && 0x80 <= cp < 0x800
    ensures DecodeFirst(t) == Some((cp as char, 6))
  {
  }

  lemma DecodeFirstTwo(c: char, rest: string)
    requires 0x80 <= c as int < 0x800
    ensures DecodeFirst(EncodeChar(c) + rest) == Some((c, 6))
  {
    var cp := c as int;
    var b0, b1 := 0xC0 + cp / 64, 0x80 + cp % 64;
    Utf8TwoArithmetic(cp, b0, b1);
    assert Utf8(c) == [b0, b1];
    EscapeTwo(b0, b1);
    var t := Escape(b0) + Escape(b1) + rest;
    BytesOfTwo(b0, b1, rest);
    ContinuationOf(t, 3, b1);
    DecodeFirstOfTwoOctets(t, b0, b1 - 0x80, cp);
  }

  // ----- Three octets -----

  lemma Utf8ThreeArithmetic(cp: int, b0: int, b1: int, b2: int)
    requires 0x800 <= cp < 0x10000
    requires b0 == 0xE0 + cp / 4096 && b1 == 0x80 + (cp / 64) % 64 && b2 == 0x80 + cp % 64
    ensures 0xE0 <= b0 < 0xF0 && 0x80 <= b1 < 0xC0 && 0x80 <= b2 < 0xC0
    ensures (b0 - 0xE0) * 4096 + (b1 - 0x80) * 64 + (b2 - 0x80) == cp
  {
    assert cp / 64 == (cp / 4096) * 64 + (cp / 64) % 64;
  }

  lemma DecodeFirstOfThreeOctets(t: string, b0: int, c1: int, c2: int, cp: int)
    requires |t| > 0 && t[0] == '%'
    requires ByteAt(t, 0) == Some(b0) && 0xE0 <= b0 < 0xF0
    requires ContinuationAt(t, 3) == Some(c1)
    requires ContinuationAt(t, 6) == Some(c2)
    requires cp == (b0 - 0xE0) * 4096 + c1 * 64 + c2
    requires 0x800 <= cp < 0x10000 && !(0xD800 <= cp <= 0xDFFF)
    ensures DecodeFirst(t) == Some((cp as char, 9))
  {
  }

  /** The escapes of a three-octet character read back as its lead octet
      and two continuations. */
  lemma EncodedThreeReads(c: char, rest: string)
    requires 0x800 <= c as int < 0x10000
    ensures var cp, t := c as int, EncodeChar(c) + rest;
      && |t| > 0 && t[0] == '%'
      && ByteAt(t, 0) == Some(0xE0 + cp / 4096)
      && ContinuationAt(t, 3) == Some((cp / 64) % 64)
      && ContinuationAt(t, 6) == Some(cp % 64)
  {
    var cp := c as int;
    var b0, b1, b2 := 0xE0 + cp / 4096, 0x80 + (cp / 64) % 64, 0x80 + cp % 64;
    assert Utf8(c) == [b0, b1, b2];
    EscapeThree(b0, b1, b2);
    var t := Escape(b0) + Escape(b1) + Escape(b2) + rest;
    BytesOfThree(b0, b1, b2, rest);
    ContinuationOf(t, 3, b1);
    ContinuationOf(t, 6, b2);
  }

  lemma DecodeFirstThree(c: char, rest: string)
    requires 0x800 <= c as int < 0x10000
    ensures DecodeFirst(EncodeChar(c) + rest) == Some((c, 9))
  {
    var cp := c as int;
    var b0, b1, b2 := 0xE0 + cp / 4096, 0x80 + (cp / 64) % 64, 0x80 + cp % 64;
    Utf8ThreeArithmetic(cp, b0, b1, b2);
    EncodedThreeReads(c, rest);
    DecodeFirstOfThreeOctets(EncodeChar(c) + rest, b0, b1 - 0x80, b2 - 0x80, cp);
  }

  // ----- Four octets -----

  lemma Utf8FourArithmetic(cp: int, b0: int, b1: int, b2: int, b3: int)
    requires 0x10000 <= cp <= 0x10FFFF
    requires b0 == 0xF0 + cp / 262144 && b1 == 0x80 + (cp / 4096) % 64
    requires b2 == 0x80 + (cp / 64) % 64 && b3 == 0x80 + cp % 64
    ensures 0xF0 <= b0 < 0xF5 && 0x80 <= b1 < 0xC0 && 0x80 <= b2 < 0xC0 && 0x80 <= b3 < 0xC0
    ensures (b0 - 0xF0) * 262144 + (b1 - 0x80) * 4096 + (b2 - 0x80) * 64 + (b3 - 0x80) == cp
  {
    assert cp / 4096 == (cp / 262144) * 64 + (cp / 4096) % 64;
    assert cp / 64 == (cp / 4096) * 64 + (cp / 64) % 64;
  }

  lemma DecodeFirstOfFourOctets(t: string, b0: int, c1: int, c2: int, c3: int, cp: int)
    requires |t| > 0 && t[0] == '%'
    requires ByteAt(t, 0) == Some(b0) && 0xF0 <= b0 < 0xF5
    requires ContinuationAt(t, 3) == Some(c1)
    requires ContinuationAt(t, 6) == Some(c2)
    requires ContinuationAt(t, 9) == Some(c3)
    requires cp == (b0 - 0xF0) * 262144 + c1 * 4096 + c2 * 64 + c3
    requires 0x10000 <= cp <= 0x10FFFF
    ensures DecodeFirst(t) == Some((cp as char, 12))
  {
  }

  /** The escapes of a four-octet character read back as its lead octet
      and three continuations. */
  lemma EncodedFourReads(c: char, rest: string)
    requires 0x10000 <= c as int
    ensures var cp, t := c as int, EncodeChar(c) + rest;
      && |t| > 0 && t[0] == '%'
      && ByteAt(t, 0) == Some(0xF0 + cp / 262144)
      && ContinuationAt(t, 3) == Some((cp / 4096) % 64)
      && ContinuationAt(t, 6) == Some((cp / 64) % 64)
      && ContinuationAt(t, 9) == Some(cp % 64)
  {
    var cp := c as int;
    var b0, b1, b2, b3 := 0xF0 + cp / 262144, 0x80 + (cp / 4096) % 64, 0x80 + (cp / 64) % 64, 0x80 + cp % 64;
    assert Utf8(c) == [b0, b1, b2, b3];
    EscapeFour(b0, b1, b2, b3);
    var t := Escape(b0) + Escape(b1) + Escape(b2) + Escape(b3) + rest;
    BytesOfFour(b0, b1, b2, b3, rest);
    ContinuationOf(t, 3, b1);
    ContinuationOf(t, 6, b2);
    ContinuationOf(t, 9, b3);
  }

  lemma DecodeFirstFour(c: char, rest: string)
    requires 0x10000 <= c as int
    ensures DecodeFirst(EncodeChar(c) + rest) == Some((c, 12))
  {
    var cp := c as int;
    var b0, b1, b2, b3 := 0xF0 + cp / 262144, 0x80 + (cp / 4096) % 64, 0x80 + (cp / 64) % 64, 0x80 + cp % 64;
    Utf8FourArithmetic(cp, b0, b1, b2, b3);
    EncodedFourReads(c, rest);
    DecodeFirstOfFourOctets(EncodeChar(c) + rest, b0, b1 - 0x80, b2 - 0x80, b3 - 0x80, cp);
  }

  /** Decoding the encoding of a character reads exactly that character
      back and consumes exactly its encoding. */
  lemma DecodeFirstOfEncoded(c: char, rest: string)
    ensures DecodeFirst(EncodeChar(c) + rest) == Some((c, |EncodeChar(c)|))
  {
    var cp := c as int;
    if IsUnreserved(c) {
    } else if cp < 0x80 {
      var b := cp;
      assert Utf8(c) == [b];
      assert EscapeBytes([b]) == Escape(b);
      ByteAtEscape([], b, rest);
      assert [] + Escape(b) + rest == EncodeChar(c) + rest;
    } else if cp < 0x800 {
      DecodeFirstTwo(c, rest);
    } else if cp < 0x10000 {
      DecodeFirstThree(c, rest);
    } else {
      DecodeFirstFour(c, rest);
    }
  }

  /** decodeURIComponent(encodeURIComponent(s)) == s. */
  lemma {:induction false} DecodeEncode(s: string)
    ensures Decode(Encode(s)) == Some(s)
  {
    if |s| > 0 {
      var e := EncodeChar(s[0]);
      var rest := Encode(s[1..]);
      assert Encode(s) == e + rest;
      DecodeFirstOfEncoded(s[0], rest);
      assert (e + rest)[|e|..] == rest;
      DecodeEncode(s[1..]);
      DecodeCons(e + rest, s[0], |e|, s[1..]);
      assert s == [s[0]] + s[1..];
    }
  }

  /** A text whose first character decodes, followed by a tail that
      decodes, decodes to the character followed by the tail. */
  lemma DecodeCons(t: string, c: char, n: nat, tail: string)
    requires |t| > 0 && DecodeFirst(t) == Some((c, n))
    requires Decode(t[n..]) == Some(tail)
    ensures Decode(t) == Some([c] + tail)
  {
  }

  /** Distinct texts have distinct encodings. */
  lemma EncodeInjective(a: string, b: string)
    requires Encode(a) == Encode(b)
    ensures a == b
  {
    DecodeEncode(a);
    DecodeEncode(b);
  }
}
