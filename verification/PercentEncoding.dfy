/**
 * encodeURIComponent and decodeURIComponent: the percent encoding of section 2.1 of RFC 3986
 * over UTF-8. Strings are sequences of Unicode scalar values, so every string is well formed.
 */
module PercentEncoding {
  import opened Confidence

  /** The characters encodeURIComponent leaves alone. */
  predicate Unreserved(c: char) {
    || 'A' <= c <= 'Z' || 'a' <= c <= 'z' || '0' <= c <= '9'
    || c == '-' || c == '_' || c == '.' || c == '!' || c == '~' || c == '*'
    || c == '\'' || c == '(' || c == ')'
  }

  // ----- octets -----

  type byte = b: nat | b < 256

  function HexDigit(n: nat): (c: char)
    requires n < 16
    ensures Unreserved(c) && HexValue(c) == Some(n)
  {
    if n < 10 then '0' + n as char else 'A' + (n - 10) as char
  }

  function HexValue(c: char): (v: Option<nat>)
    ensures v.Some? ==> v.value < 16
  {
    if '0' <= c <= '9' then Some(c as int - '0' as int)
    else if 'A' <= c <= 'F' then Some(c as int - 'A' as int + 10)
    else if 'a' <= c <= 'f' then Some(c as int - 'a' as int + 10)
    else None
  }

  function Escape(b: byte): (s: string)
    ensures |s| == 3
  {
    ['%', HexDigit(b / 16), HexDigit(b % 16)]
  }

  const UPPER := "0123456789ABCDEF"
  const LOWER := "0123456789abcdef"

  /** Escapes are written with upper-case digits ... */
  lemma EscapeMeans(b: byte)
    ensures Escape(b) == ['%', UPPER[b / 16], UPPER[b % 16]]
  {
  }

  lemma HexListed(n: nat, c: char)
    requires n < 16 && (c == UPPER[n] || c == LOWER[n])
    ensures HexValue(c) == Some(n)
  {
  }

  /** ... and read in either case. */
  lemma EitherCase(b: byte, c: char, d: char, rest: string)
    requires c == UPPER[b / 16] || c == LOWER[b / 16]
    requires d == UPPER[b % 16] || d == LOWER[b % 16]
    ensures Octet(['%', c, d] + rest) == Some(b)
  {
    HexListed(b / 16, c);
    HexListed(b % 16, d);
  }

  /** The unreserved marks of encodeURIComponent, listed; letters and digits aside. */
  lemma UnreservedMarks(c: char)
    requires !('A' <= c <= 'Z' || 'a' <= c <= 'z' || '0' <= c <= '9')
    ensures Unreserved(c) <==> c in "-_.!~*'()"
  {
  }

  /** The octet written at the front of s, if there is one. */
  function Octet(s: string): (b: Option<byte>) {
    if |s| < 3 || s[0] != '%' || HexValue(s[1]).None? || HexValue(s[2]).None? then None
    else Some(HexValue(s[1]).value * 16 + HexValue(s[2]).value)
  }

  /** n octets written one after the other at the front of s. */
  function Octets(s: string, n: nat): (bs: Option<seq<byte>>)
    ensures bs.Some? ==> |bs.value| == n && 3 * n <= |s|
  {
    if n == 0 then Some([])
    else if Octet(s).None? then None
    else
      match Octets(s[3..], n - 1)
      case None => None
      case Some(rest) => Some([Octet(s).value] + rest)
  }

  function Escapes(bs: seq<byte>): (s: string)
    ensures |s| == 3 * |bs|
  {
    if bs == [] then "" else Escape(bs[0]) + Escapes(bs[1..])
  }

  lemma OctetOfEscape(b: byte, rest: string)
    ensures Octet(Escape(b) + rest) == Some(b) && (Escape(b) + rest)[3..] == rest
  {
  }

  lemma {:induction false} OctetsOfEscapes(bs: seq<byte>, rest: string)
    ensures Octets(Escapes(bs) + rest, |bs|) == Some(bs)
  {
    if bs != [] {
      FirstOctet(bs, rest);
      OctetsOfEscapes(bs[1..], rest);
      assert bs == [bs[0]] + bs[1..];
    }
  }

  // ----- UTF-8 -----

  function Utf8(c: char): (bs: seq<byte>)
    ensures 1 <= |bs| <= 4
  {
    var n := c as int;
    if n < 0x80 then [n]
    else if n < 0x800 then [0xC0 + n / 64, 0x80 + n % 64]
    else if n < 0x1_0000 then [0xE0 + n / 4096, 0x80 + n / 64 % 64, 0x80 + n % 64]
    else [0xF0 + n / 262144, 0x80 + n / 4096 % 64, 0x80 + n / 64 % 64, 0x80 + n % 64]
  }

  /** How many octets the leading octet announces; 0 when it cannot lead. */
  function Width(b: byte): (w: nat)
    ensures w <= 4
  {
    if b < 0x80 then 1
    else if 0xC0 <= b < 0xE0 then 2
    else if 0xE0 <= b < 0xF0 then 3
    else if 0xF0 <= b < 0xF8 then 4
    else 0
  }

  predicate Continues(b: byte) {
    0x80 <= b < 0xC0
  }

  /** Overlong forms, surrogates and values past U+10FFFF are refused. */
  function ScalarOf(n: int, least: int): (c: Option<char>)
    requires least >= 0
  {
    if n < least || 0xD800 <= n < 0xE000 || n > 0x10_FFFF then None else Some(n as char)
  }

  function FromUtf8(bs: seq<byte>): (c: Option<char>) {
    if exists i :: 0 < i < |bs| && !Continues(bs[i]) then None
    else
      match |bs|
      case 1 => ScalarOf(bs[0], 0)
      case 2 => ScalarOf((bs[0] as int - 0xC0) * 64 + (bs[1] as int - 0x80), 0x80)
      case 3 => ScalarOf((bs[0] as int - 0xE0) * 4096 + (bs[1] as int - 0x80) * 64 + (bs[2] as int - 0x80), 0x800)
      case 4 =>
        ScalarOf((bs[0] as int - 0xF0) * 262144 + (bs[1] as int - 0x80) * 4096 + (bs[2] as int - 0x80) * 64 + (bs[3] as int - 0x80),
                 0x1_0000)
      case _ => None
  }

  /** The base-64 digits of a code point. */
  lemma Digits(n: nat)
    ensures n == n / 64 * 64 + n % 64
    ensures n / 64 == n / 4096 * 64 + n / 64 % 64
    ensures n / 4096 == n / 262144 * 64 + n / 4096 % 64
  {
  }

  lemma Utf8RoundTrip(c: char)
    ensures FromUtf8(Utf8(c)) == Some(c) && Width(Utf8(c)[0]) == |Utf8(c)|
  {
    var n := c as int;
    if n < 0x800 {
      ShortRoundTrip(c);
    } else if n < 0x1_0000 {
      ThreeRoundTrip(c);
    } else {
      FourRoundTrip(c);
    }
  }

  lemma ShortRoundTrip(c: char)
    requires c as int < 0x800
    ensures FromUtf8(Utf8(c)) == Some(c) && Width(Utf8(c)[0]) == |Utf8(c)|
  {
    Digits(c as int);
  }

  lemma ThreeRoundTrip(c: char)
    requires 0x800 <= c as int < 0x1_0000
    ensures FromUtf8(Utf8(c)) == Some(c) && Width(Utf8(c)[0]) == |Utf8(c)|
  {
    Digits(c as int);
  }

  lemma FourRoundTrip(c: char)
    requires c as int >= 0x1_0000
    ensures FromUtf8(Utf8(c)) == Some(c) && Width(Utf8(c)[0]) == |Utf8(c)|
  {
    Digits(c as int);
  }

  // ----- strings -----

  function EncodeChar(c: char): (s: string) {
    if Unreserved(c) then [c] else Escapes(Utf8(c))
  }

  function Encode(s: string): (t: string) {
    if s == "" then "" else EncodeChar(s[0]) + Encode(s[1..])
  }

  /** The first character of an encoded text and how many characters spell it. */
  function DecodeOne(s: string): (r: Option<(char, nat)>)
    requires s != ""
    ensures r.Some? ==> 1 <= r.value.1 <= |s| && (r.value.1 > 1 <==> s[0] == '%')
    ensures r.Some? && s[0] != '%' ==> r.value.0 == s[0]
  {
    if s[0] != '%' then Some((s[0], 1))
    else if Octet(s).None? then None
    else
      var w := Width(Octet(s).value);
      if w == 0 then None
      else
        match Octets(s, w)
        case None => None
        case Some(bs) =>
          match FromUtf8(bs)
          case None => None
          case Some(c) => Some((c, 3 * w))
  }

  /** None models the URIError. */
  function Decode(s: string): (r: Option<string>) {
    if s == "" then Some("")
    else
      match DecodeOne(s)
      case None => None
      case Some((c, used)) =>
        match Decode(s[used..])
        case None => None
        case Some(rest) => Some([c] + rest)
  }

  lemma DecodeOneOfEncoded(c: char, rest: string)
    ensures EncodeChar(c) != ""
    ensures DecodeOne(EncodeChar(c) + rest) == Some((c, |EncodeChar(c)|))
  {
    if !Unreserved(c) {
      Utf8RoundTrip(c);
      OctetsOfEscapes(Utf8(c), rest);
      FirstOctet(Utf8(c), rest);
    }
  }

  lemma FirstOctet(bs: seq<byte>, rest: string)
    requires bs != []
    ensures Octet(Escapes(bs) + rest) == Some(bs[0]) && (Escapes(bs) + rest)[0] == '%'
    ensures (Escapes(bs) + rest)[3..] == Escapes(bs[1..]) + rest
  {
    var tail := Escapes(bs[1..]) + rest;
    OctetOfEscape(bs[0], tail);
    assert Escapes(bs) + rest == Escape(bs[0]) + tail;
  }

  lemma DecodeStep(one: string, rest: string, c: char, tail: string)
    requires one != "" && DecodeOne(one + rest) == Some((c, |one|)) && Decode(rest) == Some(tail)
    ensures Decode(one + rest) == Some([c] + tail)
  {
    assert (one + rest)[|one|..] == rest;
  }

  /** Decoding undoes encoding, for every string. */
  lemma {:induction false} EncodeRoundTrip(s: string)
    ensures Decode(Encode(s)) == Some(s)
  {
    if s != "" {
      DecodeOneOfEncoded(s[0], Encode(s[1..]));
      EncodeRoundTrip(s[1..]);
      DecodeStep(EncodeChar(s[0]), Encode(s[1..]), s[0], s[1..]);
      assert s == [s[0]] + s[1..];
    }
  }

  /** Decoding never lengthens, and changes the text exactly when it holds a percent sign. */
  lemma {:induction false} DecodeShortens(s: string)
    requires Decode(s).Some?
    ensures |Decode(s).value| <= |s|
    ensures Decode(s).value == s <==> '%' !in s
    ensures '%' in s ==> |Decode(s).value| < |s|
    decreases |s|
  {
    if s != "" {
      var (c, used) := DecodeOne(s).value;
      DecodeShortens(s[used..]);
      assert s == [s[0]] + s[1..];
    }
  }

  lemma {:induction false} DecodePlain(s: string)
    requires '%' !in s
    ensures Decode(s) == Some(s)
  {
    if s != "" {
      DecodePlain(s[1..]);
      assert s == [s[0]] + s[1..];
    }
  }

  ghost predicate AllUnreserved(s: string) {
    forall c <- s :: Unreserved(c)
  }

  lemma {:induction false} EscapesAreClean(bs: seq<byte>)
    ensures forall c <- Escapes(bs) :: Unreserved(c) || c == '%'
  {
    if bs != [] {
      EscapesAreClean(bs[1..]);
    }
  }

  /** An encoded text holds no delimiter, and is the text itself exactly when nothing needed escaping. */
  lemma {:induction false} EncodeIsClean(s: string)
    ensures forall c <- Encode(s) :: Unreserved(c) || c == '%'
    ensures |Encode(s)| >= |s|
    ensures Encode(s) == s <==> AllUnreserved(s)
    ensures !AllUnreserved(s) ==> |Encode(s)| > |s|
  {
    if s != "" {
      EncodeIsClean(s[1..]);
      assert s == [s[0]] + s[1..];
      if !Unreserved(s[0]) {
        EscapesAreClean(Utf8(s[0]));
      }
    }
  }
}
