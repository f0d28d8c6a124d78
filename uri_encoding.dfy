/**
 * `encodeURIComponent` (ECMAScript, "URI Handling Functions"): every character outside the
 * unreserved set is written as the percent-encoded octets of its UTF-8 form (RFC 3986,
 * section 2.1), with upper-case hexadecimal digits. A Dafny `char` is a Unicode scalar value,
 * so every character has a UTF-8 form and the function is total here.
 */
module UriEncoding {
  import opened Wrappers

  type byte = b: int | 0 <= b < 256

  /** The characters `encodeURIComponent` leaves as they are: letters, digits and `-_.!~*'()`. */
  predicate Unreserved(c: char) {
    'A' <= c <= 'Z' || 'a' <= c <= 'z' || '0' <= c <= '9' || c in "-_.!~*'()"
  }

  /** The upper-case hexadecimal digit of a value below 16. */
  function HexDigit(n: int): (c: char)
    requires 0 <= n < 16
    ensures '0' <= c <= '9' || 'A' <= c <= 'F'
  {
    if n < 10 then ('0' as int + n) as char else ('A' as int + n - 10) as char
  }

  predicate IsHexDigit(c: char) {
    '0' <= c <= '9' || 'A' <= c <= 'F' || 'a' <= c <= 'f'
  }

  function HexValue(c: char): (v: int)
    requires IsHexDigit(c)
    ensures 0 <= v < 16
  {
    if '0' <= c <= '9' then c as int - '0' as int
    else if 'A' <= c <= 'F' then c as int - 'A' as int + 10
    else c as int - 'a' as int + 10
  }

  /** The UTF-8 octets of one code point: one octet below U+0080, up to four above. */
  function Utf8(c: char): (octets: seq<byte>)
    ensures 1 <= |octets| <= 4
    ensures |octets| == 1 <==> c as int < 0x80
    ensures |octets| == (if c as int < 0x80 then 1 else if c as int < 0x800 then 2
                         else if c as int < 0x10000 then 3 else 4)
    ensures octets[0] < 0x80 <==> |octets| == 1
    ensures forall k :: 1 <= k < |octets| ==> 0x80 <= octets[k] < 0xC0
  {
    var n := c as int;
    if n < 0x80 then [n]
    else if n < 0x800 then [0xC0 + n / 64, 0x80 + n % 64]
    else if n < 0x10000 then [0xE0 + n / 4096, 0x80 + (n / 64) % 64, 0x80 + n % 64]
    else [0xF0 + n / 262144, 0x80 + (n / 4096) % 64, 0x80 + (n / 64) % 64, 0x80 + n % 64]
  }

  /** The code point a well-formed one- to four-octet UTF-8 sequence stands for. */
  function CodePoint(octets: seq<byte>): int
    requires 1 <= |octets| <= 4
  {
    var o := seq(|octets|, k requires 0 <= k < |octets| => octets[k] as int);
    if |o| == 1 then o[0]
    else if |o| == 2 then (o[0] - 0xC0) * 64 + (o[1] - 0x80)
    else if |o| == 3 then (o[0] - 0xE0) * 4096 + (o[1] - 0x80) * 64 + (o[2] - 0x80)
    else (o[0] - 0xF0) * 262144 + (o[1] - 0x80) * 4096 + (o[2] - 0x80) * 64 + (o[3] - 0x80)
  }

  /** UTF-8 of a whole string, character by character. */
  function Utf8String(s: string): seq<byte> {
    if s == "" then [] else Utf8(s[0]) + Utf8String(s[1..])
  }

  /** `%XY` for every octet. */
  function PercentEscape(octets: seq<byte>): (r: string)
    ensures |r| == 3 * |octets|
    ensures forall i :: 0 <= i < |r| ==> r[i] == '%' || '0' <= r[i] <= '9' || 'A' <= r[i] <= 'F'
  {
    if octets == [] then ""
    else ['%', HexDigit(octets[0] / 16), HexDigit(octets[0] % 16)] + PercentEscape(octets[1..])
  }

  function EncodeChar(c: char): string {
    if Unreserved(c) then [c] else PercentEscape(Utf8(c))
  }

  /**
   * `encodeURIComponent(s)`. The result only holds unreserved characters and `%`, so no `/`, `?`,
   * `#` or space of the input can end a path segment early; it is never shorter than the input.
   */
  function EncodeURIComponent(s: string): (r: string)
    ensures |r| >= |s|
    ensures forall i :: 0 <= i < |r| ==> Unreserved(r[i]) || r[i] == '%'
  {
    if s == "" then "" else EncodeChar(s[0]) + EncodeURIComponent(s[1..])
  }

  /**
   * Percent-decoding to octets (the inverse of section 2.1 of RFC 3986): `%XY` gives the octet
   * XY, any other ASCII character gives its own code, anything else is malformed.
   */
  function PercentDecode(t: string): Option<seq<byte>> {
    if t == "" then Some([])
    else if t[0] == '%' then
      if |t| >= 3 && IsHexDigit(t[1]) && IsHexDigit(t[2]) then
        match PercentDecode(t[3..])
        case Some(rest) => Some([16 * HexValue(t[1]) + HexValue(t[2])] + rest)
        case None => None
      else None
    else if t[0] as int < 0x80 then
      match PercentDecode(t[1..])
      case Some(rest) => Some([t[0] as int] + rest)
      case None => None
    else None
  }

  // ---------------------------------------------------------------------------------------

  lemma HexDigitsOfOctet(b: byte)
    ensures IsHexDigit(HexDigit(b / 16)) && IsHexDigit(HexDigit(b % 16))
    ensures 16 * HexValue(HexDigit(b / 16)) + HexValue(HexDigit(b % 16)) == b
  {
  }

  /** One escaped octet in front of a decodable string decodes to that octet in front. */
  lemma DecodeTriplet(b: byte, tail: string, rest: seq<byte>)
    requires PercentDecode(tail) == Some(rest)
    ensures PercentDecode(['%', HexDigit(b / 16), HexDigit(b % 16)] + tail) == Some([b] + rest)
  {
    var u := ['%', HexDigit(b / 16), HexDigit(b % 16)] + tail;
    HexDigitsOfOctet(b);
    assert u[0] == '%' && u[1] == HexDigit(b / 16) && u[2] == HexDigit(b % 16) && u[3..] == tail;
  }

  lemma {:induction false} PercentEscapeThenDecode(octets: seq<byte>, t: string, rest: seq<byte>)
    requires PercentDecode(t) == Some(rest)
    ensures PercentDecode(PercentEscape(octets) + t) == Some(octets + rest)
  {
    if octets == [] {
      assert PercentEscape(octets) + t == t;
      assert octets + rest == rest;
    } else {
      var b := octets[0];
      var triplet, escTail := ['%', HexDigit(b / 16), HexDigit(b % 16)], PercentEscape(octets[1..]);
      PercentEscapeThenDecode(octets[1..], t, rest);
      DecodeTriplet(b, escTail + t, octets[1..] + rest);
      assert PercentEscape(octets) == triplet + escTail;
      assert (triplet + escTail) + t == triplet + (escTail + t);
      assert [b] + (octets[1..] + rest) == octets + rest;
    }
  }

  lemma EncodeCharThenDecode(c: char, t: string, rest: seq<byte>)
    requires PercentDecode(t) == Some(rest)
    ensures PercentDecode(EncodeChar(c) + t) == Some(Utf8(c) + rest)
  {
    if Unreserved(c) {
      var u := [c] + t;
      assert u[0] == c && u[1..] == t;
    } else {
      PercentEscapeThenDecode(Utf8(c), t, rest);
    }
  }

  /** Decoding the UTF-8 octets of a character gives back its code point. */
  lemma Utf8Decodes(c: char)
    ensures CodePoint(Utf8(c)) == c as int
  {
    var n := c as int;
    var a, b, d := n / 262144, (n / 4096) % 64, (n / 64) % 64;
    assert n == (n / 64) * 64 + n % 64;
    assert n / 64 == (n / 4096) * 64 + d;
    assert n / 4096 == a * 64 + b;
    if n >= 0x800 && n < 0x10000 {
      assert n / 4096 < 64;
      assert n == (n / 4096) * 4096 + d * 64 + n % 64;
    } else if n >= 0x10000 {
      assert n == a * 262144 + b * 4096 + d * 64 + n % 64;
    }
  }

  /** Round trip: percent-decoding the encoded component yields exactly the UTF-8 octets of the input. */
  lemma {:induction false} DecodeEncode(s: string)
    ensures PercentDecode(EncodeURIComponent(s)) == Some(Utf8String(s))
  {
    if s != "" {
      DecodeEncode(s[1..]);
      EncodeCharThenDecode(s[0], EncodeURIComponent(s[1..]), Utf8String(s[1..]));
    }
  }

  /** A string made only of unreserved characters is passed through unchanged. */
  lemma {:induction false} EncodeUnreservedIsIdentity(s: string)
    requires forall i :: 0 <= i < |s| ==> Unreserved(s[i])
    ensures EncodeURIComponent(s) == s
  {
    if s != "" {
      EncodeUnreservedIsIdentity(s[1..]);
      assert [s[0]] + s[1..] == s;
    }
  }

  /** One reserved character is enough to make the encoding at least two characters longer. */
  lemma {:induction false} EncodeReservedGrows(s: string, j: int)
    requires 0 <= j < |s| && !Unreserved(s[j])
    ensures |EncodeURIComponent(s)| >= |s| + 2
  {
    if j > 0 {
      EncodeReservedGrows(s[1..], j - 1);
    }
  }
}
