/** `encodeURIComponent`: every character outside the unescaped set is
    written as the percent-escapes (section 2.1 of RFC 3986) of its UTF-8
    bytes, with upper-case hexadecimal digits.  The unescaped set is
    ECMAScript's: ASCII letters, digits and - _ . ! ~ * ' ( ).

    `Decode` is the partner the encoder is checked against: it undoes the
    escapes and then the UTF-8 encoding, as `decodeURIComponent` does. */
module UriComponent {
  import opened Wrappers
  import opened Bytes
  import Utf8

  /** A character `encodeURIComponent` leaves as it is. */
  predicate Unreserved(c: char) {
    || ('A' <= c <= 'Z') || ('a' <= c <= 'z') || ('0' <= c <= '9')
    || c == '-' || c == '_' || c == '.' || c == '!' || c == '~'
    || c == '*' || c == '\'' || c == '(' || c == ')'
  }

  /** An upper-case hexadecimal digit. */
  function HexDigit(d: nat): (c: char)
    requires d < 16
    ensures Unreserved(c)
  {
    if d < 10 then ('0' as int + d) as char else ('A' as int + d - 10) as char
  }

  /** The value of a hexadecimal digit of either case. */
  function HexValue(c: char): (r: Option<nat>)
    ensures r.Some? ==> r.value < 16
  {
    if '0' <= c <= '9' then Some(c as int - '0' as int)
    else if 'A' <= c <= 'F' then Some(c as int - 'A' as int + 10)
    else if 'a' <= c <= 'f' then Some(c as int - 'a' as int + 10)
    else None
  }

  lemma HexValueOfDigit(d: nat)
    requires d < 16
    ensures HexValue(HexDigit(d)) == Some(d)
  {
  }

  /** `%` and the two digits of one byte. */
  function EscapeByte(b: byte): (r: string)
    ensures |r| == 3 && r[0] == '%' && Unreserved(r[1]) && Unreserved(r[2])
  {
    ['%', HexDigit(b / 16), HexDigit(b % 16)]
  }

  function EscapeBytes(bs: seq<byte>): (r: string)
    ensures |r| == 3 * |bs|
    ensures forall i :: 0 <= i < |r| ==> Unreserved(r[i]) || r[i] == '%'
  {
    if |bs| == 0 then "" else EscapeByte(bs[0]) + EscapeBytes(bs[1..])
  }

  function EncodeChar(c: char): (r: string)
    ensures forall i :: 0 <= i < |r| ==> Unreserved(r[i]) || r[i] == '%'
  {
    if Unreserved(c) then [c] else EscapeBytes(Utf8.EncodeChar(c))
  }

  /** encodeURIComponent(s). */
  function Encode(s: string): (r: string)
    ensures forall i :: 0 <= i < |r| ==> Unreserved(r[i]) || r[i] == '%'
    ensures |s| <= |r| <= 12 * |s|
  {
    if |s| == 0 then "" else EncodeChar(s[0]) + Encode(s[1..])
  }

  /** An encoded component never holds a character with a meaning in a
      query string. */
  lemma EncodeHasNoDelimiters(s: string)
    ensures '&' !in Encode(s) && '=' !in Encode(s) && '?' !in Encode(s) && '#' !in Encode(s)
  {
    var r := Encode(s);
    forall c | c in r ensures c != '&' && c != '=' && c != '?' && c != '#' {
      var i :| 0 <= i < |r| && r[i] == c;
    }
  }

  /** Every character left unescaped by the encoder is unreserved, and every
      unreserved character is left unescaped. */
  lemma EncodeKeepsExactlyUnreserved(c: char)
    ensures Unreserved(c) <==> EncodeChar(c) == [c]
  {
    if !Unreserved(c) {
      assert EncodeChar(c)[0] == '%';
    }
  }

  // ---------------------------------------------------------------------
  // Decoding

  function Prepend(bs: seq<byte>, r: Option<seq<byte>>): (p: Option<seq<byte>>)
    ensures p.Some? <==> r.Some?
  {
    match r
    case None => None
    case Some(t) => Some(bs + t)
  }

  /** The bytes a component stands for: each escape gives one byte and every
      other character its UTF-8 bytes.  Fails on a `%` not followed by two
      hexadecimal digits. */
  function PercentDecode(s: string): (r: Option<seq<byte>>)
    decreases |s|
  {
    if |s| == 0 then Some([])
    else if s[0] == '%' then
      if |s| < 3 then None
      else
        match (HexValue(s[1]), HexValue(s[2]))
        case (Some(hi), Some(lo)) => Prepend([hi * 16 + lo], PercentDecode(s[3..]))
        case _ => None
    else Prepend(Utf8.EncodeChar(s[0]), PercentDecode(s[1..]))
  }

  /** decodeURIComponent(s): fails where it would throw URIError. */
  function Decode(s: string): Option<string> {
    match PercentDecode(s)
    case None => None
    case Some(bs) => Utf8.Decode(bs)
  }

  lemma PercentDecodeEscape(b: byte, tail: string)
    ensures PercentDecode(EscapeByte(b) + tail) == Prepend([b], PercentDecode(tail))
  {
    var s := EscapeByte(b) + tail;
    HexValueOfDigit(b / 16);
    HexValueOfDigit(b % 16);
    assert s[1] == HexDigit(b / 16) && s[2] == HexDigit(b % 16) && s[3..] == tail;
  }

  lemma PrependTwice(a: seq<byte>, b: seq<byte>, r: Option<seq<byte>>)
    ensures Prepend(a, Prepend(b, r)) == Prepend(a + b, r)
  {
    if r.Some? {
      assert a + (b + r.value) == (a + b) + r.value;
    }
  }

  lemma PrependNothing(r: Option<seq<byte>>)
    ensures Prepend([], r) == r
  {
    if r.Some? {
      assert [] + r.value == r.value;
    }
  }

  lemma {:induction false} PercentDecodeEscapes(bs: seq<byte>, rest: string)
    ensures PercentDecode(EscapeBytes(bs) + rest) == Prepend(bs, PercentDecode(rest))
    decreases |bs|
  {
    if |bs| > 0 {
      var b, tail := bs[0], EscapeBytes(bs[1..]) + rest;
      var whole := EscapeBytes(bs) + rest;
      assert whole == EscapeByte(b) + tail;
      PercentDecodeEscape(b, tail);
      PercentDecodeEscapes(bs[1..], rest);
      PrependTwice([b], bs[1..], PercentDecode(rest));
      assert [b] + bs[1..] == bs;
    } else {
      assert EscapeBytes(bs) + rest == rest;
      PrependNothing(PercentDecode(rest));
    }
  }

  lemma PercentDecodeChar(c: char, rest: string)
    ensures PercentDecode(EncodeChar(c) + rest) == Prepend(Utf8.EncodeChar(c), PercentDecode(rest))
  {
    if Unreserved(c) {
      assert ([c] + rest)[1..] == rest;
    } else {
      PercentDecodeEscapes(Utf8.EncodeChar(c), rest);
    }
  }

  /** The escapes of an encoded string stand for its UTF-8 bytes. */
  lemma {:induction false} PercentDecodeEncode(s: string)
    ensures PercentDecode(Encode(s)) == Some(Utf8.Encode(s))
  {
    if |s| > 0 {
      PercentDecodeChar(s[0], Encode(s[1..]));
      PercentDecodeEncode(s[1..]);
    }
  }

  /** decodeURIComponent(encodeURIComponent(s)) == s. */
  lemma DecodeEncode(s: string)
    ensures Decode(Encode(s)) == Some(s)
  {
    PercentDecodeEncode(s);
    Utf8.DecodeEncode(s);
  }
}
