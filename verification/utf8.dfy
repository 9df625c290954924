/** UTF-8, as `encodeURIComponent` applies it before percent-escaping
    (section 3 of RFC 3629).

    A string here is a sequence of Unicode scalar values (Dafny's `char`).
    A JavaScript string may also hold an unpaired surrogate, for which
    `encodeURIComponent` throws; such strings are not representable. */
module Utf8 {
  import opened Wrappers
  import opened Bytes

  /** A continuation byte carrying the six bits `d`. */
  function Cont(d: nat): (r: byte)
    requires d < 64
    ensures 0x80 <= r < 0xC0
  {
    0x80 + d
  }

  /** The UTF-8 bytes of one scalar value: one to four bytes, the lead byte
      telling how many. */
  function EncodeChar(c: char): (r: seq<byte>)
    ensures 1 <= |r| <= 4
    ensures |r| == 1 <==> c as int < 0x80
    ensures |r| == 1 ==> r[0] == c as int
    ensures forall i :: 1 <= i < |r| ==> 0x80 <= r[i] < 0xC0
  {
    var n := c as int;
    if n < 0x80 then [n]
    else if n < 0x800 then [0xC0 + n / 64, Cont(n % 64)]
    else if n < 0x1_0000 then [0xE0 + n / 64 / 64, Cont(n / 64 % 64), Cont(n % 64)]
    else [0xF0 + n / 64 / 64 / 64, Cont(n / 64 / 64 % 64), Cont(n / 64 % 64), Cont(n % 64)]
  }

  /** The UTF-8 encoding of a whole string. */
  function Encode(s: string): (r: seq<byte>)
    ensures |s| <= |r| <= 4 * |s|
  {
    if |s| == 0 then [] else EncodeChar(s[0]) + Encode(s[1..])
  }

  /** A number that names a Unicode scalar value. */
  predicate IsScalar(n: int) {
    (0 <= n < 0xD800) || (0xE000 <= n < 0x11_0000)
  }

  /** The number of bytes a sequence starting with `lead` spans, or 0 for a
      byte that cannot start one. */
  function SequenceLength(lead: byte): (n: nat)
    ensures n <= 4
  {
    if lead < 0x80 then 1
    else if lead < 0xC0 then 0
    else if lead < 0xE0 then 2
    else if lead < 0xF0 then 3
    else if lead < 0xF8 then 4
    else 0
  }

  /** The smallest scalar value that needs `n` bytes: anything below it is an
      overlong form. */
  function MinimumFor(n: nat): nat {
    if n == 2 then 0x80 else if n == 3 then 0x800 else if n == 4 then 0x1_0000 else 0
  }

  function IsCont(b: byte): bool {
    0x80 <= b < 0xC0
  }

  /** The value carried by the `n` (2 to 4) bytes at the start of `bs`: the
      lead byte's payload bits, then six bits per continuation byte. */
  function Combine(bs: seq<byte>, n: nat): int
    requires 2 <= n <= 4 && n <= |bs|
  {
    var b0: int, b1: int := bs[0], bs[1];
    if n == 2 then (b0 - 0xC0) * 64 + (b1 - 0x80)
    else
      var b2: int := bs[2];
      if n == 3 then ((b0 - 0xE0) * 64 + (b1 - 0x80)) * 64 + (b2 - 0x80)
      else
        var b3: int := bs[3];
        (((b0 - 0xF0) * 64 + (b1 - 0x80)) * 64 + (b2 - 0x80)) * 64 + (b3 - 0x80)
  }

  /** Decodes the sequence starting at `bs[0]`: the scalar value and the
      number of bytes it spans.  Fails on a stray continuation byte, a
      truncated sequence, an overlong form, a surrogate or a value past
      U+10FFFF. */
  function DecodeChar(bs: seq<byte>): (r: Option<(char, nat)>)
    ensures r.Some? ==> 1 <= r.value.1 <= |bs| && r.value.1 == SequenceLength(bs[0])
  {
    if |bs| == 0 then None
    else
      var n := SequenceLength(bs[0]);
      if n == 0 || |bs| < n then None
      else if n == 1 then Some((bs[0] as char, 1))
      else if !IsCont(bs[1]) || (n >= 3 && !IsCont(bs[2])) || (n == 4 && !IsCont(bs[3])) then None
      else
        var cp := Combine(bs, n);
        if cp < MinimumFor(n) || !IsScalar(cp) then None
        else Some((cp as char, n))
  }

  /** Decodes a whole byte sequence, failing if any part of it is not
      well-formed UTF-8. */
  function Decode(bs: seq<byte>): (r: Option<string>)
    ensures r.Some? ==> |r.value| <= |bs|
    decreases |bs|
  {
    if |bs| == 0 then Some([])
    else
      match DecodeChar(bs)
      case None => None
      case Some((c, n)) =>
        match Decode(bs[n..])
        case None => None
        case Some(rest) => Some([c] + rest)
  }

  // ---------------------------------------------------------------------
  // Round trips

  /** Decoding the encoding of one scalar value, whatever follows it, gives
      the value back and consumes exactly its bytes. */
  lemma DecodeEncodeChar(c: char, rest: seq<byte>)
    ensures DecodeChar(EncodeChar(c) + rest) == Some((c, |EncodeChar(c)|))
  {
    var n := c as int;
    var bs := EncodeChar(c) + rest;
    var b0: int, b1: int, b2: int, b3: int := bs[0], 0, 0, 0;
    if n >= 0x80 { b1 := bs[1]; }
    if n >= 0x800 { b2 := bs[2]; }
    if n >= 0x1_0000 { b3 := bs[3]; }
    if n < 0x80 {
    } else if n < 0x800 {
      assert b0 == 0xC0 + n / 64 && b1 == 0x80 + n % 64;
      assert Combine(bs, 2) == n;
    } else if n < 0x1_0000 {
      assert b0 == 0xE0 + n / 64 / 64 && b1 == 0x80 + n / 64 % 64 && b2 == 0x80 + n % 64;
      assert Combine(bs, 3) == n;
    } else {
      assert b0 == 0xF0 + n / 64 / 64 / 64 && b1 == 0x80 + n / 64 / 64 % 64;
      assert b2 == 0x80 + n / 64 % 64 && b3 == 0x80 + n % 64;
      assert Combine(bs, 4) == n;
    }
  }

  /** Decoding an encoded string gives the string back. */
  lemma {:induction false} DecodeEncode(s: string)
    ensures Decode(Encode(s)) == Some(s)
  {
    if |s| > 0 {
      var head, rest := EncodeChar(s[0]), Encode(s[1..]);
      assert Encode(s) == head + rest;
      DecodeEncodeChar(s[0], rest);
      assert (head + rest)[|head|..] == rest;
      DecodeEncode(s[1..]);
      assert s == [s[0]] + s[1..];
    }
  }

  lemma EncodeTwo(b0: byte, b1: byte)
    requires 0xC0 <= b0 < 0xE0 && IsCont(b1)
    requires var cp := (b0 - 0xC0) * 64 + (b1 - 0x80); 0x80 <= cp && IsScalar(cp)
    ensures EncodeChar(((b0 - 0xC0) * 64 + (b1 - 0x80)) as char) == [b0, b1]
  {
    var cp := (b0 - 0xC0) * 64 + (b1 - 0x80);
    assert cp / 64 == b0 - 0xC0 && cp % 64 == b1 - 0x80;
  }

  lemma EncodeThree(b0: byte, b1: byte, b2: byte)
    requires 0xE0 <= b0 < 0xF0 && IsCont(b1) && IsCont(b2)
    requires var cp := ((b0 - 0xE0) * 64 + (b1 - 0x80)) * 64 + (b2 - 0x80); 0x800 <= cp && IsScalar(cp)
    ensures EncodeChar((((b0 - 0xE0) * 64 + (b1 - 0x80)) * 64 + (b2 - 0x80)) as char) == [b0, b1, b2]
  {
    var hi := (b0 - 0xE0) * 64 + (b1 - 0x80);
    var cp := hi * 64 + (b2 - 0x80);
    assert cp / 64 == hi && cp % 64 == b2 - 0x80;
    assert hi / 64 == b0 - 0xE0 && hi % 64 == b1 - 0x80;
  }

  lemma EncodeFour(b0: byte, b1: byte, b2: byte, b3: byte)
    requires 0xF0 <= b0 < 0xF8 && IsCont(b1) && IsCont(b2) && IsCont(b3)
    requires var cp := (((b0 - 0xF0) * 64 + (b1 - 0x80)) * 64 + (b2 - 0x80)) * 64 + (b3 - 0x80);
      0x1_0000 <= cp && IsScalar(cp)
    ensures EncodeChar(((((b0 - 0xF0) * 64 + (b1 - 0x80)) * 64 + (b2 - 0x80)) * 64 + (b3 - 0x80)) as char)
      == [b0, b1, b2, b3]
  {
    var hi := (b0 - 0xF0) * 64 + (b1 - 0x80);
    var mid := hi * 64 + (b2 - 0x80);
    var cp := mid * 64 + (b3 - 0x80);
    assert cp / 64 == mid && cp % 64 == b3 - 0x80;
    assert mid / 64 == hi && mid % 64 == b2 - 0x80;
    assert hi / 64 == b0 - 0xF0 && hi % 64 == b1 - 0x80;
  }

  /** A decoded scalar value re-encodes to exactly the bytes it was read
      from: the decoder accepts only the shortest form. */
  lemma EncodeDecodeChar(bs: seq<byte>)
    requires DecodeChar(bs).Some?
    ensures EncodeChar(DecodeChar(bs).value.0) == bs[..DecodeChar(bs).value.1]
  {
    var n := SequenceLength(bs[0]);
    if n == 2 {
      EncodeTwo(bs[0], bs[1]);
    } else if n == 3 {
      EncodeThree(bs[0], bs[1], bs[2]);
    } else if n == 4 {
      EncodeFour(bs[0], bs[1], bs[2], bs[3]);
    }
  }

  /** Whatever the decoder accepts is the encoding of what it returns. */
  lemma {:induction false} EncodeDecode(bs: seq<byte>)
    requires Decode(bs).Some?
    ensures Encode(Decode(bs).value) == bs
    decreases |bs|
  {
    if |bs| > 0 {
      var c, n, rest := DecodeStep(bs);
      EncodeDecode(bs[n..]);
      ConsRoundTrip(bs, n, c, rest);
    }
  }

  /** The bytes of a scalar value followed by the bytes of a string are the
      encoding of the string with the value in front. */
  lemma ConsRoundTrip(bs: seq<byte>, n: nat, c: char, rest: string)
    requires n <= |bs| && EncodeChar(c) == bs[..n] && Encode(rest) == bs[n..]
    ensures Encode([c] + rest) == bs
  {
    assert ([c] + rest)[1..] == rest;
    assert bs == bs[..n] + bs[n..];
  }

  /** A decoded non-empty sequence is its first scalar value followed by
      the decoding of the bytes after it. */
  lemma DecodeStep(bs: seq<byte>) returns (c: char, n: nat, rest: string)
    requires |bs| > 0 && Decode(bs).Some?
    ensures 0 < n <= |bs| && Decode(bs[n..]) == Some(rest)
    ensures Decode(bs).value == [c] + rest
    ensures EncodeChar(c) == bs[..n]
  {
    c, n := DecodeChar(bs).value.0, DecodeChar(bs).value.1;
    rest := Decode(bs[n..]).value;
    EncodeDecodeChar(bs);
  }
}
