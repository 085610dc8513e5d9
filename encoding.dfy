/**
 * The two encodings behind the HTTP Basic `Authorization` header (section 2 of
 * RFC 7617): `str.encode('ascii')` and `base64.b64encode`, with the alphabet
 * and padding of section 4 of RFC 4648. `Base64Decode` is the reference
 * reading that the round-trip lemma shows `Base64Encode` to be inverted by.
 */
module Encoding {
  import opened Wrappers

  newtype byte = x: int | 0 <= x < 256

  /**
   * `s.encode('ascii')`: one byte per character, or `None` when some
   * character is outside ASCII (Python raises `UnicodeEncodeError`).
   */
  function AsciiEncode(s: string): (r: Option<seq<byte>>)
    ensures r.Some? <==> forall k :: 0 <= k < |s| ==> s[k] as int < 128
    ensures r.Some? ==> |r.value| == |s|
    ensures r.Some? ==> forall k :: 0 <= k < |s| ==> r.value[k] as int == s[k] as int
    decreases |s|
  {
    if s == [] then Some([])
    else if s[0] as int >= 128 then None
    else
      match AsciiEncode(s[1..])
      case None => None
      case Some(tail) => Some([s[0] as int as byte] + tail)
  }

  /** A 6-bit value, the unit base64 encodes as one character. */
  type Sextet = x: int | 0 <= x < 64

  const Pad: char := '='

  /** Table 1 of RFC 4648: A-Z for 0-25, a-z for 26-51, 0-9 for 52-61, then '+' and '/'. */
  function CharOf(x: Sextet): (c: char)
    ensures c != Pad
    ensures SextetOf(c) == Some(x)
  {
    if x < 26 then ('A' as int + x) as char
    else if x < 52 then ('a' as int + (x - 26)) as char
    else if x < 62 then ('0' as int + (x - 52)) as char
    else if x == 62 then '+'
    else '/'
  }

  /** The inverse of Table 1: the value of an alphabet character, `None` for any other. */
  function SextetOf(c: char): Option<Sextet> {
    if 'A' as int <= c as int <= 'Z' as int then Some(c as int - 'A' as int)
    else if 'a' as int <= c as int <= 'z' as int then Some(c as int - 'a' as int + 26)
    else if '0' as int <= c as int <= '9' as int then Some(c as int - '0' as int + 52)
    else if c == '+' then Some(62)
    else if c == '/' then Some(63)
    else None
  }

  predicate IsAlphabetChar(c: char) {
    SextetOf(c).Some?
  }

  /** Three bytes, 24 bits, as four characters of 6 bits each, most significant first. */
  function EncodeGroup(a: byte, b: byte, c: byte): seq<char> {
    [CharOf(a as int / 4),
     CharOf(a as int % 4 * 16 + b as int / 16),
     CharOf(b as int % 16 * 4 + c as int / 64),
     CharOf(c as int % 64)]
  }

  /**
   * `base64.b64encode`: each group of three bytes becomes four alphabet
   * characters; a final group of one or two bytes is padded with zero bits
   * and completed with "==" or "=".
   */
  function Base64Encode(s: seq<byte>): string
    decreases |s|
  {
    if |s| == 0 then ""
    else if |s| == 1 then
      [CharOf(s[0] as int / 4), CharOf(s[0] as int % 4 * 16), Pad, Pad]
    else if |s| == 2 then
      [CharOf(s[0] as int / 4), CharOf(s[0] as int % 4 * 16 + s[1] as int / 16),
       CharOf(s[1] as int % 16 * 4), Pad]
    else
      EncodeGroup(s[0], s[1], s[2]) + Base64Encode(s[3..])
  }

  /** Every character is in the alphabet or is padding, and padding sits only in the last two positions. */
  ghost predicate WellPadded(r: string) {
    && (forall k :: 0 <= k < |r| ==> IsAlphabetChar(r[k]) || r[k] == Pad)
    && (forall k :: 0 <= k < |r| - 2 ==> r[k] != Pad)
  }

  ghost predicate Unpadded(r: string) {
    forall k :: 0 <= k < |r| ==> r[k] != Pad
  }

  /**
   * The shape of the encoding: four characters per started group of three
   * bytes, all from the alphabet but for the padding, which only the last two
   * positions can hold and which is absent when the length is a multiple of 3.
   */
  lemma {:induction false} Base64EncodeShape(s: seq<byte>)
    ensures |Base64Encode(s)| == (|s| + 2) / 3 * 4
    ensures WellPadded(Base64Encode(s))
    ensures |s| % 3 == 0 ==> Unpadded(Base64Encode(s))
    decreases |s|
  {
    if |s| >= 3 {
      Base64EncodeShape(s[3..]);
      EncodeFirstGroup(s);
      GroupShape(s[0], s[1], s[2]);
      ConcatShape(EncodeGroup(s[0], s[1], s[2]), Base64Encode(s[3..]));
      LengthStep(|s|);
    } else {
      ShortShape(s);
    }
  }

  lemma LengthStep(n: int)
    requires n >= 3
    ensures (n - 3 + 2) / 3 * 4 + 4 == (n + 2) / 3 * 4
    ensures (n - 3) % 3 == n % 3
  {
  }

  lemma ShortShape(s: seq<byte>)
    requires |s| < 3
    ensures |Base64Encode(s)| == (|s| + 2) / 3 * 4
    ensures WellPadded(Base64Encode(s))
    ensures |s| % 3 == 0 ==> Unpadded(Base64Encode(s))
  {
    assert !IsAlphabetChar(Pad);
  }

  lemma GroupShape(a: byte, b: byte, c: byte)
    ensures |EncodeGroup(a, b, c)| == 4
    ensures forall k :: 0 <= k < 4 ==> IsAlphabetChar(EncodeGroup(a, b, c)[k])
  {
  }

  lemma ConcatShape(g: string, rest: string)
    requires |g| == 4 && forall k :: 0 <= k < 4 ==> IsAlphabetChar(g[k])
    requires WellPadded(rest)
    ensures WellPadded(g + rest)
    ensures Unpadded(rest) ==> Unpadded(g + rest)
  {
    var r := g + rest;
    assert !IsAlphabetChar(Pad);
    forall k | 0 <= k < |r|
      ensures (IsAlphabetChar(r[k]) || r[k] == Pad) && (k < |r| - 2 ==> r[k] != Pad)
      ensures Unpadded(rest) ==> r[k] != Pad
    {
      if k < 4 {
        assert r[k] == g[k];
      } else {
        assert r[k] == rest[k - 4];
      }
    }
  }

  lemma EncodeFirstGroup(s: seq<byte>)
    requires |s| >= 3
    ensures Base64Encode(s) == EncodeGroup(s[0], s[1], s[2]) + Base64Encode(s[3..])
  {
  }

  /** Four sextets as the three bytes they carry. */
  function DecodeGroup(x0: Sextet, x1: Sextet, x2: Sextet, x3: Sextet): seq<byte> {
    [(x0 * 4 + x1 / 16) as byte, (x1 % 16 * 16 + x2 / 4) as byte, (x2 % 4 * 64 + x3) as byte]
  }

  /**
   * Reference decoder: blocks of four characters, where only the last block
   * may end in "==" (one byte) or "=" (two bytes). `None` for any other input.
   */
  function Base64Decode(r: string): Option<seq<byte>>
    decreases |r|
  {
    if |r| == 0 then Some([])
    else if |r| < 4 then None
    else
      match (SextetOf(r[0]), SextetOf(r[1]))
      case (Some(x0), Some(x1)) =>
        if |r| == 4 && r[2] == Pad && r[3] == Pad then
          Some([(x0 * 4 + x1 / 16) as byte])
        else if |r| == 4 && r[3] == Pad then
          (match SextetOf(r[2])
           case Some(x2) => Some([(x0 * 4 + x1 / 16) as byte, (x1 % 16 * 16 + x2 / 4) as byte])
           case None => None)
        else
          (match (SextetOf(r[2]), SextetOf(r[3]), Base64Decode(r[4..]))
           case (Some(x2), Some(x3), Some(rest)) => Some(DecodeGroup(x0, x1, x2, x3) + rest)
           case _ => None)
      case _ => None
  }

  lemma GroupRoundTrip(a: byte, b: byte, c: byte)
    ensures DecodeGroup(a as int / 4, a as int % 4 * 16 + b as int / 16,
                        b as int % 16 * 4 + c as int / 64, c as int % 64) == [a, b, c]
  {
  }

  lemma OneByteRoundTrip(a: byte)
    ensures Base64Decode(Base64Encode([a])) == Some([a])
  {
  }

  lemma TwoBytesRoundTrip(a: byte, b: byte)
    ensures Base64Decode(Base64Encode([a, b])) == Some([a, b])
  {
    var x0, x1, x2 := a as int / 4, a as int % 4 * 16 + b as int / 16, b as int % 16 * 4;
    assert (x0 * 4 + x1 / 16) as byte == a;
    assert (x1 % 16 * 16 + x2 / 4) as byte == b;
    var r := Base64Encode([a, b]);
    assert r == [CharOf(x0), CharOf(x1), CharOf(x2), Pad];
    assert r[2] != Pad && r[3] == Pad;
  }

  lemma GroupThenRest(a: byte, b: byte, c: byte, tail: string, rest: seq<byte>)
    requires Base64Decode(tail) == Some(rest)
    ensures Base64Decode(EncodeGroup(a, b, c) + tail) == Some([a, b, c] + rest)
  {
    var x0, x1 := a as int / 4, a as int % 4 * 16 + b as int / 16;
    var x2, x3 := b as int % 16 * 4 + c as int / 64, c as int % 64;
    var r := EncodeGroup(a, b, c) + tail;
    assert r[0] == CharOf(x0) && r[1] == CharOf(x1) && r[2] == CharOf(x2) && r[3] == CharOf(x3);
    assert r[4..] == tail;
    GroupRoundTrip(a, b, c);
  }

  /** Decoding what `Base64Encode` produced gives back exactly the bytes encoded. */
  lemma {:induction false} Base64RoundTrip(s: seq<byte>)
    ensures Base64Decode(Base64Encode(s)) == Some(s)
    decreases |s|
  {
    if |s| == 1 {
      assert s == [s[0]];
      OneByteRoundTrip(s[0]);
    } else if |s| == 2 {
      assert s == [s[0], s[1]];
      TwoBytesRoundTrip(s[0], s[1]);
    } else if |s| >= 3 {
      Base64RoundTrip(s[3..]);
      GroupsRoundTrip(s);
      SplitThree(s);
    }
  }

  lemma GroupsRoundTrip(s: seq<byte>)
    requires |s| >= 3
    requires Base64Decode(Base64Encode(s[3..])) == Some(s[3..])
    ensures Base64Decode(Base64Encode(s)) == Some([s[0], s[1], s[2]] + s[3..])
  {
    EncodeFirstGroup(s);
    RoundTripStep(s[0], s[1], s[2], s[3..], Base64Encode(s[3..]), Base64Encode(s));
  }

  lemma RoundTripStep(a: byte, b: byte, c: byte, rest: seq<byte>, tail: string, all: string)
    requires Base64Decode(tail) == Some(rest)
    requires all == EncodeGroup(a, b, c) + tail
    ensures Base64Decode(all) == Some([a, b, c] + rest)
  {
    GroupThenRest(a, b, c, tail, rest);
  }

  lemma SplitThree(s: seq<byte>)
    requires |s| >= 3
    ensures [s[0], s[1], s[2]] + s[3..] == s
  {
  }
}
