/**
 * Base64 with the standard alphabet and '=' padding, as section 4 of RFC 4648
 * defines it and PHP's `base64_encode` produces it.
 */
module Base64 {
  import opened Common

  type Byte = b: int | 0 <= b < 256

  /** The alphabet of section 4 of RFC 4648: A-Z, a-z, 0-9, '+', '/'. */
  function EncodeSextet(v: int): (c: char)
    requires 0 <= v < 64
  {
    if v < 26 then ('A' as int + v) as char
    else if v < 52 then ('a' as int + (v - 26)) as char
    else if v < 62 then ('0' as int + (v - 52)) as char
    else if v == 62 then '+'
    else '/'
  }

  function DecodeSextet(c: char): (r: Option<int>)
    ensures r.Some? ==> 0 <= r.value < 64
  {
    if 'A' <= c <= 'Z' then Some(c as int - 'A' as int)
    else if 'a' <= c <= 'z' then Some(c as int - 'a' as int + 26)
    else if '0' <= c <= '9' then Some(c as int - '0' as int + 52)
    else if c == '+' then Some(62)
    else if c == '/' then Some(63)
    else None
  }

  lemma SextetRoundTrip(v: int)
    requires 0 <= v < 64
    ensures DecodeSextet(EncodeSextet(v)) == Some(v)
    ensures EncodeSextet(v) != '='
  {
  }

  /** The four characters of a full group of three bytes. */
  function EncodeGroup(b0: Byte, b1: Byte, b2: Byte): string
  {
    [EncodeSextet(b0 / 4), EncodeSextet((b0 % 4) * 16 + b1 / 16),
     EncodeSextet((b1 % 16) * 4 + b2 / 64), EncodeSextet(b2 % 64)]
  }

  function Encode(data: seq<Byte>): (r: string)
    ensures |r| == 0 <==> |data| == 0
    decreases |data|
  {
    if |data| == 0 then ""
    else if |data| == 1 then
      [EncodeSextet(data[0] / 4), EncodeSextet((data[0] % 4) * 16), '=', '=']
    else if |data| == 2 then
      [EncodeSextet(data[0] / 4), EncodeSextet((data[0] % 4) * 16 + data[1] / 16),
       EncodeSextet((data[1] % 16) * 4), '=']
    else EncodeGroup(data[0], data[1], data[2]) + Encode(data[3..])
  }

  /** Every three bytes, and a last one or two, take four characters. */
  lemma {:induction false} EncodedLength(data: seq<Byte>)
    ensures |Encode(data)| == (|data| + 2) / 3 * 4
    decreases |data|
  {
    if |data| > 3 {
      EncodedLength(data[3..]);
      GroupCount(|data|);
    }
  }

  lemma GroupCount(n: int)
    requires n > 3
    ensures (n - 3 + 2) / 3 * 4 + 4 == (n + 2) / 3 * 4
  {
    assert (n + 2) / 3 == (n - 3 + 2) / 3 + 1;
  }

  /** Decodes a group of four characters that carries three bytes. */
  function DecodeGroup(c0: char, c1: char, c2: char, c3: char): Option<seq<Byte>>
  {
    match (DecodeSextet(c0), DecodeSextet(c1), DecodeSextet(c2), DecodeSextet(c3))
    case (Some(v0), Some(v1), Some(v2), Some(v3)) =>
      Some([v0 * 4 + v1 / 16, (v1 % 16) * 16 + v2 / 4, (v2 % 4) * 64 + v3])
    case _ => None
  }

  /** Decodes the last group, which may end in one or two '=' characters. */
  function DecodeFinalGroup(c0: char, c1: char, c2: char, c3: char): Option<seq<Byte>>
  {
    if c2 == '=' && c3 == '=' then
      match (DecodeSextet(c0), DecodeSextet(c1))
      case (Some(v0), Some(v1)) => Some([v0 * 4 + v1 / 16])
      case _ => None
    else if c3 == '=' then
      match (DecodeSextet(c0), DecodeSextet(c1), DecodeSextet(c2))
      case (Some(v0), Some(v1), Some(v2)) => Some([v0 * 4 + v1 / 16, (v1 % 16) * 16 + v2 / 4])
      case _ => None
    else DecodeGroup(c0, c1, c2, c3)
  }

  /** The inverse of Encode; None for text that is not padded Base64. */
  function Decode(s: string): Option<seq<Byte>>
    decreases |s|
  {
    if |s| == 0 then Some([])
    else if |s| < 4 then None
    else if |s| == 4 then DecodeFinalGroup(s[0], s[1], s[2], s[3])
    else
      match DecodeGroup(s[0], s[1], s[2], s[3])
      case None => None
      case Some(head) =>
        match Decode(s[4..])
        case None => None
        case Some(tail) => Some(head + tail)
  }

  lemma ByteSplitRoundTrip(b0: Byte, b1: Byte, b2: Byte)
    ensures (b0 / 4) * 4 + ((b0 % 4) * 16 + b1 / 16) / 16 == b0
    ensures (((b0 % 4) * 16 + b1 / 16) % 16) * 16 + ((b1 % 16) * 4 + b2 / 64) / 4 == b1
    ensures (((b1 % 16) * 4 + b2 / 64) % 4) * 64 + b2 % 64 == b2
  {
  }

  lemma GroupRoundTrip(b0: Byte, b1: Byte, b2: Byte)
    ensures var g := EncodeGroup(b0, b1, b2);
      DecodeGroup(g[0], g[1], g[2], g[3]) == Some([b0, b1, b2])
    ensures '=' !in EncodeGroup(b0, b1, b2)
  {
    SextetRoundTrip(b0 / 4);
    SextetRoundTrip((b0 % 4) * 16 + b1 / 16);
    SextetRoundTrip((b1 % 16) * 4 + b2 / 64);
    SextetRoundTrip(b2 % 64);
    ByteSplitRoundTrip(b0, b1, b2);
  }

  /** A last group with two '=' decodes to one byte built from its two sextets. */
  lemma FinalSingleDecodes(v0: int, v1: int)
    requires 0 <= v0 < 64 && 0 <= v1 < 64
    ensures 0 <= v0 * 4 + v1 / 16 < 256
    ensures Decode([EncodeSextet(v0), EncodeSextet(v1), '=', '=']) == Some([v0 * 4 + v1 / 16])
  {
    SextetRoundTrip(v0);
    SextetRoundTrip(v1);
  }

  /** The arithmetic of a group holding one byte. */
  lemma OneByteSplit(b0: Byte)
    ensures (b0 / 4) * 4 + ((b0 % 4) * 16) / 16 == b0
  {
    ByteSplitRoundTrip(b0, 0, 0);
  }

  /** The last group Encode writes for one byte decodes to that byte. */
  lemma SingleGroupDecodes(b0: Byte)
    ensures Decode([EncodeSextet(b0 / 4), EncodeSextet((b0 % 4) * 16), '=', '=']) == Some([b0])
  {
    FinalSingleDecodes(b0 / 4, (b0 % 4) * 16);
    OneByteSplit(b0);
  }

  lemma OneByteRoundTrip(data: seq<Byte>)
    requires |data| == 1
    ensures Decode(Encode(data)) == Some(data)
  {
    SingleGroupDecodes(data[0]);
    assert data == [data[0]];
  }

  /** The arithmetic of a group holding two bytes. */
  lemma TwoByteSplit(b0: Byte, b1: Byte)
    ensures (b0 / 4) * 4 + ((b0 % 4) * 16 + b1 / 16) / 16 == b0
    ensures (((b0 % 4) * 16 + b1 / 16) % 16) * 16 + ((b1 % 16) * 4) / 4 == b1
  {
    ByteSplitRoundTrip(b0, b1, 0);
  }

  /** A last group with one '=' decodes to two bytes built from its three sextets. */
  lemma FinalPairDecodes(v0: int, v1: int, v2: int)
    requires 0 <= v0 < 64 && 0 <= v1 < 64 && 0 <= v2 < 64
    ensures 0 <= v0 * 4 + v1 / 16 < 256 && 0 <= (v1 % 16) * 16 + v2 / 4 < 256
    ensures Decode([EncodeSextet(v0), EncodeSextet(v1), EncodeSextet(v2), '=']) ==
      Some([v0 * 4 + v1 / 16, (v1 % 16) * 16 + v2 / 4])
  {
    SextetRoundTrip(v0);
    SextetRoundTrip(v1);
    SextetRoundTrip(v2);
  }

  /** The last group Encode writes for two bytes decodes to those bytes. */
  lemma PairGroupDecodes(b0: Byte, b1: Byte)
    ensures Decode([EncodeSextet(b0 / 4), EncodeSextet((b0 % 4) * 16 + b1 / 16), EncodeSextet((b1 % 16) * 4), '=']) ==
      Some([b0, b1])
  {
    FinalPairDecodes(b0 / 4, (b0 % 4) * 16 + b1 / 16, (b1 % 16) * 4);
    TwoByteSplit(b0, b1);
  }

  lemma TwoBytesRoundTrip(data: seq<Byte>)
    requires |data| == 2
    ensures Decode(Encode(data)) == Some(data)
  {
    PairGroupDecodes(data[0], data[1]);
    assert data == [data[0], data[1]];
  }

  lemma ThreeBytesRoundTrip(data: seq<Byte>)
    requires |data| == 3
    ensures Decode(Encode(data)) == Some(data)
  {
    GroupRoundTrip(data[0], data[1], data[2]);
    SextetRoundTrip((data[1] % 16) * 4 + data[2] / 64);
    SextetRoundTrip(data[2] % 64);
    assert data[3..] == [];
    assert Encode(data) == EncodeGroup(data[0], data[1], data[2]);
    assert data == [data[0], data[1], data[2]];
  }

  /** A full group in front of a non-empty encoding decodes group by group. */
  lemma DecodeInFront(group: string, rest: string, head: seq<Byte>, tail: seq<Byte>)
    requires |group| == 4 && |rest| > 0
    requires DecodeGroup(group[0], group[1], group[2], group[3]) == Some(head)
    requires Decode(rest) == Some(tail)
    ensures Decode(group + rest) == Some(head + tail)
  {
    var s := group + rest;
    assert s[0] == group[0] && s[1] == group[1] && s[2] == group[2] && s[3] == group[3];
    assert s[4..] == rest;
  }

  /** Three bytes in front of more bytes encode as a full group in front. */
  lemma EncodeCons(b0: Byte, b1: Byte, b2: Byte, rest: seq<Byte>)
    requires |rest| > 0
    ensures Encode([b0, b1, b2] + rest) == EncodeGroup(b0, b1, b2) + Encode(rest)
  {
    var data := [b0, b1, b2] + rest;
    assert |data| > 3 && data[0] == b0 && data[1] == b1 && data[2] == b2;
    assert data[3..] == rest;
  }

  /** One more full group in front of an encoding that round-trips keeps the round trip. */
  lemma GroupInFront(b0: Byte, b1: Byte, b2: Byte, e: string, rest: seq<Byte>)
    requires |e| > 0 && Decode(e) == Some(rest)
    ensures Decode(EncodeGroup(b0, b1, b2) + e) == Some([b0, b1, b2] + rest)
  {
    GroupRoundTrip(b0, b1, b2);
    DecodeInFront(EncodeGroup(b0, b1, b2), e, [b0, b1, b2], rest);
  }

  /** Decoding what Encode produced gives back the bytes. */
  lemma {:induction false} DecodeEncode(data: seq<Byte>)
    ensures Decode(Encode(data)) == Some(data)
    decreases |data|
  {
    if |data| == 1 {
      OneByteRoundTrip(data);
    } else if |data| == 2 {
      TwoBytesRoundTrip(data);
    } else if |data| == 3 {
      ThreeBytesRoundTrip(data);
    } else if |data| > 3 {
      DecodeEncode(data[3..]);
      LongRoundTrip(data[0], data[1], data[2], data[3..]);
      SplitThree(data);
    }
  }

  lemma SplitThree<T>(s: seq<T>)
    requires |s| >= 3
    ensures [s[0], s[1], s[2]] + s[3..] == s
  {
  }

  /** More than three bytes round-trip when the bytes after the first group do. */
  lemma LongRoundTrip(b0: Byte, b1: Byte, b2: Byte, rest: seq<Byte>)
    requires |rest| > 0 && Decode(Encode(rest)) == Some(rest)
    ensures Decode(Encode([b0, b1, b2] + rest)) == Some([b0, b1, b2] + rest)
  {
    EncodeCons(b0, b1, b2, rest);
    GroupInFront(b0, b1, b2, Encode(rest), rest);
  }
}
