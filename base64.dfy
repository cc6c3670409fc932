/** Padded base64 with the standard alphabet (section 4 of RFC 4648), as Node's
    `Buffer.toString('base64')` produces it, and a decoder that inverts it. */
module Base64 {
  import opened Basics

  newtype byte = x: int | 0 <= x < 256

  /** The padding character. */
  const Pad: char := '='

  /** The character of a 6-bit value: A-Z, a-z, 0-9, '+', '/'. */
  function CharOf(v: int): (c: char)
    requires 0 <= v < 64
    ensures c != Pad
  {
    if v < 26 then ('A' as int + v) as char
    else if v < 52 then ('a' as int + (v - 26)) as char
    else if v < 62 then ('0' as int + (v - 52)) as char
    else if v == 62 then '+'
    else '/'
  }

  /** The 6-bit value of an alphabet character; None for anything outside the alphabet. */
  function ValueOf(c: char): (r: Option<int>)
    ensures r.Some? ==> 0 <= r.value < 64 && CharOf(r.value) == c
  {
    if 'A' <= c <= 'Z' then Some(c as int - 'A' as int)
    else if 'a' <= c <= 'z' then Some(c as int - 'a' as int + 26)
    else if '0' <= c <= '9' then Some(c as int - '0' as int + 52)
    else if c == '+' then Some(62)
    else if c == '/' then Some(63)
    else None
  }

  lemma ValueOfCharOf(v: int)
    requires 0 <= v < 64
    ensures ValueOf(CharOf(v)) == Some(v)
  {
  }

  /** Three bytes to four characters. */
  function EncodeTriple(b0: byte, b1: byte, b2: byte): string {
    [CharOf(b0 as int / 4),
     CharOf((b0 as int % 4) * 16 + b1 as int / 16),
     CharOf((b1 as int % 16) * 4 + b2 as int / 64),
     CharOf(b2 as int % 64)]
  }

  /** The final group of one byte: two characters and two pads. */
  function EncodeSingle(b0: byte): string {
    [CharOf(b0 as int / 4), CharOf((b0 as int % 4) * 16), Pad, Pad]
  }

  /** The final group of two bytes: three characters and one pad. */
  function EncodePair(b0: byte, b1: byte): string {
    [CharOf(b0 as int / 4), CharOf((b0 as int % 4) * 16 + b1 as int / 16), CharOf((b1 as int % 16) * 4), Pad]
  }

  /** `Buffer.from(bytes).toString('base64')` */
  function Encode(b: seq<byte>): (r: string)
    ensures |r| == 4 * ((|b| + 2) / 3)
    decreases |b|
  {
    if |b| == 0 then ""
    else if |b| == 1 then EncodeSingle(b[0])
    else if |b| == 2 then EncodePair(b[0], b[1])
    else EncodeTriple(b[0], b[1], b[2]) + Encode(b[3..])
  }

  /** Four alphabet characters to three bytes. */
  function DecodeQuad(s: string): Option<seq<byte>>
    requires |s| == 4
  {
    match (ValueOf(s[0]), ValueOf(s[1]), ValueOf(s[2]), ValueOf(s[3]))
    case (Some(c0), Some(c1), Some(c2), Some(c3)) =>
      Some([(c0 * 4 + c1 / 16) as byte, ((c1 % 16) * 16 + c2 / 4) as byte, ((c2 % 4) * 64 + c3) as byte])
    case _ => None
  }

  /** The last group, which may end in one or two pads. */
  function DecodeFinal(s: string): Option<seq<byte>>
    requires |s| == 4
  {
    if s[2] == Pad && s[3] == Pad then
      match (ValueOf(s[0]), ValueOf(s[1]))
      case (Some(c0), Some(c1)) => Some([(c0 * 4 + c1 / 16) as byte])
      case _ => None
    else if s[3] == Pad then
      match (ValueOf(s[0]), ValueOf(s[1]), ValueOf(s[2]))
      case (Some(c0), Some(c1), Some(c2)) => Some([(c0 * 4 + c1 / 16) as byte, ((c1 % 16) * 16 + c2 / 4) as byte])
      case _ => None
    else DecodeQuad(s)
  }

  /** Padded base64 back to bytes; None when the text is not of that form. */
  function Decode(s: string): Option<seq<byte>>
    decreases |s|
  {
    if |s| == 0 then Some([])
    else if |s| < 4 then None
    else if |s| == 4 then DecodeFinal(s)
    else
      match (DecodeQuad(s[..4]), Decode(s[4..]))
      case (Some(g), Some(rest)) => Some(g + rest)
      case _ => None
  }

  lemma TripleRoundTrip(b0: byte, b1: byte, b2: byte)
    ensures DecodeQuad(EncodeTriple(b0, b1, b2)) == Some([b0, b1, b2])
  {
    var c0, c1, c2, c3 := b0 as int / 4, (b0 as int % 4) * 16 + b1 as int / 16, (b1 as int % 16) * 4 + b2 as int / 64, b2 as int % 64;
    ValueOfCharOf(c0); ValueOfCharOf(c1); ValueOfCharOf(c2); ValueOfCharOf(c3);
    assert c1 / 16 == b0 as int % 4 && c1 % 16 == b1 as int / 16;
    assert c2 / 4 == b1 as int % 16 && c2 % 4 == b2 as int / 64;
  }

  /** A full final group decodes as an inner one: none of its characters is a pad. */
  lemma TripleFinalRoundTrip(b0: byte, b1: byte, b2: byte)
    ensures DecodeFinal(EncodeTriple(b0, b1, b2)) == Some([b0, b1, b2])
  {
    TripleRoundTrip(b0, b1, b2);
  }

  lemma SingleRoundTrip(b0: byte)
    ensures DecodeFinal(EncodeSingle(b0)) == Some([b0])
  {
    var c0, c1 := b0 as int / 4, (b0 as int % 4) * 16;
    ValueOfCharOf(c0); ValueOfCharOf(c1);
    assert c1 / 16 == b0 as int % 4;
  }

  lemma PairRoundTrip(b0: byte, b1: byte)
    ensures DecodeFinal(EncodePair(b0, b1)) == Some([b0, b1])
  {
    var c0, c1, c2 := b0 as int / 4, (b0 as int % 4) * 16 + b1 as int / 16, (b1 as int % 16) * 4;
    ValueOfCharOf(c0); ValueOfCharOf(c1); ValueOfCharOf(c2);
    assert c1 / 16 == b0 as int % 4 && c1 % 16 == b1 as int / 16;
    assert c2 / 4 == b1 as int % 16;
  }

  lemma EncodeStep(b: seq<byte>)
    requires |b| > 2
    ensures Encode(b) == EncodeTriple(b[0], b[1], b[2]) + Encode(b[3..])
  {
  }

  lemma DecodeStep(head: string, tail: string, g: seq<byte>, rest: seq<byte>)
    requires |head| == 4 && |tail| > 0
    requires DecodeQuad(head) == Some(g) && Decode(tail) == Some(rest)
    ensures Decode(head + tail) == Some(g + rest)
  {
    var s := head + tail;
    assert s[..4] == head && s[4..] == tail;
  }

  /** Splitting a byte string into its first group and the rest, for each group size. */
  lemma Regroup(b: seq<byte>)
    ensures |b| == 1 ==> [b[0]] == b
    ensures |b| == 2 ==> [b[0], b[1]] == b
    ensures |b| == 3 ==> [b[0], b[1], b[2]] == b
    ensures |b| >= 3 ==> [b[0], b[1], b[2]] + b[3..] == b
  {
  }

  /** The round trip for a last group of one to three bytes. */
  lemma FinalGroupDecodes(b: seq<byte>)
    requires 1 <= |b| <= 3
    ensures |b| == 1 ==> Decode(Encode(b)) == Some([b[0]])
    ensures |b| == 2 ==> Decode(Encode(b)) == Some([b[0], b[1]])
    ensures |b| == 3 ==> Decode(Encode(b)) == Some([b[0], b[1], b[2]])
  {
    if |b| == 1 {
      SingleRoundTrip(b[0]);
    } else if |b| == 2 {
      PairRoundTrip(b[0], b[1]);
    } else {
      EncodeStep(b);
      TripleFinalRoundTrip(b[0], b[1], b[2]);
      assert EncodeTriple(b[0], b[1], b[2]) + Encode(b[3..]) == EncodeTriple(b[0], b[1], b[2]);
    }
  }

  /** A full group in front of a tail that round-trips decodes to the group's bytes and the tail. */
  lemma LeadingGroupDecodes(b: seq<byte>)
    requires |b| > 3 && Decode(Encode(b[3..])) == Some(b[3..])
    ensures Decode(Encode(b)) == Some([b[0], b[1], b[2]] + b[3..])
  {
    EncodeStep(b);
    assert |Encode(b[3..])| > 0;
    TripleRoundTrip(b[0], b[1], b[2]);
    DecodeStep(EncodeTriple(b[0], b[1], b[2]), Encode(b[3..]), [b[0], b[1], b[2]], b[3..]);
  }

  /** Decoding the encoding of any byte string gives the bytes back. */
  lemma {:induction false} DecodeEncode(b: seq<byte>)
    ensures Decode(Encode(b)) == Some(b)
    decreases |b|
  {
    Regroup(b);
    if 1 <= |b| <= 3 {
      FinalGroupDecodes(b);
    } else if |b| > 3 {
      DecodeEncode(b[3..]);
      LeadingGroupDecodes(b);
    }
  }

  /** The bits of the last character before the pads that no input bit fills are zero
      (section 3.5 of RFC 4648): four of them after one trailing byte, two after two. */
  lemma FinalGroupPadBits(b0: byte, b1: byte)
    ensures ValueOf(EncodeSingle(b0)[1]).Some? && ValueOf(EncodeSingle(b0)[1]).value % 16 == 0
    ensures ValueOf(EncodePair(b0, b1)[2]).Some? && ValueOf(EncodePair(b0, b1)[2]).value % 4 == 0
  {
    ValueOfCharOf((b0 as int % 4) * 16);
    ValueOfCharOf((b1 as int % 16) * 4);
  }

  /** A full group in front leaves the last four characters of the encoding as they are. */
  lemma EncodeSuffix(b: seq<byte>)
    requires |b| > 3 && |Encode(b[3..])| >= 4
    ensures |Encode(b)| >= 4
    ensures Encode(b)[|Encode(b)| - 4..] == Encode(b[3..])[|Encode(b[3..])| - 4..]
  {
    EncodeStep(b);
    var h, t := EncodeTriple(b[0], b[1], b[2]), Encode(b[3..]);
    assert (h + t)[|h + t| - 4..] == t[|t| - 4..];
  }

  /** The padded group that the one or two trailing bytes of `b` encode to. */
  function FinalGroup(b: seq<byte>): string
    requires |b| % 3 != 0
  {
    if |b| % 3 == 1 then EncodeSingle(b[|b| - 1]) else EncodePair(b[|b| - 2], b[|b| - 1])
  }

  /** Dropping a full group in front keeps the trailing bytes. */
  lemma FinalGroupShift(b: seq<byte>)
    requires |b| > 3 && |b| % 3 != 0
    ensures FinalGroup(b[3..]) == FinalGroup(b)
  {
    var t := b[3..];
    assert t[|t| - 1] == b[|b| - 1];
    assert |t| % 3 == 2 ==> t[|t| - 2] == b[|b| - 2];
  }

  /** One step of EncodeLastGroup: the last group of the tail is the last group of the whole. */
  lemma LastGroupStep(b: seq<byte>)
    requires |b| > 3 && |b| % 3 != 0
    requires |Encode(b[3..])| >= 4 && Encode(b[3..])[|Encode(b[3..])| - 4..] == FinalGroup(b[3..])
    ensures |Encode(b)| >= 4 && Encode(b)[|Encode(b)| - 4..] == FinalGroup(b)
  {
    FinalGroupShift(b);
    EncodeSuffix(b);
  }

  /** The encoding ends with the padded group of the one or two trailing bytes. */
  lemma {:induction false} EncodeLastGroup(b: seq<byte>)
    requires |b| % 3 != 0
    ensures |Encode(b)| >= 4 && Encode(b)[|Encode(b)| - 4..] == FinalGroup(b)
    decreases |b|
  {
    if |b| == 1 {
      assert Encode(b) == EncodeSingle(b[0]);
    } else if |b| == 2 {
      assert Encode(b) == EncodePair(b[0], b[1]);
    } else {
      EncodeLastGroup(b[3..]);
      LastGroupStep(b);
    }
  }

  /** The bits of the last character before the pads that no input bit fills are zero. */
  lemma EncodePadBitsZero(b: seq<byte>)
    ensures |b| % 3 == 1 ==>
      var r := Encode(b); |r| >= 4 && ValueOf(r[|r| - 3]).Some? && ValueOf(r[|r| - 3]).value % 16 == 0
    ensures |b| % 3 == 2 ==>
      var r := Encode(b); |r| >= 4 && ValueOf(r[|r| - 2]).Some? && ValueOf(r[|r| - 2]).value % 4 == 0
  {
    if |b| % 3 == 1 {
      EncodeLastGroup(b);
      var r := Encode(b);
      FinalGroupPadBits(b[|b| - 1], 0);
      assert r[|r| - 3] == r[|r| - 4..][1];
    } else if |b| % 3 == 2 {
      EncodeLastGroup(b);
      var r := Encode(b);
      FinalGroupPadBits(b[|b| - 2], b[|b| - 1]);
      assert r[|r| - 2] == r[|r| - 4..][2];
    }
  }

  /** Every character of an encoding is an alphabet character or a pad, and pads come only at the end. */
  lemma {:induction false} EncodeAlphabet(b: seq<byte>)
    ensures forall k :: 0 <= k < |Encode(b)| ==> Encode(b)[k] == Pad || ValueOf(Encode(b)[k]).Some?
    ensures forall k :: 0 <= k < |Encode(b)| && Encode(b)[k] == Pad ==> k >= |Encode(b)| - 2
    decreases |b|
  {
    if |b| > 2 {
      EncodeAlphabet(b[3..]);
      var head := EncodeTriple(b[0], b[1], b[2]);
      var tail := Encode(b[3..]);
      assert Encode(b) == head + tail;
      forall k | 0 <= k < |head| ensures ValueOf(head[k]).Some? {
        var v := if k == 0 then b[0] as int / 4
          else if k == 1 then (b[0] as int % 4) * 16 + b[1] as int / 16
          else if k == 2 then (b[1] as int % 16) * 4 + b[2] as int / 64
          else b[2] as int % 64;
        assert head[k] == CharOf(v);
        ValueOfCharOf(v);
      }
      forall k | 0 <= k < |Encode(b)|
        ensures Encode(b)[k] == Pad || ValueOf(Encode(b)[k]).Some?
        ensures Encode(b)[k] == Pad ==> k >= |Encode(b)| - 2
      {
        if k >= 4 { assert Encode(b)[k] == tail[k - 4]; }
      }
    } else if |b| == 1 {
      ValueOfCharOf(b[0] as int / 4); ValueOfCharOf((b[0] as int % 4) * 16);
    } else if |b| == 2 {
      ValueOfCharOf(b[0] as int / 4);
      ValueOfCharOf((b[0] as int % 4) * 16 + b[1] as int / 16);
      ValueOfCharOf((b[1] as int % 16) * 4);
    }
  }
}
