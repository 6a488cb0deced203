/** The base64 encoding of section 4 of RFC 4648 with `=` padding, which
    `Convert.ToBase64String` applies to the JPEG bytes in `SerializeRequest`
    (Scripts/ImageSerializer.cs), and its inverse. */
module Base64 {
  import opened Common

  /** The character for a 6-bit value, from the alphabet of table 1 of RFC 4648. */
  function CharOf(v: int): (c: char)
    requires 0 <= v < 64
    ensures IsBase64Char(c)
  {
    if v < 26 then ('A' as int + v) as char
    else if v < 52 then ('a' as int + (v - 26)) as char
    else if v < 62 then ('0' as int + (v - 52)) as char
    else if v == 62 then '+'
    else '/'
  }

  predicate IsBase64Char(c: char) {
    ('A' <= c <= 'Z') || ('a' <= c <= 'z') || ('0' <= c <= '9') || c == '+' || c == '/'
  }

  /** The 6-bit value of an alphabet character; `None` for anything else, padding included. */
  function ValueOf(c: char): (r: Option<int>)
    ensures r.Some? <==> IsBase64Char(c)
    ensures r.Some? ==> 0 <= r.value < 64 && CharOf(r.value) == c
  {
    if 'A' <= c <= 'Z' then Some(c as int - 'A' as int)
    else if 'a' <= c <= 'z' then Some(c as int - 'a' as int + 26)
    else if '0' <= c <= '9' then Some(c as int - '0' as int + 52)
    else if c == '+' then Some(62)
    else if c == '/' then Some(63)
    else None
  }

  lemma ValueOfCharOf(v: int)
    requires 0 <= v < 64
    ensures ValueOf(CharOf(v)) == Some(v)
  {
  }

  const Pad: char := '='

  // ---------------------------------------------------------------------------------------
  // Encoding

  /** Three bytes as four characters: the 24 bits split into four 6-bit groups. */
  function EncodeGroup(b0: byte, b1: byte, b2: byte): (r: string)
    ensures |r| == 4 && forall i :: 0 <= i < 4 ==> IsBase64Char(r[i])
  {
    var x0, x1, x2 := b0 as int, b1 as int, b2 as int;
    [CharOf(x0 / 4), CharOf((x0 % 4) * 16 + x1 / 16), CharOf((x1 % 16) * 4 + x2 / 64), CharOf(x2 % 64)]
  }

  /** A final group of one byte: two characters and two pads. */
  function EncodeOne(b0: byte): string {
    var x0 := b0 as int;
    [CharOf(x0 / 4), CharOf((x0 % 4) * 16), Pad, Pad]
  }

  /** A final group of two bytes: three characters and one pad. */
  function EncodeTwo(b0: byte, b1: byte): string {
    var x0, x1 := b0 as int, b1 as int;
    [CharOf(x0 / 4), CharOf((x0 % 4) * 16 + x1 / 16), CharOf((x1 % 16) * 4), Pad]
  }

  function Encode(s: seq<byte>): (r: string)
    ensures |r| % 4 == 0 && (r == [] <==> s == [])
    decreases |s|
  {
    if |s| == 0 then ""
    else if |s| == 1 then EncodeOne(s[0])
    else if |s| == 2 then EncodeTwo(s[0], s[1])
    else EncodeGroup(s[0], s[1], s[2]) + Encode(s[3..])
  }

  // ---------------------------------------------------------------------------------------
  // Decoding (canonical: the unused bits before padding must be zero)

  function DecodeGroup(q: string): (r: Option<seq<byte>>)
    requires |q| == 4
    ensures r.Some? ==> |r.value| == 3
  {
    match (ValueOf(q[0]), ValueOf(q[1]), ValueOf(q[2]), ValueOf(q[3]))
    case (Some(v0), Some(v1), Some(v2), Some(v3)) =>
      Some([(v0 * 4 + v1 / 16) as byte, ((v1 % 16) * 16 + v2 / 4) as byte, ((v2 % 4) * 64 + v3) as byte])
    case _ => None
  }

  function DecodeLast(q: string): Option<seq<byte>>
    requires |q| == 4
  {
    if q[2] == Pad && q[3] == Pad then
      match (ValueOf(q[0]), ValueOf(q[1]))
      case (Some(v0), Some(v1)) => if v1 % 16 == 0 then Some([(v0 * 4 + v1 / 16) as byte]) else None
      case _ => None
    else if q[3] == Pad then
      match (ValueOf(q[0]), ValueOf(q[1]), ValueOf(q[2]))
      case (Some(v0), Some(v1), Some(v2)) =>
        if v2 % 4 == 0 then Some([(v0 * 4 + v1 / 16) as byte, ((v1 % 16) * 16 + v2 / 4) as byte]) else None
      case _ => None
    else DecodeGroup(q)
  }

  function Decode(t: string): Option<seq<byte>>
    decreases |t|
  {
    if |t| == 0 then Some([])
    else if |t| < 4 then None
    else if |t| == 4 then DecodeLast(t)
    else
      match (DecodeGroup(t[..4]), Decode(t[4..]))
      case (Some(g), Some(rest)) => Some(g + rest)
      case _ => None
  }

  // ---------------------------------------------------------------------------------------
  // Properties

  /** Four characters for every started group of three bytes. */
  lemma {:induction false} EncodeLength(s: seq<byte>)
    ensures |Encode(s)| == 4 * ((|s| + 2) / 3)
    decreases |s|
  {
    if |s| > 2 {
      EncodeLength(s[3..]);
      assert |Encode(s)| == 4 + |Encode(s[3..])|;
      assert (|s| + 2) / 3 == (|s[3..]| + 2) / 3 + 1;
    }
  }

  /** Only alphabet characters, then at most two pads at the very end. */
  lemma {:induction false} EncodeAlphabet(s: seq<byte>)
    ensures var t := Encode(s);
            forall i :: 0 <= i < |t| ==> IsBase64Char(t[i]) || (t[i] == Pad && i >= |t| - 2)
    decreases |s|
  {
    if |s| > 2 {
      EncodeLength(s[3..]);
      EncodeAlphabet(s[3..]);
      var g, t := EncodeGroup(s[0], s[1], s[2]), Encode(s[3..]);
      assert forall i :: 4 <= i < |g + t| ==> (g + t)[i] == t[i - 4];
    }
  }

  lemma GroupRoundTrip(b0: byte, b1: byte, b2: byte)
    ensures DecodeGroup(EncodeGroup(b0, b1, b2)) == Some([b0, b1, b2])
  {
    var x0, x1, x2 := b0 as int, b1 as int, b2 as int;
    var v0, v1, v2, v3 := x0 / 4, (x0 % 4) * 16 + x1 / 16, (x1 % 16) * 4 + x2 / 64, x2 % 64;
    GroupBitsRejoin(x0, x1, x2);
    var q := EncodeGroup(b0, b1, b2);
    ValueOfCharOf(v0); ValueOfCharOf(v1); ValueOfCharOf(v2); ValueOfCharOf(v3);
    assert ValueOf(q[0]) == Some(v0) && ValueOf(q[1]) == Some(v1);
    assert ValueOf(q[2]) == Some(v2) && ValueOf(q[3]) == Some(v3);
  }

  /** The 6-bit groups of three bytes put back together give the bytes. */
  lemma GroupBitsRejoin(x0: int, x1: int, x2: int)
    requires 0 <= x0 < 256 && 0 <= x1 < 256 && 0 <= x2 < 256
    ensures var v0, v1, v2, v3 := x0 / 4, (x0 % 4) * 16 + x1 / 16, (x1 % 16) * 4 + x2 / 64, x2 % 64;
            && v0 * 4 + v1 / 16 == x0
            && (v1 % 16) * 16 + v2 / 4 == x1
            && (v2 % 4) * 64 + v3 == x2
  {
    var v1, v2 := (x0 % 4) * 16 + x1 / 16, (x1 % 16) * 4 + x2 / 64;
    assert v1 / 16 == x0 % 4 && v1 % 16 == x1 / 16;
    assert v2 / 4 == x1 % 16 && v2 % 4 == x2 / 64;
  }

  lemma OneRoundTrip(b0: byte)
    ensures DecodeLast(EncodeOne(b0)) == Some([b0])
  {
    var x0 := b0 as int;
    var v0, v1 := x0 / 4, (x0 % 4) * 16;
    ValueOfCharOf(v0); ValueOfCharOf(v1);
    assert v1 / 16 == x0 % 4 && v1 % 16 == 0;
    assert v0 * 4 + v1 / 16 == x0;
  }

  lemma TwoRoundTrip(b0: byte, b1: byte)
    ensures DecodeLast(EncodeTwo(b0, b1)) == Some([b0, b1])
  {
    var x0, x1 := b0 as int, b1 as int;
    var v0, v1, v2 := x0 / 4, (x0 % 4) * 16 + x1 / 16, (x1 % 16) * 4;
    ValueOfCharOf(v0); ValueOfCharOf(v1); ValueOfCharOf(v2);
    assert v1 / 16 == x0 % 4 && v1 % 16 == x1 / 16;
    assert v2 / 4 == x1 % 16 && v2 % 4 == 0;
    assert v0 * 4 + v1 / 16 == x0;
    assert (v1 % 16) * 16 + v2 / 4 == x1;
  }

  /** A full group followed by more text is decoded group first. */
  lemma DecodeFront(g: string, t: string)
    requires |g| == 4 && |t| > 0
    ensures Decode(g + t) == match (DecodeGroup(g), Decode(t))
                             case (Some(x), Some(y)) => Some(x + y)
                             case _ => None
  {
    assert (g + t)[..4] == g && (g + t)[4..] == t;
  }

  lemma LastGroupRoundTrip(b0: byte, b1: byte, b2: byte)
    ensures Decode(EncodeGroup(b0, b1, b2)) == Some([b0, b1, b2])
  {
    var g := EncodeGroup(b0, b1, b2);
    assert g[2] != Pad && g[3] != Pad;
    GroupRoundTrip(b0, b1, b2);
  }

  lemma SplitThree(s: seq<byte>)
    requires |s| >= 3
    ensures s == [s[0], s[1], s[2]] + s[3..]
  {
  }

  lemma LongRoundTrip(s: seq<byte>)
    requires |s| > 3 && Decode(Encode(s[3..])) == Some(s[3..])
    ensures Decode(Encode(s)) == Some(s)
  {
    SplitThree(s);
    var g, t := EncodeGroup(s[0], s[1], s[2]), Encode(s[3..]);
    assert Encode(s) == g + t;
    EncodeLength(s[3..]);
    GroupRoundTrip(s[0], s[1], s[2]);
    DecodeFront(g, t);
  }

  lemma RoundTripOfOne(s: seq<byte>)
    requires |s| == 1
    ensures Decode(Encode(s)) == Some(s)
  {
    var e := EncodeOne(s[0]);
    assert Encode(s) == e;
    OneRoundTrip(s[0]);
    assert DecodeLast(e) == Decode(e);
    assert s == [s[0]];
  }

  lemma RoundTripOfTwo(s: seq<byte>)
    requires |s| == 2
    ensures Decode(Encode(s)) == Some(s)
  {
    var e := EncodeTwo(s[0], s[1]);
    assert Encode(s) == e;
    TwoRoundTrip(s[0], s[1]);
    assert DecodeLast(e) == Decode(e);
    assert s == [s[0], s[1]];
  }

  lemma RoundTripOfThree(s: seq<byte>)
    requires |s| == 3
    ensures Decode(Encode(s)) == Some(s)
  {
    SplitThree(s);
    var e := EncodeGroup(s[0], s[1], s[2]);
    assert Encode(s[3..]) == "";
    assert Encode(s) == e + "" == e;
    LastGroupRoundTrip(s[0], s[1], s[2]);
    assert s == [s[0], s[1], s[2]];
  }

  /** Decoding undoes encoding: the payload the server receives is the frame's bytes. */
  lemma {:induction false} DecodeEncode(s: seq<byte>)
    ensures Decode(Encode(s)) == Some(s)
    decreases |s|
  {
    if |s| > 3 {
      DecodeEncode(s[3..]);
      LongRoundTrip(s);
    } else if |s| == 3 {
      RoundTripOfThree(s);
    } else if |s| == 2 {
      RoundTripOfTwo(s);
    } else if |s| == 1 {
      RoundTripOfOne(s);
    }
  }
}
