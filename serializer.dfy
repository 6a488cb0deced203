/** How `SerializeRequest` (Scripts/ImageSerializer.cs) turns a captured frame into a
    request buffer element: the JSON envelope around the base64 text, its UTF-8 bytes, and
    the rule for `hasWorldData`. */
module Serializer {
  import opened Common
  import opened Linear
  import opened Records
  import Base64

  // ---------------------------------------------------------------------------------------
  // UTF-8 (`Encoding.UTF8.GetBytes`)

  /** The UTF-8 bytes of one Unicode scalar value. */
  function Utf8Char(c: char): (r: seq<byte>)
    ensures 1 <= |r| <= 4
    ensures (c as int < 0x80) <==> |r| == 1
    ensures c as int < 0x80 ==> r[0] as int == c as int
  {
    var n := c as int;
    if n < 0x80 then [n as byte]
    else if n < 0x800 then [(0xC0 + n / 64) as byte, (0x80 + n % 64) as byte]
    else if n < 0x10000 then
      [(0xE0 + n / 4096) as byte, (0x80 + (n / 64) % 64) as byte, (0x80 + n % 64) as byte]
    else
      [(0xF0 + n / 262144) as byte, (0x80 + (n / 4096) % 64) as byte,
       (0x80 + (n / 64) % 64) as byte, (0x80 + n % 64) as byte]
  }

  function Utf8(s: string): (r: seq<byte>)
    ensures |r| >= |s|
  {
    if s == [] then [] else Utf8Char(s[0]) + Utf8(s[1..])
  }

  predicate IsAscii(s: string) { forall i :: 0 <= i < |s| ==> s[i] as int < 0x80 }

  /** Reading bytes back as ASCII text; `None` at the first byte outside ASCII. */
  function AsciiText(bs: seq<byte>): Option<string> {
    if bs == [] then Some([])
    else if bs[0] as int >= 0x80 then None
    else match AsciiText(bs[1..])
      case Some(rest) => Some([bs[0] as int as char] + rest)
      case None => None
  }

  /** ASCII text is its own UTF-8 encoding, byte for byte. */
  lemma {:induction false} Utf8OfAscii(s: string)
    requires IsAscii(s)
    ensures |Utf8(s)| == |s| && AsciiText(Utf8(s)) == Some(s)
  {
    if s != [] {
      Utf8OfAscii(s[1..]);
      var bs := Utf8(s);
      assert bs[0] as int == s[0] as int && bs[1..] == Utf8(s[1..]);
      assert [bs[0] as int as char] + s[1..] == s;
    }
  }

  // ---------------------------------------------------------------------------------------
  // The JSON envelope

  const RequestPrefix: string := "{\"inputs\":[{\"b64\":\""
  const RequestSuffix: string := "\"}]}"

  /** A character JSON must escape inside a string literal. */
  predicate NeedsEscape(c: char) { c == '"' || c == '\\' || c as int < 0x20 }

  /** `JsonConvert.SerializeObject` of a request with exactly one input, for a payload with
      nothing to escape: `{"inputs":[{"b64":"<payload>"}]}`. */
  function RequestJson(payload: string): (doc: string)
    ensures |doc| == |RequestPrefix| + |payload| + |RequestSuffix|
    ensures doc[..|RequestPrefix|] == RequestPrefix
    ensures doc[|RequestPrefix|..|RequestPrefix| + |payload|] == payload
    ensures doc[|RequestPrefix| + |payload|..] == RequestSuffix
  {
    RequestPrefix + payload + RequestSuffix
  }

  /** The single `b64` payload of a request document, as a server would read it. */
  function PayloadOf(doc: string): Option<string> {
    var p, q := |RequestPrefix|, |RequestSuffix|;
    if |doc| >= p + q && doc[..p] == RequestPrefix && doc[|doc| - q..] == RequestSuffix
       && forall i :: p <= i < |doc| - q ==> !NeedsEscape(doc[i])
    then Some(doc[p..|doc| - q])
    else None
  }

  lemma PayloadOfRequestJson(payload: string)
    requires forall i :: 0 <= i < |payload| ==> !NeedsEscape(payload[i])
    ensures PayloadOf(RequestJson(payload)) == Some(payload)
  {
    var doc := RequestJson(payload);
    var p := |RequestPrefix|;
    assert forall i :: p <= i < p + |payload| ==> doc[i] == payload[i - p];
  }

  /** Base64 text is ASCII and needs no JSON escaping, so the envelope is exactly the
      prefix, the text and the suffix. */
  lemma Base64IsPlainText(bytes: seq<byte>)
    ensures var t := Base64.Encode(bytes);
            IsAscii(t) && forall i :: 0 <= i < |t| ==> !NeedsEscape(t[i])
  {
    Base64.EncodeAlphabet(bytes);
  }

  // ---------------------------------------------------------------------------------------
  // The element

  /** The request body for an image. */
  function RawRequest(image: seq<byte>): (r: seq<byte>)
    ensures AsciiText(r) == Some(RequestJson(Base64.Encode(image)))
  {
    RequestJsonIsAscii(image);
    Utf8OfAscii(RequestJson(Base64.Encode(image)));
    Utf8(RequestJson(Base64.Encode(image)))
  }

  /** ASCII text in an envelope of ASCII text is ASCII. */
  lemma AsciiConcat(a: string, b: string)
    requires IsAscii(a) && IsAscii(b)
    ensures IsAscii(a + b)
  {
    assert forall i :: |a| <= i < |a + b| ==> (a + b)[i] == b[i - |a|];
  }

  /** The request document for an image is ASCII throughout. */
  lemma RequestJsonIsAscii(image: seq<byte>)
    ensures IsAscii(RequestJson(Base64.Encode(image)))
  {
    var t := Base64.Encode(image);
    Base64IsPlainText(image);
    assert IsAscii(RequestPrefix) && IsAscii(RequestSuffix);
    AsciiConcat(RequestPrefix, t);
    AsciiConcat(RequestPrefix + t, RequestSuffix);
  }

  /** `SerializeRequest`'s element for a frame. `TryGetProjectionMatrix` is only tried once
      `TryGetCameraToWorldMatrix` has succeeded; a matrix that was not obtained keeps the
      zero value of `new Matrix4x4()`. */
  function SerializeRequest(f: Frame): (e: RequestBufferElem)
    ensures e.hasWorldData <==> f.cameraToWorld.Some? && f.projection.Some?
    ensures e.hasWorldData ==> e.cameraToWorld == f.cameraToWorld.value && e.projection == f.projection.value
    ensures f.cameraToWorld.None? ==> e.projection == ZeroMatrix
  {
    var raw := RawRequest(f.image);
    match f.cameraToWorld
    case None => RequestBufferElem(raw, false, ZeroMatrix, ZeroMatrix)
    case Some(c) =>
      match f.projection
      case None => RequestBufferElem(raw, false, c, ZeroMatrix)
      case Some(p) => RequestBufferElem(raw, true, c, p)
  }

  /** What the server recovers from the request body. */
  function DecodeRequest(body: seq<byte>): Option<seq<byte>> {
    match AsciiText(body)
    case None => None
    case Some(doc) =>
      match PayloadOf(doc)
      case None => None
      case Some(payload) => Base64.Decode(payload)
  }

  /** The request body carries exactly the frame's image bytes. */
  lemma RequestCarriesImage(f: Frame)
    ensures DecodeRequest(SerializeRequest(f).rawRequest) == Some(f.image)
  {
    var t := Base64.Encode(f.image);
    Base64IsPlainText(f.image);
    PayloadOfRequestJson(t);
    Base64.DecodeEncode(f.image);
  }
}
