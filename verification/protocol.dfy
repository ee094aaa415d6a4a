/** The JSON-RPC messages of the language server (internal/lsp/protocol): requests, responses,
    the error codes of section 5.1 of the JSON-RPC 2.0 specification, and the framing of a
    message under a `Content-Length` header as the "Base Protocol / Header Part" of the
    Language Server Protocol 3.17 specification lays it out.

    JSON encoding and decoding are not part of this model: where the code marshals a value,
    the model is given the outcome, the bytes or the marshalling error. */
module Protocol {
  import opened Wrappers
  import Strs

  type Bytes = seq<bv8>

  const ErrorCodeParseError: int := -32700
  const ErrorCodeInvalidRequest: int := -32600
  const ErrorCodeMethodNotFound: int := -32601
  const ErrorCodeInvalidParams: int := -32602
  const ErrorCodeInternalError: int := -32603

  const Version: string := "2.0"

  /** A request or notification: `name` is its method, `params` the raw JSON of the params member, if present. */
  datatype Request = Request(version: string, id: int, name: string, params: Option<Bytes>)

  datatype ResponseError = ResponseError(code: int, message: string)

  /** A response; `result` and `error` are the pointers of the Go record, `None` for nil. */
  datatype Response = Response(version: string, id: int, result: Option<Bytes>, error: Option<ResponseError>)

  /** Go's zero `Response`. */
  const ZeroResponse: Response := Response("", 0, None, None)

  /** Section 5 of the JSON-RPC 2.0 specification: version "2.0" and exactly one of a result
      and an error. */
  predicate WellFormed(r: Response) {
    r.version == Version && (r.result.Some? <==> r.error.None?)
  }

  /** `NewResponse`: a successful response carrying `result`. */
  function NewResponse(id: int, result: Bytes): (r: Response)
    ensures WellFormed(r) && r.id == id && r.result == Some(result)
  {
    Response(Version, id, Some(result), None)
  }

  /** `NewResponseError`: an error response. */
  function NewResponseError(id: int, err: ResponseError): (r: Response)
    ensures WellFormed(r) && r.id == id && r.error == Some(err)
  {
    Response(Version, id, None, Some(err))
  }

  /** `NewEmptyResponse`, given the outcome of marshalling its value: the zero response,
      which is not a well-formed JSON-RPC response, when marshalling fails. */
  function NewEmptyResponse(id: int, marshalled: Result<Bytes>): (r: Response)
    ensures marshalled.Err? ==> r == ZeroResponse && !WellFormed(r)
    ensures marshalled.Ok? ==> WellFormed(r) && r.id == id && r.result == Some(marshalled.value)
  {
    if marshalled.Err? then ZeroResponse else NewResponse(id, marshalled.value)
  }

  /** A zero-based position in a text document. */
  datatype Position = Position(line: int, character: int)

  datatype Range = Range(start: Position, end: Position)

  /** A diagnostic as the server reports it; the optional code description is left out. */
  datatype DiagnosticResponse = DiagnosticResponse(range: Range, severity: int, code: int, source: string, message: string)

  /** The bytes of a string of decimal digits, one per digit. */
  function Ascii(s: string): (b: Bytes)
    requires forall i :: 0 <= i < |s| ==> Strs.IsDigit(s[i])
    ensures |b| == |s|
    ensures forall i :: 0 <= i < |s| ==> b[i] as int == s[i] as int
  {
    if s == [] then []
    else
      assert Strs.IsDigit(s[0]);
      [s[0] as int as bv8] + Ascii(s[1..])
  }

  /** The bytes of "Content-Length: ". */
  const HeaderName: Bytes := [67, 111, 110, 116, 101, 110, 116, 45, 76, 101, 110, 103, 116, 104, 58, 32]
  /** The bytes of "\r\n\r\n", which end the header. */
  const HeaderEnd: Bytes := [13, 10, 13, 10]

  /** The header that announces a body of `n` bytes. */
  function Header(n: nat): (h: Bytes)
    ensures |h| == |HeaderName| + |Strs.Itoa(n)| + |HeaderEnd|
  {
    HeaderName + Ascii(Strs.Itoa(n)) + HeaderEnd
  }

  /** The header is the header name, then decimal digits that read as `n`, then the blank line
      that ends it. */
  lemma HeaderAnnounces(n: nat)
    ensures var h := Header(n);
            var d := h[|HeaderName|..|h| - |HeaderEnd|];
            && h[..|HeaderName|] == HeaderName && h[|h| - |HeaderEnd|..] == HeaderEnd
            && d != [] && (forall i :: 0 <= i < |d| ==> IsDigitByte(d[i]))
            && DigitBytesValue(d) == n
  {
    var digits := Strs.Itoa(n);
    var a := Ascii(digits);
    var h := Header(n);
    assert h == HeaderName + a + HeaderEnd;
    assert h[..|HeaderName|] == HeaderName;
    assert h[|h| - |HeaderEnd|..] == HeaderEnd;
    assert h[|HeaderName|..|h| - |HeaderEnd|] == a;
    DigitBytesValueAscii(digits);
  }

  /** `BaseMessage`, given the outcome of marshalling the message: the body under its
      `Content-Length` header, or the marshalling error. */
  function BaseMessage(marshalled: Result<Bytes>): (r: Result<Bytes>)
    ensures marshalled.Err? ==> r == Err("json marshal error: " + marshalled.error)
    ensures marshalled.Ok? ==> r.Ok? && |r.value| >= |marshalled.value| && r.value[|r.value| - |marshalled.value|..] == marshalled.value
  {
    if marshalled.Err? then Err("json marshal error: " + marshalled.error)
    else
      var h := Header(|marshalled.value|);
      var m := h + marshalled.value;
      assert m[|h|..] == marshalled.value;
      Ok(m)
  }

  predicate IsDigitByte(b: bv8) {
    48 <= b as int <= 57
  }

  /** Number of leading digit bytes. */
  function DigitPrefix(bs: Bytes): (k: nat)
    ensures k <= |bs|
  {
    if bs == [] || !IsDigitByte(bs[0]) then 0 else 1 + DigitPrefix(bs[1..])
  }

  /** The value of a run of digit bytes. */
  function DigitBytesValue(bs: Bytes): nat
    requires forall i :: 0 <= i < |bs| ==> IsDigitByte(bs[i])
  {
    if bs == [] then 0
    else
      assert IsDigitByte(bs[|bs| - 1]);
      10 * DigitBytesValue(bs[..|bs| - 1]) + (bs[|bs| - 1] as int - 48)
  }

  /** A reader for the framing of the Language Server Protocol base protocol: a message with a
      well-formed `Content-Length` header yields the announced number of body bytes. */
  function ReadMessage(msg: Bytes): Option<Bytes> {
    var name := HeaderName;
    if |msg| < |name| || msg[..|name|] != name then None
    else ReadAfterName(msg[|name|..])
  }

  /** The rest of the reader, after the header name: the digits, the end of the header and
      the body. */
  function ReadAfterName(rest: Bytes): Option<Bytes> {
    var k := DigitPrefix(rest);
    var tail := rest[k..];
    var sep := HeaderEnd;
    if k == 0 || |tail| < |sep| || tail[..|sep|] != sep then None
    else
      assert forall i :: 0 <= i < k ==> IsDigitByte(rest[..k][i]) by {
        DigitPrefixDigits(rest);
      }
      var n := DigitBytesValue(rest[..k]);
      var body := tail[|sep|..];
      if |body| < n then None else Some(body[..n])
  }

  lemma {:induction false} DigitPrefixDigits(bs: Bytes)
    ensures forall i :: 0 <= i < DigitPrefix(bs) ==> IsDigitByte(bs[i])
  {
    if bs != [] && IsDigitByte(bs[0]) {
      DigitPrefixDigits(bs[1..]);
    }
  }

  lemma {:induction false} DigitPrefixOfDigits(d: Bytes, rest: Bytes)
    requires forall i :: 0 <= i < |d| ==> IsDigitByte(d[i])
    requires rest != [] && !IsDigitByte(rest[0])
    ensures DigitPrefix(d + rest) == |d|
  {
    if d != [] {
      assert (d + rest)[1..] == d[1..] + rest;
      DigitPrefixOfDigits(d[1..], rest);
    } else {
      assert d + rest == rest;
    }
  }

  lemma {:induction false} DigitBytesValueAscii(s: string)
    requires forall i :: 0 <= i < |s| ==> Strs.IsDigit(s[i])
    ensures forall i :: 0 <= i < |Ascii(s)| ==> IsDigitByte(Ascii(s)[i])
    ensures DigitBytesValue(Ascii(s)) == Strs.DigitsValue(s)
  {
    var b := Ascii(s);
    if s != [] {
      var n := |s| - 1;
      AsciiPrefix(s, n);
      DigitBytesValueAscii(s[..n]);
      assert DigitBytesValue(b) == 10 * DigitBytesValue(b[..n]) + (b[n] as int - 48);
    }
  }

  lemma {:induction false} AsciiPrefix(s: string, n: nat)
    requires n <= |s|
    requires forall i :: 0 <= i < |s| ==> Strs.IsDigit(s[i])
    ensures Ascii(s[..n]) == Ascii(s)[..n]
  {
    var a := Ascii(s[..n]);
    var b := Ascii(s)[..n];
    assert |a| == |b|;
    assert forall i :: 0 <= i < n ==> a[i] as int == b[i] as int;
  }

  /** After the header name, digits announcing the body's length, the header end and the
      body read as that body. */
  lemma ReadAfterNameFramed(d: Bytes, body: Bytes)
    requires d != [] && forall i :: 0 <= i < |d| ==> IsDigitByte(d[i])
    requires DigitBytesValue(d) == |body|
    ensures ReadAfterName(d + (HeaderEnd + body)) == Some(body)
  {
    var sep := HeaderEnd;
    var rest := d + (sep + body);
    assert DigitPrefix(rest) == |d| by {
      DigitPrefixOfDigits(d, sep + body);
    }
    assert rest[..|d|] == d && rest[|d|..] == sep + body;
    var tail := sep + body;
    assert tail[..|sep|] == sep && tail[|sep|..] == body;
    assert body[..|body|] == body;
  }

  lemma ReadMessageAfterName(x: Bytes)
    ensures ReadMessage(HeaderName + x) == ReadAfterName(x)
  {
    var m := HeaderName + x;
    assert m[..|HeaderName|] == HeaderName;
    assert m[|HeaderName|..] == x;
  }

  /** Reading a message that `BaseMessage` framed gives the marshalled body back: the header
      announces exactly the body's length. */
  lemma ReadBaseMessage(body: Bytes)
    ensures BaseMessage(Ok(body)).Ok?
    ensures ReadMessage(BaseMessage(Ok(body)).value) == Some(body)
  {
    var digits := Strs.Itoa(|body|);
    var d := Ascii(digits);
    assert BaseMessage(Ok(body)).value == HeaderName + (d + (HeaderEnd + body));
    DigitBytesValueAscii(digits);
    ReadMessageAfterName(d + (HeaderEnd + body));
    ReadAfterNameFramed(d, body);
  }
}
