/**
  The wrapper around CFHTTPMessage in KeyVaultClient/KeyVaultMessageServer/HTTPMessage.swift,
  and its framing check `checkMessageStatus`.

  The CF message is modelled as the bytes of its head, the fields the head declares and an
  optional body. CF's own parser of the head is a parameter (`HeadParser`): it says, for the
  bytes of a head received so far, whether more are needed, whether they are malformed, or
  where the head ends and what it declares. Once the head is complete, further bytes go to the
  body.

  `Status` states how a message is framed by its `Content-Length` (sections 3.3.2 and 3.3.3 of
  RFC 7230); `HTTPMessage.CheckMessageStatus` is proved to return it and to cut a surplus off
  the body without losing or adding a byte.
*/
module HttpMessage {
  import opened Outcomes
  import opened Encoding

  datatype HTTPMessageError = InvalidContentLength(raw: string)

  datatype MessageStatus =
    | HeadersIncomplete
    | NoLengthSpecified
    | Incomplete
    | Complete
    | CompleteExtraBytes(extra: Bytes)  // the surplus: the start of the next message

  /** What CF's parser makes of the bytes of a head received so far. */
  datatype HeadParse =
    | NeedMore
    | Malformed
    | Parsed(requestMethod: string, headers: map<string, string>, length: nat)  // the head is the first `length` bytes

  type HeadParser = Bytes -> HeadParse

  /** A head is never empty and never longer than the bytes it was parsed from. */
  ghost predicate ParserOk(cf: HeadParser) {
    forall b :: cf(b).Parsed? ==> 0 < cf(b).length <= |b|
  }

  const ContentLengthField := "Content-Length"

  function BodyBytes(body: Option<Bytes>): Bytes {
    match body
    case None => []
    case Some(b) => b
  }

  /** The length the head declares, when it is complete and its `Content-Length` is a valid length. */
  function DeclaredLength(headerComplete: bool, contentLength: Option<string>): Option<nat> {
    if headerComplete && contentLength.Some? && ParseInt(contentLength.value).Some? && ParseInt(contentLength.value).value >= 0
    then Some(ParseInt(contentLength.value).value)
    else None
  }

  /** The status `checkMessageStatus` reports for a head and body (HTTPMessage.swift:81-119). */
  function Status(headerComplete: bool, contentLength: Option<string>, body: Option<Bytes>): (r: Result<MessageStatus, HTTPMessageError>)
    ensures !headerComplete ==> r == Ok(HeadersIncomplete)
    ensures headerComplete && contentLength.None? ==> r == Ok(NoLengthSpecified)
    ensures r.Err? <==> headerComplete && contentLength.Some? && DeclaredLength(headerComplete, contentLength).None?
    ensures r.Err? ==> r.error == InvalidContentLength(contentLength.value)
    ensures r == Ok(Complete) <==> DeclaredLength(headerComplete, contentLength) == Some(|BodyBytes(body)|)
    ensures r == Ok(Incomplete) <==>
              DeclaredLength(headerComplete, contentLength).Some? && |BodyBytes(body)| < DeclaredLength(headerComplete, contentLength).value
    ensures (r.Ok? && r.value.CompleteExtraBytes?) <==>
              DeclaredLength(headerComplete, contentLength).Some? && DeclaredLength(headerComplete, contentLength).value < |BodyBytes(body)|
    ensures r.Ok? && r.value.CompleteExtraBytes? ==>
              r.value.extra == body.value[DeclaredLength(headerComplete, contentLength).value..]
  {
    if !headerComplete then Ok(HeadersIncomplete)
    else match contentLength
      case None => Ok(NoLengthSpecified)
      case Some(raw) =>
        match ParseInt(raw)
        case None => Err(InvalidContentLength(raw))
        case Some(length) =>
          if length < 0 then Err(InvalidContentLength(raw))
          else match body
            case None => if length == 0 then Ok(Complete) else Ok(Incomplete)
            case Some(b) =>
              if |b| == length then Ok(Complete)
              else if |b| < length then Ok(Incomplete)
              else Ok(CompleteExtraBytes(b[length..]))
  }

  /** The body kept after the check: cut to the declared length when there was a surplus. */
  function BodyAfterCheck(headerComplete: bool, contentLength: Option<string>, body: Option<Bytes>): Option<Bytes> {
    var r := Status(headerComplete, contentLength, body);
    if r.Ok? && r.value.CompleteExtraBytes? then Some(body.value[..DeclaredLength(headerComplete, contentLength).value])
    else body
  }

  /** The kept body followed by the surplus is the body before the check. */
  lemma SurplusSplit(headerComplete: bool, contentLength: Option<string>, body: Option<Bytes>)
    requires Status(headerComplete, contentLength, body).Ok? && Status(headerComplete, contentLength, body).value.CompleteExtraBytes?
    ensures BodyAfterCheck(headerComplete, contentLength, body).Some?
    ensures BodyAfterCheck(headerComplete, contentLength, body).value + Status(headerComplete, contentLength, body).value.extra
         == body.value
  {
    var n := DeclaredLength(headerComplete, contentLength).value;
    assert body.value[..n] + body.value[n..] == body.value;
  }

  /** Checking again right after a surplus was cut off reports `Complete`. */
  lemma CheckAfterSplitComplete(headerComplete: bool, contentLength: Option<string>, body: Option<Bytes>)
    requires Status(headerComplete, contentLength, body).Ok? && Status(headerComplete, contentLength, body).value.CompleteExtraBytes?
    ensures Status(headerComplete, contentLength, BodyAfterCheck(headerComplete, contentLength, body)) == Ok(Complete)
  {
  }

  /** Without a surplus the check changes nothing, so checking twice reports the same status. */
  lemma CheckIdempotent(headerComplete: bool, contentLength: Option<string>, body: Option<Bytes>)
    requires !(Status(headerComplete, contentLength, body).Ok? && Status(headerComplete, contentLength, body).value.CompleteExtraBytes?)
    ensures BodyAfterCheck(headerComplete, contentLength, body) == body
    ensures Status(headerComplete, contentLength, BodyAfterCheck(headerComplete, contentLength, body))
         == Status(headerComplete, contentLength, body)
  {
  }

  /** The head of a response CF serializes: status line, then the blank line that ends the head. */
  function ResponseHead(code: int, description: string): string {
    "HTTP/1.1 " + ToDecimal(code) + " " + description + "\r\n\r\n"
  }

  /** A CF message: the bytes of its head, what the head declares, and its body. */
  class HTTPMessage {
    const isRequest: bool
    var headBytes: Bytes
    var headerComplete: bool
    var requestMethod: Option<string>
    var headers: map<string, string>
    var body: Option<Bytes>

    /** Nothing is declared before the head is complete, and a complete head is not empty. */
    predicate Valid()
      reads this
    {
      && (!headerComplete ==> requestMethod.None? && headers == map[] && body.None?)
      && (headerComplete ==> |headBytes| > 0)
    }

    /** The body is longer than the head declares, so a surplus is left to cut off. */
    predicate HasSurplus()
      reads this
    {
      var s := Status(headerComplete, HeaderFieldValue(ContentLengthField), body);
      s.Ok? && s.value.CompleteExtraBytes?
    }

    /** Every byte the message holds, head then body. */
    function Buffered(): Bytes
      reads this
    {
      headBytes + BodyBytes(body)
    }

    /** `init(isRequest:)`: an empty message, still waiting for its head. */
    constructor (isRequest: bool)
      ensures Valid() && this.isRequest == isRequest
      ensures headBytes == [] && !headerComplete && requestMethod.None? && headers == map[] && body.None?
      ensures !HasSurplus()
    {
      this.isRequest := isRequest;
      headBytes := [];
      headerComplete := false;
      requestMethod := None;
      headers := map[];
      body := None;
    }

    /** `init(responseCode:statusDescription:)`: a response with a complete head and no body. */
    constructor Response(code: int, description: string)
      ensures Valid() && !isRequest
      ensures headBytes == Utf8(ResponseHead(code, description)) && headerComplete
      ensures requestMethod.None? && headers == map[] && body.None?
    {
      isRequest := false;
      headBytes := Utf8(ResponseHead(code, description));
      headerComplete := true;
      requestMethod := None;
      headers := map[];
      body := None;
    }

    /** `headerFieldValue`: the value of a field of the head, if it has one. */
    function HeaderFieldValue(key: string): Option<string>
      reads this
    {
      if key in headers then Some(headers[key]) else None
    }

    /** `toData`: the message as bytes. */
    function ToData(): Bytes
      reads this
    {
      Buffered()
    }

    /**
      `appendData` (and `appendBytes`): bytes after a complete head extend the body; bytes of an
      unfinished head are handed to CF's parser with what came before, and only a malformed
      head is refused.
    */
    method AppendData(data: Bytes, cf: HeadParser) returns (ok: bool)
      requires Valid() && ParserOk(cf)
      modifies this
      ensures Valid()
      ensures ok ==> Buffered() == old(Buffered()) + data
      ensures !ok ==> unchanged(this)
      ensures old(headerComplete) ==>
                ok && headerComplete && headBytes == old(headBytes) && requestMethod == old(requestMethod) && headers == old(headers)
                && body == Some(BodyBytes(old(body)) + data)
      ensures !old(headerComplete) ==> (ok <==> !cf(old(headBytes) + data).Malformed?)
      ensures !old(headerComplete) && cf(old(headBytes) + data).NeedMore? ==>
                !headerComplete && headBytes == old(headBytes) + data
      ensures !old(headerComplete) && cf(old(headBytes) + data).Parsed? ==>
                var pending, p := old(headBytes) + data, cf(old(headBytes) + data);
                && headerComplete && headBytes == pending[..p.length] && requestMethod == Some(p.requestMethod) && headers == p.headers
                && body == (if p.length == |pending| then None else Some(pending[p.length..]))
    {
      if headerComplete {
        body := Some(BodyBytes(body) + data);
        return true;
      }
      ok := AppendHead(data, cf);
    }

    /** The bytes appended while the head is incomplete, given to CF's parser with what came before. */
    method AppendHead(data: Bytes, cf: HeadParser) returns (ok: bool)
      requires Valid() && ParserOk(cf) && !headerComplete
      modifies this
      ensures Valid()
      ensures ok ==> Buffered() == old(Buffered()) + data
      ensures !ok ==> unchanged(this)
      ensures ok <==> !cf(old(headBytes) + data).Malformed?
      ensures cf(old(headBytes) + data).NeedMore? ==> !headerComplete && headBytes == old(headBytes) + data
      ensures cf(old(headBytes) + data).Parsed? ==>
                var pending, p := old(headBytes) + data, cf(old(headBytes) + data);
                && headerComplete && headBytes == pending[..p.length] && requestMethod == Some(p.requestMethod) && headers == p.headers
                && body == (if p.length == |pending| then None else Some(pending[p.length..]))
    {
      assert body.None? && old(Buffered()) == headBytes;
      var pending := headBytes + data;
      var parse := cf(pending);
      if parse.Malformed? {
        return false;
      }
      if parse.NeedMore? {
        headBytes := pending;
        return true;
      }
      var length := parse.length;
      assert 0 < length <= |pending|;
      headBytes := pending[..length];
      headerComplete := true;
      requestMethod := Some(parse.requestMethod);
      headers := parse.headers;
      if length == |pending| {
        body := None;
        assert headBytes == pending;
      } else {
        body := Some(pending[length..]);
        assert pending[..length] + pending[length..] == pending;
      }
      assert Buffered() == pending;
      return true;
    }

    /** `setBody`. */
    method SetBody(data: Bytes)
      requires Valid()
      modifies this
      ensures old(headerComplete) ==> Valid()
      ensures body == Some(data)
      ensures headBytes == old(headBytes) && headerComplete == old(headerComplete)
      ensures requestMethod == old(requestMethod) && headers == old(headers)
    {
      body := Some(data);
    }

    /**
      `checkMessageStatus` (HTTPMessage.swift:81-119): reports `Status`, and only when there is
      a surplus changes the message, cutting the body to the declared length.
    */
    method CheckMessageStatus() returns (r: Result<MessageStatus, HTTPMessageError>)
      requires Valid()
      modifies this
      ensures Valid()
      ensures r == Status(old(headerComplete), old(HeaderFieldValue(ContentLengthField)), old(body))
      ensures body == BodyAfterCheck(old(headerComplete), old(HeaderFieldValue(ContentLengthField)), old(body))
      ensures headBytes == old(headBytes) && headerComplete == old(headerComplete)
      ensures requestMethod == old(requestMethod) && headers == old(headers)
      ensures r.Ok? && r.value.CompleteExtraBytes? ==> Buffered() + r.value.extra == old(Buffered())
      ensures !(r.Ok? && r.value.CompleteExtraBytes?) ==> Buffered() == old(Buffered())
      ensures !HasSurplus()
    {
      ghost var declared := HeaderFieldValue(ContentLengthField);
      if !headerComplete {
        return Ok(HeadersIncomplete);
      }
      var strLength := HeaderFieldValue(ContentLengthField);
      if strLength.None? {
        return Ok(NoLengthSpecified);
      }
      var parsed := ParseInt(strLength.value);
      if parsed.None? {
        return Err(InvalidContentLength(strLength.value));
      }
      var contentLength := parsed.value;
      if contentLength < 0 {
        return Err(InvalidContentLength(strLength.value));
      }
      if body.None? {
        if contentLength == 0 {
          return Ok(Complete);
        } else {
          return Ok(Incomplete);
        }
      }
      var b := body.value;
      var cbBody := |b|;
      if cbBody == contentLength {
        return Ok(Complete);
      }
      if cbBody < contentLength {
        return Ok(Incomplete);
      }
      var extraBytes := b[contentLength..cbBody];
      body := Some(b[..contentLength]);
      assert b[..contentLength] + extraBytes == b;
      CheckAfterSplitComplete(headerComplete, declared, Some(b));
      return Ok(CompleteExtraBytes(extraBytes));
    }
  }
}
