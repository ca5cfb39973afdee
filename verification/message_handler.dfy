/**
  The request gate of KeyVaultClient/KeyVaultMessageServer/MessageHandler.swift.

  `processMessage` routes a dispatched request: anything but a `POST` with a body gets the
  fixed 400 reply; otherwise the body is decoded as `{"url": ...}` and the secret at that URL
  is looked up, giving a 200 reply carrying the secret as JSON, or an error. The JSON decoder,
  URL parsing and the Key Vault lookup are parameters.

  The reply's JSON is written by splicing the secret between quotes (MessageHandler.swift:53)
  without the escaping that section 7 of RFC 8259 requires; `RawSecretJson` is that text,
  `SecretJson` the escaped one, and `ReadSecret` a reader of the reply's JSON to tell them apart.
*/
module MessageHandler {
  import opened Outcomes
  import opened Encoding
  import opened HttpMessage

  /** The body of a request: `{"url": ...}`. */
  datatype SecretRequest = SecretRequest(url: string)

  /** `JSONDecoder().decode(SecretRequest.self, from:)`, failing with an error's description. */
  type Decoder = Bytes -> Result<SecretRequest, string>

  /** `KeyVault.Secret.get`: the secret's value at a URL, or an error's description. */
  type SecretLookup = string -> Result<string, string>

  /** What `processMessage` does with a request: calls `completion(err, reply)`, or traps. */
  datatype Handled =
    | Completed(err: Option<string>, reply: Option<Bytes>)
    | Trapped  // `URL(string:)!` on a string that is not a URL

  /** `badMessageReply`: the bytes of a 400 "Bad Message" response without a body. */
  const BadMessageReply: Bytes := Utf8(ResponseHead(400, "Bad Message"))

  // JSON strings, section 7 of RFC 8259.

  function HexDigit(d: nat): (c: char)
    requires d < 16
  {
    if d < 10 then (d + '0' as int) as char else (d - 10 + 'A' as int) as char
  }

  predicate IsHex(c: char) {
    '0' <= c <= '9' || 'A' <= c <= 'F' || 'a' <= c <= 'f'
  }

  function HexValue(c: char): (d: nat)
    requires IsHex(c)
    ensures d < 16
  {
    if '0' <= c <= '9' then c as int - '0' as int
    else if 'A' <= c <= 'F' then c as int - 'A' as int + 10
    else c as int - 'a' as int + 10
  }

  lemma HexValueDigit(d: nat)
    requires d < 16
    ensures IsHex(HexDigit(d)) && HexValue(HexDigit(d)) == d
  {
  }

  /** One character inside a JSON string: quote, backslash and control characters escaped. */
  function EscapeChar(c: char): (r: string)
    ensures |r| > 0
  {
    if c == '"' then ['\\', '"']
    else if c == '\\' then ['\\', '\\']
    else if (c as int) < 0x20 then ['\\', 'u', '0', '0', HexDigit(c as int / 16), HexDigit(c as int % 16)]
    else [c]
  }

  function Escape(s: string): string
    decreases |s|
  {
    if s == [] then [] else EscapeChar(s[0]) + Escape(s[1..])
  }

  /** The character a two-character escape `\c` stands for. */
  function ShortEscape(c: char): Option<char> {
    if c == '"' then Some('"')
    else if c == '\\' then Some('\\')
    else if c == '/' then Some('/')
    else if c == 'b' then Some(8 as char)
    else if c == 'f' then Some(12 as char)
    else if c == 'n' then Some('\n')
    else if c == 'r' then Some('\r')
    else if c == 't' then Some('\t')
    else None
  }

  /** The value of `\uXXXX` at the start of `t`, when it is one and not half of a surrogate pair. */
  function UnicodeEscape(t: string): Option<char> {
    if |t| >= 6 && t[0] == '\\' && t[1] == 'u' && IsHex(t[2]) && IsHex(t[3]) && IsHex(t[4]) && IsHex(t[5]) then
      var v := HexValue(t[2]) * 0x1000 + HexValue(t[3]) * 0x100 + HexValue(t[4]) * 0x10 + HexValue(t[5]);
      if 0xD800 <= v < 0xE000 then None else Some(v as char)
    else None
  }

  function Prepend(c: char, o: Option<(string, string)>): Option<(string, string)> {
    match o
    case None => None
    case Some((s, rest)) => Some(([c] + s, rest))
  }

  /**
    Reads the characters of a JSON string up to its closing quote, just after the opening one:
    the value and what follows the closing quote.
  */
  function ReadString(t: string): Option<(string, string)>
    decreases |t|
  {
    if t == [] then None
    else if t[0] == '"' then Some(([], t[1..]))
    else if (t[0] as int) < 0x20 then None
    else if t[0] != '\\' then Prepend(t[0], ReadString(t[1..]))
    else if |t| >= 2 && ShortEscape(t[1]).Some? then Prepend(ShortEscape(t[1]).value, ReadString(t[2..]))
    else if UnicodeEscape(t).Some? then Prepend(UnicodeEscape(t).value, ReadString(t[6..]))
    else None
  }

  const SecretPrefix := "{\"secret\":\""

  /** The secret in a reply body of the form `{"secret":"..."}`, if the body is of that form. */
  function ReadSecret(body: string): Option<string> {
    if |body| < |SecretPrefix| || body[..|SecretPrefix|] != SecretPrefix then None
    else match ReadString(body[|SecretPrefix|..])
      case Some((v, rest)) => if rest == "}" then Some(v) else None
      case None => None
  }

  /** The reply body as the source writes it: the value spliced in unescaped. */
  function RawSecretJson(value: string): string {
    SecretPrefix + value + "\"}"
  }

  /** The reply body with the value escaped as a JSON string. */
  function SecretJson(value: string): string {
    SecretPrefix + Escape(value) + "\"}"
  }

  /** An escaped string reads back as itself, stopping at the quote that follows it. */
  lemma {:induction false} EscapeReadsBack(s: string, rest: string)
    ensures ReadString(Escape(s) + ['"'] + rest) == Some((s, rest))
    decreases |s|
  {
    var t := Escape(s) + ['"'] + rest;
    if s == [] {
      assert t == ['"'] + rest;
    } else {
      var c, tail := s[0], Escape(s[1..]) + ['"'] + rest;
      assert t == EscapeChar(c) + tail;
      EscapeReadsBack(s[1..], rest);
      assert [c] + s[1..] == s;
      if c == '"' || c == '\\' {
        assert t[2..] == tail;
      } else if (c as int) < 0x20 {
        HexValueDigit(c as int / 16);
        HexValueDigit(c as int % 16);
        assert UnicodeEscape(t) == Some(c);
        assert t[6..] == tail;
      } else {
        assert t[1..] == tail;
      }
    }
  }

  /** The escaped reply body reads back as the secret, whatever the secret. */
  lemma SecretJsonReadsBack(value: string)
    ensures ReadSecret(SecretJson(value)) == Some(value)
  {
    var body := SecretJson(value);
    assert body[..|SecretPrefix|] == SecretPrefix;
    assert body[|SecretPrefix|..] == Escape(value) + ['"'] + "}";
    EscapeReadsBack(value, "}");
  }

  /** Text with no quote, backslash or control character is its own escape. */
  predicate Plain(s: string) {
    forall i :: 0 <= i < |s| ==> s[i] != '"' && s[i] != '\\' && (s[i] as int) >= 0x20
  }

  lemma {:induction false} EscapePlain(s: string)
    requires Plain(s)
    ensures Escape(s) == s
    decreases |s|
  {
    if s != [] {
      assert Plain(s[1..]) by {
        forall i | 0 <= i < |s[1..]| ensures s[1..][i] != '"' && s[1..][i] != '\\' && (s[1..][i] as int) >= 0x20 {
          assert s[1..][i] == s[i + 1];
        }
      }
      EscapePlain(s[1..]);
      assert [s[0]] + s[1..] == s;
    }
  }

  /** The source's reply body is right whenever the secret needs no escaping. */
  lemma RawAgreesOnPlain(value: string)
    requires Plain(value)
    ensures RawSecretJson(value) == SecretJson(value)
    ensures ReadSecret(RawSecretJson(value)) == Some(value)
  {
    EscapePlain(value);
    SecretJsonReadsBack(value);
  }

  /** The secret `a"b` is written as `{"secret":"a"b"}`, whose string ends after `a`. */
  lemma RawSecretJsonMisreads()
    ensures ReadSecret(RawSecretJson("a\"b")) == None
  {
    var body := RawSecretJson("a\"b");
    assert body[..|SecretPrefix|] == SecretPrefix;
    var t := body[|SecretPrefix|..];
    assert t == "a\"b\"}";
    assert ReadString(t) == Prepend('a', ReadString(t[1..]));
    assert t[1..] == "\"b\"}";
    assert ReadString(t[1..]) == Some(([], "b\"}"));
  }

  /** The 200 reply for a secret: the head of a 200 "OK" response, then the JSON body. */
  function SecretReply(value: string): Bytes {
    Utf8(ResponseHead(200, "OK")) + Utf8(SecretJson(value))
  }

  lemma ResponseHeadCode(code: int, description: string)
    requires 100 <= code < 1000 && IsAscii(description)
    ensures IsAscii(ResponseHead(code, description)) && |ResponseHead(code, description)| > 11
    ensures ResponseHead(code, description)[9] == DigitChar(code / 100)
  {
    var d := ToDecimal(code);
    assert d == NatDigits(code / 10) + [DigitChar(code % 10)];
    assert NatDigits(code / 10) == NatDigits(code / 100) + [DigitChar(code / 10 % 10)];
    assert NatDigits(code / 100) == [DigitChar(code / 100)];
    assert IsAscii(d);
  }

  /** A secret reply never looks like the 400 reply: their status codes differ. */
  lemma SecretReplyIsNotBadMessage(value: string)
    ensures SecretReply(value) != BadMessageReply
  {
    var ok, bad := ResponseHead(200, "OK"), ResponseHead(400, "Bad Message");
    ResponseHeadCode(200, "OK");
    ResponseHeadCode(400, "Bad Message");
    Utf8Ascii(ok);
    Utf8Ascii(bad);
    assert SecretReply(value)[9] == ok[9] as int == '2' as int;
    assert BadMessageReply[9] == bad[9] as int == '4' as int;
  }

  /** `processMessage` (MessageHandler.swift:35-64). */
  function ProcessMessage(requestMethod: Option<string>, body: Option<Bytes>, decode: Decoder,
                          isUrl: string -> bool, lookup: SecretLookup): (r: Handled)
    ensures r.Completed? ==> (r.err.Some? <==> r.reply.None?)
    ensures r == Completed(None, Some(BadMessageReply)) <==> requestMethod != Some("POST") || body.None?
    ensures r.Trapped? <==>
              requestMethod == Some("POST") && body.Some? && decode(body.value).Ok? && !isUrl(decode(body.value).value.url)
  {
    if requestMethod != Some("POST") || body.None? then Completed(None, Some(BadMessageReply))
    else match decode(body.value)
      case Err(e) => Completed(Some(e), None)
      case Ok(req) =>
        if !isUrl(req.url) then Trapped
        else match lookup(req.url)
          case Ok(value) => SecretReplyIsNotBadMessage(value); Completed(None, Some(SecretReply(value)))
          case Err(e) => Completed(Some(e), None)
  }

  /** No lookup is made for a request that is not a `POST` with a decodable body. */
  lemma LookupOnlyForDecodedPost(requestMethod: Option<string>, body: Option<Bytes>, decode: Decoder,
                                 isUrl: string -> bool, lookup: SecretLookup, other: SecretLookup)
    requires !(requestMethod == Some("POST") && body.Some? && decode(body.value).Ok?)
    ensures ProcessMessage(requestMethod, body, decode, isUrl, lookup) == ProcessMessage(requestMethod, body, decode, isUrl, other)
    ensures ProcessMessage(requestMethod, body, decode, isUrl, lookup).Completed?
  {
  }

  /** A body that does not decode gives its error, and no reply (so not the 400 reply). */
  lemma UndecodableBodyIsError(requestMethod: Option<string>, body: Option<Bytes>, decode: Decoder,
                               isUrl: string -> bool, lookup: SecretLookup)
    requires requestMethod == Some("POST") && body.Some? && decode(body.value).Err?
    ensures ProcessMessage(requestMethod, body, decode, isUrl, lookup) == Completed(Some(decode(body.value).error), None)
  {
  }

  /**
    A found secret gives a 200 reply whose body reads back as the secret; a failed lookup gives
    its error and no reply.
  */
  lemma LookupOutcome(requestMethod: Option<string>, body: Option<Bytes>, decode: Decoder,
                      isUrl: string -> bool, lookup: SecretLookup)
    requires requestMethod == Some("POST") && body.Some? && decode(body.value).Ok?
    requires isUrl(decode(body.value).value.url)
    ensures var r, found := ProcessMessage(requestMethod, body, decode, isUrl, lookup), lookup(decode(body.value).value.url);
            && (found.Ok? ==> r == Completed(None, Some(SecretReply(found.value))) && ReadSecret(SecretJson(found.value)) == Some(found.value))
            && (found.Err? ==> r == Completed(Some(found.error), None))
  {
    var found := lookup(decode(body.value).value.url);
    if found.Ok? {
      SecretJsonReadsBack(found.value);
    }
  }
}
