# Key Vault message server and challenge parser, in Dafny

This project models the Swift core under `KeyVaultClient/`. That core is a small local HTTP/1.1
server and the challenge parsing that Key Vault authentication relies on. The Dafny model has
these parts:

- **Challenge tokenizer** (`AuthHeaderItems`, `auth_header_items.dfy`). `extractItems` splits a
  `WWW-Authenticate` value into items: bare runs, quoted runs, and the delimiters `=` and `,`.
  - `Scan` is the loop's state after `n` characters, and `Tokenize` gives the items.
  - The method `ExtractItems` keeps the source's loop and flags, and is proved to return `Tokenize`.
  - Lemmas state how items form: order, contiguity, quotes, spaces, delimiters and backslashes.
- **Challenge parser** (`AuthHeader`, `auth_header.dfy`). `parse` is a table-driven state machine.
  - `Feed` is one iteration and `Run` the loop. The method `Parse` is proved equal to `ParseHeader`.
  - A small grammar of challenges (`ChallengeItems`) states what the parser accepts, what it
    refuses, and how it mishandles a second challenge.
  - `auth_header_examples.dfy` runs four literal headers through both stages.
- **Message framing** (`HttpMessage`, `http_message.dfy`). This is the `HTTPMessage` wrapper
  around a CFHTTPMessage.
  - It holds the head's bytes, what the head declares, and an optional body.
  - CF's head parser is a parameter.
  - `Status` is what `checkMessageStatus` reports, following sections 3.3.2 and 3.3.3 of RFC 7230.
  - The method `CheckMessageStatus` is proved to report it, and to cut a surplus off without
    losing a byte.
- **Connection driver** (`HttpConnection`, `http_connection.dfy`). The class `HTTPConnection`
  has the source's fields.
  - Read side: `ReadBytes` and `CheckCurrentMessage` split the bytes read into dispatched
    messages, and are proved to lose, repeat and reorder nothing.
  - Write side: `WriteBytes`, `WriteCurrentReply` and `HandleReply` are proved equal to the
    pure `Pump` and `WriteCurrent` over a `Drain` value. Lemmas about those say that the queue
    is FIFO, that output is conserved, and when the connection closes.
- **Request gate** (`MessageHandler`, `message_handler.dfy`). `processMessage` routes a request
  to the 400 reply, to an error, or to a secret lookup.
  - The JSON decoder, URL parsing and the lookup are parameters.
  - A reader of the reply's JSON (section 7 of RFC 8259) shows that the body reads back as the secret.
- **Token acquisition** (`KeyVaultAuthentication`, `authentication.dfy`).
  - `getValue` is an ordered alias lookup.
  - Parameters come from the `Bearer` challenge and are cached per host.
  - The callback turns them into a token, and its absence is an error.
- **Support modules**:
  - `Outcomes` holds `Option` and `Result`.
  - `Encoding` holds bytes, UTF-8 (section 3 of RFC 3629), and decimal integers as Swift's
    `Int(String)` reads them and string interpolation writes them.

Behaviour of the code worth knowing before reading the model:
- A backslash inside quotes stays in the value, together with the character after it. The
  receiver of a quoted-pair under section 3.2.6 of RFC 7230 would drop the backslash. So
  `resource="a\"b"` gives `a\"b` (`AuthHeaderExamples.EscapedExample`).
- A header with two challenges, such as `Basic realm="x", Bearer resource="y"`, is refused as
  `InvalidHeader` (`AuthHeaderExamples.TwoExample`). Section 4.1 of RFC 7235 allows several
  challenges in one header value.
- A `POST` body that does not decode completes with the decoding error, and the connection then
  sends a 402, not the 400 reply (`MessageHandler.UndecodableBodyIsError`).

## Model

| member | source | states |
|---|---|---|
| AuthHeaderItems.IsNotBlankOrEmpty | KeyVaultClient/KeyVault/AuthHeader.swift:28-38 | true exactly when the text holds a character that is not whitespace |
| AuthHeaderItems.ScanConsistent | KeyVaultClient/KeyVault/AuthHeader.swift:72-113 | after any number of characters, the items found so far are in input order, do not overlap, end before the pending text, and are each non-blank or enclosed in quotes |
| AuthHeaderItems.TokenSpans | KeyVaultClient/KeyVault/AuthHeader.swift:62-121 | the items of a header are contiguous ranges of it, in input order, without overlap, each non-blank or quoted |
| AuthHeaderItems.ExtractItems | KeyVaultClient/KeyVault/AuthHeader.swift:62-121 | the loop with the source's flags returns exactly `Tokenize` of the header |
| AuthHeaderItems.ScanExtends | KeyVaultClient/KeyVault/AuthHeader.swift:77-113 | reading further only appends items, each starting at or after the text pending earlier |
| AuthHeaderItems.ScanPrefixOfTokens | KeyVaultClient/KeyVault/AuthHeader.swift:115-118 | every item found after `n` characters is an item of the whole header, in the same place |
| AuthHeaderItems.TokenizeEmpty | KeyVaultClient/KeyVault/AuthHeader.swift:115-120 | the empty header has no items |
| AuthHeaderItems.DelimiterIsOwnItem | KeyVaultClient/KeyVault/AuthHeader.swift:88-106 | outside quotes, `=` and `,` are one-character items, right after the pending text when that is not blank |
| AuthHeaderItems.SpaceEndsItem | KeyVaultClient/KeyVault/AuthHeader.swift:86-101 | outside quotes, a space is in no item; it ends the pending text, which becomes an item unless blank |
| AuthHeaderItems.LaterItemsStartAfter | KeyVaultClient/KeyVault/AuthHeader.swift:108-117 | items not yet found start at or after the pending text |
| AuthHeaderItems.QuotedRunUnchanged | KeyVaultClient/KeyVault/AuthHeader.swift:77-82 | inside quotes, characters other than a quote or backslash change nothing |
| AuthHeaderItems.QuotedTextIsOneItem | KeyVaultClient/KeyVault/AuthHeader.swift:77-85 | the text strictly between an opening and the next closing quote is one item, even if empty or holding spaces, `=` or `,`; unquoted text pending before the opening quote is dropped |
| AuthHeaderItems.EscapedPairChangesNothing | KeyVaultClient/KeyVault/AuthHeader.swift:73-76 | a backslash and the next character neither open, close nor end an item, so both stay in its text |
| AuthHeader.Feed | KeyVaultClient/KeyVault/AuthHeader.swift:150-181 | one iteration keeps a challenge current once the first item is read |
| AuthHeader.ParseHeader | KeyVaultClient/KeyVault/AuthHeader.swift:133-141 | `EmptyString` exactly for an empty or blank header, before tokenizing; otherwise only `InvalidHeader` can be thrown |
| AuthHeader.RunAppend | KeyVaultClient/KeyVault/AuthHeader.swift:149-182 | running the loop over `a + b` is running it over `a`, then over `b` if `a` was accepted |
| AuthHeader.Parse | KeyVaultClient/KeyVault/AuthHeader.swift:133-190 | the loop with the source's variables returns `ParseHeader` of the header |
| AuthHeader.LastValueWins | KeyVaultClient/KeyVault/AuthHeader.swift:163 | a repeated parameter keeps the value of its last occurrence |
| AuthHeader.ParamMapKeys | KeyVaultClient/KeyVault/AuthHeader.swift:163 | the parameter map's keys are exactly the parameter names |
| AuthHeader.RunParams | KeyVaultClient/KeyVault/AuthHeader.swift:155-167 | a well-formed parameter list leaves the machine after its last value, with the parameter map |
| AuthHeader.RunChallenge | KeyVaultClient/KeyVault/AuthHeader.swift:151-167 | the machine after one well-formed challenge holds its scheme and parameter map |
| AuthHeader.SingleChallenge | KeyVaultClient/KeyVault/AuthHeader.swift:149-189 | one well-formed challenge gives `{scheme: parameters}`; a bare scheme gives `{scheme: {}}` |
| AuthHeader.TrailingCommaDropped | KeyVaultClient/KeyVault/AuthHeader.swift:165-189 | a trailing comma is dropped without error |
| AuthHeader.TrailingNameDropped | KeyVaultClient/KeyVault/AuthHeader.swift:155-189 | a trailing name without `=` and value is dropped without error |
| AuthHeader.TrailingKeyDropped | KeyVaultClient/KeyVault/AuthHeader.swift:155-189 | a trailing key with `=` but no value is dropped without error: `Bearer a=b, c=` gives `{Bearer: {a: b}}` |
| AuthHeader.SecondSchemeLosesNextName | KeyVaultClient/KeyVault/AuthHeader.swift:171-180 | a name after a comma followed by another name starts a new challenge, and that other name is lost |
| AuthHeader.SecondChallengeRejected | KeyVaultClient/KeyVault/AuthHeader.swift:158-180 | two well-formed challenges in one header are refused as `InvalidHeader` |
| AuthHeader.DelimiterFirstRejected | KeyVaultClient/KeyVault/AuthHeader.swift:151-152 | `=` or `,` where the scheme is expected is `InvalidHeader` |
| AuthHeader.SchemeEnds | KeyVaultClient/KeyVault/AuthHeader.swift:151-180 | the machine expects a challenge's first parameter name after the first item, and after a name that follows a comma and is followed by another name |
| AuthHeader.DelimiterAfterSchemeRejected | KeyVaultClient/KeyVault/AuthHeader.swift:155-156 | `=` or `,` where a challenge's first parameter name is expected is `InvalidHeader` |
| AuthHeader.NameWithoutEqualsRejected | KeyVaultClient/KeyVault/AuthHeader.swift:155-159 | anything but `=` after the first parameter name of a challenge is `InvalidHeader` |
| AuthHeader.DelimiterAsValueRejected | KeyVaultClient/KeyVault/AuthHeader.swift:161-162 | `=` or `,` where a value is expected is `InvalidHeader`, for any items that lead there |
| AuthHeader.ValueStarts | KeyVaultClient/KeyVault/AuthHeader.swift:155-172 | a value is expected after `scheme key =`, and after the `, key =` that follows a well-formed challenge |
| AuthHeader.ValueAfterScheme | KeyVaultClient/KeyVault/AuthHeader.swift:155-160 | after any scheme, including one the swallowed-name path starts, `key =` leads to a value |
| AuthHeader.CommaStates | KeyVaultClient/KeyVault/AuthHeader.swift:161-170 | a well-formed challenge waits for a comma, then for a name, then for `=` or a new scheme |
| AuthHeader.ValueWithoutCommaRejected | KeyVaultClient/KeyVault/AuthHeader.swift:165-166 | anything but `,` after a value is `InvalidHeader`, for any items that lead there |
| AuthHeader.DelimiterAfterCommaRejected | KeyVaultClient/KeyVault/AuthHeader.swift:168-169 | `=` or `,` right after the comma that ends a parameter is `InvalidHeader`, for any items that lead there |
| AuthHeader.CommaAfterNameRejected | KeyVaultClient/KeyVault/AuthHeader.swift:171-172 | a `,` right after a name that follows a comma is `InvalidHeader`, for any items that lead there |
| AuthHeaderExamples.PairExample | KeyVaultClient/KeyVault/AuthHeader.swift:133-190 | `Bearer k1="v1", k2=v2` parses to `{Bearer: {k1: v1, k2: v2}}` |
| AuthHeaderExamples.EscapedExample | KeyVaultClient/KeyVault/AuthHeader.swift:73-85 | `Bearer resource="a\"b"` parses to the value `a\"b`, backslash kept |
| AuthHeaderExamples.BareExample | KeyVaultClient/KeyVault/AuthHeader.swift:184-189 | `Bearer` parses to `{Bearer: {}}` |
| AuthHeaderExamples.TwoExample | KeyVaultClient/KeyVault/AuthHeader.swift:171-180 | `Basic realm="x", Bearer resource="y"` is `InvalidHeader` |
| Encoding.ParseToDecimal | KeyVaultClient/KeyVaultMessageServer/HTTPMessage.swift:90-92 | the decimal text of any 64-bit integer reads back as itself |
| Encoding.ParseOutOfRange | KeyVaultClient/KeyVaultMessageServer/HTTPMessage.swift:90-92 | the decimal text of an integer beyond 64 bits reads as nil |
| Encoding.ParseIntRejects | KeyVaultClient/KeyVaultMessageServer/HTTPMessage.swift:90-92 | empty text, a bare sign, surrounding blanks and hex are not integers |
| Encoding.ParseIntAccepts | KeyVaultClient/KeyVaultMessageServer/HTTPMessage.swift:90-92 | a leading `+` and leading zeros are accepted, and `-0` is zero |
| Encoding.EncodeChar | KeyVaultClient/KeyVaultMessageServer/MessageHandler.swift:53 | a character encodes to 1 to 4 bytes, one byte (its code) exactly for ASCII |
| Encoding.DecodeEncodeChar | KeyVaultClient/KeyVaultMessageServer/MessageHandler.swift:53 | decoding a character's encoding gives the character back |
| Encoding.Utf8 | KeyVaultClient/KeyVaultMessageServer/HTTPConnection.swift:124 | a string encodes to between one and four bytes per character |
| Encoding.Utf8Ascii | KeyVaultClient/KeyVaultMessageServer/HTTPConnection.swift:124 | ASCII text encodes to its codes, one byte per character |
| HttpMessage.Status | KeyVaultClient/KeyVaultMessageServer/HTTPMessage.swift:81-119 | `HeadersIncomplete` before the head is complete; `NoLengthSpecified` without `Content-Length`; `InvalidContentLength(raw)` exactly when the length is not an integer or negative; otherwise `Complete`, `Incomplete` or `CompleteExtraBytes(body[L..])` as the body is equal to, shorter or longer than the length |
| HttpMessage.SurplusSplit | KeyVaultClient/KeyVaultMessageServer/HTTPMessage.swift:115-118 | the kept body followed by the surplus is the old body |
| HttpMessage.CheckAfterSplitComplete | KeyVaultClient/KeyVaultMessageServer/HTTPMessage.swift:106-118 | checking again right after a surplus was cut reports `Complete` |
| HttpMessage.CheckIdempotent | KeyVaultClient/KeyVaultMessageServer/HTTPMessage.swift:81-113 | without a surplus the check changes nothing and reports the same again |
| HttpMessage.HTTPMessage.constructor | KeyVaultClient/KeyVaultMessageServer/HTTPMessage.swift:36-38 | a new message is empty, waits for its head and has no surplus |
| HttpMessage.HTTPMessage.Response | KeyVaultClient/KeyVaultMessageServer/HTTPMessage.swift:44-46 | a response has a complete `HTTP/1.1 <code> <description>` head and no body |
| HttpMessage.HTTPMessage.AppendData | KeyVaultClient/KeyVaultMessageServer/HTTPMessage.swift:52-56 | accepted bytes are appended to what the message holds, after the head once it is complete; only a malformed head refuses them, changing nothing |
| HttpMessage.HTTPMessage.AppendHead | KeyVaultClient/KeyVaultMessageServer/HTTPMessage.swift:52-56 | before the head is complete, CF's parser decides: more bytes are held as head, a parsed head splits off the rest as body, a malformed one refuses the bytes and changes nothing |
| HttpMessage.HTTPMessage.SetBody | KeyVaultClient/KeyVaultMessageServer/HTTPMessage.swift:121-123 | the body is replaced and the head kept; a message whose head is complete stays well-formed |
| HttpMessage.HTTPMessage.CheckMessageStatus | KeyVaultClient/KeyVaultMessageServer/HTTPMessage.swift:81-119 | reports `Status`; changes only the body, and only on a surplus, so that body and surplus make up the old bytes; afterwards no surplus is left |
| HttpConnection.Pump | KeyVaultClient/KeyVaultMessageServer/HTTPConnection.swift:135-162 | the write side never leaves the offset outside the reply in flight |
| HttpConnection.PumpStep | KeyVaultClient/KeyVaultMessageServer/HTTPConnection.swift:140-161 | `writeBytes` takes replies from the front of the queue only, only appends to the output, and closes at most once, only with the queue empty, nothing in flight and a reply sent |
| HttpConnection.WriteCurrentStep | KeyVaultClient/KeyVaultMessageServer/HTTPConnection.swift:164-182 | the same for `writeCurrentReply`, which closes only after finishing the reply in flight |
| HttpConnection.DrainStepTrans | KeyVaultClient/KeyVaultMessageServer/HTTPConnection.swift:160-178 | two runs of the write side, the first closing nothing, are again such a run |
| HttpConnection.PumpConserves | KeyVaultClient/KeyVaultMessageServer/HTTPConnection.swift:160-181 | with the corrected offset, what reaches the stream plus what is still outstanding never changes: replies are delivered in order, nothing lost or repeated |
| HttpConnection.WriteCurrentConserves | KeyVaultClient/KeyVaultMessageServer/HTTPConnection.swift:164-182 | the same for one `writeCurrentReply` |
| HttpConnection.FullWriteConserves | KeyVaultClient/KeyVaultMessageServer/HTTPConnection.swift:174-178 | a write that finishes the reply moves its rest to the stream, then goes on with the queue |
| HttpConnection.PartialWriteConserves | KeyVaultClient/KeyVaultMessageServer/HTTPConnection.swift:179-181 | a partial write with the corrected offset moves exactly the written bytes to the stream |
| HttpConnection.AmpleSendsAll | KeyVaultClient/KeyVaultMessageServer/HTTPConnection.swift:135-182 | when the stream has room, everything outstanding reaches it in order, the queue empties, and the connection closes once if a reply was ever sent, under either offset rule |
| HttpConnection.AmpleWriteCurrent | KeyVaultClient/KeyVaultMessageServer/HTTPConnection.swift:164-182 | the same starting from a reply in flight, which sets `sentReply` and closes once |
| HttpConnection.PartialWritesRepeatBytes | KeyVaultClient/KeyVaultMessageServer/HTTPConnection.swift:179-181 | as written, a 4-byte reply written 2, 1, then 3 bytes at a time reaches the stream as `1 2 3 2 3 4` |
| HttpConnection.PartialWritesCumulative | KeyVaultClient/KeyVaultMessageServer/HTTPConnection.swift:179-181 | with the corrected offset the same writes deliver `1 2 3 4` |
| HttpConnection.DispatchKeepsBytes | KeyVaultClient/KeyVaultMessageServer/HTTPConnection.swift:107-110 | dispatching a message and keeping its surplus loses no byte |
| HttpConnection.OutputStream.Write | KeyVaultClient/KeyVaultMessageServer/HTTPConnection.swift:168-170 | a write takes the first bytes of the data, as many as the stream accepts this time |
| HttpConnection.HTTPConnection.constructor | KeyVaultClient/KeyVaultMessageServer/HTTPConnection.swift:44-62 | a new connection has no replies, nothing in flight, offset 0, no reply sent and an empty request |
| HttpConnection.HTTPConnection.Close | KeyVaultClient/KeyVaultMessageServer/HTTPConnection.swift:69-77 | closing changes nothing else of the connection |
| HttpConnection.HTTPConnection.WriteBytes | KeyVaultClient/KeyVaultMessageServer/HTTPConnection.swift:135-162 | the connection's write side, stream included, ends as `Pump` says |
| HttpConnection.HTTPConnection.WriteCurrentReply | KeyVaultClient/KeyVaultMessageServer/HTTPConnection.swift:164-182 | the write side ends as `WriteCurrent` says |
| HttpConnection.HTTPConnection.HandleReply | KeyVaultClient/KeyVaultMessageServer/HTTPConnection.swift:120-132 | the reply, or else one 402 "Request Failed" reply with body `Request failed: <err>`, is appended to the queue, then `writeBytes` runs |
| HttpConnection.HTTPConnection.ProcessMessage | KeyVaultClient/KeyVaultMessageServer/HTTPConnection.swift:119-120 | the message is handed to the handler once, and nothing else changes |
| HttpConnection.HTTPConnection.DispatchCurrent | KeyVaultClient/KeyVaultMessageServer/HTTPConnection.swift:107-110 | the framed message is dispatched once and replaced by an empty request whose head is not complete; the dispatched bytes plus the surplus are what it held |
| HttpConnection.HTTPConnection.DispatchWithSurplus | KeyVaultClient/KeyVaultMessageServer/HTTPConnection.swift:107-113 | dispatches the framed message once and feeds the surplus to a fresh request; throws `FailedToAppendBytesToHTTPMessage` exactly when CF's parser finds the surplus malformed, and otherwise asks for another check with the surplus buffered and no byte lost |
| HttpConnection.HTTPConnection.CheckCurrentMessage | KeyVaultClient/KeyVaultMessageServer/HTTPConnection.swift:98-117 | an unframed message stays in place with every field unchanged, and nothing is dispatched; `Complete` dispatches once and starts an empty request; a surplus dispatches once, feeds the surplus to a fresh request and asks for another check, or throws `FailedToAppendBytesToHTTPMessage` exactly when CF's parser finds the surplus malformed; a framing error is thrown and leaves the message as it was, every field included; no byte is lost, and a check asked for is on fewer bytes; when no further check is asked for, no surplus is left |
| HttpConnection.HTTPConnection.CheckAll | KeyVaultClient/KeyVaultMessageServer/HTTPConnection.swift:91 | checking stops, without error, only once no surplus is left; it only dispatches messages and keeps every byte |
| HttpConnection.HTTPConnection.ReadBytes | KeyVaultClient/KeyVaultMessageServer/HTTPConnection.swift:79-95 | every byte read ends up, in order, in a dispatched message or the current one; the write side is untouched |
| HttpConnection.HTTPConnection.EndEncountered | KeyVaultClient/KeyVaultMessageServer/HTTPConnection.swift:197-202 | at end of stream the input is read as by `ReadBytes`, the write side is untouched, and the connection closes once if the event came from the write stream and the read succeeded |
| MessageHandler.ProcessMessage | KeyVaultClient/KeyVaultMessageServer/MessageHandler.swift:35-64 | the completion gets exactly one of error and reply; the 400 reply exactly for a request that is not a `POST` or has no body; a trap exactly when the decoded URL is not a URL |
| MessageHandler.LookupOnlyForDecodedPost | KeyVaultClient/KeyVaultMessageServer/MessageHandler.swift:36-47 | no secret lookup is made for a request that is not a `POST` with a decodable body |
| MessageHandler.UndecodableBodyIsError | KeyVaultClient/KeyVaultMessageServer/MessageHandler.swift:46-63 | a body that does not decode completes with its error and no reply, so not the 400 reply |
| MessageHandler.LookupOutcome | KeyVaultClient/KeyVaultMessageServer/MessageHandler.swift:49-57 | a found secret gives the 200 reply whose JSON body reads back as the secret; a failed lookup gives its error and no reply |
| MessageHandler.SecretReplyIsNotBadMessage | KeyVaultClient/KeyVaultMessageServer/MessageHandler.swift:29-54 | a secret reply never equals the 400 reply |
| MessageHandler.EscapeReadsBack | KeyVaultClient/KeyVaultMessageServer/MessageHandler.swift:53 | an escaped string reads back as itself, up to the quote after it |
| MessageHandler.SecretJsonReadsBack | KeyVaultClient/KeyVaultMessageServer/MessageHandler.swift:53 | the escaped reply body reads back as the secret, whatever it holds |
| MessageHandler.RawAgreesOnPlain | KeyVaultClient/KeyVaultMessageServer/MessageHandler.swift:53 | the source's body is the escaped one, and reads back, when the secret has no quote, backslash or control character |
| MessageHandler.RawSecretJsonMisreads | KeyVaultClient/KeyVaultMessageServer/MessageHandler.swift:53 | as written, the body for the secret `a"b` does not read back as a secret |
| KeyVaultAuthentication.FirstPresentIsFirst | KeyVaultClient/KeyVault/Authentication.swift:53-61 | a value is found exactly when some key is present, and it is that of the earliest present key |
| KeyVaultAuthentication.GetValue | KeyVaultClient/KeyVault/Authentication.swift:53-61 | the loop returns the value of the first present key, or throws `BearerChallengeMissingRequiredParameter` when none is |
| KeyVaultAuthentication.BearerParams | KeyVaultClient/KeyVault/Authentication.swift:83-89 | no `Bearer` challenge gives `NoBearerChallenge`; other failures are a missing parameter |
| KeyVaultAuthentication.AliasPrecedence | KeyVaultClient/KeyVault/Authentication.swift:87-88 | `authorization_uri` wins over `authorization` and `resource` over `resource_id`; parameters are found exactly when one name of each pair is present |
| KeyVaultAuthentication.AuthParamsFrom | KeyVaultClient/KeyVault/Authentication.swift:65-96 | a transport error is passed on, and a response without the header gives `NoAuthHeader` |
| KeyVaultAuthentication.BearerChallengeGivesParams | KeyVaultClient/KeyVault/Authentication.swift:80-92 | a header holding one `Bearer` challenge that names an authority and a resource yields them |
| KeyVaultAuthentication.TokenFor | KeyVaultClient/KeyVault/Authentication.swift:44-51 | without a callback the result is `NoAuthCallback`; otherwise the callback's outcome is passed on, a token as the token and a failure as `CallbackError` |
| KeyVaultAuthentication.Authentication.GetAuthParams | KeyVaultClient/KeyVault/Authentication.swift:63-98 | the result is `AuthParamsFrom` the response, and parameters found are cached under the host; nothing is cached on failure |
| KeyVaultAuthentication.Authentication.GetToken | KeyVaultClient/KeyVault/Authentication.swift:100-117 | cached parameters are used without requesting the server; otherwise the server is requested and the parameters it yields are cached and used; without a callback the result is the request's error or `NoAuthCallback` |

## Findings

| source | as written | input that shows it | evidently intended | confidence | as-written member | corrected member |
|---|---|---|---|---|---|---|
| KeyVaultClient/KeyVaultMessageServer/HTTPConnection.swift:179-181 | after a partial write the offset becomes that write's byte count | a 4-byte reply written 2, 1, then 3 bytes at a time: the stream receives `1 2 3 2 3 4` | the offset grows by each write's count, so that each byte is sent once | high, not executed | HttpConnection.PartialWritesRepeatBytes | HttpConnection.PumpConserves |
| KeyVaultClient/KeyVaultMessageServer/MessageHandler.swift:53 | the secret is placed between quotes unescaped | the secret `a"b` gives `{"secret":"a"b"}`, which is not JSON whose secret is `a"b` | the secret escaped as a JSON string | medium, not executed | MessageHandler.RawSecretJsonMisreads | MessageHandler.SecretJsonReadsBack |

The connection's methods use the corrected offset (`Cumulative`). `Pump` and `WriteCurrent`
also take the source's rule (`AsWritten`), and `PartialWritesRepeatBytes` runs them with it.
`ProcessMessage` uses the escaped body. `RawSecretJson` is the source's body.

## Left out

- HttpConnection.HTTPConnection.WriteCurrentReply: advances the offset by the bytes written,
  not to them (see Findings). The source's rule is `WriteCurrent(AsWritten, ...)`.
- HttpConnection.HTTPConnection.WriteBytes: uses the same corrected offset, so on partial
  writes it ends as `Pump(Cumulative, ...)`, where the source ends as `Pump(AsWritten, ...)`.
- HttpConnection.HTTPConnection.HandleReply: drains through `WriteBytes`, so the same corrected
  offset applies to the replies it enqueues.
- MessageHandler.ProcessMessage: writes the escaped secret (see Findings). `RawSecretJson` is the
  source's body.
- The CF parser and CF serialization are not modelled.
  - `HeadParser` stands for what CF's parser decides about a head.
  - Serializing a message (`toData`) is taken to be its head bytes followed by its body.
    For a response built from a code and description, the head is `HTTP/1.1 <code> <description>`
    and a blank line. CF adds headers of its own, such as `Content-Length`, which are not modelled.
  - Header names are matched exactly; CF matches them ignoring case.
- Stream plumbing is not modelled: scheduling on dispatch queues, `open`, delegates, the
  `stream(_:handle:)` event switch, the `connections` registry and `Logger`.
  - `ReadBytes` takes the successive reads as a parameter, so the 2048-byte buffer is not modelled.
  - The output stream is a list of how many bytes each coming write accepts.
  - A write returning -1 (an error) is not modelled.
- The handler's completion runs asynchronously in the source.
  - `ProcessMessage` records the dispatched message, and `HandleReply` is that completion,
    called separately. The model does not fix when completions run relative to reads.
- `close` is counted. Closing the streams and telling the delegate are not modelled.
- `JSONDecoder`, `URL(string:)`, `URLSession`, `KeyVault.Secret.get` and the token callback are
  parameters: functions from their inputs to a result or an error's description.
- `Authentication.GetAuthParams` and `GetToken` take the outcome of the network request as a
  parameter. The server's host is a string, so the crash of `server.host!` on a URL without a
  host is not modelled.
- `URL(string:)!` on text that is not a URL traps; the model returns `Trapped`.
- The `paramsQueue` synchronisation and the unsynchronised cache write are not modelled, because
  the model is sequential.
- Characters are Unicode scalar values, whereas Swift's `Character` is a grapheme cluster.
  - Whitespace is the Unicode White_Space set, standing for `CharacterSet.whitespacesAndNewlines`.
  - Strings are equal when they hold the same characters. Swift compares `String` and `Substring`
    by canonical equivalence, and so does its dictionary lookup. This matters for
    `dict[Substring(key)]` and `challenges["Bearer"]` (Authentication.swift:55 and 83) and for
    `curParams[key] = item` (AuthHeader.swift:163). Two canonically equivalent parameter names
    are one key in Swift, but two keys in `ParamMap`.
- The error printed in a 402 body is `Optional(<description>)` or `nil`, given the error's
  description as text. Swift's own formatting of each error type is not modelled.
- `HTTPMessage.init(requestMethod:url:)`, `appendBytes` and `isHeaderComplete` are not modelled
  separately. `appendBytes` is `AppendData`, and `isHeaderComplete` is the field `headerComplete`.
