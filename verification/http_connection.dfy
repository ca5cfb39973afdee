/**
  The connection driver of KeyVaultClient/KeyVaultMessageServer/HTTPConnection.swift.

  Read side: bytes read from the input stream are appended to the current message; each time
  the message is framed (`checkCurrentMessage`) it is handed to the message handler and a fresh
  message takes its place, starting with any surplus. `HTTPConnection.ReadBytes` is proved to
  split the input into messages without losing, duplicating or reordering a byte.

  Write side: replies wait in a FIFO queue; one at a time is written, at an offset, as the
  output stream accepts bytes (`writeBytes`, `writeCurrentReply`). `Pump` and `WriteCurrent`
  specify the two methods over a `Drain` value, for either rule of updating the offset after a
  partial write; the methods are proved to follow the cumulative rule. The source sets the
  offset to the bytes of the last write alone (`AsWritten`), which repeats bytes of the reply.
*/
module HttpConnection {
  import opened Outcomes
  import opened Encoding
  import opened HttpMessage

  datatype HTTPConnectionError =
    | FailedToAppendBytesToHTTPMessage
    | MessageError(error: HTTPMessageError)  // thrown by `checkMessageStatus` and passed on

  // The write side, as values.

  /** How the offset into the reply in flight moves after a partial write of `n` bytes. */
  datatype OffsetRule =
    | AsWritten   // `currentReplyByte = bytesWritten` (HTTPConnection.swift:180)
    | Cumulative  // `currentReplyByte += bytesWritten`

  function NextOffset(rule: OffsetRule, offset: nat, n: nat): nat {
    match rule
    case AsWritten => n
    case Cumulative => offset + n
  }

  /**
    The write-side state: the queue, the reply in flight and its offset, `sentReply`, what the
    output stream holds, how many bytes each of its coming writes accepts (it has space while
    one is left), and how many times the connection was closed.
  */
  datatype Drain = Drain(
    replies: seq<Bytes>, current: Option<Bytes>, offset: nat, sentReply: bool,
    written: Bytes, grants: seq<nat>, closes: nat)

  /** The offset lies in the reply in flight, and is 0 when none is. */
  predicate OffsetOk(d: Drain) {
    match d.current
    case None => d.offset == 0
    case Some(data) => d.offset <= |data|
  }

  function Min(a: nat, b: nat): nat {
    if a < b then a else b
  }

  /** `writeBytes` (HTTPConnection.swift:135-162). */
  function Pump(rule: OffsetRule, d: Drain): (r: Drain)
    requires OffsetOk(d)
    ensures OffsetOk(r)
    decreases |d.grants|, 1
  {
    if d.grants == [] then d
    else if d.current.Some? then WriteCurrent(rule, d)
    else if d.replies == [] then (if d.sentReply then d.(closes := d.closes + 1) else d)
    else WriteCurrent(rule, d.(current := Some(d.replies[0]), replies := d.replies[1..]))
  }

  /** `writeCurrentReply` (HTTPConnection.swift:164-182): one write of what is left of the reply. */
  function WriteCurrent(rule: OffsetRule, d: Drain): (r: Drain)
    requires OffsetOk(d) && d.current.Some? && d.grants != []
    ensures OffsetOk(r)
    decreases |d.grants|, 0
  {
    var data := d.current.value;
    var remaining := |data| - d.offset;
    var n := Min(d.grants[0], remaining);
    var d' := d.(written := d.written + data[d.offset..d.offset + n], grants := d.grants[1..]);
    if n == remaining then Pump(rule, d'.(current := None, offset := 0, sentReply := true))
    else d'.(offset := NextOffset(rule, d.offset, n))
  }

  function Concat(rs: seq<Bytes>): Bytes
    decreases |rs|
  {
    if rs == [] then [] else rs[0] + Concat(rs[1..])
  }

  /** Every byte still to be written: the rest of the reply in flight, then the queue. */
  function Outstanding(d: Drain): Bytes
    requires OffsetOk(d)
  {
    (if d.current.Some? then d.current.value[d.offset..] else []) + Concat(d.replies)
  }

  /**
    What one run of the write side may do: take replies off the front of the queue only, append
    to the output only, and close at most once, only with the queue empty, nothing in flight
    and a reply sent.
  */
  predicate DrainStep(d: Drain, r: Drain) {
    && |r.replies| <= |d.replies| && r.replies == d.replies[|d.replies| - |r.replies|..]
    && d.written <= r.written
    && |r.grants| <= |d.grants|
    && (r.closes == d.closes || (r.closes == d.closes + 1 && r.replies == [] && r.current.None? && r.sentReply))
  }

  lemma DrainStepTrans(d: Drain, e: Drain, r: Drain)
    requires DrainStep(d, e) && DrainStep(e, r) && e.closes == d.closes
    ensures DrainStep(d, r)
  {
    assert r.replies == d.replies[|d.replies| - |r.replies|..] by {
      var k, j := |d.replies| - |e.replies|, |e.replies| - |r.replies|;
      assert e.replies[j..] == d.replies[k..][j..];
    }
  }

  /** `writeBytes` only takes from the front of the queue and closes only once all is sent. */
  lemma {:induction false} PumpStep(rule: OffsetRule, d: Drain)
    requires OffsetOk(d)
    ensures DrainStep(d, Pump(rule, d))
    decreases |d.grants|, 1
  {
    if d.grants != [] {
      if d.current.Some? {
        WriteCurrentStep(rule, d);
      } else if d.replies != [] {
        var d1 := d.(current := Some(d.replies[0]), replies := d.replies[1..]);
        WriteCurrentStep(rule, d1);
        DrainStepTrans(d, d1, Pump(rule, d));
      }
    }
  }

  lemma {:induction false} WriteCurrentStep(rule: OffsetRule, d: Drain)
    requires OffsetOk(d) && d.current.Some? && d.grants != []
    ensures DrainStep(d, WriteCurrent(rule, d))
    ensures WriteCurrent(rule, d).closes > d.closes ==> WriteCurrent(rule, d).current.None?
    decreases |d.grants|, 0
  {
    var data := d.current.value;
    var remaining := |data| - d.offset;
    var n := Min(d.grants[0], remaining);
    var d' := d.(written := d.written + data[d.offset..d.offset + n], grants := d.grants[1..]);
    if n == remaining {
      var d2 := d'.(current := None, offset := 0, sentReply := true);
      PumpStep(rule, d2);
      DrainStepTrans(d, d2, Pump(rule, d2));
    }
  }

  lemma ConcatCons(rs: seq<Bytes>)
    requires rs != []
    ensures Concat(rs) == rs[0] + Concat(rs[1..])
  {
  }

  /**
    With the cumulative offset, the output grows by exactly the bytes that stop being
    outstanding: the stream receives the queued replies in order, none lost or repeated.
  */
  lemma {:induction false} PumpConserves(d: Drain)
    requires OffsetOk(d)
    ensures Pump(Cumulative, d).written + Outstanding(Pump(Cumulative, d)) == d.written + Outstanding(d)
    decreases |d.grants|, 2
  {
    if d.grants != [] {
      if d.current.Some? {
        WriteCurrentConserves(d);
      } else if d.replies != [] {
        var d1 := d.(current := Some(d.replies[0]), replies := d.replies[1..]);
        assert d.replies[0][0..] == d.replies[0];
        assert Outstanding(d1) == Outstanding(d);
        WriteCurrentConserves(d1);
      }
    }
  }

  lemma {:induction false} WriteCurrentConserves(d: Drain)
    requires OffsetOk(d) && d.current.Some? && d.grants != []
    ensures WriteCurrent(Cumulative, d).written + Outstanding(WriteCurrent(Cumulative, d)) == d.written + Outstanding(d)
    decreases |d.grants|, 1
  {
    if d.grants[0] < |d.current.value| - d.offset {
      PartialWriteConserves(d);
    } else {
      FullWriteConserves(d);
    }
  }

  /** A write that finishes the reply in flight moves the rest of it to the output. */
  lemma {:induction false} FullWriteConserves(d: Drain)
    requires OffsetOk(d) && d.current.Some? && d.grants != []
    requires |d.current.value| - d.offset <= d.grants[0]
    ensures WriteCurrent(Cumulative, d).written + Outstanding(WriteCurrent(Cumulative, d)) == d.written + Outstanding(d)
    decreases |d.grants|, 0
  {
    var data := d.current.value;
    var remaining := |data| - d.offset;
    var n := Min(d.grants[0], remaining);
    var d' := d.(written := d.written + data[d.offset..d.offset + n], grants := d.grants[1..]);
    var d2 := d'.(current := None, offset := 0, sentReply := true);
    assert WriteCurrent(Cumulative, d) == Pump(Cumulative, d2);
    assert data[d.offset..d.offset + n] == data[d.offset..];
    PumpConserves(d2);
    AppendKeepsOrder(d.written, data[d.offset..], d.written, data[d.offset..], Concat(d.replies));
  }

  /** A partial write moves bytes from the reply in flight to the output. */
  lemma PartialWriteConserves(d: Drain)
    requires OffsetOk(d) && d.current.Some? && d.grants != []
    requires d.grants[0] < |d.current.value| - d.offset
    ensures WriteCurrent(Cumulative, d).written + Outstanding(WriteCurrent(Cumulative, d)) == d.written + Outstanding(d)
  {
    var data, n, rest := d.current.value, d.grants[0], Concat(d.replies);
    var chunk := data[d.offset..d.offset + n];
    var r := d.(written := d.written + chunk, grants := d.grants[1..], offset := d.offset + n);
    assert WriteCurrent(Cumulative, d) == r;
    assert data[d.offset..] == chunk + data[d.offset + n..];
    calc {
      r.written + Outstanding(r);
      (d.written + chunk) + (data[d.offset + n..] + rest);
      d.written + ((chunk + data[d.offset + n..]) + rest);
    }
  }

  /** Every coming write accepts at least what is left of any reply, in flight or queued. */
  predicate Ample(d: Drain)
    requires OffsetOk(d)
  {
    && (forall i, j :: 0 <= i < |d.grants| && 0 <= j < |d.replies| ==> |d.replies[j]| <= d.grants[i])
    && (d.current.Some? ==> forall i :: 0 <= i < |d.grants| ==> |d.current.value| - d.offset <= d.grants[i])
  }

  function InFlight(d: Drain): nat {
    if d.current.Some? then 1 else 0
  }

  /**
    When the stream has room for every reply and for one more check, the write side sends
    everything still outstanding, in order, then closes if any reply was ever sent, whichever
    offset rule is used.
  */
  lemma {:induction false} AmpleSendsAll(rule: OffsetRule, d: Drain)
    requires OffsetOk(d) && Ample(d) && |d.grants| > |d.replies| + InFlight(d)
    ensures Pump(rule, d).written == d.written + Outstanding(d)
    ensures Pump(rule, d).replies == [] && Pump(rule, d).current.None?
    ensures Pump(rule, d).sentReply == (d.sentReply || d.current.Some? || d.replies != [])
    ensures Pump(rule, d).closes == d.closes + (if Pump(rule, d).sentReply then 1 else 0)
    decreases |d.grants|, 1
  {
    if d.current.Some? {
      AmpleWriteCurrent(rule, d);
    } else if d.replies != [] {
      var d1 := d.(current := Some(d.replies[0]), replies := d.replies[1..]);
      assert d.replies[0][0..] == d.replies[0];
      assert Outstanding(d1) == Outstanding(d);
      AmpleWriteCurrent(rule, d1);
    }
  }

  lemma {:induction false} AmpleWriteCurrent(rule: OffsetRule, d: Drain)
    requires OffsetOk(d) && d.current.Some? && Ample(d) && |d.grants| > |d.replies| + 1
    ensures WriteCurrent(rule, d).written == d.written + Outstanding(d)
    ensures WriteCurrent(rule, d).replies == [] && WriteCurrent(rule, d).current.None?
    ensures WriteCurrent(rule, d).sentReply
    ensures WriteCurrent(rule, d).closes == d.closes + 1
    decreases |d.grants|, 0
  {
    var data := d.current.value;
    var d2 := d.(written := d.written + data[d.offset..], grants := d.grants[1..], current := None, offset := 0, sentReply := true);
    assert Ample(d2);
    assert data[d.offset..d.offset + (|data| - d.offset)] == data[d.offset..];
    AmpleSendsAll(rule, d2);
  }

  /**
    Finding, as written: a 4-byte reply written 2, then 1, then 3 bytes at a time reaches the
    stream as 6 bytes, its middle repeated, because the offset after the second write is 1
    instead of 3.
  */
  lemma PartialWritesRepeatBytes()
    ensures var d0 := Drain([[1, 2, 3, 4]], None, 0, false, [], [2, 1, 3], 0);
            var d3 := Pump(AsWritten, Pump(AsWritten, Pump(AsWritten, d0)));
            d3.written == [1, 2, 3, 2, 3, 4] && d3.replies == [] && d3.current.None?
  {
    RepeatFirstWrite();
    RepeatSecondWrite();
    RepeatThirdWrite();
  }

  /** The first write of the finding: 2 of the 4 bytes go out. */
  lemma RepeatFirstWrite()
    ensures Pump(AsWritten, Drain([[1, 2, 3, 4]], None, 0, false, [], [2, 1, 3], 0))
         == Drain([], Some([1, 2, 3, 4]), 2, false, [1, 2], [1, 3], 0)
  {
    var reply: Bytes := [1, 2, 3, 4];
    var d0 := Drain([reply], None, 0, false, [], [2, 1, 3], 0);
    assert Pump(AsWritten, d0) == WriteCurrent(AsWritten, d0.(current := Some(reply), replies := []));
    assert reply[0..2] == [1, 2];
  }

  /** The second write: 1 byte goes out, and the offset becomes 1 rather than 3. */
  lemma RepeatSecondWrite()
    ensures Pump(AsWritten, Drain([], Some([1, 2, 3, 4]), 2, false, [1, 2], [1, 3], 0))
         == Drain([], Some([1, 2, 3, 4]), 1, false, [1, 2, 3], [3], 0)
  {
    var reply: Bytes := [1, 2, 3, 4];
    var d1 := Drain([], Some(reply), 2, false, [1, 2], [1, 3], 0);
    assert Pump(AsWritten, d1) == WriteCurrent(AsWritten, d1);
    assert reply[2..3] == [3];
  }

  /** The third write resends bytes 2 and 3 before the last one. */
  lemma RepeatThirdWrite()
    ensures Pump(AsWritten, Drain([], Some([1, 2, 3, 4]), 1, false, [1, 2, 3], [3], 0))
         == Drain([], None, 0, true, [1, 2, 3, 2, 3, 4], [], 0)
  {
    var reply: Bytes := [1, 2, 3, 4];
    var d2 := Drain([], Some(reply), 1, false, [1, 2, 3], [3], 0);
    var d3 := Drain([], None, 0, true, [1, 2, 3, 2, 3, 4], [], 0);
    assert reply[1..4] == [2, 3, 4];
    assert Pump(AsWritten, d2) == WriteCurrent(AsWritten, d2) == Pump(AsWritten, d3) == d3;
  }

  /** Corrected: the same writes deliver the reply exactly once. */
  lemma PartialWritesCumulative()
    ensures var d0 := Drain([[1, 2, 3, 4]], None, 0, false, [], [2, 1, 3], 0);
            Pump(Cumulative, Pump(Cumulative, Pump(Cumulative, d0))).written == [1, 2, 3, 4]
  {
    var d0 := Drain([[1, 2, 3, 4]], None, 0, false, [], [2, 1, 3], 0);
    var d1 := Pump(Cumulative, d0);
    assert d1 == Drain([], Some([1, 2, 3, 4]), 2, false, [1, 2], [1, 3], 0);
    assert [1, 2, 3, 4][2..3] == [3] && [1, 2] + [3] == [1, 2, 3];
    var d2 := Pump(Cumulative, d1);
    assert d2 == Drain([], Some([1, 2, 3, 4]), 3, false, [1, 2, 3], [3], 0);
  }

  // The read side and the connection object.

  /** A message as it is handed to the message handler. */
  datatype Request = Request(requestMethod: Option<string>, headers: map<string, string>, head: Bytes, body: Option<Bytes>)

  /** The bytes of a request, head then body. */
  function Wire(r: Request): Bytes {
    r.head + BodyBytes(r.body)
  }

  function WireAll(rs: seq<Request>): Bytes
    decreases |rs|
  {
    if rs == [] then [] else WireAll(rs[..|rs| - 1]) + Wire(rs[|rs| - 1])
  }

  lemma WireAllSnoc(rs: seq<Request>, r: Request)
    ensures WireAll(rs + [r]) == WireAll(rs) + Wire(r)
  {
    assert (rs + [r])[..|rs|] == rs;
  }

  function Flatten(chunks: seq<Bytes>): Bytes
    decreases |chunks|
  {
    if chunks == [] then [] else Flatten(chunks[..|chunks| - 1]) + chunks[|chunks| - 1]
  }

  lemma FlattenPrefix(chunks: seq<Bytes>, i: nat)
    requires i < |chunks|
    ensures Flatten(chunks[..i + 1]) == Flatten(chunks[..i]) + chunks[i]
  {
    assert chunks[..i + 1][..i] == chunks[..i];
  }

  /** Appending a read to the held bytes appends it to everything received. */
  lemma AppendKeepsOrder(sent: Bytes, held: Bytes, start: Bytes, prefix: Bytes, chunk: Bytes)
    requires sent + held == start + prefix
    ensures sent + (held + chunk) == start + (prefix + chunk)
  {
    calc {
      sent + (held + chunk);
      (sent + held) + chunk;
      (start + prefix) + chunk;
      start + (prefix + chunk);
    }
  }

  /** Dispatching a message whose bytes and the surplus make up the old message loses nothing. */
  lemma DispatchKeepsBytes(before: seq<Request>, sent: Request, surplus: Bytes, message: Bytes)
    requires Wire(sent) + surplus == message
    ensures WireAll(before + [sent]) + surplus == WireAll(before) + message
  {
    WireAllSnoc(before, sent);
  }

  function Snapshot(m: HTTPMessage): Request
    reads m
  {
    Request(m.requestMethod, m.headers, m.headBytes, m.body)
  }

  /** `String(describing:)` of an optional error, given the description of the error itself. */
  function Describe(err: Option<string>): string {
    match err
    case None => "nil"
    case Some(e) => "Optional(" + e + ")"
  }

  /** The 402 reply sent when the handler gives no reply (HTTPConnection.swift:123-125). */
  function FailureReply(err: Option<string>): Bytes {
    Utf8(ResponseHead(402, "Request Failed")) + Utf8("Request failed: " + Describe(err))
  }

  /** What the handler's completion enqueues. */
  function ReplyFor(err: Option<string>, reply: Option<Bytes>): Bytes {
    match reply
    case Some(r) => r
    case None => FailureReply(err)
  }

  /**
    The output stream: what it holds, and how many bytes each coming write accepts; it has
    space while a write is left.
  */
  class OutputStream {
    var written: Bytes
    var grants: seq<nat>

    constructor (grants: seq<nat>)
      ensures written == [] && this.grants == grants
    {
      written := [];
      this.grants := grants;
    }

    function HasSpaceAvailable(): (r: bool)
      reads this
      ensures r <==> grants != []
    {
      grants != []
    }

    /** `write(_:maxLength:)`: takes as many of `data` as this write accepts. */
    method Write(data: Bytes) returns (n: nat)
      requires grants != []
      modifies this
      ensures n == Min(old(grants)[0], |data|)
      ensures written == old(written) + data[..n] && grants == old(grants)[1..]
    {
      n := Min(grants[0], |data|);
      written := written + data[..n];
      grants := grants[1..];
    }
  }

  class HTTPConnection {
    const writeStream: OutputStream
    var replies: seq<Bytes>
    var currentReply: Option<Bytes>
    var currentReplyByte: nat
    var currentMessage: HTTPMessage
    var sentReply: bool
    /** The messages handed to the message handler, in order. */
    var dispatched: seq<Request>
    /** How many times `close` ran. */
    var closes: nat

    /** The write side as a `Drain` value. */
    function DrainState(): Drain
      reads this, writeStream
    {
      Drain(replies, currentReply, currentReplyByte, sentReply, writeStream.written, writeStream.grants, closes)
    }

    /** The message being read is a well-formed request. */
    predicate ReadValid()
      reads this, currentMessage
    {
      currentMessage.Valid() && currentMessage.isRequest
    }

    /** Every byte read and not yet lost: the dispatched messages, then the current one. */
    function Received(): Bytes
      reads this, currentMessage
    {
      WireAll(dispatched) + currentMessage.Buffered()
    }

    constructor (writeStream: OutputStream)
      ensures this.writeStream == writeStream && ReadValid() && fresh(currentMessage)
      ensures replies == [] && currentReply.None? && currentReplyByte == 0 && !sentReply
      ensures dispatched == [] && closes == 0 && currentMessage.Buffered() == []
    {
      this.writeStream := writeStream;
      replies := [];
      currentReply := None;
      currentReplyByte := 0;
      currentMessage := new HTTPMessage(true);
      sentReply := false;
      dispatched := [];
      closes := 0;
    }

    /** `close`; closing the streams and telling the delegate are not modelled. */
    method Close()
      modifies this
      ensures closes == old(closes) + 1
      ensures replies == old(replies) && currentReply == old(currentReply) && currentReplyByte == old(currentReplyByte)
      ensures sentReply == old(sentReply) && currentMessage == old(currentMessage) && dispatched == old(dispatched)
    {
      closes := closes + 1;
    }

    /** `writeBytes` (HTTPConnection.swift:135-162). */
    method WriteBytes()
      requires OffsetOk(DrainState())
      modifies this, writeStream
      ensures DrainState() == Pump(Cumulative, old(DrainState()))
      ensures currentMessage == old(currentMessage) && dispatched == old(dispatched)
      decreases |writeStream.grants|, 1
    {
      if !writeStream.HasSpaceAvailable() {
        return;
      }
      if currentReply.Some? {
        WriteCurrentReply(currentReply.value);
        return;
      }
      if |replies| == 0 {
        if sentReply {
          Close();
        }
        return;
      }
      currentReply := Some(replies[0]);
      replies := replies[1..];
      WriteCurrentReply(currentReply.value);
    }

    /**
      `writeCurrentReply` (HTTPConnection.swift:164-182), with the offset after a partial write
      advanced by the bytes written.
    */
    method WriteCurrentReply(data: Bytes)
      requires currentReply == Some(data) && writeStream.grants != [] && OffsetOk(DrainState())
      modifies this, writeStream
      ensures DrainState() == WriteCurrent(Cumulative, old(DrainState()))
      ensures currentMessage == old(currentMessage) && dispatched == old(dispatched)
      decreases |writeStream.grants|, 0
    {
      var bytesRemaining := |data| - currentReplyByte;
      var bytesWritten := writeStream.Write(data[currentReplyByte..]);
      assert data[currentReplyByte..][..bytesWritten] == data[currentReplyByte..currentReplyByte + bytesWritten];
      if bytesWritten == bytesRemaining {
        currentReply := None;
        currentReplyByte := 0;
        sentReply := true;
        WriteBytes();
      } else {
        currentReplyByte := currentReplyByte + bytesWritten;
      }
    }

    /** The completion `processMessage` passes to the handler (HTTPConnection.swift:120-132). */
    method HandleReply(err: Option<string>, reply: Option<Bytes>)
      requires OffsetOk(DrainState())
      modifies this, writeStream
      ensures DrainState() == Pump(Cumulative, old(DrainState()).(replies := old(replies) + [ReplyFor(err, reply)]))
      ensures currentMessage == old(currentMessage) && dispatched == old(dispatched)
    {
      if reply.None? {
        var failure := new HTTPMessage.Response(402, "Request Failed");
        failure.SetBody(Utf8("Request failed: " + Describe(err)));
        replies := replies + [failure.ToData()];
        WriteBytes();
        return;
      }
      replies := replies + [reply.value];
      WriteBytes();
    }

    /** `processMessage`: hands the message to the handler, whose completion is `HandleReply`. */
    method ProcessMessage(message: HTTPMessage)
      modifies this
      ensures dispatched == old(dispatched) + [Snapshot(message)]
      ensures replies == old(replies) && currentReply == old(currentReply) && currentReplyByte == old(currentReplyByte)
      ensures sentReply == old(sentReply) && closes == old(closes) && currentMessage == old(currentMessage)
    {
      dispatched := dispatched + [Snapshot(message)];
    }

    /**
      The framed current message is handed to the handler and replaced by an empty request
      (HTTPConnection.swift:107-110); `bytes` is what it held before its surplus was cut off.
    */
    method DispatchCurrent(surplus: Bytes, ghost bytes: Bytes)
      requires ReadValid() && Wire(Snapshot(currentMessage)) + surplus == bytes
      modifies this
      ensures ReadValid() && fresh(currentMessage) && currentMessage.Buffered() == [] && !currentMessage.HasSurplus()
      ensures !currentMessage.headerComplete && currentMessage.headBytes == []
      ensures dispatched == old(dispatched) + [old(Snapshot(currentMessage))]
      ensures WireAll(dispatched) + surplus == WireAll(old(dispatched)) + bytes
      ensures replies == old(replies) && currentReply == old(currentReply) && currentReplyByte == old(currentReplyByte)
      ensures sentReply == old(sentReply) && closes == old(closes)
    {
      DispatchKeepsBytes(dispatched, Snapshot(currentMessage), surplus, bytes);
      ProcessMessage(currentMessage);
      currentMessage := new HTTPMessage(true);
    }

    /**
      The surplus branch of `checkCurrentMessage` (HTTPConnection.swift:107-113): dispatch the
      framed message, then feed the surplus to the fresh request; the append fails exactly when
      CF's parser finds the surplus malformed.
    */
    method DispatchWithSurplus(surplus: Bytes, ghost bytes: Bytes, cf: HeadParser) returns (r: Result<bool, HTTPConnectionError>)
      requires ReadValid() && ParserOk(cf) && Wire(Snapshot(currentMessage)) + surplus == bytes
      modifies this
      ensures ReadValid() && fresh(currentMessage)
      ensures dispatched == old(dispatched) + [old(Snapshot(currentMessage))]
      ensures r == Ok(true) || r == Err(FailedToAppendBytesToHTTPMessage)
      ensures r.Err? <==> cf(surplus).Malformed?
      ensures r.Ok? ==> currentMessage.Buffered() == surplus && WireAll(dispatched) + currentMessage.Buffered() == WireAll(old(dispatched)) + bytes
      ensures replies == old(replies) && currentReply == old(currentReply) && currentReplyByte == old(currentReplyByte)
      ensures sentReply == old(sentReply) && closes == old(closes)
    {
      DispatchCurrent(surplus, bytes);
      assert [] + surplus == surplus;
      var ok := currentMessage.AppendData(surplus, cf);
      if !ok {
        return Err(FailedToAppendBytesToHTTPMessage);
      }
      return Ok(true);
    }

    /**
      `checkCurrentMessage` (HTTPConnection.swift:98-117): a framed message is dispatched and
      replaced by a fresh one, fed the surplus; true when that surplus must be checked in turn.
    */
    method CheckCurrentMessage(cf: HeadParser) returns (r: Result<bool, HTTPConnectionError>)
      requires ReadValid() && ParserOk(cf)
      modifies this, currentMessage
      ensures ReadValid() && (currentMessage == old(currentMessage) || fresh(currentMessage))
      ensures replies == old(replies) && currentReply == old(currentReply) && currentReplyByte == old(currentReplyByte)
      ensures sentReply == old(sentReply) && closes == old(closes)
      ensures var s := Status(old(currentMessage.headerComplete), old(currentMessage.HeaderFieldValue(ContentLengthField)), old(currentMessage.body));
              && (s.Err? ==> r == Err(MessageError(s.error)) && dispatched == old(dispatched))
              && (s.Ok? && !s.value.Complete? && !s.value.CompleteExtraBytes? ==>
                    r == Ok(false) && dispatched == old(dispatched) && currentMessage == old(currentMessage))
              && (s == Ok(Complete) ==>
                    r == Ok(false) && dispatched == old(dispatched) + [old(Snapshot(currentMessage))] && currentMessage.Buffered() == [])
              && (s.Ok? && s.value.CompleteExtraBytes? ==>
                    dispatched == old(dispatched) + [Snapshot(old(currentMessage))]
                    && (r == Ok(true) || r == Err(FailedToAppendBytesToHTTPMessage))
                    && (r.Err? <==> cf(s.value.extra).Malformed?)
                    && (r.Ok? ==> currentMessage.Buffered() == s.value.extra))
      ensures r.Ok? ==> Received() == old(Received())
      ensures r == Ok(true) ==> |currentMessage.Buffered()| < old(|currentMessage.Buffered()|)
      ensures r == Ok(false) ==> !currentMessage.HasSurplus()
      ensures var s := Status(old(currentMessage.headerComplete), old(currentMessage.HeaderFieldValue(ContentLengthField)), old(currentMessage.body));
              s.Err? || (s.Ok? && !s.value.Complete? && !s.value.CompleteExtraBytes?) ==>
                && currentMessage == old(currentMessage)
                && currentMessage.headBytes == old(currentMessage.headBytes)
                && currentMessage.headerComplete == old(currentMessage.headerComplete)
                && currentMessage.requestMethod == old(currentMessage.requestMethod)
                && currentMessage.headers == old(currentMessage.headers)
                && currentMessage.body == old(currentMessage.body)
    {
      var message := currentMessage;
      ghost var before, bytes := dispatched, message.Buffered();
      var status := message.CheckMessageStatus();
      match status {
        case Err(e) =>
          return Err(MessageError(e));
        case Ok(HeadersIncomplete) =>
          return Ok(false);
        case Ok(NoLengthSpecified) =>
          return Ok(false);
        case Ok(Incomplete) =>
          return Ok(false);
        case Ok(Complete) =>
          assert Wire(Snapshot(message)) + [] == bytes;
          DispatchCurrent([], bytes);
          return Ok(false);
        case Ok(CompleteExtraBytes(data)) =>
          r := DispatchWithSurplus(data, bytes, cf);
      }
    }

    /**
      The inner loop of `readBytes` (HTTPConnection.swift:91): check the current message until
      no surplus is left to check.
    */
    method CheckAll(cf: HeadParser) returns (r: Result<(), HTTPConnectionError>)
      requires ReadValid() && ParserOk(cf)
      modifies this, currentMessage
      ensures ReadValid() && (currentMessage == old(currentMessage) || fresh(currentMessage))
      ensures replies == old(replies) && currentReply == old(currentReply) && currentReplyByte == old(currentReplyByte)
      ensures sentReply == old(sentReply) && closes == old(closes)
      ensures old(dispatched) <= dispatched
      ensures r.Ok? ==> Received() == old(Received())
      ensures r.Ok? ==> !currentMessage.HasSurplus()
    {
      var more := true;
      while more
        invariant ReadValid() && (currentMessage == old(currentMessage) || fresh(currentMessage))
        invariant !more ==> !currentMessage.HasSurplus()
        invariant replies == old(replies) && currentReply == old(currentReply) && currentReplyByte == old(currentReplyByte)
        invariant sentReply == old(sentReply) && closes == old(closes)
        invariant old(dispatched) <= dispatched
        invariant Received() == old(Received())
        decreases if more then |currentMessage.Buffered()| + 1 else 0
      {
        var checked := CheckCurrentMessage(cf);
        if checked.Err? {
          return Err(checked.error);
        }
        more := checked.value;
      }
      return Ok(());
    }

    /**
      `readBytes` (HTTPConnection.swift:79-95), given the successive non-empty reads of the input
      stream: every byte read ends up, in order, in a dispatched message or the current one.
    */
    method ReadBytes(chunks: seq<Bytes>, cf: HeadParser) returns (r: Result<(), HTTPConnectionError>)
      requires ReadValid() && ParserOk(cf)
      modifies this, currentMessage
      ensures ReadValid()
      ensures replies == old(replies) && currentReply == old(currentReply) && currentReplyByte == old(currentReplyByte)
      ensures sentReply == old(sentReply) && closes == old(closes)
      ensures old(dispatched) <= dispatched
      ensures r.Ok? ==> Received() == old(Received()) + Flatten(chunks)
    {
      ghost var start := Received();
      var i := 0;
      while i < |chunks|
        invariant i <= |chunks|
        invariant ReadValid() && (currentMessage == old(currentMessage) || fresh(currentMessage))
        invariant replies == old(replies) && currentReply == old(currentReply) && currentReplyByte == old(currentReplyByte)
        invariant sentReply == old(sentReply) && closes == old(closes)
        invariant old(dispatched) <= dispatched
        invariant Received() == start + Flatten(chunks[..i])
      {
        ghost var sent, held := WireAll(dispatched), currentMessage.Buffered();
        var ok := currentMessage.AppendData(chunks[i], cf);
        if !ok {
          return Err(FailedToAppendBytesToHTTPMessage);
        }
        FlattenPrefix(chunks, i);
        AppendKeepsOrder(sent, held, start, Flatten(chunks[..i]), chunks[i]);
        assert Received() == start + Flatten(chunks[..i + 1]);
        var checked := CheckAll(cf);
        if checked.Err? {
          return checked;
        }
        i := i + 1;
      }
      assert chunks[..i] == chunks;
      return Ok(());
    }

    /**
      The end-of-stream event (HTTPConnection.swift:197-202): read what is left, then close if
      the event came from the output stream and the read did not fail.
    */
    method EndEncountered(fromWriteStream: bool, chunks: seq<Bytes>, cf: HeadParser) returns (r: Result<(), HTTPConnectionError>)
      requires ReadValid() && ParserOk(cf)
      modifies this, currentMessage
      ensures ReadValid()
      ensures replies == old(replies) && currentReply == old(currentReply) && currentReplyByte == old(currentReplyByte)
      ensures sentReply == old(sentReply) && old(dispatched) <= dispatched
      ensures r.Ok? ==> Received() == old(Received()) + Flatten(chunks)
      ensures closes == old(closes) + (if r.Ok? && fromWriteStream then 1 else 0)
    {
      r := ReadBytes(chunks, cf);
      if r.Ok? && fromWriteStream {
        Close();
      }
    }
  }
}
