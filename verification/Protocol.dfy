/**
 The binary protocol: frames `[u8 type][u32 length][payload]`, requests and responses.
 */
module Protocol {
  import opened Bytes
  import opened Text
  import opened Framing
  import opened Streams

  const MAX_PAYLOAD: nat := 0x100_0000
  const HEAD: nat := 5

  // ---- frames ----

  function Frame(kind: byte, payload: seq<byte>): (f: seq<byte>)
    ensures |f| == HEAD + |payload|
  {
    [kind] + U32(|payload|) + payload
  }

  datatype Message = Message(kind: byte, payload: seq<byte>)

  /** The frame at the front of `s`; None at a clean end, before any byte of a frame. */
  function NextFrame(s: seq<byte>): (r: Result<Option<Message>>)
    ensures r.Ok? && r.value.Some? ==> HEAD + |r.value.value.payload| <= |s|
    ensures r == Ok(None) <==> s == []
  {
    if s == [] then Ok(None)
    else if |s| < HEAD then Err(UnexpectedEof)
    else
      var len := FromLe(s[1..5]);
      if len > MAX_PAYLOAD then Err(InvalidData)
      else if |s| < HEAD + len then Err(UnexpectedEof)
      else Ok(Some(Message(s[0], s[5..5 + len])))
  }

  method ReadFrame(stream: Stream) returns (r: Result<Option<Message>>)
    modifies stream
    ensures r == NextFrame(old(stream.rest))
    ensures r.Ok? && r.value.Some? ==> stream.rest == old(stream.rest)[HEAD + |r.value.value.payload|..]
  {
    hide FromLe;
    ghost var s := stream.rest;
    var kind := stream.ReadExact(1);
    if kind.None? {
      return Ok(None);
    }
    var field := stream.ReadExact(4);
    if field.None? {
      return Err(UnexpectedEof);
    }
    assert field.value == s[1..5];
    var len := FromLe(field.value);
    if len > MAX_PAYLOAD {
      return Err(InvalidData);
    }
    assert stream.rest == s[5..];
    var payload := stream.ReadExact(len);
    if payload.None? {
      return Err(UnexpectedEof);
    }
    assert payload.value == s[5..5 + len];
    return Ok(Some(Message(kind.value[0], payload.value)));
  }

  /** A payload that does not fit the length field is refused before anything is written. */
  method WriteFrame(sink: Sink, kind: byte, payload: seq<byte>) returns (r: Result<()>)
    modifies sink
    ensures r.Ok? <==> |payload| < U32_END
    ensures r.Ok? ==> sink.bytes == old(sink.bytes) + Frame(kind, payload)
    ensures r.Err? ==> r.error == InvalidData && sink.bytes == old(sink.bytes)
  {
    hide FromLe, ToLe;
    if |payload| >= U32_END {
      return Err(InvalidData);
    }
    sink.WriteAll([kind]);
    sink.WriteAll(U32(|payload|));
    sink.WriteAll(payload);
    return Ok(());
  }

  /** Where the parts of a frame sit, whatever follows it. */
  lemma FrameFields(kind: byte, payload: seq<byte>, rest: seq<byte>)
    ensures var s := Frame(kind, payload) + rest;
            s[0] == kind && s[1..5] == U32(|payload|) && s[5..5 + |payload|] == payload
  {
    hide FromLe, ToLe, U32;
    var f := Frame(kind, payload);
    assert f[0] == kind && f[1..5] == U32(|payload|) && f[5..] == payload;
    assert (f + rest)[1..5] == f[1..5] && (f + rest)[5..5 + |payload|] == f[5..];
  }

  /**
   A written frame is read back whole, whatever follows, exactly if its payload is within the
   limit; `write_frame` does not check that limit and the reader then refuses the frame.
   */
  lemma FrameReads(kind: byte, payload: seq<byte>, rest: seq<byte>)
    requires |payload| < U32_END
    ensures NextFrame(Frame(kind, payload) + rest) ==
            if |payload| <= 16 * 1024 * 1024 then Ok(Some(Message(kind, payload))) else Err(InvalidData)
  {
    hide FromLe, ToLe, Frame;
    FrameFields(kind, payload, rest);
  }

  /** What any bytes read as: the announced length decides before the payload is there. */
  lemma NextFrameExactly(s: seq<byte>)
    ensures NextFrame(s) == Ok(None) <==> s == []
    ensures NextFrame(s) == Err(InvalidData) <==> |s| >= 5 && FromLe(s[1..5]) > 16 * 1024 * 1024
    ensures NextFrame(s) == Err(UnexpectedEof) <==>
              s != [] && (|s| < 5 || (FromLe(s[1..5]) <= 16 * 1024 * 1024 && |s| < 5 + FromLe(s[1..5])))
    ensures NextFrame(s).Ok? && s != [] ==>
              |s| >= 5 + FromLe(s[1..5]) && NextFrame(s) == Ok(Some(Message(s[0], s[5..5 + FromLe(s[1..5])])))
  {
    hide FromLe;
  }

  /** A frame cut anywhere behind its first byte is an error, never a clean end. */
  lemma CutFrame(kind: byte, payload: seq<byte>, n: nat)
    requires |payload| <= MAX_PAYLOAD && 0 < n < HEAD + |payload|
    ensures NextFrame(Frame(kind, payload)[..n]) == Err(UnexpectedEof)
  {
    hide FromLe, ToLe, Frame;
    FrameFields(kind, payload, []);
    var f := Frame(kind, payload);
    assert f + [] == f;
    if n >= HEAD {
      assert f[..n][1..5] == f[1..5];
    }
  }

  // ---- connections ----

  function Wire(ms: seq<Message>): seq<byte> {
    if ms == [] then [] else Frame(ms[0].kind, ms[0].payload) + Wire(ms[1..])
  }

  ghost predicate Sendable(ms: seq<Message>) {
    forall i :: 0 <= i < |ms| ==> |ms[i].payload| <= MAX_PAYLOAD
  }

  /** Everything a connection delivers, and the error it ends with, if any. */
  datatype Received = Received(messages: seq<Message>, error: Option<KvsError>)

  function ReadAll(s: seq<byte>): Received
    decreases |s|
  {
    var r := NextFrame(s);
    if r.Err? then Received([], Some(r.error))
    else if r.value.None? then Received([], None)
    else
      var rest := ReadAll(s[HEAD + |r.value.value.payload|..]);
      Received([r.value.value] + rest.messages, rest.error)
  }

  lemma ReadAllStep(m: Message, rest: seq<byte>)
    requires |m.payload| <= MAX_PAYLOAD
    ensures ReadAll(Frame(m.kind, m.payload) + rest) == Received([m] + ReadAll(rest).messages, ReadAll(rest).error)
  {
    hide NextFrame, Frame;
    FrameReads(m.kind, m.payload, rest);
    var s := Frame(m.kind, m.payload) + rest;
    assert s[HEAD + |m.payload|..] == rest;
  }

  /**
   A connection cut after `whole` messages and `extra` bytes of the next one delivers exactly
   the whole messages, and ends cleanly if and only if the cut is between two frames.
   */
  lemma {:induction false} CutConnection(ms: seq<Message>, whole: nat, extra: nat)
    requires Sendable(ms) && whole <= |ms|
    requires if whole == |ms| then extra == 0 else extra < HEAD + |ms[whole].payload|
    ensures var n := |Wire(ms[..whole])| + extra;
            && n <= |Wire(ms)|
            && ReadAll(Wire(ms)[..n]) == Received(ms[..whole], if extra == 0 then None else Some(UnexpectedEof))
    decreases |ms|
  {
    hide NextFrame, Frame, ReadAll;
    if whole == 0 {
      CutAtFirst(ms, extra);
    } else {
      var m, tail := ms[0], ms[1..];
      CutConnection(tail, whole - 1, extra);
      var k := |Wire(tail[..whole - 1])| + extra;
      ReadAllStep(m, Wire(tail)[..k]);
      assert ms[..whole][0] == m && ms[..whole][1..] == tail[..whole - 1];
      var f := Frame(m.kind, m.payload);
      assert (f + Wire(tail))[..|f| + k] == f + Wire(tail)[..k];
      assert [m] + tail[..whole - 1] == ms[..whole];
    }
  }

  lemma CutAtFirst(ms: seq<Message>, extra: nat)
    requires Sendable(ms) && if ms == [] then extra == 0 else extra < HEAD + |ms[0].payload|
    ensures Wire(ms[..0]) == [] && extra <= |Wire(ms)|
    ensures ReadAll(Wire(ms)[..extra]) == Received(ms[..0], if extra == 0 then None else Some(UnexpectedEof))
  {
    hide NextFrame, Frame;
    if extra == 0 {
      assert Wire(ms)[..0] == [];
    } else {
      CutFrame(ms[0].kind, ms[0].payload, extra);
      assert Wire(ms)[..extra] == Frame(ms[0].kind, ms[0].payload)[..extra];
    }
  }

  /** Every list of messages arrives as it was sent, and then the connection ends cleanly. */
  lemma ConnectionRoundTrip(ms: seq<Message>)
    requires Sendable(ms)
    ensures ReadAll(Wire(ms)) == Received(ms, None)
  {
    hide ReadAll, Wire;
    CutConnection(ms, |ms|, 0);
    assert ms[..|ms|] == ms;
    assert Wire(ms)[..|Wire(ms)|] == Wire(ms);
  }

  // ---- requests ----

  datatype Request = Get(key: seq<byte>) | Set(key: seq<byte>, value: seq<byte>) | Rm(key: seq<byte>)

  const REQ_GET: byte := 0
  const REQ_SET: byte := 1
  const REQ_RM: byte := 2

  /** Keys and values are strings. */
  predicate IsText(q: Request) {
    Utf8(q.key) && (q.Set? ==> Utf8(q.value))
  }

  function RequestMessage(q: Request): Message {
    match q
    case Get(key) => Message(REQ_GET, key)
    case Rm(key) => Message(REQ_RM, key)
    case Set(key, value) => Message(REQ_SET, U32(|key|) + key + value)
  }

  method WriteRequest(sink: Sink, q: Request) returns (r: Result<()>)
    modifies sink
    ensures var m := RequestMessage(q);
            && (r.Ok? <==> |m.payload| < U32_END)
            && (r.Ok? ==> sink.bytes == old(sink.bytes) + Frame(m.kind, m.payload))
            && (r.Err? ==> sink.bytes == old(sink.bytes))
  {
    match q {
      case Get(key) => r := WriteFrame(sink, REQ_GET, key);
      case Rm(key) => r := WriteFrame(sink, REQ_RM, key);
      case Set(key, value) =>
        var buf := U32(|key|);
        buf := buf + key;
        buf := buf + value;
        r := WriteFrame(sink, REQ_SET, buf);
    }
  }

  function DecodeRequest(m: Message): Result<Request> {
    var p := m.payload;
    if m.kind == REQ_GET then
      if Utf8(p) then Ok(Get(p)) else Err(InvalidData)
    else if m.kind == REQ_RM then
      if Utf8(p) then Ok(Rm(p)) else Err(InvalidData)
    else if m.kind == REQ_SET then
      if |p| < 4 then Err(InvalidData)
      else
        var keyLen := FromLe(p[..4]);
        if |p| - 4 < keyLen then Err(InvalidData)
        else
          var key, value := p[4..4 + keyLen], p[4 + keyLen..];
          if Utf8(key) && Utf8(value) then Ok(Set(key, value)) else Err(InvalidData)
    else Err(UnexpectedCommandType)
  }

  /** A request is decoded to itself. */
  lemma RequestRoundTrip(q: Request)
    requires IsText(q) && |q.key| < U32_END
    ensures DecodeRequest(RequestMessage(q)) == Ok(q)
  {
    hide FromLe, ToLe, Utf8;
    if q.Set? {
      var p := U32(|q.key|) + q.key + q.value;
      assert p[..4] == U32(|q.key|);
      assert p[4..4 + |q.key|] == q.key && p[4 + |q.key|..] == q.value;
    }
  }

  /** Only the one encoding of a request decodes to it. */
  lemma RequestCanonical(m: Message)
    requires DecodeRequest(m).Ok?
    ensures IsText(DecodeRequest(m).value) && RequestMessage(DecodeRequest(m).value) == m
  {
    hide FromLe, ToLe, Utf8;
    var p := m.payload;
    if m.kind == REQ_SET {
      U32OfField(p[..4]);
      var n := FromLe(p[..4]);
      assert p == p[..4] + p[4..4 + n] + p[4 + n..];
    }
  }

  /** The documented layout of a request on the wire, byte for byte. */
  lemma RequestLayout(q: Request)
    ensures var m := RequestMessage(q);
            var f, k := Frame(m.kind, m.payload), |q.key|;
            && IsLe(f[1..5], |f| - 5)
            && (q.Get? ==> f[0] == 0 && f[5..] == q.key)
            && (q.Set? ==> f[0] == 1 && IsLe(f[5..9], k) && f[9..9 + k] == q.key && f[9 + k..] == q.value)
            && (q.Rm? ==> f[0] == 2 && f[5..] == q.key)
  {
    hide FromLe, ToLe, IsLe, U32;
    var m := RequestMessage(q);
    var f, k := Frame(m.kind, m.payload), |q.key|;
    FrameFields(m.kind, m.payload, []);
    assert f + [] == f;
    FieldDigits(|m.payload|);
    FieldDigits(k);
    assert f[5..] == m.payload;
    if q.Set? {
      assert m.payload[..4] == U32(k) && m.payload[4..4 + k] == q.key && m.payload[4 + k..] == q.value;
      assert f[5..9] == m.payload[..4] && f[9..9 + k] == m.payload[4..4 + k] && f[9 + k..] == m.payload[4 + k..];
    }
  }

  /** Which error a request frame gives: an unknown type is told apart from a malformed payload. */
  lemma RequestErrors(m: Message)
    ensures DecodeRequest(m) == Err(UnexpectedCommandType) <==> m.kind != 0 && m.kind != 1 && m.kind != 2
    ensures DecodeRequest(m).Err? && DecodeRequest(m).error != UnexpectedCommandType ==> DecodeRequest(m) == Err(InvalidData)
  {
    hide FromLe, Utf8;
  }

  // ---- responses ----

  datatype ErrorCode = KeyNotFound | Internal | InvalidRequest

  datatype Response = Done | Value(value: seq<byte>) | Failed(code: ErrorCode)

  const RESP_OK: byte := 0
  const RESP_VALUE: byte := 1
  const RESP_ERROR: byte := 2

  function CodeByte(c: ErrorCode): byte {
    match c
    case KeyNotFound => 1
    case Internal => 2
    case InvalidRequest => 3
  }

  function CodeOf(b: byte): Result<ErrorCode> {
    if b == 1 then Ok(ErrorCode.KeyNotFound)
    else if b == 2 then Ok(Internal)
    else if b == 3 then Ok(InvalidRequest)
    else Err(UnexpectedCommandType)
  }

  /** What the server answers for an error of the store. */
  function CodeFor(e: KvsError): ErrorCode {
    match e
    case KeyNotFound => ErrorCode.KeyNotFound
    case InvalidData => InvalidRequest
    case _ => Internal
  }

  function ResponseMessage(r: Response): Message {
    match r
    case Done => Message(RESP_OK, [])
    case Value(v) => Message(RESP_VALUE, v)
    case Failed(code) => Message(RESP_ERROR, [CodeByte(code)])
  }

  method WriteResponse(sink: Sink, resp: Response) returns (r: Result<()>)
    modifies sink
    ensures var m := ResponseMessage(resp);
            && (r.Ok? <==> |m.payload| < U32_END)
            && (r.Ok? ==> sink.bytes == old(sink.bytes) + Frame(m.kind, m.payload))
            && (r.Err? ==> sink.bytes == old(sink.bytes))
  {
    match resp {
      case Done => r := WriteFrame(sink, RESP_OK, []);
      case Value(v) => r := WriteFrame(sink, RESP_VALUE, v);
      case Failed(code) => r := WriteFrame(sink, RESP_ERROR, [CodeByte(code)]);
    }
  }

  function DecodeResponse(m: Message): Result<Response> {
    if m.kind == RESP_OK then Ok(Done)
    else if m.kind == RESP_VALUE then
      if Utf8(m.payload) then Ok(Value(m.payload)) else Err(BadUtf8)
    else if m.kind == RESP_ERROR then
      if m.payload == [] then Err(InvalidData)
      else
        var code :- CodeOf(m.payload[0]);
        Ok(Failed(code))
    else Err(UnexpectedCommandType)
  }

  /** A response is decoded to itself exactly if its value is text. */
  lemma ResponseRoundTrip(r: Response)
    ensures DecodeResponse(ResponseMessage(r)) == Ok(r) <==> (r.Value? ==> Utf8(r.value))
  {
    hide Utf8;
  }

  /** The documented layout of a response on the wire, byte for byte. */
  lemma ResponseLayout(r: Response)
    ensures var m := ResponseMessage(r);
            var f := Frame(m.kind, m.payload);
            && (r.Done? ==> f == [0, 0, 0, 0, 0])
            && (r.Value? ==> f[0] == 1 && IsLe(f[1..5], |r.value|) && f[5..] == r.value)
            && (r.Failed? ==> f == [2, 1, 0, 0, 0, if r.code.KeyNotFound? then 1 else if r.code.Internal? then 2 else 3])
  {
    var m := ResponseMessage(r);
    var f := Frame(m.kind, m.payload);
    SmallLengths();
    FrameFields(m.kind, m.payload, []);
    FieldDigits(|m.payload|);
    hide FromLe, ToLe, IsLe, U32;
    assert f + [] == f;
    assert f[5..] == m.payload;
    assert f == [f[0]] + f[1..5] + f[5..];
  }

  lemma SmallLengths()
    ensures U32(0) == [0, 0, 0, 0] && U32(1) == [1, 0, 0, 0]
  {
    assert ToLe(0, 1) == [0] && ToLe(0, 2) == [0, 0] && ToLe(0, 3) == [0, 0, 0] && ToLe(0, 4) == [0, 0, 0, 0];
    assert ToLe(1, 4) == [1] + ToLe(0, 3);
  }

  /** Exactly which frames are which responses; trailing bytes behind a status are ignored. */
  lemma ResponseExactly(m: Message, r: Response)
    ensures DecodeResponse(m) == Ok(r) <==>
              match r
              case Done => m.kind == 0
              case Value(v) => m.kind == 1 && m.payload == v && Utf8(v)
              case Failed(code) =>
                m.kind == 2 && m.payload != []
                && m.payload[0] == (if code.KeyNotFound? then 1 else if code.Internal? then 2 else 3)
    ensures m.kind == 1 && !Utf8(m.payload) ==> DecodeResponse(m) == Err(BadUtf8)
    ensures m.kind == 2 && m.payload == [] ==> DecodeResponse(m) == Err(InvalidData)
    ensures m.kind == 2 && m.payload != [] && (m.payload[0] == 0 || m.payload[0] > 3) ==> DecodeResponse(m) == Err(UnexpectedCommandType)
    ensures m.kind > 2 ==> DecodeResponse(m) == Err(UnexpectedCommandType)
  {
    hide Utf8;
  }

  /** Errors of the store as the client sees them. */
  lemma CodesFor(e: KvsError)
    ensures CodeFor(e).KeyNotFound? <==> e == KvsError.KeyNotFound
    ensures CodeFor(e).InvalidRequest? <==> e == InvalidData
  {
  }

  // ---- whole conversations ----

  function RequestMessages(qs: seq<Request>): (ms: seq<Message>)
    ensures |ms| == |qs|
    ensures forall i :: 0 <= i < |qs| ==> ms[i] == RequestMessage(qs[i])
  {
    if qs == [] then [] else [RequestMessage(qs[0])] + RequestMessages(qs[1..])
  }

  function ResponseMessages(rs: seq<Response>): (ms: seq<Message>)
    ensures |ms| == |rs|
    ensures forall i :: 0 <= i < |rs| ==> ms[i] == ResponseMessage(rs[i])
  {
    if rs == [] then [] else [ResponseMessage(rs[0])] + ResponseMessages(rs[1..])
  }

  /** A client's requests reach the server as they were sent, then a clean end. */
  lemma RequestsArrive(qs: seq<Request>)
    requires forall i :: 0 <= i < |qs| ==> IsText(qs[i]) && |RequestMessage(qs[i]).payload| <= MAX_PAYLOAD
    ensures var r := ReadAll(Wire(RequestMessages(qs)));
            && r.error.None? && |r.messages| == |qs|
            && forall i :: 0 <= i < |qs| ==> DecodeRequest(r.messages[i]) == Ok(qs[i])
  {
    hide ReadAll, Wire, DecodeRequest, RequestMessages, Utf8, FromLe, ToLe;
    ConnectionRoundTrip(RequestMessages(qs));
    forall i | 0 <= i < |qs| ensures DecodeRequest(RequestMessages(qs)[i]) == Ok(qs[i]) {
      RequestRoundTrip(qs[i]);
    }
  }

  /** The server's responses reach the client as they were sent, then a clean end. */
  lemma ResponsesArrive(rs: seq<Response>)
    requires forall i :: 0 <= i < |rs| ==> rs[i].Value? ==> Utf8(rs[i].value) && |rs[i].value| <= MAX_PAYLOAD
    ensures var r := ReadAll(Wire(ResponseMessages(rs)));
            && r.error.None? && |r.messages| == |rs|
            && forall i :: 0 <= i < |rs| ==> DecodeResponse(r.messages[i]) == Ok(rs[i])
  {
    hide ReadAll, Wire, DecodeResponse, ResponseMessages, Utf8;
    ConnectionRoundTrip(ResponseMessages(rs));
    forall i | 0 <= i < |rs| ensures DecodeResponse(ResponseMessages(rs)[i]) == Ok(rs[i]) {
      ResponseRoundTrip(rs[i]);
    }
  }
}
