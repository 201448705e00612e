/**
 The server: requests executed on the store, and whole RESP sessions, for any pipelined
 input.
 */
module Server {
  import opened Bytes
  import opened Text
  import opened Framing
  import opened Streams
  import opened RespFrames
  import opened RespParser
  import opened RespReplies
  import opened RespRequests
  import Protocol
  import Logs
  import Bitcask

  type Store = map<seq<byte>, seq<byte>>
  type Request = Protocol.Request
  type Response = Protocol.Response

  // ---- execute ----

  /** What a request does to a key/value map. */
  function After(m: Store, q: Request): Store {
    match q
    case Get(_) => m
    case Set(key, value) => m[key := value]
    case Rm(key) => m - {key}
  }

  /** What it answers: removing or getting a missing key is an error, and so is a value that is not text. */
  function Answer(m: Store, q: Request): Response {
    match q
    case Get(key) =>
      if key !in m then Protocol.Failed(Protocol.KeyNotFound)
      else if Utf8(m[key]) then Protocol.Value(m[key])
      else Protocol.Failed(Protocol.Internal)
    case Set(_, _) => Protocol.Done
    case Rm(key) => if key in m then Protocol.Done else Protocol.Failed(Protocol.KeyNotFound)
  }

  /** Bytes that any record a request causes fits into. */
  const ROOM: nat := 0x400_0000

  /** The store is idle and its active file has room for one more record. */
  ghost predicate Ready(b: Bitcask.Bitcask)
    reads b, b.index
  {
    b.Valid() && b.view.lock.Free? && b.offset + ROOM < U64_END && b.cfg.threshold + ROOM < U64_END
  }

  ghost predicate Fits(q: Request) {
    |q.key| <= Protocol.MAX_PAYLOAD && (q.Set? ==> |q.value| <= Protocol.MAX_PAYLOAD)
  }

  /** `execute`: the request runs on the store; errors of the store become error codes. */
  method Execute(b: Bitcask.Bitcask, q: Request, ts: nat, due: bool) returns (r: Response)
    requires Ready(b) && Fits(q) && ts < U64_END
    modifies b, b.index
    ensures Ready(b) && b.view.merge == old(b.view.merge)
    ensures b.view.store == After(old(b.view.store), q) && r == Answer(old(b.view.store), q)
    ensures forall k :: k != q.key ==> Logs.Get(b.view.store, k) == Logs.Get(old(b.view.store), k)
    ensures q.Set? ==> Logs.Get(b.view.store, q.key) == Some(q.value) && r == Protocol.Done
    ensures q.Rm? ==>
              && q.key !in b.view.store
              && r == if q.key in old(b.view.store) then Protocol.Done else Protocol.Failed(Protocol.KeyNotFound)
    ensures q.Get? ==>
              && b.view.store == old(b.view.store)
              && (forall v :: Utf8(v) ==> (r == Protocol.Value(v) <==> Logs.Get(old(b.view.store), q.key) == Some(v)))
              && (r == Protocol.Failed(Protocol.KeyNotFound) <==> q.key !in old(b.view.store))
  {
    hide b.Valid, Utf8;
    match q {
      case Get(key) =>
        var found := b.Get(key);
        match found {
          case Ok(v) => r := if v.Some? then Protocol.Value(v.value) else Protocol.Failed(Protocol.KeyNotFound);
          case Err(e) => r := Protocol.Failed(Protocol.CodeFor(e));
        }
      case Set(key, value) =>
        b.Set(key, value, ts, due);
        r := Protocol.Done;
      case Rm(key) =>
        var removed := b.Remove(key, ts, due);
        match removed {
          case Ok(_) => r := Protocol.Done;
          case Err(e) => r := Protocol.Failed(Protocol.CodeFor(e));
        }
    }
  }

  // ---- sessions ----

  /** What the server has to say about one frame. */
  datatype Outcome =
    | Answered(cmd: RespCommand, resp: Response)
    | Configured(names: seq<seq<byte>>)
    | Refused(msg: seq<byte>)

  function OutcomeBytes(o: Outcome): seq<byte> {
    match o
    case Answered(cmd, resp) => Reply(cmd, resp)
    case Configured(names) => ConfigReply(names)
    case Refused(msg) => ErrorReply(msg)
  }

  function OutcomeMeans(o: Outcome): RespValue {
    match o
    case Answered(cmd, resp) => Meaning(cmd, resp)
    case Configured(names) => Array(Some(BulkValues(Pairs(names))))
    case Refused(msg) => ErrorString(ERR + Cleaned(msg))
  }

  /** One frame, handled on the map `m`; `text` is the message if it has to be refused. */
  function Handle(m: Store, frame: seq<byte>, text: seq<byte>): (Store, Outcome) {
    var q := DecodeCommand(frame);
    if q.Bad? then (m, Refused(text))
    else if q.value.ConfigGet? then (m, Configured(q.value.names))
    else (After(m, q.value.request), Answered(CommandOf(q.value.request), Answer(m, q.value.request)))
  }

  /** The whole session: the map behind it, one outcome per frame, and how the input ended. */
  datatype Session = Session(store: Store, outcomes: seq<Outcome>, error: Option<RespError>)

  function TextAt(texts: seq<seq<byte>>): seq<byte> {
    if texts == [] then [] else texts[0]
  }

  function Later(texts: seq<seq<byte>>): seq<seq<byte>> {
    if texts == [] then [] else texts[1..]
  }

  lemma FramesAreNotEmpty(s: seq<byte>)
    requires s != [] && FrameLen(s, 1).Good?
    ensures 0 < FrameLen(s, 1).value <= |s|
  {
    hide ReadHead;
  }

  function Serve(m: Store, input: seq<byte>, texts: seq<seq<byte>>): Session
    decreases |input|
  {
    if input == [] then Session(m, [], None)
    else
      var n := FrameLen(input, 1);
      if n.Bad? then Session(m, [], Some(n.error))
      else
        FramesAreNotEmpty(input);
        var (m', o) := Handle(m, input[..n.value], TextAt(texts));
        var rest := Serve(m', input[n.value..], Later(texts));
        Session(rest.store, [o] + rest.outcomes, rest.error)
  }

  function Output(os: seq<Outcome>): seq<byte> {
    if os == [] then [] else OutcomeBytes(os[0]) + Output(os[1..])
  }

  function Meanings(os: seq<Outcome>): seq<RespValue> {
    if os == [] then [] else [OutcomeMeans(os[0])] + Meanings(os[1..])
  }

  /** Values and names short enough for a ten-digit length. */
  ghost predicate Printable(o: Outcome) {
    match o
    case Answered(_, resp) => resp.Value? ==> |resp.value| < TEN_DIGITS
    case Configured(names) => ShortAll(names) && 2 * |names| < TEN_DIGITS
    case Refused(_) => true
  }

  ghost predicate AllPrintable(os: seq<Outcome>) {
    forall i :: 0 <= i < |os| ==> Printable(os[i])
  }

  ghost predicate ShortValues(m: Store) {
    forall k :: k in m ==> |m[k]| < TEN_DIGITS
  }

  lemma OutcomeParses(o: Outcome, rest: seq<byte>)
    requires Printable(o)
    ensures ParseValue(OutcomeBytes(o) + rest, 0) == Good(Parsed(OutcomeMeans(o), |OutcomeBytes(o)|))
  {
    hide ParseValue, Reply, ConfigReply, ErrorReply, Meaning, BulkValues, Cleaned, Pairs;
    match o {
      case Answered(cmd, resp) => ReplyParses(cmd, resp, rest);
      case Configured(names) => ConfigParses(names, rest);
      case Refused(msg) => ErrorParses(msg, rest);
    }
  }

  /** A stream of replies parses to their meanings, one value per reply, in order. */
  lemma {:induction false} OutputParses(os: seq<Outcome>, rest: seq<byte>)
    requires AllPrintable(os)
    ensures ParseItems(Output(os) + rest, |os|, 0) == Good(ParsedItems(Meanings(os), |Output(os)|))
    decreases |os|
  {
    hide ParseItems, ParseValue, OutcomeBytes, OutcomeMeans, Printable;
    if os == [] {
      NoItems(Output(os) + rest, 0);
    } else {
      var tail := Output(os[1..]) + rest;
      assert Output(os) + rest == OutcomeBytes(os[0]) + tail;
      OutcomeParses(os[0], tail);
      ItemsStep(OutcomeBytes(os[0]) + tail, |os|, 0);
      assert (OutcomeBytes(os[0]) + tail)[|OutcomeBytes(os[0])|..] == tail;
      OutputParses(os[1..], rest);
    }
  }

  /** One frame keeps the values short and gets a printable outcome. */
  lemma HandlePrints(m: Store, frame: seq<byte>, text: seq<byte>)
    requires ShortValues(m) && ValueLen(frame).Some?
    ensures ShortValues(Handle(m, frame, text).0) && Printable(Handle(m, frame, text).1)
  {
    hide DecodeCommand, ValueLen;
    var q := DecodeCommand(frame);
    if q.Good? {
      CommandLimited(frame);
    }
  }

  lemma {:induction false} ServePrints(m: Store, input: seq<byte>, texts: seq<seq<byte>>)
    requires ShortValues(m)
    ensures AllPrintable(Serve(m, input, texts).outcomes)
    decreases |input|
  {
    hide Handle, FrameLen, Printable, ShortValues, ValueLen;
    if input != [] && FrameLen(input, 1).Good? {
      var n := FrameLen(input, 1).value;
      FramesAreNotEmpty(input);
      FrameIsOneValue(input);
      HandlePrints(m, input[..n], TextAt(texts));
      var (m', o) := Handle(m, input[..n], TextAt(texts));
      ServePrints(m', input[n..], Later(texts));
      assert Serve(m, input, texts).outcomes == [o] + Serve(m', input[n..], Later(texts)).outcomes;
    }
  }

  /**
   For any pipelined input the output is one self-delimiting reply per frame, in order, each
   parsing back to what was meant.
   */
  lemma SessionParses(m: Store, input: seq<byte>, texts: seq<seq<byte>>, rest: seq<byte>)
    requires ShortValues(m)
    ensures var os := Serve(m, input, texts).outcomes;
            ParseItems(Output(os) + rest, |os|, 0) == Good(ParsedItems(Meanings(os), |Output(os)|))
  {
    hide Serve, ParseItems, Output, Meanings, AllPrintable;
    ServePrints(m, input, texts);
    OutputParses(Serve(m, input, texts).outcomes, rest);
  }

  lemma {:induction false} OutputAppend(os: seq<Outcome>, o: Outcome)
    ensures Output(os + [o]) == Output(os) + OutcomeBytes(o)
  {
    hide OutcomeBytes;
    if os == [] {
      assert [o][1..] == [] && os + [o] == [o];
      assert Output([o]) == OutcomeBytes(o) + Output([]);
      assert OutcomeBytes(o) + [] == OutcomeBytes(o);
    } else {
      OutputAppend(os[1..], o);
      assert (os + [o])[1..] == os[1..] + [o];
    }
  }

  /** The clock and the flush timer, sampled once per request. */
  datatype Tick = Tick(ts: nat, due: bool)

  /** One frame on the real store. */
  method HandleFrame(b: Bitcask.Bitcask, sink: Sink, frame: seq<byte>, text: seq<byte>, tick: Tick)
    requires Ready(b) && ValueLen(frame).Some? && tick.ts < U64_END
    modifies b, b.index, sink
    ensures Ready(b)
    ensures var (m, o) := Handle(old(b.view.store), frame, text);
            b.view.store == m && sink.bytes == old(sink.bytes) + OutcomeBytes(o)
  {
    hide DecodeCommand, ValueLen, Ready, Reply, ConfigReply, ErrorReply, After, Answer;
    var q := DecodeCommand(frame);
    if q.Bad? {
      WriteError(sink, text);
    } else {
      CommandLimited(frame);
      match q.value {
        case Kv(request) =>
          var resp := Execute(b, request, tick.ts, tick.due);
          WriteReply(sink, CommandOf(request), resp);
        case ConfigGet(names) => WriteConfigGet(sink, names);
      }
    }
  }

  /** `handle_resp`: read a frame, decode, execute, reply, until the input ends. */
  method HandleResp(b: Bitcask.Bitcask, input: seq<byte>, texts: seq<seq<byte>>, ticks: seq<Tick>)
    returns (output: seq<byte>, error: Option<RespError>)
    requires Ready(b) && |input| <= |ticks| && forall i :: 0 <= i < |ticks| ==> ticks[i].ts < U64_END
    modifies b, b.index
    ensures Ready(b)
    ensures Serve(old(b.view.store), input, texts) == Session(b.view.store, Serve(old(b.view.store), input, texts).outcomes, error)
    ensures output == Output(Serve(old(b.view.store), input, texts).outcomes)
  {
    hide Ready, Handle, FrameLen, OutcomeBytes, ValueLen, Output;
    var stream := new Stream(input);
    var sink := new Sink();
    ghost var session := Serve(b.view.store, input, texts);
    ghost var done: seq<Outcome> := [];
    var said := texts;
    var clock := ticks;
    NoOutput();
    while true
      invariant Ready(b) && fresh(stream) && fresh(sink)
      invariant |stream.rest| <= |clock| && forall i :: 0 <= i < |clock| ==> clock[i].ts < U64_END
      invariant sink.bytes == Output(done)
      invariant var rest := Serve(b.view.store, stream.rest, said);
                session == Session(rest.store, done + rest.outcomes, rest.error)
      decreases |stream.rest|
    {
      ghost var before := stream.rest;
      var frame := ReadFrame(stream);
      if frame.Bad? {
        assert done + [] == done;
        return sink.bytes, Some(frame.error);
      }
      if frame.value.None? {
        assert done + [] == done;
        return sink.bytes, None;
      }
      FramesAreNotEmpty(before);
      FrameIsOneValue(before);
      ghost var o := Handle(b.view.store, frame.value.value, TextAt(said)).1;
      HandleFrame(b, sink, frame.value.value, TextAt(said), clock[0]);
      OutputAppend(done, o);
      ghost var rest := Serve(b.view.store, stream.rest, Later(said));
      assert done + ([o] + rest.outcomes) == (done + [o]) + rest.outcomes;
      done := done + [o];
      said := Later(said);
      clock := clock[1..];
    }
  }

  lemma NoOutput()
    ensures Output([]) == []
  {
  }

  // ---- what clients see ----

  /** A request as a client can send it. */
  ghost predicate Sendable(q: Request) {
    Protocol.IsText(q) && Fits(q)
  }

  ghost predicate AllSendable(qs: seq<Request>) {
    forall i :: 0 <= i < |qs| ==> Sendable(qs[i])
  }

  /** Pipelined requests on the wire. */
  function ClientBytes(qs: seq<Request>): seq<byte> {
    if qs == [] then [] else BulkArray(Words(qs[0])) + ClientBytes(qs[1..])
  }

  function LaterBy(texts: seq<seq<byte>>, n: nat): seq<seq<byte>> {
    if n == 0 then texts else LaterBy(Later(texts), n - 1)
  }

  /** One request at the front of the input. */
  lemma ServeOne(m: Store, q: Request, rest: seq<byte>, texts: seq<seq<byte>>)
    requires Sendable(q)
    ensures var s := Serve(After(m, q), rest, Later(texts));
            Serve(m, BulkArray(Words(q)) + rest, texts) ==
            Session(s.store, [Answered(CommandOf(q), Answer(m, q))] + s.outcomes, s.error)
  {
    hide FrameLen, DecodeCommand, BulkArray, After, Answer, Words;
    CommandRoundTrip(q, rest);
    var input := BulkArray(Words(q)) + rest;
    CommandNotEmpty(q);
    assert input[..|BulkArray(Words(q))|] == BulkArray(Words(q)) && input[|BulkArray(Words(q))|..] == rest;
  }

  lemma CommandNotEmpty(q: Request)
    ensures |BulkArray(Words(q))| > 0
  {
    hide Bulks, Digits;
  }

  /** What a key's value becomes along a list of requests, whatever a map is. */
  function ValueAfter(qs: seq<Request>, k: seq<byte>, was: Option<seq<byte>>): Option<seq<byte>> {
    if qs == [] then was
    else
      ValueAfter(qs[1..], k,
                 if qs[0].key != k || qs[0].Get? then was else if qs[0].Set? then Some(qs[0].value) else None)
  }

  lemma AfterValue(m: Store, q: Request, k: seq<byte>)
    ensures Logs.Get(After(m, q), k) ==
            if q.key != k || q.Get? then Logs.Get(m, k) else if q.Set? then Some(q.value) else None
  {
  }

  /** Any pipelined requests: one outcome each, and a map with every key's last value. */
  lemma {:induction false} ServeRequests(m: Store, qs: seq<Request>, rest: seq<byte>, texts: seq<seq<byte>>) returns (m': Store)
    requires AllSendable(qs)
    ensures forall k :: Logs.Get(m', k) == ValueAfter(qs, k, Logs.Get(m, k))
    ensures var s, t := Serve(m, ClientBytes(qs) + rest, texts), Serve(m', rest, LaterBy(texts, |qs|));
            && |s.outcomes| == |qs| + |t.outcomes| && s.outcomes[|qs|..] == t.outcomes
            && s.store == t.store && s.error == t.error
    decreases |qs|
  {
    hide Serve, BulkArray, Words, Answer, After;
    if qs == [] {
      m' := m;
      assert ClientBytes(qs) + rest == rest;
    } else {
      var q, tail := qs[0], ClientBytes(qs[1..]) + rest;
      assert ClientBytes(qs) + rest == BulkArray(Words(q)) + tail;
      ServeOne(m, q, tail, texts);
      m' := ServeRequests(After(m, q), qs[1..], rest, Later(texts));
      forall k ensures Logs.Get(m', k) == ValueAfter(qs, k, Logs.Get(m, k)) {
        AfterValue(m, q, k);
      }
    }
  }

  lemma {:induction false} ClientBytesAppend(a: seq<Request>, b: seq<Request>)
    ensures ClientBytes(a + b) == ClientBytes(a) + ClientBytes(b)
    decreases |a|
  {
    hide BulkArray, Words;
    if a == [] {
      assert a + b == b;
    } else {
      ClientBytesAppend(a[1..], b);
      assert (a + b)[1..] == a[1..] + b;
    }
  }

  /**
   For any store and any pipelined requests, a GET at the end is answered with the value of
   the key's last SET as a bulk string, with the null bulk string if its last request was a
   DEL, and with what the store held if there was none.
   */
  lemma LastGetAnswers(m: Store, qs: seq<Request>, k: seq<byte>, texts: seq<seq<byte>>)
    requires AllSendable(qs) && Sendable(Protocol.Get(k))
    ensures var s := Serve(m, ClientBytes(qs + [Protocol.Get(k)]), texts);
            var v := ValueAfter(qs, k, Logs.Get(m, k));
            && s.error.None? && |s.outcomes| == |qs| + 1
            && (v.None? ==> OutcomeBytes(s.outcomes[|qs|]) == [36, 45, 49, 13, 10])
            && (v.Some? && Utf8(v.value) ==>
                  OutcomeBytes(s.outcomes[|qs|]) == [36] + Digits(|v.value|) + [13, 10] + v.value + [13, 10])
  {
    hide BulkArray, Words, Digits, Reply, Utf8, Serve, ClientBytes;
    var get := Protocol.Get(k);
    ClientBytesAppend(qs, [get]);
    var wire := ClientBytes([get]);
    var m' := ServeRequests(m, qs, wire, texts);
    OneClient(get);
    assert BulkArray(Words(get)) + [] == BulkArray(Words(get));
    ServeOne(m', get, [], LaterBy(texts, |qs|));
    NothingServed(After(m', get), Later(LaterBy(texts, |qs|)));
    ReplyTable(get, Answer(m', get));
  }

  lemma OneClient(q: Request)
    ensures ClientBytes([q]) == BulkArray(Words(q))
  {
    hide BulkArray, Words;
    assert [q][1..] == [];
    assert ClientBytes([q]) == BulkArray(Words(q)) + ClientBytes([]);
  }

  lemma NothingServed(m: Store, texts: seq<seq<byte>>)
    ensures Serve(m, [], texts) == Session(m, [], None)
  {
  }

  lemma {:induction false} ValueAfterAppend(a: seq<Request>, b: seq<Request>, k: seq<byte>, was: Option<seq<byte>>)
    ensures ValueAfter(a + b, k, was) == ValueAfter(b, k, ValueAfter(a, k, was))
    decreases |a|
  {
    if a == [] {
      assert a + b == b;
    } else {
      ValueAfterAppend(a[1..], b, k, if a[0].key != k || a[0].Get? then was else if a[0].Set? then Some(a[0].value) else None);
      assert (a + b)[1..] == a[1..] + b;
    }
  }

  lemma {:induction false} ValueUntouched(qs: seq<Request>, k: seq<byte>, was: Option<seq<byte>>)
    requires forall i :: 0 <= i < |qs| ==> qs[i].key != k || qs[i].Get?
    ensures ValueAfter(qs, k, was) == was
  {
    if qs != [] {
      ValueUntouched(qs[1..], k, was);
    }
  }

  /** SET k v, then any requests that do not write k, then GET k: the answer is v. */
  lemma SetThenGet(m: Store, before: seq<Request>, k: seq<byte>, v: seq<byte>, middle: seq<Request>, texts: seq<seq<byte>>)
    requires AllSendable(before) && AllSendable(middle) && Sendable(Protocol.Set(k, v))
    requires forall i :: 0 <= i < |middle| ==> middle[i].key != k || middle[i].Get?
    ensures var qs := before + ([Protocol.Set(k, v)] + middle);
            var s := Serve(m, ClientBytes(qs + [Protocol.Get(k)]), texts);
            && s.error.None? && |s.outcomes| == |qs| + 1
            && OutcomeBytes(s.outcomes[|qs|]) == [36] + Digits(|v|) + [13, 10] + v + [13, 10]
  {
    hide Serve, ClientBytes, OutcomeBytes, Digits, Utf8;
    var qs := before + ([Protocol.Set(k, v)] + middle);
    LastGetAnswers(m, qs, k, texts);
    ValueAfterAppend(before, [Protocol.Set(k, v)] + middle, k, Logs.Get(m, k));
    assert ([Protocol.Set(k, v)] + middle)[1..] == middle;
    ValueUntouched(middle, k, Some(v));
  }

  /** DEL k, then any requests that do not write k, then GET k: there is nothing. */
  lemma DelThenGet(m: Store, before: seq<Request>, k: seq<byte>, middle: seq<Request>, texts: seq<seq<byte>>)
    requires AllSendable(before) && AllSendable(middle) && Sendable(Protocol.Rm(k))
    requires forall i :: 0 <= i < |middle| ==> middle[i].key != k || middle[i].Get?
    ensures var qs := before + ([Protocol.Rm(k)] + middle);
            var s := Serve(m, ClientBytes(qs + [Protocol.Get(k)]), texts);
            && s.error.None? && |s.outcomes| == |qs| + 1
            && OutcomeBytes(s.outcomes[|qs|]) == [36, 45, 49, 13, 10]
  {
    hide Serve, ClientBytes, OutcomeBytes, Digits, Utf8;
    var qs := before + ([Protocol.Rm(k)] + middle);
    LastGetAnswers(m, qs, k, texts);
    ValueAfterAppend(before, [Protocol.Rm(k)] + middle, k, Logs.Get(m, k));
    assert ([Protocol.Rm(k)] + middle)[1..] == middle;
    ValueUntouched(middle, k, None);
  }

  /** Any other array of bulk strings at the front of the input. */
  lemma ServeWords(m: Store, vs: seq<seq<byte>>, rest: seq<byte>, texts: seq<seq<byte>>)
    requires vs != [] && |vs| <= MAX_ARRAY_LEN && forall i :: 0 <= i < |vs| ==> |vs[i]| <= Protocol.MAX_PAYLOAD
    ensures var (m', o) := Handle(m, BulkArray(vs), TextAt(texts));
            var s := Serve(m', rest, Later(texts));
            Serve(m, BulkArray(vs) + rest, texts) == Session(s.store, [o] + s.outcomes, s.error)
  {
    hide FrameLen, BulkArray, Handle;
    CommandFramed(vs, rest);
    var input := BulkArray(vs) + rest;
    ArrayNotEmpty(vs);
    assert input[..|BulkArray(vs)|] == BulkArray(vs) && input[|BulkArray(vs)|..] == rest;
  }

  lemma ArrayNotEmpty(vs: seq<seq<byte>>)
    ensures |BulkArray(vs)| > 0
  {
    hide Bulks, Digits;
  }

  /** CONFIG GET answers its names, each with an empty value, and leaves the store alone. */
  lemma ConfigAnswers(m: Store, config: seq<byte>, get: seq<byte>, names: seq<seq<byte>>, rest: seq<byte>, texts: seq<seq<byte>>)
    requires Spells(config, [67, 79, 78, 70, 73, 71]) && Spells(get, [71, 69, 84])
    requires |names| + 2 <= MAX_ARRAY_LEN && forall i :: 0 <= i < |names| ==> |names[i]| <= Protocol.MAX_PAYLOAD
    ensures var vs := [config, get] + names;
            var s, t := Serve(m, BulkArray(vs) + rest, texts), Serve(m, rest, Later(texts));
            && s.store == t.store && s.error == t.error && |s.outcomes| == 1 + |t.outcomes| && s.outcomes[1..] == t.outcomes
            && OutcomeBytes(s.outcomes[0]) == BulkArray(Pairs(names))
  {
    hide Serve, BulkArray, DecodeCommand, Pairs, Spells;
    var args := [get] + names;
    var vs := [config, get] + names;
    assert vs == [config] + args && args[1..] == names;
    assert |config| == 6 && |get| == 3 by { SpelledLengths(config, get); }
    forall i | 0 <= i < |vs| ensures |vs[i]| <= Protocol.MAX_PAYLOAD {
      assert i >= 2 ==> vs[i] == names[i - 2];
    }
    CommandsExactly(config, args);
    ServeWords(m, vs, rest, texts);
  }

  lemma SpelledLengths(config: seq<byte>, get: seq<byte>)
    requires Spells(config, [67, 79, 78, 70, 73, 71]) && Spells(get, [71, 69, 84])
    ensures |config| == 6 && |get| == 3
  {
  }

  /** A command the server does not know is refused with an error line and leaves the store alone. */
  lemma UnknownRefused(m: Store, name: seq<byte>, args: seq<seq<byte>>, rest: seq<byte>, texts: seq<seq<byte>>)
    requires !IsCommandWord(name) && |name| <= Protocol.MAX_PAYLOAD
    requires 1 + |args| <= MAX_ARRAY_LEN && forall i :: 0 <= i < |args| ==> |args[i]| <= Protocol.MAX_PAYLOAD
    ensures var vs := [name] + args;
            var s, t := Serve(m, BulkArray(vs) + rest, texts), Serve(m, rest, Later(texts));
            && s.store == t.store && s.error == t.error && |s.outcomes| == 1 + |t.outcomes| && s.outcomes[1..] == t.outcomes
            && OutcomeBytes(s.outcomes[0]) == ErrorReply(TextAt(texts))
  {
    hide Serve, BulkArray, DecodeCommand, ErrorReply, IsCommandWord;
    var vs := [name] + args;
    forall i | 0 <= i < |vs| ensures |vs[i]| <= Protocol.MAX_PAYLOAD {
      assert i >= 1 ==> vs[i] == args[i - 1];
    }
    CommandsExactly(name, args);
    ServeWords(m, vs, rest, texts);
  }

  /** A malformed frame ends the session: what came before is answered, nothing after it is. */
  lemma BrokenFrameEnds(m: Store, qs: seq<Request>, rest: seq<byte>, texts: seq<seq<byte>>)
    requires AllSendable(qs) && rest != [] && FrameLen(rest, 1).Bad?
    ensures var s := Serve(m, ClientBytes(qs) + rest, texts);
            |s.outcomes| == |qs| && s.error == Some(FrameLen(rest, 1).error)
  {
    hide ClientBytes, FrameLen;
    var m' := ServeRequests(m, qs, rest, texts);
  }
}
