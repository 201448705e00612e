/**
 RESP2 framing: the iterative framer with its single `pending` counter against the recursive
 grammar of values.
 */
module RespFrames {
  import opened Bytes
  import opened Streams
  import Protocol

  const MAX_ARRAY_LEN: nat := 0x10_0000

  const CR: byte := 13
  const PLUS: byte := 43
  const MINUS: byte := 45
  const COLON: byte := 58
  const DOLLAR: byte := 36
  const STAR: byte := 42
  const ZERO: byte := 48
  const NINE: byte := 57
  const CRLF: seq<byte> := [CR, LF]

  datatype RespError =
    | TornFrame            // the stream ends inside a frame
    | ExpectedCrlf | EmptyLine | UnknownType | InvalidLength | InvalidInteger
    | BulkTooLarge | BulkNotCrlf | ShortBulk | ArrayTooLarge | TooDeep | TrailingBytes
    | ExpectedArray | ExpectedBulk | WrongArity | UnknownSubcommand | UnknownCommand | NotUtf8

  datatype Resp<+T> = Good(value: T) | Bad(error: RespError) {
    predicate IsFailure() {
      Bad?
    }
    function PropagateFailure<U>(): Resp<U>
      requires Bad?
    {
      Bad(error)
    }
    function Extract(): T
      requires Good?
    {
      value
    }
  }

  // ---- lengths ----

  function IsDigit(b: byte): bool {
    ZERO <= b <= NINE
  }

  predicate AllDigits(s: seq<byte>) {
    forall i :: 0 <= i < |s| ==> IsDigit(s[i])
  }

  function DigitValue(b: byte): nat
    requires IsDigit(b)
  {
    (b - ZERO) as nat
  }

  /** The number a string of digits stands for. */
  function Decimal(s: seq<byte>): nat
    requires AllDigits(s)
  {
    if s == [] then 0 else 10 * Decimal(s[..|s| - 1]) + DigitValue(s[|s| - 1])
  }

  const NULL_LEN: seq<byte> := [MINUS, 49]

  /** A `$` or `*` length: up to ten digits, or -1 for null. */
  function Len(body: seq<byte>): Resp<Option<nat>> {
    if body == NULL_LEN then Good(None)
    else if body == [] || |body| > 10 || !AllDigits(body) then Bad(InvalidLength)
    else Good(Some(Decimal(body)))
  }

  /** `parse_len` with its accumulating loop. */
  method ParseLen(body: seq<byte>) returns (r: Resp<Option<nat>>)
    ensures r == Len(body)
  {
    if body == NULL_LEN {
      return Good(None);
    }
    if body == [] || |body| > 10 || !AllDigits(body) {
      return Bad(InvalidLength);
    }
    var len := 0;
    for i := 0 to |body|
      invariant len == Decimal(body[..i])
    {
      assert body[..i + 1][..i] == body[..i];
      len := len * 10 + DigitValue(body[i]);
    }
    assert body[..|body|] == body;
    return Good(Some(len));
  }

  // ---- one element: a line, and the data behind a bulk string ----

  /** The bytes of one element and how many nested values follow it; null and scalars have none. */
  datatype Head = Head(size: nat, items: Option<nat>) {
    function More(): nat {
      if items.Some? then items.value else 0
    }
  }

  /** The data of a bulk string of `len` bytes behind a line of `line` bytes. */
  function BulkHead(s: seq<byte>, line: nat, len: nat): (r: Resp<Head>)
    ensures r.Good? ==> line <= r.value.size <= |s| && r.value.items.None?
  {
    if len > Protocol.MAX_PAYLOAD then Bad(BulkTooLarge)
    else if |s| < line + len + 2 then Bad(TornFrame)
    else if s[line + len..line + len + 2] != CRLF then Bad(BulkNotCrlf)
    else Good(Head(line + len + 2, None))
  }

  /** The element at the front of `s`. */
  function ReadHead(s: seq<byte>): (r: Resp<Head>)
    requires s != []
    ensures r.Good? ==> 3 <= r.value.size <= |s|
  {
    var p := LineEnd(s);
    if p == |s| || p < 2 || s[p - 1] != CR then Bad(ExpectedCrlf)
    else
      var kind, body := s[0], s[1..p - 1];
      if kind == PLUS || kind == MINUS || kind == COLON then Good(Head(p + 1, None))
      else if kind == DOLLAR then
        var len :- Len(body);
        if len.None? then Good(Head(p + 1, None)) else BulkHead(s, p + 1, len.value)
      else if kind == STAR then
        var len :- Len(body);
        if len.None? then Good(Head(p + 1, None))
        else if len.value > MAX_ARRAY_LEN then Bad(ArrayTooLarge)
        else Good(Head(p + 1, len))
      else Bad(UnknownType)
  }

  // ---- the framer ----

  /** The bytes of `pending` more elements, arrays adding their items to the count. */
  function FrameLen(s: seq<byte>, pending: nat): (r: Resp<nat>)
    ensures r.Good? ==> r.value <= |s|
    decreases |s|
  {
    if pending == 0 then Good(0)
    else if s == [] then Bad(TornFrame)
    else
      var h :- ReadHead(s);
      if h.items.Some? && pending - 1 + h.More() > MAX_ARRAY_LEN then Bad(ArrayTooLarge)
      else
        var n :- FrameLen(s[h.size..], pending - 1 + h.More());
        Good(h.size + n)
  }

  /** The data of a bulk string and the CRLF behind it. */
  method ReadBulk(stream: Stream, line: seq<byte>, len: nat) returns (r: Resp<seq<byte>>)
    modifies stream
    ensures var s := line + old(stream.rest);
            match BulkHead(s, |line|, len)
            case Good(h) => r == Good(s[..h.size]) && stream.rest == s[h.size..]
            case Bad(e) => r == Bad(e)
  {
    if len > Protocol.MAX_PAYLOAD {
      return Bad(BulkTooLarge);
    }
    ghost var s := line + stream.rest;
    var data := stream.ReadExact(len + 2);
    if data.None? {
      return Bad(TornFrame);
    }
    assert data.value[len..] == s[|line| + len..|line| + len + 2];
    assert line + data.value == s[..|line| + len + 2];
    if data.value[len..] != CRLF {
      return Bad(BulkNotCrlf);
    }
    return Good(line + data.value);
  }

  /** Reads one element: its line, and a bulk string's data. */
  method ReadElement(stream: Stream) returns (r: Resp<(seq<byte>, Option<nat>)>)
    requires stream.rest != []
    modifies stream
    ensures match ReadHead(old(stream.rest))
            case Good(h) => r == Good((old(stream.rest)[..h.size], h.items)) && stream.rest == old(stream.rest)[h.size..]
            case Bad(e) => r == Bad(e)
  {
    hide LineEnd, Len, BulkHead;
    ghost var s := stream.rest;
    var line := stream.ReadLine();
    if |line| < 3 || line[|line| - 2..] != CRLF {
      return Bad(ExpectedCrlf);
    }
    assert s[|line| - 1] == line[|line| - 2..][1] && s[|line| - 2] == line[|line| - 2..][0];
    assert |line| == LineEnd(s) + 1;
    var kind, body := line[0], line[1..|line| - 2];
    assert body == s[1..LineEnd(s) - 1];
    assert line + stream.rest == s;
    if kind == PLUS || kind == MINUS || kind == COLON {
      return Good((line, None));
    }
    if kind != DOLLAR && kind != STAR {
      return Bad(UnknownType);
    }
    var len := ParseLen(body);
    if len.Bad? {
      return Bad(len.error);
    }
    if len.value.None? {
      return Good((line, None));
    }
    if kind == STAR {
      return if len.value.value > MAX_ARRAY_LEN then Bad(ArrayTooLarge) else Good((line, len.value));
    }
    var bulk := ReadBulk(stream, line, len.value.value);
    return if bulk.Good? then Good((bulk.value, None)) else Bad(bulk.error);
  }

  /** `read_frame_resp`: the loop over `frame` and `pending`; None is a clean end. */
  method ReadFrame(stream: Stream) returns (r: Resp<Option<seq<byte>>>)
    modifies stream
    ensures old(stream.rest) == [] ==> r == Good(None) && stream.rest == []
    ensures old(stream.rest) != [] ==>
              match FrameLen(old(stream.rest), 1)
              case Good(n) => r == Good(Some(old(stream.rest)[..n])) && stream.rest == old(stream.rest)[n..]
              case Bad(e) => r == Bad(e)
  {
    hide ReadHead, FrameLen;
    ghost var s := stream.rest;
    var frame: seq<byte> := [];
    var pending: nat := 1;
    while pending > 0
      invariant frame + stream.rest == s
      invariant frame == [] ==> pending == 1
      invariant FrameLen(s, 1) == Plus(|frame|, FrameLen(stream.rest, pending))
      decreases |stream.rest|, pending
    {
      ghost var rest := stream.rest;
      FrameStep(rest, pending);
      pending := pending - 1;
      if stream.rest == [] {
        return if frame == [] then Good(None) else Bad(TornFrame);
      }
      var element := ReadElement(stream);
      if element.Bad? {
        return Bad(element.error);
      }
      var (bytes, items) := element.value;
      assert rest == bytes + stream.rest;
      assert frame + (bytes + stream.rest) == (frame + bytes) + stream.rest;
      frame := frame + bytes;
      if items.Some? {
        if pending + items.value > MAX_ARRAY_LEN {
          return Bad(ArrayTooLarge);
        }
        pending := pending + items.value;
      }
    }
    FrameDone(stream.rest);
    TakeAndDrop(frame, stream.rest);
    return Good(Some(frame));
  }

  lemma TakeAndDrop(a: seq<byte>, b: seq<byte>)
    ensures (a + b)[..|a|] == a && (a + b)[|a|..] == b
  {
  }

  function Plus(n: nat, r: Resp<nat>): Resp<nat> {
    if r.Good? then Good(n + r.value) else r
  }

  lemma FrameDone(s: seq<byte>)
    ensures FrameLen(s, 0) == Good(0)
  {
  }

  lemma FrameStep(s: seq<byte>, pending: nat)
    requires pending > 0
    ensures FrameLen(s, pending) ==
            if s == [] then Bad(TornFrame)
            else match ReadHead(s)
                 case Bad(e) => Bad(e)
                 case Good(h) =>
                   if h.items.Some? && pending - 1 + h.More() > MAX_ARRAY_LEN then Bad(ArrayTooLarge)
                   else Plus(h.size, FrameLen(s[h.size..], pending - 1 + h.More()))
  {
    hide ReadHead;
  }

  // ---- the grammar ----

  /** The length of the one value at the front of `s`, its nested values included. */
  function ValueLen(s: seq<byte>): (r: Option<nat>)
    ensures r.Some? ==> 3 <= r.value <= |s|
    decreases |s|, 0
  {
    if s == [] || ReadHead(s).Bad? then None
    else
      var h := ReadHead(s).value;
      PlusLen(h.size, ValuesLen(s[h.size..], h.More()))
  }

  /** The length of `k` values in a row. */
  function ValuesLen(s: seq<byte>, k: nat): (r: Option<nat>)
    ensures r.Some? ==> r.value <= |s|
    decreases |s|, 1
  {
    if k == 0 then Some(0)
    else if ValueLen(s).None? then None
    else
      var n := ValueLen(s).value;
      PlusLen(n, ValuesLen(s[n..], k - 1))
  }

  function PlusLen(n: nat, r: Option<nat>): Option<nat> {
    if r.Some? then Some(n + r.value) else None
  }

  lemma ValuesStep(s: seq<byte>, k: nat)
    requires k > 0
    ensures ValuesLen(s, k) == if ValueLen(s).None? then None
                               else PlusLen(ValueLen(s).value, ValuesLen(s[ValueLen(s).value..], k - 1))
  {
    hide ValueLen;
  }

  lemma ValueStep(s: seq<byte>)
    requires s != []
    ensures ReadHead(s).Bad? ==> ValueLen(s) == None
    ensures ReadHead(s).Good? ==>
              var h := ReadHead(s).value;
              ValueLen(s) == PlusLen(h.size, ValuesLen(s[h.size..], h.More()))
  {
    hide ReadHead, ValuesLen;
  }

  lemma NoValues(s: seq<byte>)
    ensures ValuesLen(s, 0) == Some(0) && ValueLen([]) == None
  {
  }

  /** A row of values can be read in two parts. */
  lemma {:induction false} ValuesSplit(s: seq<byte>, a: nat, b: nat)
    ensures ValuesLen(s, a + b) == if ValuesLen(s, a).None? then None
                                   else PlusLen(ValuesLen(s, a).value, ValuesLen(s[ValuesLen(s, a).value..], b))
    decreases |s|, a
  {
    hide ValueLen, ValuesLen;
    if a == 0 {
      NoValues(s);
      assert s[0..] == s;
    } else {
      ValuesStep(s, a + b);
      ValuesStep(s, a);
      if ValueLen(s).Some? {
        var n := ValueLen(s).value;
        ValuesSplit(s[n..], a - 1, b);
        var m := ValuesLen(s[n..], a - 1);
        if m.Some? {
          assert s[n..][m.value..] == s[n + m.value..];
        }
      }
    }
  }

  lemma ValueHead(s: seq<byte>)
    requires ValueLen(s).Some?
    ensures s != [] && ReadHead(s).Good?
    ensures var h := ReadHead(s).value;
            ValuesLen(s[h.size..], h.More()).Some? && ValueLen(s).value == h.size + ValuesLen(s[h.size..], h.More()).value
  {
    hide ReadHead, ValueLen, ValuesLen;
    NoValues(s);
    ValueStep(s);
  }

  lemma RowHead(s: seq<byte>, k: nat)
    requires k > 0 && ValuesLen(s, k).Some?
    ensures ValueLen(s).Some? && ValuesLen(s[ValueLen(s).value..], k - 1).Some?
    ensures ValuesLen(s, k).value == ValueLen(s).value + ValuesLen(s[ValueLen(s).value..], k - 1).value
  {
    hide ValueLen, ValuesLen;
    ValuesStep(s, k);
  }

  /**
   The most values that are ever still to come while the value at the front of `s` is read
   and `after` more follow it, counted where an array announces its items.
   */
  function Waiting(s: seq<byte>, after: nat): nat
    requires ValueLen(s).Some?
    decreases |s|, 0
  {
    ValueHead(s);
    var h := ReadHead(s).value;
    if h.items.None? then 0
    else
      var inside := WaitingRow(s[h.size..], h.More(), after);
      if inside < h.More() + after then h.More() + after else inside
  }

  /** The same for `k` values in a row. */
  function WaitingRow(s: seq<byte>, k: nat, after: nat): nat
    requires ValuesLen(s, k).Some?
    decreases |s|, 1
  {
    if k == 0 then 0
    else
      RowHead(s, k);
      var first, others := Waiting(s, k - 1 + after), WaitingRow(s[ValueLen(s).value..], k - 1, after);
      if first < others then others else first
  }

  lemma NothingWaits(s: seq<byte>, after: nat)
    ensures ValuesLen(s, 0) == Some(0) && WaitingRow(s, 0, after) == 0
  {
  }

  /** Too many wait in a row if its first array is too long, or its items, or the rest of the row. */
  lemma WaitingStep(s: seq<byte>, k: nat, after: nat)
    requires k > 0 && ValuesLen(s, k).Some?
    ensures ValueLen(s).Some? && s != [] && ReadHead(s).Good? && ValuesLen(s[ValueLen(s).value..], k - 1).Some?
    ensures var h, rest := ReadHead(s).value, s[ValueLen(s).value..];
            && ValuesLen(s[h.size..], h.More()).Some?
            && (WaitingRow(s, k, after) > MAX_ARRAY_LEN <==>
                  || (h.items.Some? && h.More() + (k - 1 + after) > MAX_ARRAY_LEN)
                  || WaitingRow(s[h.size..], h.More(), k - 1 + after) > MAX_ARRAY_LEN
                  || WaitingRow(rest, k - 1, after) > MAX_ARRAY_LEN)
  {
    hide ReadHead, ValueLen, ValuesLen;
    RowHead(s, k);
    ValueHead(s);
    var h := ReadHead(s).value;
    if h.items.None? {
      NothingWaits(s[h.size..], k - 1 + after);
    }
  }

  /** A row of values and what follows it: refused exactly if too many are ever waiting. */
  lemma {:induction false} RowFramed(s: seq<byte>, k: nat, after: nat)
    requires ValuesLen(s, k).Some?
    ensures FrameLen(s, k + after) ==
            if WaitingRow(s, k, after) > MAX_ARRAY_LEN then Bad(ArrayTooLarge)
            else Plus(ValuesLen(s, k).value, FrameLen(s[ValuesLen(s, k).value..], after))
    decreases |s|, k
  {
    hide ReadHead, FrameLen, ValueLen, ValuesLen, WaitingRow;
    if k == 0 {
      NothingWaits(s, after);
      assert s[0..] == s;
    } else {
      WaitingStep(s, k, after);
      RowHead(s, k);
      ValueHead(s);
      FrameStep(s, k + after);
      var h := ReadHead(s).value;
      var n := ValueLen(s).value;
      var items, rest := s[h.size..], s[n..];
      RowFramed(items, h.More(), k - 1 + after);
      assert h.More() + (k - 1 + after) == k + after - 1 + h.More();
      assert items[n - h.size..] == rest;
      RowFramed(rest, k - 1, after);
      assert rest[ValuesLen(rest, k - 1).value..] == s[ValuesLen(s, k).value..];
    }
  }

  lemma {:induction false} FramedIsRow(s: seq<byte>, pending: nat)
    requires FrameLen(s, pending).Good?
    ensures ValuesLen(s, pending) == Some(FrameLen(s, pending).value)
    decreases |s|, pending
  {
    hide ReadHead, FrameLen, ValueLen, ValuesLen;
    if pending == 0 {
      NoValues(s);
      FrameDone(s);
    } else {
      FrameStep(s, pending);
      ValuesStep(s, pending);
      ValueStep(s);
      var h := ReadHead(s).value;
      var rest := s[h.size..];
      FramedIsRow(rest, pending - 1 + h.More());
      ValuesSplit(rest, h.More(), pending - 1);
      assert h.More() + (pending - 1) == pending - 1 + h.More();
      var items := ValuesLen(rest, h.More());
      if items.Some? {
        assert rest[items.value..] == s[h.size + items.value..];
      }
    }
  }

  /**
   The single counter refines the recursive grammar, exactly: it delivers the bytes of that
   many values if and only if the grammar reads them and there are never more values waiting
   than an array may have items; where only the latter fails it says so.
   */
  lemma FramerRefinesGrammar(s: seq<byte>, pending: nat)
    ensures FrameLen(s, pending).Good? <==> ValuesLen(s, pending).Some? && WaitingRow(s, pending, 0) <= 1024 * 1024
    ensures FrameLen(s, pending).Good? ==> ValuesLen(s, pending) == Some(FrameLen(s, pending).value)
    ensures ValuesLen(s, pending).Some? && WaitingRow(s, pending, 0) > 1024 * 1024 ==> FrameLen(s, pending) == Bad(ArrayTooLarge)
  {
    hide FrameLen, ValueLen, ValuesLen, WaitingRow;
    if FrameLen(s, pending).Good? {
      FramedIsRow(s, pending);
    }
    if ValuesLen(s, pending).Some? {
      RowFramed(s, pending, 0);
      FrameDone(s[ValuesLen(s, pending).value..]);
    }
  }

  // ---- a frame stands alone ----

  lemma LineEndIs(s: seq<byte>, p: nat)
    requires p < |s| && s[p] == LF && forall i :: 0 <= i < p ==> s[i] != LF
    ensures LineEnd(s) == p
  {
    hide LineEnd;
  }

  /** An element is read from its own bytes; what follows does not matter. */
  lemma HeadCut(s: seq<byte>, m: nat)
    requires s != [] && ReadHead(s).Good? && ReadHead(s).value.size <= m <= |s|
    ensures s[..m] != [] && ReadHead(s[..m]) == ReadHead(s)
  {
    hide LineEnd, Len;
    var p := LineEnd(s);
    LineEndIs(s[..m], p);
    assert s[..m][1..p - 1] == s[1..p - 1];
    var n := ReadHead(s).value.size;
    assert n > p + 1 ==> s[..m][n - 2..n] == s[n - 2..n];
  }

  lemma {:induction false} ValueCut(s: seq<byte>, m: nat)
    requires ValueLen(s).Some? && ValueLen(s).value <= m <= |s|
    ensures ValueLen(s[..m]) == ValueLen(s)
    decreases |s|, 0
  {
    hide ReadHead, ValueLen, ValuesLen;
    NoValues(s);
    ValueStep(s);
    var h := ReadHead(s).value;
    HeadCut(s, m);
    ValueStep(s[..m]);
    ValuesCut(s[h.size..], h.More(), m - h.size);
    assert s[..m][h.size..] == s[h.size..][..m - h.size];
  }

  lemma {:induction false} ValuesCut(s: seq<byte>, k: nat, m: nat)
    requires ValuesLen(s, k).Some? && ValuesLen(s, k).value <= m <= |s|
    ensures ValuesLen(s[..m], k) == ValuesLen(s, k)
    decreases |s|, 1
  {
    hide ReadHead, ValueLen, ValuesLen;
    if k == 0 {
      NoValues(s);
      NoValues(s[..m]);
    } else {
      ValuesStep(s, k);
      ValuesStep(s[..m], k);
      var n := ValueLen(s).value;
      ValueCut(s, m);
      ValuesCut(s[n..], k - 1, m - n);
      assert s[..m][n..] == s[n..][..m - n];
    }
  }

  /** Every frame is one value and nothing else. */
  lemma FrameIsOneValue(s: seq<byte>)
    requires FrameLen(s, 1).Good?
    ensures var frame := s[..FrameLen(s, 1).value]; ValueLen(frame) == Some(|frame|)
  {
    hide FrameLen, ValueLen, ValuesLen;
    FramerRefinesGrammar(s, 1);
    ValuesStep(s, 1);
    var n := ValueLen(s).value;
    NoValues(s[n..]);
    ValueCut(s, n);
  }
}
