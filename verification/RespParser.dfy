/**
 The recursive RESP2 parser, and its agreement with the framer: on every frame it consumes
 all bytes, and exactly nesting and integers decide whether it succeeds.
 */
module RespParser {
  import opened Bytes
  import opened Streams
  import opened RespFrames

  const MAX_DEPTH: nat := 32
  const I64_MAX: int := 0x7FFF_FFFF_FFFF_FFFF

  datatype RespValue =
    | SimpleString(text: seq<byte>)
    | ErrorString(text: seq<byte>)
    | Integer(n: int)
    | BulkString(data: Option<seq<byte>>)
    | Array(items: Option<seq<RespValue>>)

  // ---- lines and integers ----

  /** Where the first CRLF is; the length of `s` if there is none. */
  function FindCrlf(s: seq<byte>): (p: nat)
    ensures p <= |s|
    ensures p < |s| ==> p + 2 <= |s| && s[p] == CR && s[p + 1] == LF
    ensures forall i :: 0 <= i < p && i + 1 < |s| ==> s[i] != CR || s[i + 1] != LF
  {
    if |s| < 2 then |s|
    else if s[0] == CR && s[1] == LF then 0
    else
      var p := FindCrlf(s[1..]);
      assert forall i :: 0 < i < 1 + p && i + 1 < |s| ==> s[i] == s[1..][i - 1] && s[i + 1] == s[1..][i];
      1 + p
  }

  /** A line split into type byte and body, and its length. */
  datatype Line = Line(kind: byte, body: seq<byte>, size: nat)

  function TakeLine(s: seq<byte>): (r: Resp<Line>)
    ensures r.Good? ==> 3 <= r.value.size <= |s|
  {
    var end := FindCrlf(s);
    if end == |s| then Bad(ExpectedCrlf)
    else if end == 0 then Bad(EmptyLine)
    else Good(Line(s[0], s[1..end], end + 2))
  }

  /** A decimal `i64`: an optional sign and at least one digit, in range. */
  function Int64(body: seq<byte>): (r: Resp<int>)
    ensures r.Bad? ==> r.error == InvalidInteger
  {
    var digits := if body != [] && (body[0] == MINUS || body[0] == PLUS) then body[1..] else body;
    if digits == [] || !AllDigits(digits) then Bad(InvalidInteger)
    else
      var n: int := if body[0] == MINUS then 0 - Decimal(digits) as int else Decimal(digits);
      if -I64_MAX - 1 <= n <= I64_MAX then Good(n) else Bad(InvalidInteger)
  }

  // ---- values ----

  datatype Parsed = Parsed(value: RespValue, used: nat)
  datatype ParsedItems = ParsedItems(items: seq<RespValue>, used: nat)

  function ParseBulk(buf: seq<byte>, line: nat, len: nat): (r: Resp<Parsed>)
    ensures r.Good? ==> line <= r.value.used <= |buf|
  {
    if line + len > |buf| then Bad(ShortBulk)
    else if line + len + 2 > |buf| || buf[line + len..line + len + 2] != CRLF then Bad(BulkNotCrlf)
    else Good(Parsed(BulkString(Some(buf[line..line + len])), line + len + 2))
  }

  /** The value at the front of `buf`, nested at `depth`, and how many bytes it took. */
  function ParseValue(buf: seq<byte>, depth: nat): (r: Resp<Parsed>)
    ensures r.Good? ==> 3 <= r.value.used <= |buf|
    decreases |buf|, 0
  {
    if depth > MAX_DEPTH then Bad(TooDeep)
    else if TakeLine(buf).Bad? then Bad(TakeLine(buf).error)
    else
      var line := TakeLine(buf).value;
      if line.kind == PLUS then Good(Parsed(SimpleString(line.body), line.size))
      else if line.kind == MINUS then Good(Parsed(ErrorString(line.body), line.size))
      else if line.kind == COLON then
        var n := Int64(line.body);
        if n.Bad? then Bad(n.error) else Good(Parsed(Integer(n.value), line.size))
      else if line.kind == DOLLAR || line.kind == STAR then
        var len := Len(line.body);
        if len.Bad? then Bad(len.error)
        else if line.kind == DOLLAR then
          if len.value.None? then Good(Parsed(BulkString(None), line.size))
          else ParseBulk(buf, line.size, len.value.value)
        else if len.value.None? then Good(Parsed(Array(None), line.size))
        else
          var items := ParseItems(buf[line.size..], len.value.value, depth + 1);
          if items.Bad? then Bad(items.error)
          else Good(Parsed(Array(Some(items.value.items)), line.size + items.value.used))
      else Bad(UnknownType)
  }

  /** `k` values in a row. */
  function ParseItems(buf: seq<byte>, k: nat, depth: nat): (r: Resp<ParsedItems>)
    ensures r.Good? ==> |r.value.items| == k && r.value.used <= |buf|
    decreases |buf|, 1
  {
    if k == 0 then Good(ParsedItems([], 0))
    else
      var first := ParseValue(buf, depth);
      if first.Bad? then Bad(first.error)
      else
        var others := ParseItems(buf[first.value.used..], k - 1, depth);
        if others.Bad? then Bad(others.error)
        else Good(ParsedItems([first.value.value] + others.value.items, first.value.used + others.value.used))
  }

  /** A buffer that is one value and nothing else. */
  function ParseResp(buf: seq<byte>): Resp<RespValue> {
    var r := ParseValue(buf, 0);
    if r.Bad? then Bad(r.error)
    else if r.value.used != |buf| then Bad(TrailingBytes)
    else Good(r.value.value)
  }

  // ---- the code's own shape ----

  /** Items parsed so far, put in front of the others. */
  function Before(items: seq<RespValue>, used: nat, r: Resp<ParsedItems>): Resp<ParsedItems> {
    if r.Bad? then r else Good(ParsedItems(items + r.value.items, used + r.value.used))
  }

  lemma ItemsStep(buf: seq<byte>, k: nat, depth: nat)
    requires k > 0
    ensures var first := ParseValue(buf, depth);
            ParseItems(buf, k, depth) ==
            if first.Bad? then Bad(first.error)
            else Before([first.value.value], first.value.used, ParseItems(buf[first.value.used..], k - 1, depth))
  {
    hide ParseValue;
  }

  lemma NoItems(buf: seq<byte>, depth: nat)
    ensures ParseItems(buf, 0, depth) == Good(ParsedItems([], 0))
  {
  }

  /** The loop over an array's items, with its `used` and its growing list. */
  method ParseArray(buf: seq<byte>, len: nat, depth: nat) returns (r: Resp<ParsedItems>)
    ensures r == ParseItems(buf, len, depth)
    decreases |buf|, 1
  {
    hide ParseValue, ParseItems;
    var items: seq<RespValue> := [];
    var used: nat := 0;
    assert buf[0..] == buf;
    assert ParseItems(buf, len, depth).Good? ==> [] + ParseItems(buf, len, depth).value.items == ParseItems(buf, len, depth).value.items;
    for i := 0 to len
      invariant used <= |buf|
      invariant ParseItems(buf, len, depth) == Before(items, used, ParseItems(buf[used..], len - i, depth))
    {
      ItemsStep(buf[used..], len - i, depth);
      var item := ParseOne(buf[used..], depth);
      if item.Bad? {
        return Bad(item.error);
      }
      assert buf[used..][item.value.used..] == buf[used + item.value.used..];
      ghost var others := ParseItems(buf[used + item.value.used..], len - i - 1, depth);
      assert others.Good? ==> items + ([item.value.value] + others.value.items) == (items + [item.value.value]) + others.value.items;
      items := items + [item.value.value];
      used := used + item.value.used;
    }
    NoItems(buf[used..], depth);
    assert items + [] == items;
    return Good(ParsedItems(items, used));
  }

  method ParseOne(buf: seq<byte>, depth: nat) returns (r: Resp<Parsed>)
    ensures r == ParseValue(buf, depth)
    decreases |buf|, 0
  {
    hide ParseItems, FindCrlf;
    if depth > MAX_DEPTH {
      return Bad(TooDeep);
    }
    var line := TakeLine(buf);
    if line.Bad? {
      return Bad(line.error);
    }
    var Line(kind, body, used) := line.value;
    if kind == PLUS {
      return Good(Parsed(SimpleString(body), used));
    } else if kind == MINUS {
      return Good(Parsed(ErrorString(body), used));
    } else if kind == COLON {
      var n := Int64(body);
      return if n.Bad? then Bad(n.error) else Good(Parsed(Integer(n.value), used));
    } else if kind == DOLLAR {
      var len := ParseLen(body);
      if len.Bad? { return Bad(len.error); }
      if len.value.None? { return Good(Parsed(BulkString(None), used)); }
      return ParseBulk(buf, used, len.value.value);
    } else if kind == STAR {
      var len := ParseLen(body);
      if len.Bad? { return Bad(len.error); }
      if len.value.None? { return Good(Parsed(Array(None), used)); }
      var items := ParseArray(buf[used..], len.value.value, depth + 1);
      if items.Bad? { return Bad(items.error); }
      return Good(Parsed(Array(Some(items.value.items)), used + items.value.used));
    } else {
      return Bad(UnknownType);
    }
  }

  // ---- what the framer accepts ----

  /** How deep the arrays of a value are nested. */
  function Nesting(s: seq<byte>): nat
    requires ValueLen(s).Some?
    decreases |s|, 0
  {
    ValueParts(s);
    var h := ReadHead(s).value;
    if h.More() == 0 then 0 else 1 + MaxNesting(s[h.size..], h.More())
  }

  function MaxNesting(s: seq<byte>, k: nat): nat
    requires ValuesLen(s, k).Some?
    decreases |s|, 1
  {
    if k == 0 then 0
    else
      RowHead(s, k);
      var n := ValueLen(s).value;
      var first, others := Nesting(s), MaxNesting(s[n..], k - 1);
      if first < others then others else first
  }

  /** Every integer in the value fits an `i64`. */
  predicate IntegersFit(s: seq<byte>)
    requires ValueLen(s).Some?
    decreases |s|, 0
  {
    ValueParts(s);
    var h := ReadHead(s).value;
    (s[0] == COLON ==> Int64(s[1..LineEnd(s) - 1]).Good?) && AllIntegersFit(s[h.size..], h.More())
  }

  predicate AllIntegersFit(s: seq<byte>, k: nat)
    requires ValuesLen(s, k).Some?
    decreases |s|, 1
  {
    if k == 0 then true
    else
      RowHead(s, k);
      IntegersFit(s) && AllIntegersFit(s[ValueLen(s).value..], k - 1)
  }

  lemma ValueParts(s: seq<byte>)
    requires ValueLen(s).Some?
    ensures s != [] && ReadHead(s).Good? && 2 <= LineEnd(s) < |s|
    ensures var h := ReadHead(s).value;
            h.size <= |s| && ValuesLen(s[h.size..], h.More()).Some?
            && ValueLen(s).value == h.size + ValuesLen(s[h.size..], h.More()).value
  {
    hide ValueLen, ValuesLen, LineEnd;
    ValueHead(s);
  }

  /** The framer's line and the parser's line are the same. */
  lemma SameLine(s: seq<byte>)
    requires s != [] && ReadHead(s).Good?
    ensures var p := LineEnd(s);
            2 <= p < |s| && TakeLine(s) == Good(Line(s[0], s[1..p - 1], p + 1))
  {
    hide LineEnd, FindCrlf, Len;
    var p, q := LineEnd(s), FindCrlf(s);
    assert s[p - 1] == CR && s[p] == LF;
    assert q == p - 1;
  }

  /**
   On whatever the grammar accepts, at any depth and whatever follows, the parser takes the
   same bytes; it succeeds exactly if no array is nested too deep and every integer fits, and
   those are the only errors.
   */
  lemma {:induction false} ParserAgrees(s: seq<byte>, depth: nat)
    requires ValueLen(s).Some?
    ensures var r := ParseValue(s, depth);
            && (r.Good? <==> depth + Nesting(s) <= MAX_DEPTH && IntegersFit(s))
            && (r.Good? ==> r.value.used == ValueLen(s).value)
            && (r.Bad? ==> r.error == TooDeep || r.error == InvalidInteger)
    decreases |s|, 0
  {
    hide ValueLen, ValuesLen, LineEnd, FindCrlf, Len, Int64, ParseItems, MaxNesting, AllIntegersFit;
    ValueParts(s);
    SameLine(s);
    var h := ReadHead(s).value;
    RowAgrees(s[h.size..], h.More(), depth + 1);
    NothingNested(s[h.size..]);
  }

  lemma NothingNested(s: seq<byte>)
    ensures ValuesLen(s, 0).Some? && MaxNesting(s, 0) == 0 && AllIntegersFit(s, 0) && ValuesLen(s, 0).value == 0
  {
  }

  lemma {:induction false} RowAgrees(s: seq<byte>, k: nat, depth: nat)
    requires ValuesLen(s, k).Some?
    ensures var r := ParseItems(s, k, depth);
            && (r.Good? <==> (k == 0 || depth + MaxNesting(s, k) <= MAX_DEPTH) && AllIntegersFit(s, k))
            && (r.Good? ==> r.value.used == ValuesLen(s, k).value)
            && (r.Bad? ==> r.error == TooDeep || r.error == InvalidInteger)
    decreases |s|, 1
  {
    hide ValueLen, ValuesLen, ParseValue, ParseItems, Nesting, IntegersFit;
    if k == 0 {
      NoItems(s, depth);
      NothingNested(s);
    } else {
      RowHead(s, k);
      ItemsStep(s, k, depth);
      var n := ValueLen(s).value;
      ParserAgrees(s, depth);
      RowAgrees(s[n..], k - 1, depth);
      NothingNested(s[n..]);
    }
  }

  /** A buffer with anything behind its value is refused. */
  lemma TrailingRefused(s: seq<byte>)
    requires ValueLen(s).Some? && ValueLen(s).value < |s|
    ensures ParseResp(s).Bad?
    ensures ParseResp(s) == Bad(TrailingBytes) <==> Nesting(s) <= 32 && IntegersFit(s)
  {
    hide ValueLen, Nesting, IntegersFit, ParseValue;
    ParserAgrees(s, 0);
  }

  /**
   For every frame the framer returns, the recursive parser consumes all of its bytes and
   fails only through nesting beyond the limit or an integer that does not fit.
   */
  lemma FramesParse(s: seq<byte>)
    requires FrameLen(s, 1).Good?
    ensures var frame := s[..FrameLen(s, 1).value];
            && ValueLen(frame) == Some(|frame|)
            && (ParseResp(frame).Good? <==> Nesting(frame) <= 32 && IntegersFit(frame))
            && (ParseResp(frame).Bad? ==> ParseResp(frame).error == TooDeep || ParseResp(frame).error == InvalidInteger)
  {
    hide FrameLen, ValueLen, Nesting, IntegersFit, ParseValue;
    FrameIsOneValue(s);
    ParserAgrees(s[..FrameLen(s, 1).value], 0);
  }
}
