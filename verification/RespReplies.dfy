/**
 RESP2 printers: every reply is exactly one value that parses back to what was meant,
 whatever follows it on the connection.
 */
module RespReplies {
  import opened Bytes
  import opened Streams
  import opened RespFrames
  import opened RespParser
  import opened Protocol

  // ---- decimal lengths ----

  function Digits(n: nat): seq<byte> {
    if n < 10 then [Digit(n)] else Digits(n / 10) + [Digit(n % 10)]
  }

  function Digit(d: nat): byte
    requires d < 10
  {
    ZERO + (d as byte)
  }

  function Pow10(k: nat): nat {
    if k == 0 then 1 else 10 * Pow10(k - 1)
  }

  const TEN_DIGITS: nat := 10_000_000_000

  lemma Pow10Ten()
    ensures Pow10(10) == TEN_DIGITS
  {
    assert Pow10(3) == 1000 && Pow10(6) == 1_000_000 && Pow10(9) == 1_000_000_000;
  }

  lemma DigitIs(d: nat)
    requires d < 10
    ensures IsDigit(Digit(d)) && DigitValue(Digit(d)) == d
  {
    ByteRoundTrip(d);
    var b := d as byte;
    assert b < 10;
  }

  /** The printed digits stand for the number. */
  lemma {:induction false} DigitsValue(n: nat)
    ensures Digits(n) != [] && AllDigits(Digits(n)) && Decimal(Digits(n)) == n
  {
    hide Digit, DigitValue, IsDigit;
    if n < 10 {
      DigitIs(n);
      assert Digits(n)[..0] == [];
    } else {
      DigitsValue(n / 10);
      DigitIs(n % 10);
      assert Digits(n)[..|Digits(n)| - 1] == Digits(n / 10);
    }
  }

  lemma {:induction false} DigitsCount(n: nat, k: nat)
    requires k > 0
    ensures |Digits(n)| <= k <==> n < Pow10(k)
  {
    if n < 10 {
      Pow10AtLeastTen(k);
    } else if k == 1 {
      assert Pow10(1) == 10 * Pow10(0);
      assert |Digits(n / 10)| >= 1;
    } else {
      DigitsCount(n / 10, k - 1);
    }
  }

  lemma {:induction false} Pow10AtLeastTen(k: nat)
    requires k > 0
    ensures Pow10(k) >= 10
  {
    if k > 1 {
      Pow10AtLeastTen(k - 1);
    } else {
      assert Pow10(1) == 10 * Pow10(0);
    }
  }

  /** No leading zero is printed. */
  lemma {:induction false} DigitsCanonical(n: nat)
    ensures Digits(n) != [] && (n >= 10 ==> Digits(n)[0] != 48)
  {
    if n >= 10 {
      if n / 10 < 10 {
        DigitNotZero(n / 10);
      } else {
        DigitsCanonical(n / 10);
      }
    }
  }

  lemma DigitNotZero(d: nat)
    requires 0 < d < 10
    ensures Digit(d) != 48
  {
    DigitIs(d);
    var zero: byte := 48;
    assert DigitValue(zero) == 0;
  }

  /** Integers read as they are printed, with an optional sign and in the range of an `i64`. */
  lemma IntegerForms(n: nat)
    ensures Int64(Digits(n)) == if n < 0x8000_0000_0000_0000 then Good(n) else Bad(InvalidInteger)
    ensures Int64([43] + Digits(n)) == if n < 0x8000_0000_0000_0000 then Good(n) else Bad(InvalidInteger)
    ensures Int64([45] + Digits(n)) == if n <= 0x8000_0000_0000_0000 then Good(0 - n as int) else Bad(InvalidInteger)
  {
    DigitsValue(n);
    var s := Digits(n);
    hide Digits, Decimal;
    assert IsDigit(s[0]);
    assert ([43] + s)[1..] == s && ([45] + s)[1..] == s;
  }

  /** Nothing but an optional sign and digits is an integer. */
  lemma NotAnInteger(body: seq<byte>)
    requires var digits := if body != [] && (body[0] == 45 || body[0] == 43) then body[1..] else body;
             digits == [] || exists i :: 0 <= i < |digits| && !(48 <= digits[i] <= 57)
    ensures Int64(body) == Bad(InvalidInteger)
  {
    hide Decimal;
  }

  /** A printed length is parsed back exactly if it has at most ten digits. */
  lemma LenOfDigits(n: nat)
    ensures Len(Digits(n)) == if n < TEN_DIGITS then Good(Some(n)) else Bad(InvalidLength)
  {
    DigitsValue(n);
    DigitsCount(n, 10);
    Pow10Ten();
    hide Digits, Decimal, Pow10;
    assert IsDigit(Digits(n)[0]);
    assert Digits(n) != NULL_LEN;
  }

  // ---- lines ----

  /** No line end inside. */
  ghost predicate OneLine(s: seq<byte>) {
    forall i :: 0 <= i < |s| ==> s[i] != CR && s[i] != LF
  }

  function TextLine(kind: byte, body: seq<byte>): (l: seq<byte>)
    ensures |l| == |body| + 3
  {
    [kind] + body + CRLF
  }

  lemma LineParses(kind: byte, body: seq<byte>, rest: seq<byte>)
    requires OneLine(body) && kind != CR && kind != LF
    ensures TakeLine(TextLine(kind, body) + rest) == Good(Line(kind, body, |body| + 3))
  {
    hide FindCrlf;
    var s := TextLine(kind, body) + rest;
    var e := |body| + 1;
    assert s[0] == kind && s[1..e] == body && s[e] == CR && s[e + 1] == LF;
    assert forall i :: 1 <= i < e ==> s[i] == body[i - 1];
    assert FindCrlf(s) == e;
  }

  lemma DigitsOneLine(n: nat)
    ensures OneLine(Digits(n))
  {
    DigitsValue(n);
    hide Digits, Decimal;
    var s := Digits(n);
    forall i | 0 <= i < |s| ensures s[i] != CR && s[i] != LF {
      assert IsDigit(s[i]);
    }
  }

  // ---- bulk strings and arrays of them ----

  function Bulk(v: seq<byte>): (b: seq<byte>)
    ensures |b| >= |v| + 2
  {
    TextLine(DOLLAR, Digits(|v|)) + v + CRLF
  }

  /** A bulk string reads back exactly if its length has at most ten digits. */
  lemma BulkParses(v: seq<byte>, rest: seq<byte>, depth: nat)
    requires depth <= MAX_DEPTH
    ensures ParseValue(Bulk(v) + rest, depth) ==
            if |v| < TEN_DIGITS then Good(Parsed(BulkString(Some(v)), |Bulk(v)|)) else Bad(InvalidLength)
  {
    hide Digits, TakeLine, Len, ParseItems, TextLine;
    var line := TextLine(DOLLAR, Digits(|v|));
    var s := Bulk(v) + rest;
    DigitsOneLine(|v|);
    LineParses(DOLLAR, Digits(|v|), v + CRLF + rest);
    assert s == line + (v + CRLF + rest);
    LenOfDigits(|v|);
    BulkData(line, v, rest);
  }

  lemma BulkData(line: seq<byte>, v: seq<byte>, rest: seq<byte>)
    ensures ParseBulk(line + (v + CRLF + rest), |line|, |v|) == Good(Parsed(BulkString(Some(v)), |line| + |v| + 2))
  {
    var s := line + (v + CRLF + rest);
    assert s[|line|..|line| + |v|] == v;
    assert s[|line| + |v|..|line| + |v| + 2] == CRLF;
  }

  function Bulks(vs: seq<seq<byte>>): seq<byte> {
    if vs == [] then [] else Bulk(vs[0]) + Bulks(vs[1..])
  }

  function BulkValues(vs: seq<seq<byte>>): seq<RespValue> {
    if vs == [] then [] else [BulkString(Some(vs[0]))] + BulkValues(vs[1..])
  }

  ghost predicate ShortAll(vs: seq<seq<byte>>) {
    forall i :: 0 <= i < |vs| ==> |vs[i]| < TEN_DIGITS
  }

  lemma {:induction false} BulksParse(vs: seq<seq<byte>>, rest: seq<byte>, depth: nat)
    requires depth <= MAX_DEPTH && ShortAll(vs)
    ensures ParseItems(Bulks(vs) + rest, |vs|, depth) == Good(ParsedItems(BulkValues(vs), |Bulks(vs)|))
    decreases |vs|
  {
    hide ParseItems, ParseValue, Bulk;
    if vs == [] {
      NoItems(Bulks(vs) + rest, depth);
    } else {
      var tail := Bulks(vs[1..]) + rest;
      assert Bulks(vs) + rest == Bulk(vs[0]) + tail;
      BulkParses(vs[0], tail, depth);
      ItemsStep(Bulk(vs[0]) + tail, |vs|, depth);
      assert (Bulk(vs[0]) + tail)[|Bulk(vs[0])|..] == tail;
      BulksParse(vs[1..], rest, depth);
    }
  }

  /** An array of bulk strings: what a client sends and what CONFIG GET answers. */
  function BulkArray(vs: seq<seq<byte>>): seq<byte> {
    TextLine(STAR, Digits(|vs|)) + Bulks(vs)
  }

  lemma BulkArrayParses(vs: seq<seq<byte>>, rest: seq<byte>)
    requires ShortAll(vs) && |vs| < TEN_DIGITS
    ensures ParseValue(BulkArray(vs) + rest, 0) == Good(Parsed(Array(Some(BulkValues(vs))), |BulkArray(vs)|))
  {
    hide Digits, TakeLine, Len, ParseItems, Bulks, BulkValues, TextLine;
    var line := TextLine(STAR, Digits(|vs|));
    var s := BulkArray(vs) + rest;
    DigitsOneLine(|vs|);
    LineParses(STAR, Digits(|vs|), Bulks(vs) + rest);
    assert s == line + (Bulks(vs) + rest);
    LenOfDigits(|vs|);
    BulksParse(vs, rest, 1);
    assert s[|line|..] == Bulks(vs) + rest;
  }

  // ---- replies ----

  datatype RespCommand = GetCommand | SetCommand | DelCommand

  function CommandOf(q: Request): RespCommand {
    match q
    case Get(_) => GetCommand
    case Set(_, _) => SetCommand
    case Rm(_) => DelCommand
  }

  /** The error texts, in ASCII. */
  function CodeText(c: ErrorCode): seq<byte> {
    match c
    case KeyNotFound => [75, 101, 121, 32, 110, 111, 116, 32, 102, 111, 117, 110, 100]
    case Internal => [73, 110, 116, 101, 114, 110, 97, 108, 32, 115, 101, 114, 118, 101, 114, 32, 101, 114, 114, 111, 114]
    case InvalidRequest => [73, 110, 118, 97, 108, 105, 100, 32, 114, 101, 113, 117, 101, 115, 116]
  }

  const SPACE: byte := 32

  /** Line ends become spaces, so a message stays on one line. */
  function Cleaned(msg: seq<byte>): (s: seq<byte>)
    ensures |s| == |msg|
    ensures forall i :: 0 <= i < |msg| ==> s[i] == if msg[i] == CR || msg[i] == LF then SPACE else msg[i]
  {
    if msg == [] then []
    else [if msg[0] == CR || msg[0] == LF then SPACE else msg[0]] + Cleaned(msg[1..])
  }

  const ERR: seq<byte> := [69, 82, 82, SPACE]

  function ErrorReply(msg: seq<byte>): seq<byte> {
    TextLine(MINUS, ERR + Cleaned(msg))
  }

  function Reply(cmd: RespCommand, resp: Response): seq<byte> {
    match resp
    case Value(v) => Bulk(v)
    case Done => if cmd.DelCommand? then TextLine(COLON, [49]) else TextLine(PLUS, [79, 75])
    case Failed(code) =>
      if code.KeyNotFound? && cmd.DelCommand? then TextLine(COLON, [48])
      else if code.KeyNotFound? && cmd.GetCommand? then TextLine(DOLLAR, NULL_LEN)
      else ErrorReply(CodeText(code))
  }

  /** The value a reply stands for. */
  function Meaning(cmd: RespCommand, resp: Response): RespValue {
    match resp
    case Value(v) => BulkString(Some(v))
    case Done => if cmd.DelCommand? then Integer(1) else SimpleString([79, 75])
    case Failed(code) =>
      if code.KeyNotFound? && cmd.DelCommand? then Integer(0)
      else if code.KeyNotFound? && cmd.GetCommand? then BulkString(None)
      else ErrorString(ERR + Cleaned(CodeText(code)))
  }

  /** Any error text gives one error line, with its line ends turned into spaces. */
  lemma ErrorParses(msg: seq<byte>, rest: seq<byte>)
    ensures ParseValue(ErrorReply(msg) + rest, 0) == Good(Parsed(ErrorString(ERR + Cleaned(msg)), |ErrorReply(msg)|))
  {
    hide TakeLine, ParseItems, Cleaned, TextLine;
    var body := ERR + Cleaned(msg);
    assert OneLine(body);
    LineParses(MINUS, body, rest);
  }

  lemma NumbersParse()
    ensures Int64([48]) == Good(0) && Int64([49]) == Good(1)
  {
    var zero: seq<byte>, one: seq<byte> := [48], [49];
    assert zero[..0] == [] && one[..0] == [];
    assert Decimal(zero) == 10 * Decimal([]) + DigitValue(48);
    assert Decimal(one) == 10 * Decimal([]) + DigitValue(49);
  }

  /** The short replies of the table. */
  lemma LineReplyParses(kind: byte, body: seq<byte>, rest: seq<byte>)
    requires (kind == COLON && body in [[48], [49]]) || (kind == PLUS && body == [79, 75]) || (kind == DOLLAR && body == NULL_LEN)
    ensures ParseValue(TextLine(kind, body) + rest, 0) ==
            Good(Parsed(if kind == COLON then Integer(if body == [49] then 1 else 0)
                        else if kind == PLUS then SimpleString(body) else BulkString(None), |body| + 3))
  {
    NumbersParse();
    hide TakeLine, ParseItems, TextLine, Int64;
    assert OneLine(body);
    LineParses(kind, body, rest);
  }

  /** What a line of each kind parses to. */
  lemma LinesParse(kind: byte, body: seq<byte>, rest: seq<byte>)
    requires OneLine(body)
    ensures var r := ParseValue([kind] + body + [13, 10] + rest, 0);
            && (kind == 43 ==> r == Good(Parsed(SimpleString(body), |body| + 3)))
            && (kind == 45 ==> r == Good(Parsed(ErrorString(body), |body| + 3)))
            && (kind == 58 ==> r == if Int64(body).Good? then Good(Parsed(Integer(Int64(body).value), |body| + 3)) else Bad(InvalidInteger))
            && (kind == 36 && body == [45, 49] ==> r == Good(Parsed(BulkString(None), 5)))
            && (kind == 42 && body == [45, 49] ==> r == Good(Parsed(Array(None), 5)))
            && (kind == 42 && body == [48] ==> r == Good(Parsed(Array(Some([])), 4)))
            && (kind !in [36, 42, 43, 45, 58, 13, 10] ==> r == Bad(UnknownType))
  {
    hide TakeLine, ParseItems, TextLine, Int64, Decimal;
    var s := TextLine(kind, body) + rest;
    assert s == [kind] + body + [13, 10] + rest by {
      LineBytes(kind, body);
    }
    if kind != 13 && kind != 10 {
      LineParses(kind, body, rest);
      if kind == 42 && body == [48] {
        ZeroLength();
        NoItems(s[4..], 1);
      }
    }
  }

  lemma LineBytes(kind: byte, body: seq<byte>)
    ensures TextLine(kind, body) == [kind] + body + [13, 10]
  {
  }

  lemma ZeroLength()
    ensures Len([48]) == Good(Some(0))
  {
    var zero: seq<byte> := [48];
    assert zero[..0] == [];
    assert Decimal(zero) == 10 * Decimal([]) + DigitValue(48);
  }

  /**
   Every reply is one value that parses back to its meaning, whatever follows; a value whose
   length has more than ten digits is the one exception.
   */
  lemma ReplyParses(cmd: RespCommand, resp: Response, rest: seq<byte>)
    ensures ParseValue(Reply(cmd, resp) + rest, 0) ==
            if resp.Value? && |resp.value| >= TEN_DIGITS then Bad(InvalidLength)
            else Good(Parsed(Meaning(cmd, resp), |Reply(cmd, resp)|))
  {
    hide ParseValue, Bulk, ErrorReply, TextLine, CodeText, Cleaned;
    match resp {
      case Value(v) => BulkParses(v, rest, 0);
      case Done =>
        if cmd.DelCommand? {
          LineReplyParses(COLON, [49], rest);
        } else {
          LineReplyParses(PLUS, [79, 75], rest);
        }
      case Failed(code) =>
        if code.KeyNotFound? && cmd.DelCommand? {
          LineReplyParses(COLON, [48], rest);
        } else if code.KeyNotFound? && cmd.GetCommand? {
          LineReplyParses(DOLLAR, NULL_LEN, rest);
        } else {
          ErrorParses(CodeText(code), rest);
        }
    }
  }

  /** The reply table, as it is on the wire. */
  lemma ReplyTable(q: Request, resp: Response)
    ensures var reply := Reply(CommandOf(q), resp);
            match resp
            case Value(v) => reply == [36] + Digits(|v|) + [13, 10] + v + [13, 10]
            case Done => reply == if q.Rm? then [58, 49, 13, 10] else [43, 79, 75, 13, 10]
            case Failed(KeyNotFound) =>
              reply == if q.Rm? then [58, 48, 13, 10] else if q.Get? then [36, 45, 49, 13, 10]
                       else [45, 69, 82, 82, 32, 75, 101, 121, 32, 110, 111, 116, 32, 102, 111, 117, 110, 100, 13, 10]
            case Failed(Internal) => reply == [45, 69, 82, 82, 32, 73, 110, 116, 101, 114, 110, 97, 108, 32, 115, 101, 114, 118, 101, 114, 32, 101, 114, 114, 111, 114, 13, 10]
            case Failed(InvalidRequest) => reply == [45, 69, 82, 82, 32, 73, 110, 118, 97, 108, 105, 100, 32, 114, 101, 113, 117, 101, 115, 116, 13, 10]
  {
    hide Digits, Cleaned;
    if resp.Failed? {
      ErrorLine(resp.code);
    }
  }

  lemma ErrorLine(code: ErrorCode)
    ensures ErrorReply(CodeText(code)) ==
            match code
            case KeyNotFound => [45, 69, 82, 82, 32, 75, 101, 121, 32, 110, 111, 116, 32, 102, 111, 117, 110, 100, 13, 10]
            case Internal => [45, 69, 82, 82, 32, 73, 110, 116, 101, 114, 110, 97, 108, 32, 115, 101, 114, 118, 101, 114, 32, 101, 114, 114, 111, 114, 13, 10]
            case InvalidRequest => [45, 69, 82, 82, 32, 73, 110, 118, 97, 108, 105, 100, 32, 114, 101, 113, 117, 101, 115, 116, 13, 10]
  {
    hide Cleaned, ErrorReply;
    var msg := CodeText(code);
    TextsAreOneLine(code);
    PlainErrorLine(msg);
  }

  lemma TextsAreOneLine(code: ErrorCode)
    ensures OneLine(CodeText(code))
  {
  }

  /** A message without line ends is printed as it is. */
  lemma PlainErrorLine(msg: seq<byte>)
    requires OneLine(msg)
    ensures ErrorReply(msg) == [45, 69, 82, 82, 32] + msg + [13, 10]
  {
    hide Cleaned;
    assert Cleaned(msg) == msg;
    assert [45] + (ERR + msg) == [45, 69, 82, 82, 32] + msg;
  }

  /** The error line for any text. */
  lemma ErrorLineIs(msg: seq<byte>)
    ensures var r := ErrorReply(msg);
            && |r| == |msg| + 7 && r[..5] == [45, 69, 82, 82, 32] && r[|r| - 2..] == [13, 10]
            && forall i :: 0 <= i < |msg| ==> r[5 + i] == if msg[i] == 13 || msg[i] == 10 then 32 else msg[i]
  {
    hide Cleaned;
  }

  // ---- CONFIG GET ----

  /** Each name followed by an empty value. */
  function Pairs(names: seq<seq<byte>>): (vs: seq<seq<byte>>)
    ensures |vs| == 2 * |names|
    ensures forall i :: 0 <= i < |names| ==> vs[2 * i] == names[i] && vs[2 * i + 1] == []
  {
    if names == [] then []
    else Pairs(names[..|names| - 1]) + [names[|names| - 1], []]
  }

  function ConfigReply(names: seq<seq<byte>>): seq<byte> {
    BulkArray(Pairs(names))
  }

  /** The reply to CONFIG GET is one array of name and empty-value pairs, for any names. */
  lemma ConfigParses(names: seq<seq<byte>>, rest: seq<byte>)
    requires ShortAll(names) && 2 * |names| < TEN_DIGITS
    ensures ParseValue(ConfigReply(names) + rest, 0) == Good(Parsed(Array(Some(BulkValues(Pairs(names)))), |ConfigReply(names)|))
  {
    hide ParseValue, BulkArray, BulkValues, Pairs;
    var vs := Pairs(names);
    forall i | 0 <= i < |vs| ensures |vs[i]| < TEN_DIGITS {
      assert i == 2 * (i / 2) || i == 2 * (i / 2) + 1;
    }
    BulkArrayParses(vs, rest);
  }

  lemma {:induction false} BulksConcat(a: seq<seq<byte>>, b: seq<seq<byte>>)
    ensures Bulks(a + b) == Bulks(a) + Bulks(b)
    decreases |a|
  {
    hide Bulk;
    if a == [] {
      assert a + b == b;
    } else {
      BulksConcat(a[1..], b);
      assert (a + b)[1..] == a[1..] + b;
    }
  }

  // ---- the writers ----

  method WriteLine(sink: Sink, kind: byte, body: seq<byte>)
    modifies sink
    ensures sink.bytes == old(sink.bytes) + TextLine(kind, body)
  {
    sink.WriteAll([kind] + body);
    sink.WriteAll(CRLF);
  }

  method WriteBulk(sink: Sink, v: seq<byte>)
    modifies sink
    ensures sink.bytes == old(sink.bytes) + Bulk(v)
  {
    hide TextLine, Digits;
    WriteLine(sink, DOLLAR, Digits(|v|));
    sink.WriteAll(v);
    sink.WriteAll(CRLF);
  }

  method WriteError(sink: Sink, msg: seq<byte>)
    modifies sink
    ensures sink.bytes == old(sink.bytes) + ErrorReply(msg)
  {
    WriteLine(sink, MINUS, ERR + Cleaned(msg));
  }

  method WriteReply(sink: Sink, cmd: RespCommand, resp: Response)
    modifies sink
    ensures sink.bytes == old(sink.bytes) + Reply(cmd, resp)
  {
    hide TextLine, Bulk, ErrorReply;
    match resp {
      case Value(v) => WriteBulk(sink, v);
      case Done =>
        if cmd.DelCommand? {
          WriteLine(sink, COLON, [49]);
        } else {
          WriteLine(sink, PLUS, [79, 75]);
        }
      case Failed(code) =>
        if code.KeyNotFound? && cmd.DelCommand? {
          WriteLine(sink, COLON, [48]);
        } else if code.KeyNotFound? && cmd.GetCommand? {
          WriteLine(sink, DOLLAR, NULL_LEN);
        } else {
          WriteError(sink, CodeText(code));
        }
    }
  }

  lemma BulksOfPair(name: seq<byte>)
    ensures Bulks([name, []]) == Bulk(name) + Bulk([])
  {
    hide Bulk;
    var last: seq<seq<byte>> := [[]];
    assert [name, []][1..] == last && last[1..] == [];
    assert Bulks(last) == Bulk([]) + Bulks([]);
    assert Bulk([]) + [] == Bulk([]);
  }

  /** Writes the array head and then a name and an empty bulk string per name. */
  method WriteConfigGet(sink: Sink, names: seq<seq<byte>>)
    modifies sink
    ensures sink.bytes == old(sink.bytes) + ConfigReply(names)
  {
    hide TextLine, Bulk, Bulks, Digits, Pairs;
    WriteLine(sink, STAR, Digits(|names| * 2));
    ghost var head := sink.bytes;
    NoPairs();
    assert head + [] == head;
    for i := 0 to |names|
      invariant sink.bytes == head + Bulks(Pairs(names[..i]))
    {
      WriteBulk(sink, names[i]);
      WriteBulk(sink, []);
      PairsAppend(names, i);
    }
    assert names[..|names|] == names;
  }

  lemma NoPairs()
    ensures Bulks(Pairs([])) == []
  {
  }

  lemma PairsAppend(names: seq<seq<byte>>, i: nat)
    requires i < |names|
    ensures Bulks(Pairs(names[..i + 1])) == Bulks(Pairs(names[..i])) + Bulk(names[i]) + Bulk([])
  {
    hide Bulk, Bulks;
    assert names[..i + 1][..i] == names[..i];
    BulksConcat(Pairs(names[..i]), [names[i], []]);
    BulksOfPair(names[i]);
  }
}
