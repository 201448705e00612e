/**
 RESP2 commands: how a frame becomes a request, and that what a client sends is framed and
 decoded as the request it meant.
 */
module RespRequests {
  import opened Bytes
  import opened Text
  import opened Streams
  import opened RespFrames
  import opened RespParser
  import opened RespReplies
  import opened Protocol

  datatype RespRequest = Kv(request: Request) | ConfigGet(names: seq<seq<byte>>)

  const GET: seq<byte> := [71, 69, 84]
  const SET: seq<byte> := [83, 69, 84]
  const DEL: seq<byte> := [68, 69, 76]
  const CONFIG: seq<byte> := [67, 79, 78, 70, 73, 71]

  function Upper(b: byte): byte {
    if 97 <= b <= 122 then b - 32 else b
  }

  predicate SameIgnoringCase(a: seq<byte>, b: seq<byte>) {
    |a| == |b| && forall i :: 0 <= i < |a| ==> Upper(a[i]) == Upper(b[i])
  }

  /** The items of a command must all be bulk strings. */
  function Arguments(items: seq<RespValue>): (r: Resp<seq<seq<byte>>>)
    ensures r.Good? ==> |r.value| == |items| && forall i :: 0 <= i < |items| ==> items[i] == BulkString(Some(r.value[i]))
  {
    if items == [] then Good([])
    else if items[0].BulkString? && items[0].data.Some? then
      var others := Arguments(items[1..]);
      if others.Bad? then others else Good([items[0].data.value] + others.value)
    else Bad(ExpectedBulk)
  }

  /** A command name with its arguments. */
  function RequestOf(name: seq<byte>, args: seq<seq<byte>>): Resp<RespRequest> {
    if SameIgnoringCase(name, GET) then
      if |args| != 1 then Bad(WrongArity)
      else if !Utf8(args[0]) then Bad(NotUtf8)
      else Good(Kv(Get(args[0])))
    else if SameIgnoringCase(name, SET) then
      if |args| != 2 then Bad(WrongArity)
      else if !Utf8(args[0]) || !Utf8(args[1]) then Bad(NotUtf8)
      else Good(Kv(Set(args[0], args[1])))
    else if SameIgnoringCase(name, DEL) then
      if |args| != 1 then Bad(WrongArity)
      else if !Utf8(args[0]) then Bad(NotUtf8)
      else Good(Kv(Rm(args[0])))
    else if SameIgnoringCase(name, CONFIG) then
      if args != [] && SameIgnoringCase(args[0], GET) then Good(ConfigGet(args[1..])) else Bad(UnknownSubcommand)
    else Bad(UnknownCommand)
  }

  function DecodeCommand(frame: seq<byte>): Resp<RespRequest> {
    var value := ParseResp(frame);
    if value.Bad? then Bad(value.error)
    else if !value.value.Array? || value.value.items.None? || value.value.items.value == [] then Bad(ExpectedArray)
    else
      var args := Arguments(value.value.items.value);
      if args.Bad? then Bad(args.error) else RequestOf(args.value[0], args.value[1..])
  }

  // ---- what a client sends ----

  function Words(q: Request): seq<seq<byte>> {
    match q
    case Get(key) => [GET, key]
    case Set(key, value) => [SET, key, value]
    case Rm(key) => [DEL, key]
  }

  lemma LineHead(kind: byte, body: seq<byte>, rest: seq<byte>)
    requires OneLine(body) && kind != CR && kind != LF
    ensures var s := TextLine(kind, body) + rest;
            LineEnd(s) == |body| + 2 && s[|body| + 1] == CR && s[0] == kind && s[1..|body| + 1] == body
  {
    hide LineEnd;
    var s := TextLine(kind, body) + rest;
    assert forall i :: 1 <= i < |body| + 1 ==> s[i] == body[i - 1];
    assert s[0] == kind && s[|body| + 1] == CR && s[|body| + 2] == LF;
    LineEndIs(s, |body| + 2);
    assert s[1..|body| + 1] == body;
  }

  lemma BulkFramed(v: seq<byte>, rest: seq<byte>)
    requires |v| <= MAX_PAYLOAD
    ensures Bulk(v) + rest != [] && ReadHead(Bulk(v) + rest) == Good(Head(|Bulk(v)|, None))
  {
    hide LineEnd, Digits, Len, TextLine;
    var line := TextLine(DOLLAR, Digits(|v|));
    DigitsOneLine(|v|);
    LineHead(DOLLAR, Digits(|v|), v + CRLF + rest);
    LenOfDigits(|v|);
    var s := Bulk(v) + rest;
    assert s == line + (v + CRLF + rest);
    var n := |line| + |v|;
    assert s[n..n + 2] == CRLF;
  }

  lemma ArrayFramed(n: nat, rest: seq<byte>)
    requires n <= MAX_ARRAY_LEN
    ensures var line := TextLine(STAR, Digits(n));
            line + rest != [] && ReadHead(line + rest) == Good(Head(|line|, Some(n)))
  {
    hide LineEnd, Digits, Len, TextLine;
    DigitsOneLine(n);
    LineHead(STAR, Digits(n), rest);
    LenOfDigits(n);
  }

  lemma {:induction false} BulksFramed(vs: seq<seq<byte>>, rest: seq<byte>)
    requires forall i :: 0 <= i < |vs| ==> |vs[i]| <= MAX_PAYLOAD
    ensures FrameLen(Bulks(vs) + rest, |vs|) == Good(|Bulks(vs)|)
    decreases |vs|
  {
    hide FrameLen, ReadHead, Bulk;
    if vs == [] {
      FrameDone(Bulks(vs) + rest);
    } else {
      var tail := Bulks(vs[1..]) + rest;
      assert Bulks(vs) + rest == Bulk(vs[0]) + tail;
      BulkFramed(vs[0], tail);
      FrameStep(Bulk(vs[0]) + tail, |vs|);
      assert (Bulk(vs[0]) + tail)[|Bulk(vs[0])|..] == tail;
      BulksFramed(vs[1..], rest);
    }
  }

  /** The framer cuts a client's array of bulk strings out of the stream exactly. */
  lemma CommandFramed(vs: seq<seq<byte>>, rest: seq<byte>)
    requires |vs| <= MAX_ARRAY_LEN && forall i :: 0 <= i < |vs| ==> |vs[i]| <= MAX_PAYLOAD
    ensures FrameLen(BulkArray(vs) + rest, 1) == Good(|BulkArray(vs)|)
  {
    hide FrameLen, ReadHead, Bulks, Digits, TextLine;
    var line := TextLine(STAR, Digits(|vs|));
    var s := BulkArray(vs) + rest;
    assert s == line + (Bulks(vs) + rest);
    ArrayFramed(|vs|, Bulks(vs) + rest);
    FrameStep(s, 1);
    assert s[|line|..] == Bulks(vs) + rest;
    BulksFramed(vs, rest);
  }

  lemma {:induction false} ArgumentsOfBulks(vs: seq<seq<byte>>)
    ensures Arguments(BulkValues(vs)) == Good(vs)
  {
    if vs != [] {
      ArgumentsOfBulks(vs[1..]);
      assert BulkValues(vs)[1..] == BulkValues(vs[1..]);
      assert [vs[0]] + vs[1..] == vs;
    }
  }

  lemma {:induction false} BulkValuesCount(vs: seq<seq<byte>>)
    ensures |BulkValues(vs)| == |vs|
  {
    if vs != [] {
      BulkValuesCount(vs[1..]);
    }
  }

  lemma CommandDecodes(vs: seq<seq<byte>>)
    requires vs != [] && ShortAll(vs) && |vs| < TEN_DIGITS
    ensures DecodeCommand(BulkArray(vs)) == RequestOf(vs[0], vs[1..])
  {
    hide ParseValue, BulkArray, BulkValues, RequestOf, Arguments;
    BulkArrayParses(vs, []);
    assert BulkArray(vs) + [] == BulkArray(vs);
    ArgumentsOfBulks(vs);
    BulkValuesCount(vs);
  }

  lemma WordsDecode(q: Request)
    requires IsText(q)
    ensures RequestOf(Words(q)[0], Words(q)[1..]) == Good(Kv(q))
  {
    hide Utf8;
    var name, args := Words(q)[0], Words(q)[1..];
    match q {
      case Get(_) => assert !SameIgnoringCase(name, CONFIG);
      case Set(_, _) => assert Upper(name[0]) != Upper(GET[0]);
      case Rm(_) => assert Upper(name[0]) != Upper(GET[0]) && Upper(name[0]) != Upper(SET[0]);
    }
  }

  /** A request sent as a RESP command is framed and decoded to itself, whatever follows it. */
  lemma CommandRoundTrip(q: Request, rest: seq<byte>)
    requires IsText(q) && |q.key| <= MAX_PAYLOAD && (q.Set? ==> |q.value| <= MAX_PAYLOAD)
    ensures var wire := BulkArray(Words(q));
            FrameLen(wire + rest, 1) == Good(|wire|) && DecodeCommand(wire) == Good(Kv(q))
  {
    hide FrameLen, DecodeCommand, BulkArray, RequestOf, Utf8;
    CommandFramed(Words(q), rest);
    CommandDecodes(Words(q));
    WordsDecode(q);
  }

  // ---- sizes ----

  /** No bulk string that got past the framer is longer than the payload limit. */
  ghost predicate Bounded(v: RespValue) {
    v.BulkString? && v.data.Some? ==> |v.data.value| <= MAX_PAYLOAD
  }

  lemma ValueBounded(s: seq<byte>, depth: nat)
    requires ValueLen(s).Some? && ParseValue(s, depth).Good?
    ensures Bounded(ParseValue(s, depth).value.value)
    ensures ParseValue(s, depth).value.value.Array? && ParseValue(s, depth).value.value.items.Some? ==>
              && |ParseValue(s, depth).value.value.items.value| <= MAX_ARRAY_LEN
              && var h := ReadHead(s).value;
                 && h.size <= |s| && ValuesLen(s[h.size..], h.More()).Some?
                 && ParseItems(s[h.size..], h.More(), depth + 1).Good?
                 && ParseItems(s[h.size..], h.More(), depth + 1).value.items == ParseValue(s, depth).value.value.items.value
  {
    hide ValueLen, ValuesLen, LineEnd, FindCrlf, Len, Int64, ParseItems;
    ValueParts(s);
    SameLine(s);
  }

  lemma {:induction false} ItemsBounded(s: seq<byte>, k: nat, depth: nat)
    requires ValuesLen(s, k).Some? && ParseItems(s, k, depth).Good?
    ensures var items := ParseItems(s, k, depth).value.items;
            forall i :: 0 <= i < |items| ==> Bounded(items[i])
    decreases k
  {
    hide ValueLen, ValuesLen, ParseValue, ParseItems, Bounded;
    if k == 0 {
      NoItems(s, depth);
    } else {
      RowHead(s, k);
      ItemsStep(s, k, depth);
      ParserAgrees(s, depth);
      ValueBounded(s, depth);
      ItemsBounded(s[ValueLen(s).value..], k - 1, depth);
    }
  }

  /** The words of a decoded request or CONFIG GET are within the limits. */
  ghost predicate Limited(q: RespRequest) {
    match q
    case Kv(r) => |r.key| <= MAX_PAYLOAD && (r.Set? ==> |r.value| <= MAX_PAYLOAD)
    case ConfigGet(names) => |names| <= MAX_ARRAY_LEN && forall i :: 0 <= i < |names| ==> |names[i]| <= MAX_PAYLOAD
  }

  lemma RequestLimited(name: seq<byte>, args: seq<seq<byte>>)
    requires |args| <= MAX_ARRAY_LEN && forall i :: 0 <= i < |args| ==> |args[i]| <= MAX_PAYLOAD
    ensures RequestOf(name, args).Good? ==> Limited(RequestOf(name, args).value)
  {
    hide Utf8, SameIgnoringCase;
  }

  lemma CommandLimited(frame: seq<byte>)
    requires ValueLen(frame).Some? && DecodeCommand(frame).Good?
    ensures Limited(DecodeCommand(frame).value)
  {
    hide ParseValue, ValueLen, RequestOf, Limited, Arguments, ParseItems, ReadHead, ValuesLen;
    var items := ParseResp(frame).value.items.value;
    ValueBounded(frame, 0);
    ValueParts(frame);
    var h := ReadHead(frame).value;
    ItemsBounded(frame[h.size..], h.More(), 1);
    var args := Arguments(items).value;
    forall i | 0 <= i < |args| - 1 ensures |args[1..][i]| <= MAX_PAYLOAD {
      assert Bounded(items[i + 1]);
    }
    RequestLimited(args[0], args[1..]);
  }

  // ---- commands by name ----

  /** `name` is the upper-case ASCII `word`, in any mixture of cases. */
  ghost predicate Spells(name: seq<byte>, word: seq<byte>) {
    |name| == |word| && forall i :: 0 <= i < |word| ==> name[i] == word[i] || name[i] == word[i] + 32
  }

  /** One of the four words the server knows. */
  ghost predicate IsCommandWord(name: seq<byte>) {
    || Spells(name, [71, 69, 84]) || Spells(name, [83, 69, 84]) || Spells(name, [68, 69, 76])
    || Spells(name, [67, 79, 78, 70, 73, 71])
  }

  lemma UpperIs(b: byte, u: byte)
    requires 65 <= u <= 90
    ensures Upper(b) == Upper(u) <==> b == u || b == u + 32
  {
  }

  lemma SpellsIs(name: seq<byte>, word: seq<byte>)
    requires forall i :: 0 <= i < |word| ==> 65 <= word[i] <= 90
    ensures SameIgnoringCase(name, word) <==> Spells(name, word)
  {
    hide Upper;
    if |name| == |word| {
      forall i | 0 <= i < |word| ensures Upper(name[i]) == Upper(word[i]) <==> name[i] == word[i] || name[i] == word[i] + 32 {
        UpperIs(name[i], word[i]);
      }
    }
  }

  /** The command words in ASCII. */
  lemma WordsAre(name: seq<byte>)
    ensures SameIgnoringCase(name, GET) <==> Spells(name, [71, 69, 84])
    ensures SameIgnoringCase(name, SET) <==> Spells(name, [83, 69, 84])
    ensures SameIgnoringCase(name, DEL) <==> Spells(name, [68, 69, 76])
    ensures SameIgnoringCase(name, CONFIG) <==> Spells(name, [67, 79, 78, 70, 73, 71])
  {
    hide SameIgnoringCase, Spells;
    SpellsIs(name, [71, 69, 84]);
    SpellsIs(name, [83, 69, 84]);
    SpellsIs(name, [68, 69, 76]);
    SpellsIs(name, [67, 79, 78, 70, 73, 71]);
  }

  /** No name spells two of the words. */
  lemma OneWord(name: seq<byte>)
    ensures Spells(name, [71, 69, 84]) ==> !Spells(name, [83, 69, 84]) && !Spells(name, [68, 69, 76])
    ensures Spells(name, [83, 69, 84]) ==> !Spells(name, [68, 69, 76])
    ensures Spells(name, [67, 79, 78, 70, 73, 71]) ==> |name| == 6
    ensures Spells(name, [71, 69, 84]) || Spells(name, [83, 69, 84]) || Spells(name, [68, 69, 76]) ==> |name| == 3
  {
    if |name| == 3 && Spells(name, [71, 69, 84]) {
      assert name[0] == 71 || name[0] == 103;
    }
    if |name| == 3 && Spells(name, [83, 69, 84]) {
      assert name[0] == 83 || name[0] == 115;
    }
    if |name| == 3 && Spells(name, [68, 69, 76]) {
      assert name[0] == 68 || name[0] == 100;
    }
  }

  ghost predicate AllText(args: seq<seq<byte>>) {
    forall i :: 0 <= i < |args| ==> Utf8(args[i])
  }

  /**
   Any array of bulk strings a client can send, by its first word in any mixture of cases:
   "get" and "del" take one text argument, "set" two, "config" a "get" and any names; a
   wrong count, an argument that is not text, another subcommand and another word are
   refused, each with its own error.
   */
  lemma CommandsExactly(name: seq<byte>, args: seq<seq<byte>>)
    requires ShortAll([name] + args) && 1 + |args| < TEN_DIGITS
    ensures var r := DecodeCommand(BulkArray([name] + args));
            && (Spells(name, [71, 69, 84]) ==>
                  r == if |args| != 1 then Bad(WrongArity) else if !AllText(args) then Bad(NotUtf8) else Good(Kv(Get(args[0]))))
            && (Spells(name, [83, 69, 84]) ==>
                  r == if |args| != 2 then Bad(WrongArity) else if !AllText(args) then Bad(NotUtf8) else Good(Kv(Set(args[0], args[1]))))
            && (Spells(name, [68, 69, 76]) ==>
                  r == if |args| != 1 then Bad(WrongArity) else if !AllText(args) then Bad(NotUtf8) else Good(Kv(Rm(args[0]))))
            && (Spells(name, [67, 79, 78, 70, 73, 71]) ==>
                  r == if args != [] && Spells(args[0], [71, 69, 84]) then Good(ConfigGet(args[1..])) else Bad(UnknownSubcommand))
            && (!IsCommandWord(name) ==> r == Bad(UnknownCommand))
  {
    hide DecodeCommand, BulkArray, Utf8, SameIgnoringCase, Spells;
    var vs := [name] + args;
    assert vs[0] == name && vs[1..] == args;
    CommandDecodes(vs);
    WordsAre(name);
    OneWord(name);
    if args != [] {
      WordsAre(args[0]);
    }
  }

  /** What is not a non-empty array of bulk strings is no command. */
  lemma NotACommand(frame: seq<byte>)
    requires ParseResp(frame).Good?
    ensures var v := ParseResp(frame).value;
            && (!v.Array? || v.items.None? || v.items.value == [] ==> DecodeCommand(frame) == Bad(ExpectedArray))
            && (v.Array? && v.items.Some? && (exists i :: 0 <= i < |v.items.value| && !(v.items.value[i].BulkString? && v.items.value[i].data.Some?)) ==>
                  DecodeCommand(frame) == Bad(ExpectedBulk))
  {
    hide ParseResp, RequestOf;
    var v := ParseResp(frame).value;
    if v.Array? && v.items.Some? {
      ArgumentErrors(v.items.value);
    }
  }

  lemma {:induction false} ArgumentErrors(items: seq<RespValue>)
    ensures Arguments(items).Bad? ==> Arguments(items) == Bad(ExpectedBulk)
  {
    if items != [] {
      ArgumentErrors(items[1..]);
    }
  }

  /** Lines of the three simple kinds and the two nulls are whole frames. */
  lemma LinesFramed(kind: byte, body: seq<byte>, rest: seq<byte>)
    requires OneLine(body)
    requires kind == 43 || kind == 45 || kind == 58 || ((kind == 36 || kind == 42) && body == [45, 49])
    ensures FrameLen([kind] + body + [13, 10] + rest, 1) == Good(|body| + 3)
  {
    hide FrameLen, LineEnd, TextLine;
    var s := TextLine(kind, body) + rest;
    LineBytes(kind, body);
    LineHead(kind, body, rest);
    assert s != [];
    FrameStep(s, 1);
    assert ReadHead(s) == Good(Head(|body| + 3, None));
    FrameDone(s[|body| + 3..]);
  }

  /** A length beyond its limit is refused by the line alone, whatever follows. */
  lemma OversizedRefused(n: nat, rest: seq<byte>)
    requires n < TEN_DIGITS
    ensures n > 16 * 1024 * 1024 ==> FrameLen([36] + Digits(n) + [13, 10] + rest, 1) == Bad(BulkTooLarge)
    ensures n > 1024 * 1024 ==> FrameLen([42] + Digits(n) + [13, 10] + rest, 1) == Bad(ArrayTooLarge)
  {
    hide FrameLen, LineEnd, TextLine, Digits, Len;
    DigitsOneLine(n);
    LenOfDigits(n);
    LineBytes(36, Digits(n));
    LineBytes(42, Digits(n));
    LineHead(36, Digits(n), rest);
    LineHead(42, Digits(n), rest);
    FrameStep(TextLine(36, Digits(n)) + rest, 1);
    FrameStep(TextLine(42, Digits(n)) + rest, 1);
  }
}
