/**
 Log records: `Set` and `Rm` commands and their encoding.
 */
module Commands {
  import opened Bytes
  import opened Framing
  import Crc32

  datatype Command =
    | Set(ts: nat, key: seq<byte>, value: seq<byte>)
    | Rm(ts: nat, key: seq<byte>)

  const TYPE_SET: byte := 0
  const TYPE_RM: byte := 1

  function EncodedBodyLen(c: Command): nat {
    match c
    case Set(_, key, value) => 8 + 1 + 4 + |key| + 4 + |value|
    case Rm(_, key) => 8 + 1 + 4 + |key|
  }

  /** Bytes of the whole record in the log. */
  function RecordLen(c: Command): nat {
    HEADER_LEN + EncodedBodyLen(c)
  }

  /** The timestamp is a `u64` and the body's length fits its `u32` field. */
  predicate Encodable(c: Command) {
    c.ts < U64_END && EncodedBodyLen(c) < U32_END
  }

  /** The body behind the timestamp. */
  function Payload(c: Command): seq<byte> {
    match c
    case Set(_, key, value) => [TYPE_SET] + (Blob(key) + Blob(value))
    case Rm(_, key) => [TYPE_RM] + Blob(key)
  }

  function Body(c: Command): (b: seq<byte>)
    ensures |b| == EncodedBodyLen(c)
  {
    U64(c.ts) + Payload(c)
  }

  function Encode(c: Command): (r: seq<byte>)
    ensures |r| == RecordLen(c)
  {
    Frame(Body(c))
  }

  /** The fields from `cursor` on; like the decoder it may read up to the end of `buf`. */
  function ParseBody(buf: seq<byte>, cursor: nat): Result<(Command, nat)> {
    var (ts, c1) :- TakeLe(buf, cursor, 8);
    var (kind, c2) :- TakeByte(buf, c1);
    if kind == TYPE_SET then
      var (key, c3) :- TakeBlob(buf, c2);
      var (value, c4) :- TakeBlob(buf, c3);
      Ok((Set(ts, key, value), c4))
    else if kind == TYPE_RM then
      var (key, c3) :- TakeBlob(buf, c2);
      Ok((Rm(ts, key), c3))
    else Err(UnexpectedCommandType)
  }

  /** The command at the start of `buf` and the length of its record. */
  function Decode(buf: seq<byte>): Result<(Command, nat)> {
    var end :- CheckFrame(buf);
    var (command, cursor) :- ParseBody(buf, HEADER_LEN);
    if cursor != end then Err(Corruption) else Ok((command, end))
  }

  // ---- the code's own shape ----

  /** Appends a length field and the bytes it counts. */
  method AppendBlob(buf: seq<byte>, s: seq<byte>) returns (out: seq<byte>)
    ensures out == buf + Blob(s)
  {
    hide FromLe, ToLe;
    out := buf + U32(|s|);
    out := out + s;
  }

  lemma Regrouped(a: seq<byte>, b: seq<byte>, c: seq<byte>, d: seq<byte>, e: seq<byte>)
    ensures a + b + c + d + e == a + (b + (c + (d + e)))
  {
  }

  /** `write_body`: appends the fields to the buffer. */
  method WriteBody(c: Command, buf: seq<byte>) returns (out: seq<byte>)
    ensures out == buf + Body(c)
  {
    hide FromLe, ToLe, U64, Blob;
    out := buf + U64(c.ts);
    match c {
      case Set(_, key, value) =>
        out := out + [TYPE_SET];
        out := AppendBlob(out, key);
        out := AppendBlob(out, value);
        Regrouped(buf, U64(c.ts), [TYPE_SET], Blob(key), Blob(value));
      case Rm(_, key) =>
        out := out + [TYPE_RM];
        out := AppendBlob(out, key);
        Regrouped(buf, U64(c.ts), [TYPE_RM], Blob(key), []);
        assert Blob(key) + [] == Blob(key);
    }
  }

  /** Fills the buffer behind a crc placeholder, then writes the crc over the placeholder. */
  method Serialize(c: Command) returns (buf: seq<byte>)
    ensures buf == Encode(c)
  {
    hide FromLe, ToLe, Crc32.Hash;
    var placeholder: seq<byte> := [0, 0, 0, 0];
    buf := placeholder + U32(EncodedBodyLen(c));
    buf := WriteBody(c, buf);
    DropFirst(placeholder, U32(|Body(c)|), Body(c));
    buf := Backfill(buf);
  }

  /** Reads field by field with a moving cursor. */
  method Deserialize(buf: seq<byte>) returns (r: Result<(Command, nat)>)
    ensures r == Decode(buf)
  {
    hide FromLe, ToLe, Crc32.Hash;
    var cursor := new Cursor();
    var storedCrc := cursor.ReadLe(buf, 4);
    if storedCrc.Err? { return Err(storedCrc.error); }
    var bodyLen := cursor.ReadLe(buf, 4);
    if bodyLen.Err? { return Err(bodyLen.error); }
    if |buf| < HEADER_LEN + bodyLen.value {
      return Err(UnexpectedEof);
    }
    var commandEnd := HEADER_LEN + bodyLen.value;
    var actualCrc := Crc32.ComputeHash(buf[CRC_LEN..commandEnd]);
    if actualCrc != storedCrc.value {
      return Err(Corruption);
    }
    assert CheckFrame(buf) == Ok(commandEnd);

    var body := DeserializeBody(buf, cursor);
    if body.Err? { return Err(body.error); }
    if cursor.pos != commandEnd {
      return Err(Corruption);
    }
    return Ok((body.value, commandEnd));
  }

  method DeserializeBody(buf: seq<byte>, cursor: Cursor) returns (r: Result<Command>)
    modifies cursor
    ensures r.Ok? ==> ParseBody(buf, old(cursor.pos)) == Ok((r.value, cursor.pos))
    ensures r.Err? ==> ParseBody(buf, old(cursor.pos)) == Err(r.error)
  {
    hide FromLe, ToLe, Crc32.Hash;
    var ts := cursor.ReadLe(buf, 8);
    if ts.Err? { return Err(ts.error); }
    var kind := cursor.ReadU8(buf);
    if kind.Err? { return Err(kind.error); }
    if kind.value == TYPE_SET {
      var keyLen := cursor.ReadLe(buf, 4);
      if keyLen.Err? { return Err(keyLen.error); }
      var key := cursor.ReadBytes(buf, keyLen.value);
      if key.Err? { return Err(key.error); }
      var valueLen := cursor.ReadLe(buf, 4);
      if valueLen.Err? { return Err(valueLen.error); }
      var value := cursor.ReadBytes(buf, valueLen.value);
      if value.Err? { return Err(value.error); }
      return Ok(Set(ts.value, key.value, value.value));
    } else if kind.value == TYPE_RM {
      var keyLen := cursor.ReadLe(buf, 4);
      if keyLen.Err? { return Err(keyLen.error); }
      var key := cursor.ReadBytes(buf, keyLen.value);
      if key.Err? { return Err(key.error); }
      return Ok(Rm(ts.value, key.value));
    } else {
      return Err(UnexpectedCommandType);
    }
  }

  // ---- the encoding is canonical, both ways ----

  function TypeByte(c: Command): byte {
    if c.Set? then TYPE_SET else TYPE_RM
  }

  /** The fields of `c` sit in `buf` from `p` on, one behind the other. */
  ghost predicate FieldsAt(buf: seq<byte>, p: nat, c: Command) {
    && HasAt(buf, p, U64(c.ts)) && HasAt(buf, p + 8, [TypeByte(c)])
    && HasAt(buf, p + 9, Blob(c.key))
    && (c.Set? ==> HasAt(buf, p + 13 + |c.key|, Blob(c.value)))
  }

  lemma BodyFields(buf: seq<byte>, p: nat, c: Command)
    requires HasAt(buf, p, Body(c))
    ensures FieldsAt(buf, p, c)
  {
    hide FromLe, ToLe;
    HasAtSplit(buf, p, U64(c.ts), Payload(c));
    if c.Set? {
      HasAtSplit(buf, p + 8, [TYPE_SET], Blob(c.key) + Blob(c.value));
      HasAtSplit(buf, p + 9, Blob(c.key), Blob(c.value));
    } else {
      HasAtSplit(buf, p + 8, [TYPE_RM], Blob(c.key));
    }
  }

  lemma FieldsBody(buf: seq<byte>, p: nat, c: Command)
    requires FieldsAt(buf, p, c)
    ensures HasAt(buf, p, Body(c))
  {
    hide FromLe, ToLe;
    if c.Set? {
      HasAtJoin(buf, p + 9, Blob(c.key), Blob(c.value));
      HasAtJoin(buf, p + 8, [TYPE_SET], Blob(c.key) + Blob(c.value));
    } else {
      HasAtJoin(buf, p + 8, [TYPE_RM], Blob(c.key));
    }
    HasAtJoin(buf, p, U64(c.ts), Payload(c));
  }

  /** Parsing where the fields sit gives their command and the end of the body. */
  lemma ParseFields(buf: seq<byte>, p: nat, c: Command)
    requires Encodable(c) && FieldsAt(buf, p, c) && p <= U32_END
    ensures ParseBody(buf, p) == Ok((c, p + EncodedBodyLen(c)))
  {
    hide FromLe, ToLe;
    TakeLeAt(buf, p, U64(c.ts));
    TakeByteAt(buf, p + 8, TypeByte(c));
    TakeBlobAt(buf, p + 9, c.key);
    if c.Set? {
      TakeBlobAt(buf, p + 13 + |c.key|, c.value);
    }
  }

  lemma ParseAny(buf: seq<byte>, p: nat, c: Command)
    requires Encodable(c) && HasAt(buf, p, Body(c)) && p <= U32_END
    ensures ParseBody(buf, p) == Ok((c, p + EncodedBodyLen(c)))
  {
    hide FromLe, ToLe;
    BodyFields(buf, p, c);
    ParseFields(buf, p, c);
  }

  /** Decoding gives the command that was encoded and its exact length, whatever follows. */
  lemma DecodeEncode(c: Command, rest: seq<byte>)
    requires Encodable(c)
    ensures Decode(Encode(c) + rest) == Ok((c, RecordLen(c)))
  {
    hide FromLe, ToLe, Crc32.Hash;
    var r := Encode(c);
    FrameChecks(Body(c), rest);
    FrameParts(Body(c), rest);
    ParseAny(r + rest, HEADER_LEN, c);
  }

  /** What the parser accepts are the fields of its result. */
  lemma ParsedFields(buf: seq<byte>, p: nat)
    requires ParseBody(buf, p).Ok?
    ensures var (c, end) := ParseBody(buf, p).value;
            FieldsAt(buf, p, c) && end == p + EncodedBodyLen(c) && c.ts < U64_END
  {
    hide FromLe, ToLe;
    var (c, end) := ParseBody(buf, p).value;
    TakenU64(buf, p);
    TakenBlob(buf, p + 9);
    if c.Set? {
      TakenBlob(buf, p + 13 + |c.key|);
    }
  }

  /** Any accepted buffer starts with exactly the encoding of the decoded command. */
  lemma DecodeCanonical(buf: seq<byte>)
    requires Decode(buf).Ok?
    ensures var (c, n) := Decode(buf).value;
            Encodable(c) && n == RecordLen(c) <= |buf| && buf[..n] == Encode(c)
  {
    hide FromLe, ToLe, Crc32.Hash;
    CheckedIsFrame(buf);
    ParsedFields(buf, HEADER_LEN);
    FieldsBody(buf, HEADER_LEN, Decode(buf).value.0);
  }

  /** No record is a prefix of a longer read: a cut record is an early end, not corruption. */
  lemma DecodeTruncated(c: Command, n: nat)
    requires Encodable(c) && n < RecordLen(c)
    ensures Decode(Encode(c)[..n]) == Err(UnexpectedEof)
  {
    hide FromLe, ToLe, Crc32.Hash;
    TruncatedFrame(Body(c), n);
  }

  /** Any damage confined to four consecutive bytes of a record makes decoding fail. */
  lemma DecodeDamaged(c: Command, bad: seq<byte>, at: nat)
    requires Encodable(c) && DiffersWithin(Encode(c), bad, at)
    ensures Decode(bad).Err?
  {
    hide FromLe, ToLe, Crc32.Hash;
    if CheckFrame(bad).Ok? {
      DamagedFrame(Body(c), bad, at);
      // `body_len` shrank and only bytes below 11 changed, so the parse still ends at the old end
      var c' := WithFoundTimestamp(c, bad);
      ParseAny(bad, HEADER_LEN, c');
    }
  }

  /** A record changed only below byte 11 still has the payload of `c` behind some timestamp. */
  lemma WithFoundTimestamp(c: Command, bad: seq<byte>) returns (c': Command)
    requires |bad| == RecordLen(c) && c.ts < U64_END
    requires forall j :: 11 <= j < |bad| ==> bad[j] == Encode(c)[j]
    ensures Payload(c') == Payload(c) && c'.ts < U64_END && EncodedBodyLen(c') == EncodedBodyLen(c)
    ensures HasAt(bad, HEADER_LEN, Body(c'))
  {
    hide FromLe, ToLe, Crc32.Hash;
    FrameHolds(Body(c));
    HasAtSplit(Encode(c), 8, U64(c.ts), Payload(c));
    HasAtSame(Encode(c), bad, 16, Payload(c));
    U64OfField(bad[8..16]);
    c' := c.(ts := FromLe(bad[8..16]));
    HasAtJoin(bad, 8, U64(c'.ts), Payload(c));
  }

  /** Cutting everything but the last `|value|` bytes off a record leaves its value. */
  lemma ValueIsSuffix(buf: seq<byte>)
    requires Decode(buf).Ok? && Decode(buf).value.0.Set? && Decode(buf).value.1 == |buf|
    ensures var v := Decode(buf).value.0.value;
            |v| <= |buf| && buf[|buf| - |v|..] == v
  {
    hide FromLe, ToLe, Crc32.Hash;
    DecodeCanonical(buf);
    var c := Decode(buf).value.0;
    assert buf[..|buf|] == buf;
    FrameHolds(Body(c));
    BodyFields(buf, HEADER_LEN, c);
    HasAtSplit(buf, 21 + |c.key|, U32(|c.value|), c.value);
  }

  /** Exactly the commands whose fields fit survive the round trip; longer lengths are truncated. */
  lemma RoundTripExactly(c: Command, rest: seq<byte>)
    ensures Decode(Encode(c) + rest) == Ok((c, RecordLen(c))) <==> Encodable(c)
  {
    hide FromLe, ToLe, Crc32.Hash, Decode, Encode;
    if Encodable(c) {
      DecodeEncode(c, rest);
    } else if Decode(Encode(c) + rest).Ok? {
      DecodeCanonical(Encode(c) + rest);
    }
  }

  // ---- early end or corruption ----

  /** The buffer ends before the record its header announces does. */
  predicate Incomplete(buf: seq<byte>) {
    |buf| < HEADER_LEN || |buf| < HEADER_LEN + FromLe(buf[4..8])
  }

  predicate ChecksumMatches(buf: seq<byte>)
    requires !Incomplete(buf)
  {
    Crc32.Hash(buf[CRC_LEN..HEADER_LEN + FromLe(buf[4..8])]) == FromLe(buf[0..4])
  }

  /** A length-prefixed field at `p` runs past the end of the buffer. */
  predicate BlobRunsPast(buf: seq<byte>, p: nat) {
    |buf| < p + 4 || |buf| < p + 4 + FromLe(buf[p..p + 4])
  }

  /** The fields of the body, by their own lengths, run past the end of the buffer. */
  predicate FieldsRunPast(buf: seq<byte>) {
    || |buf| < 17
    || (buf[16] == TYPE_RM && BlobRunsPast(buf, 17))
    || (buf[16] == TYPE_SET && (BlobRunsPast(buf, 17) || BlobRunsPast(buf, 21 + FromLe(buf[17..21]))))
  }

  /** Where the fields end. */
  function FieldsEnd(buf: seq<byte>): nat
    requires !FieldsRunPast(buf) && buf[16] in [TYPE_SET, TYPE_RM]
  {
    var key := FromLe(buf[17..21]);
    if buf[16] == TYPE_RM then 21 + key else 25 + key + FromLe(buf[21 + key..25 + key])
  }

  lemma BlobAt(buf: seq<byte>, p: nat)
    requires p <= |buf| < SLICE_END
    ensures BlobRunsPast(buf, p) <==> TakeBlob(buf, p) == Err(UnexpectedEof)
    ensures !BlobRunsPast(buf, p) ==> TakeBlob(buf, p).Ok? && TakeBlob(buf, p).value.1 == p + 4 + FromLe(buf[p..p + 4])
  {
    hide FromLe, ToLe;
    if |buf| >= p + 4 {
      Pow256Values();
      FieldBound(buf[p..p + 4]);
    }
  }

  lemma FieldBound(field: seq<byte>)
    requires |field| == 4
    ensures FromLe(field) < U32_END
  {
    Pow256Values();
  }

  /** How the body's fields parse, by kind and lengths alone. */
  lemma ParseErrors(buf: seq<byte>)
    requires HEADER_LEN <= |buf| < SLICE_END
    ensures ParseBody(buf, HEADER_LEN) == Err(UnexpectedEof) <==> FieldsRunPast(buf)
    ensures !FieldsRunPast(buf) && buf[16] !in [TYPE_SET, TYPE_RM] ==> ParseBody(buf, HEADER_LEN) == Err(UnexpectedCommandType)
    ensures !FieldsRunPast(buf) && buf[16] in [TYPE_SET, TYPE_RM] ==>
              ParseBody(buf, HEADER_LEN).Ok? && ParseBody(buf, HEADER_LEN).value.1 == FieldsEnd(buf)
  {
    hide FromLe, ToLe, TakeBlob, BlobRunsPast;
    if |buf| >= 17 {
      BlobAt(buf, 17);
      BlobFits(buf, 17);
      if !BlobRunsPast(buf, 17) {
        BlobAt(buf, 21 + FromLe(buf[17..21]));
        BlobFits(buf, 21 + FromLe(buf[17..21]));
      }
    }
  }

  lemma BlobFits(buf: seq<byte>, p: nat)
    ensures !BlobRunsPast(buf, p) ==> p + 4 <= |buf| && p + 4 + FromLe(buf[p..p + 4]) <= |buf|
  {
  }

  lemma FrameErrors(buf: seq<byte>)
    requires |buf| < SLICE_END
    ensures Incomplete(buf) ==> CheckFrame(buf) == Err(UnexpectedEof)
    ensures !Incomplete(buf) ==>
              CheckFrame(buf) == if ChecksumMatches(buf) then Ok(HEADER_LEN + FromLe(buf[4..8])) else Err(Corruption)
  {
    hide FromLe, ToLe, Crc32.Hash;
  }

  /**
   Decoding reports an early end exactly if the record is incomplete or if, under a matching
   checksum, its fields run past the buffer; and corruption exactly if a complete record has
   a wrong checksum or fields that do not end where it does.
   */
  lemma DecodeErrors(buf: seq<byte>)
    requires |buf| < SLICE_END
    ensures Decode(buf) == Err(UnexpectedEof) <==> Incomplete(buf) || (ChecksumMatches(buf) && FieldsRunPast(buf))
    ensures Decode(buf) == Err(Corruption) <==>
              && !Incomplete(buf)
              && (!ChecksumMatches(buf)
                  || (!FieldsRunPast(buf) && buf[16] in [TYPE_SET, TYPE_RM] && FieldsEnd(buf) != HEADER_LEN + FromLe(buf[4..8])))
    ensures Decode(buf) == Err(UnexpectedCommandType) <==>
              !Incomplete(buf) && ChecksumMatches(buf) && !FieldsRunPast(buf) && buf[16] !in [TYPE_SET, TYPE_RM]
  {
    hide FromLe, ToLe, CheckFrame, ParseBody, ChecksumMatches, FieldsRunPast, FieldsEnd;
    FrameErrors(buf);
    if |buf| >= HEADER_LEN {
      ParseErrors(buf);
      KindThere(buf);
    }
  }

  lemma KindThere(buf: seq<byte>)
    ensures !FieldsRunPast(buf) ==> |buf| >= 17
  {
    hide FromLe;
  }

  /**
   The documented reading, an early end if and only if the record is incomplete, holds of a
   buffer exactly unless it is complete with a matching checksum and its fields run past it.
   */
  lemma EarlyEndMeansIncomplete(buf: seq<byte>)
    requires |buf| < SLICE_END
    ensures (Decode(buf) == Err(UnexpectedEof) <==> Incomplete(buf))
            <==> Incomplete(buf) || !ChecksumMatches(buf) || !FieldsRunPast(buf)
  {
    hide Decode, ChecksumMatches, FieldsRunPast, FromLe;
    DecodeErrors(buf);
  }

  /** A set whose key length says one byte more than there is, correctly framed. */
  const OVERLONG: seq<byte> := U64(0) + [TYPE_SET] + U32(1)

  /** It is complete and its checksum matches, and still it reads as an early end. */
  lemma CompleteButEarlyEnd()
    ensures !Incomplete(Frame(OVERLONG)) && ChecksumMatches(Frame(OVERLONG))
    ensures Decode(Frame(OVERLONG)) == Err(UnexpectedEof)
  {
    hide FromLe, ToLe, Crc32.Hash;
    var buf := Frame(OVERLONG);
    FrameParts(OVERLONG, []);
    FrameChecks(OVERLONG, []);
    assert buf + [] == buf;
    FrameErrors(buf);
    assert buf[16] == OVERLONG[8] == TYPE_SET;
    assert buf[17..21] == OVERLONG[9..13] == U32(1);
    assert FieldsRunPast(buf);
    DecodeErrors(buf);
  }

  // ---- the bytes of a record ----

  /**
   The documented layout, byte for byte: checksum, body length, timestamp, type 0 or 1, key
   length, key, and for a set value length and value, all numbers little-endian.
   */
  lemma RecordLayout(c: Command)
    ensures var r, k := Encode(c), |c.key|;
            && IsLe(r[0..4], Crc32.Checksum(r[4..]) as int) && IsLe(r[4..8], |r| - 8)
            && IsLe(r[8..16], c.ts) && r[16] == (if c.Set? then 0 else 1)
            && IsLe(r[17..21], k) && r[21..21 + k] == c.key
            && (c.Set? ==> IsLe(r[21 + k..25 + k], |c.value|) && r[25 + k..] == c.value)
            && (c.Rm? ==> |r| == 21 + k)
  {
    hide FromLe, ToLe, Crc32.Hash, Crc32.Checksum, Frame, IsLe, Blob, U64, U32, Body;
    var r, k := Encode(c), |c.key|;
    FrameLayout(Body(c));
    FrameHolds(Body(c));
    BodyFields(r, HEADER_LEN, c);
    FieldDigits(c.ts);
    BlobLayout(r, 17, c.key);
    assert r[16] == r[16..17][0];
    if c.Set? {
      BlobLayout(r, 21 + k, c.value);
      assert r[25 + k..] == r[25 + k..25 + k + |c.value|];
    }
  }
}
