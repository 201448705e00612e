/**
 Keydir entries and the hint records that carry them:
 `[u32 crc][u32 body_len][u32 key_len][key][u64 ts][u64 offset][u64 len]`.
 A hint does not carry the file id; it comes from the hint file's name.
 */
module Hints {
  import opened Bytes
  import opened Framing
  import Crc32

  datatype IndexValue = IndexValue(fileId: nat, ts: nat, offset: nat, len: nat)

  predicate Encodable(key: seq<byte>, v: IndexValue) {
    && 4 + |key| + 24 < U32_END
    && v.ts < U64_END && v.offset < U64_END && v.len < U64_END
  }

  function Numbers(v: IndexValue): (s: seq<byte>)
    ensures |s| == 24
  {
    U64(v.ts) + (U64(v.offset) + U64(v.len))
  }

  function Body(key: seq<byte>, v: IndexValue): (b: seq<byte>)
    ensures |b| == 4 + |key| + 24
  {
    Blob(key) + Numbers(v)
  }

  function Encode(key: seq<byte>, v: IndexValue): (r: seq<byte>)
    ensures |r| == HEADER_LEN + 4 + |key| + 24
  {
    Frame(Body(key, v))
  }

  function ParseBody(buf: seq<byte>, cursor: nat, fileId: nat): Result<(seq<byte>, IndexValue, nat)> {
    var (key, c1) :- TakeBlob(buf, cursor);
    var (ts, c2) :- TakeLe(buf, c1, 8);
    var (offset, c3) :- TakeLe(buf, c2, 8);
    var (len, c4) :- TakeLe(buf, c3, 8);
    Ok((key, IndexValue(fileId, ts, offset, len), c4))
  }

  /** The key, its entry and the length of the hint record at the start of `buf`. */
  function Decode(buf: seq<byte>, fileId: nat): Result<(seq<byte>, IndexValue, nat)> {
    var end :- CheckFrame(buf);
    var (key, value, cursor) :- ParseBody(buf, HEADER_LEN, fileId);
    if cursor != end then Err(Corruption) else Ok((key, value, end))
  }

  // ---- the code's own shape ----

  method Serialize(key: seq<byte>, v: IndexValue) returns (buf: seq<byte>)
    ensures buf == Encode(key, v)
  {
    hide FromLe, ToLe, Crc32.Hash;
    var placeholder: seq<byte> := [0, 0, 0, 0];
    buf := placeholder + U32(4 + |key| + 24);
    var body := WriteBody(key, v, []);
    assert body == Body(key, v);
    buf := buf + body;
    DropFirst(placeholder, U32(|Body(key, v)|), Body(key, v));
    buf := Backfill(buf);
  }

  method WriteBody(key: seq<byte>, v: IndexValue, buf: seq<byte>) returns (out: seq<byte>)
    ensures out == buf + Body(key, v)
  {
    hide FromLe, ToLe;
    out := buf + U32(|key|);
    out := out + key;
    out := out + U64(v.ts);
    out := out + U64(v.offset);
    out := out + U64(v.len);
  }

  method Deserialize(buf: seq<byte>, fileId: nat) returns (r: Result<(seq<byte>, IndexValue, nat)>)
    ensures r == Decode(buf, fileId)
  {
    hide FromLe, ToLe, Crc32.Hash;
    var cursor := new Cursor();
    var storedCrc := cursor.ReadLe(buf, 4);
    if storedCrc.Err? { return Err(storedCrc.error); }
    var bodyLen := cursor.ReadLe(buf, 4);
    if bodyLen.Err? { return Err(bodyLen.error); }
    if |buf| < HEADER_LEN + bodyLen.value {
      return Err(UnexpectedEof);
    }
    var recordEnd := HEADER_LEN + bodyLen.value;
    var actualCrc := Crc32.ComputeHash(buf[CRC_LEN..recordEnd]);
    if actualCrc != storedCrc.value {
      return Err(Corruption);
    }
    assert CheckFrame(buf) == Ok(recordEnd);

    var body := DeserializeBody(buf, cursor, fileId);
    if body.Err? { return Err(body.error); }
    if cursor.pos != recordEnd {
      return Err(Corruption);
    }
    return Ok((body.value.0, body.value.1, recordEnd));
  }

  method DeserializeBody(buf: seq<byte>, cursor: Cursor, fileId: nat) returns (r: Result<(seq<byte>, IndexValue)>)
    modifies cursor
    ensures r.Ok? ==> ParseBody(buf, old(cursor.pos), fileId) == Ok((r.value.0, r.value.1, cursor.pos))
    ensures r.Err? ==> ParseBody(buf, old(cursor.pos), fileId) == Err(r.error)
  {
    hide FromLe, ToLe, Crc32.Hash;
    var keyLen := cursor.ReadLe(buf, 4);
    if keyLen.Err? { return Err(keyLen.error); }
    var key := cursor.ReadBytes(buf, keyLen.value);
    if key.Err? { return Err(key.error); }
    var ts := cursor.ReadLe(buf, 8);
    if ts.Err? { return Err(ts.error); }
    var offset := cursor.ReadLe(buf, 8);
    if offset.Err? { return Err(offset.error); }
    var len := cursor.ReadLe(buf, 8);
    if len.Err? { return Err(len.error); }
    return Ok((key.value, IndexValue(fileId, ts.value, offset.value, len.value)));
  }

  // ---- the encoding is canonical, both ways ----

  ghost predicate FieldsAt(buf: seq<byte>, p: nat, key: seq<byte>, v: IndexValue) {
    var q := p + 4 + |key|;
    && HasAt(buf, p, Blob(key)) && HasAt(buf, q, U64(v.ts))
    && HasAt(buf, q + 8, U64(v.offset)) && HasAt(buf, q + 16, U64(v.len))
  }

  lemma BodyFields(buf: seq<byte>, p: nat, key: seq<byte>, v: IndexValue)
    requires HasAt(buf, p, Body(key, v))
    ensures FieldsAt(buf, p, key, v)
  {
    hide FromLe, ToLe;
    HasAtSplit(buf, p, Blob(key), Numbers(v));
    var q := p + 4 + |key|;
    HasAtSplit(buf, q, U64(v.ts), U64(v.offset) + U64(v.len));
    HasAtSplit(buf, q + 8, U64(v.offset), U64(v.len));
  }

  lemma FieldsBody(buf: seq<byte>, p: nat, key: seq<byte>, v: IndexValue)
    requires FieldsAt(buf, p, key, v)
    ensures HasAt(buf, p, Body(key, v))
  {
    hide FromLe, ToLe;
    var q := p + 4 + |key|;
    HasAtJoin(buf, q + 8, U64(v.offset), U64(v.len));
    HasAtJoin(buf, q, U64(v.ts), U64(v.offset) + U64(v.len));
    HasAtJoin(buf, p, Blob(key), Numbers(v));
  }

  lemma ParseFields(buf: seq<byte>, p: nat, key: seq<byte>, v: IndexValue)
    requires Encodable(key, v) && FieldsAt(buf, p, key, v) && p <= U32_END
    ensures ParseBody(buf, p, v.fileId) == Ok((key, v, p + 28 + |key|))
  {
    hide FromLe, ToLe;
    var q := p + 4 + |key|;
    TakeBlobAt(buf, p, key);
    TakeLeAt(buf, q, U64(v.ts));
    TakeLeAt(buf, q + 8, U64(v.offset));
    TakeLeAt(buf, q + 16, U64(v.len));
  }

  lemma ParsedFields(buf: seq<byte>, p: nat, fileId: nat)
    requires ParseBody(buf, p, fileId).Ok?
    ensures var (key, v, end) := ParseBody(buf, p, fileId).value;
            && FieldsAt(buf, p, key, v) && end == p + 28 + |key|
            && v.fileId == fileId && v.ts < U64_END && v.offset < U64_END && v.len < U64_END
  {
    hide FromLe, ToLe;
    var (key, v, end) := ParseBody(buf, p, fileId).value;
    var q := p + 4 + |key|;
    TakenBlob(buf, p);
    TakenU64(buf, q);
    TakenU64(buf, q + 8);
    TakenU64(buf, q + 16);
  }

  /** Decoding gives the key and entry that were encoded, whatever follows. */
  lemma DecodeEncode(key: seq<byte>, v: IndexValue, rest: seq<byte>)
    requires Encodable(key, v)
    ensures Decode(Encode(key, v) + rest, v.fileId) == Ok((key, v, |Encode(key, v)|))
  {
    hide FromLe, ToLe, Crc32.Hash;
    var body := Body(key, v);
    FrameChecks(body, rest);
    FrameParts(body, rest);
    BodyFields(Encode(key, v) + rest, HEADER_LEN, key, v);
    ParseFields(Encode(key, v) + rest, HEADER_LEN, key, v);
  }

  /** Any accepted buffer starts with exactly the encoding of what was decoded. */
  lemma DecodeCanonical(buf: seq<byte>, fileId: nat)
    requires Decode(buf, fileId).Ok?
    ensures var (key, v, n) := Decode(buf, fileId).value;
            v.fileId == fileId && Encodable(key, v) && n <= |buf| && buf[..n] == Encode(key, v)
  {
    hide FromLe, ToLe, Crc32.Hash;
    var (key, v, n) := Decode(buf, fileId).value;
    CheckedIsFrame(buf);
    ParsedFields(buf, HEADER_LEN, fileId);
    FieldsBody(buf, HEADER_LEN, key, v);
  }

  lemma DecodeTruncated(key: seq<byte>, v: IndexValue, n: nat, fileId: nat)
    requires Encodable(key, v) && n < |Encode(key, v)|
    ensures Decode(Encode(key, v)[..n], fileId) == Err(UnexpectedEof)
  {
    hide FromLe, ToLe, Crc32.Hash;
    TruncatedFrame(Body(key, v), n);
  }

  /**
   A window of four bytes can reach from `body_len` into `key_len`, but it cannot move both
   numbers by the same amount.
   */
  lemma LengthsCannotAgree(good: seq<byte>, bad: seq<byte>, at: nat)
    requires |good| == |bad| >= 12 && 1 <= at <= 7
    requires forall j :: 0 <= j < |good| && !(at <= j < at + 4) ==> good[j] == bad[j]
    requires FromLe(good[4..8]) - FromLe(bad[4..8]) == FromLe(good[8..12]) - FromLe(bad[8..12])
    ensures FromLe(good[4..8]) == FromLe(bad[4..8])
  {
    hide FromLe, ToLe;
    if at <= 4 {
      assert good[8..12] == bad[8..12];
    } else {
      assert good[4..8] == good[4..at] + good[at..8];
      assert bad[4..8] == good[4..at] + bad[at..8];
      assert good[8..12] == good[8..at + 4] + good[at + 4..12];
      assert bad[8..12] == bad[8..at + 4] + good[at + 4..12];
      HighAndLowChanges(good[4..at], good[at..8], bad[at..8], good[8..at + 4], bad[8..at + 4], good[at + 4..12]);
    }
  }

  lemma LengthFields(key: seq<byte>, v: IndexValue)
    requires Encodable(key, v)
    ensures FromLe(Encode(key, v)[4..8]) == |key| + 28 && FromLe(Encode(key, v)[8..12]) == |key|
  {
    hide FromLe, ToLe, Crc32.Hash;
    FrameParts(Body(key, v), []);
    FrameHolds(Body(key, v));
    HasAtSplit(Encode(key, v), 8, Blob(key), Numbers(v));
    HasAtSplit(Encode(key, v), 8, U32(|key|), key);
  }

  lemma DecodedLengths(buf: seq<byte>, fileId: nat)
    requires Decode(buf, fileId).Ok?
    ensures |buf| >= 12 && CheckFrame(buf) == Ok(HEADER_LEN + FromLe(buf[4..8]))
    ensures FromLe(buf[4..8]) == FromLe(buf[8..12]) + 28
  {
    hide FromLe, ToLe, Crc32.Hash;
  }

  /** Any damage confined to four consecutive bytes of a hint record makes decoding fail. */
  lemma DecodeDamaged(key: seq<byte>, v: IndexValue, bad: seq<byte>, at: nat, fileId: nat)
    requires Encodable(key, v) && DiffersWithin(Encode(key, v), bad, at)
    ensures Decode(bad, fileId).Err?
  {
    hide FromLe, ToLe, Crc32.Hash;
    if Decode(bad, fileId).Ok? {
      DamagedFrame(Body(key, v), bad, at);
      LengthFields(key, v);
      DecodedLengths(bad, fileId);
      LengthsCannotAgree(Encode(key, v), bad, at);
    }
  }

  // ---- the bytes of a hint ----

  /** The documented layout, byte for byte; the file id is not in it. */
  lemma HintLayout(key: seq<byte>, v: IndexValue)
    ensures var r, q := Encode(key, v), 12 + |key|;
            && |r| == q + 24
            && IsLe(r[0..4], Crc32.Checksum(r[4..]) as int) && IsLe(r[4..8], |r| - 8)
            && IsLe(r[8..12], |key|) && r[12..q] == key
            && IsLe(r[q..q + 8], v.ts) && IsLe(r[q + 8..q + 16], v.offset) && IsLe(r[q + 16..q + 24], v.len)
  {
    hide FromLe, ToLe, Crc32.Hash, Crc32.Checksum, Frame, IsLe;
    var r := Encode(key, v);
    FrameLayout(Body(key, v));
    FrameHolds(Body(key, v));
    BodyFields(r, HEADER_LEN, key, v);
    HasAtSplit(r, 8, U32(|key|), key);
    FieldDigits(|key|);
    FieldDigits(v.ts);
    FieldDigits(v.offset);
    FieldDigits(v.len);
  }
}
