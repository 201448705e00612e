/**
 The frame shared by log records and hint records, all integers little-endian:
 `[u32 crc][u32 body_len][body]`, where the crc covers `body_len` and the body.
 */
module Framing {
  import opened Bytes
  import opened Crc32
  import opened ShiftRegister

  const CRC_LEN: nat := 4
  const HEADER_LEN: nat := 8
  const U32_END: nat := 0x1_0000_0000
  const U64_END: nat := 0x1_0000_0000_0000_0000

  function U32(n: nat): (s: seq<byte>)
    ensures |s| == 4
    ensures n < U32_END ==> FromLe(s) == n
  {
    Pow256Values();
    if n < U32_END then FromLeToLe(n, 4); ToLe(n, 4) else ToLe(n, 4)
  }

  function U64(n: nat): (s: seq<byte>)
    ensures |s| == 8
    ensures n < U64_END ==> FromLe(s) == n
  {
    Pow256Values();
    if n < U64_END then FromLeToLe(n, 8); ToLe(n, 8) else ToLe(n, 8)
  }

  lemma FieldDigits(n: nat)
    ensures IsLe(U32(n), n) && IsLe(U64(n), n)
  {
    ToLeDigits(n, 4);
    ToLeDigits(n, 8);
  }

  /** A field that was read is the little-endian form of the number read. */
  lemma U32OfField(field: seq<byte>)
    requires |field| == 4
    ensures U32(FromLe(field)) == field && FromLe(field) < U32_END
  {
    Pow256Values();
    ToLeFromLe(field);
  }

  lemma U64OfField(field: seq<byte>)
    requires |field| == 8
    ensures U64(FromLe(field)) == field && FromLe(field) < U64_END
  {
    Pow256Values();
    ToLeFromLe(field);
  }

  lemma TakenU64(buf: seq<byte>, p: nat)
    requires TakeLe(buf, p, 8).Ok?
    ensures var n := TakeLe(buf, p, 8).value.0;
            n < U64_END && HasAt(buf, p, U64(n))
  {
    U64OfField(buf[p..p + 8]);
  }

  /** A byte string behind its `u32` length. */
  function Blob(s: seq<byte>): (r: seq<byte>)
    ensures |r| == 4 + |s|
  {
    U32(|s|) + s
  }

  function TakeBlob(buf: seq<byte>, cursor: nat): Result<(seq<byte>, nat)> {
    var (len, c) :- TakeLe(buf, cursor, 4);
    TakeBytes(buf, c, len)
  }

  lemma TakeBlobAt(buf: seq<byte>, p: nat, s: seq<byte>)
    requires HasAt(buf, p, Blob(s)) && p + 4 + |s| <= USIZE_MAX && |s| < U32_END
    ensures TakeBlob(buf, p) == Ok((s, p + 4 + |s|))
  {
    hide FromLe, ToLe, Hash;
    HasAtSplit(buf, p, U32(|s|), s);
  }

  lemma BlobLayout(buf: seq<byte>, p: nat, s: seq<byte>)
    requires HasAt(buf, p, Blob(s))
    ensures p + 4 + |s| <= |buf| && IsLe(buf[p..p + 4], |s|) && buf[p + 4..p + 4 + |s|] == s
  {
    hide FromLe, ToLe, IsLe;
    HasAtSplit(buf, p, U32(|s|), s);
    FieldDigits(|s|);
  }

  lemma TakenBlob(buf: seq<byte>, p: nat)
    requires TakeBlob(buf, p).Ok?
    ensures var (s, end) := TakeBlob(buf, p).value;
            HasAt(buf, p, Blob(s)) && end == p + 4 + |s|
  {
    hide FromLe, ToLe, Hash;
    var (s, end) := TakeBlob(buf, p).value;
    U32OfField(buf[p..p + 4]);
    HasAtJoin(buf, p, U32(|s|), s);
  }

  /** The record around `body`. */
  function Frame(body: seq<byte>): (r: seq<byte>)
    ensures |r| == HEADER_LEN + |body|
  {
    U32(Hash(Blob(body))) + Blob(body)
  }

  /**
   The checks both decoders make before they look at the body: the whole record must be
   present and its checksum must match. Returns the record's end.
   */
  function CheckFrame(buf: seq<byte>): (r: Result<nat>)
    ensures r.Ok? ==> HEADER_LEN <= r.value <= |buf|
  {
    var (storedCrc, c1) :- TakeLe(buf, 0, 4);
    var (bodyLen, c2) :- TakeLe(buf, c1, 4);
    if |buf| < HEADER_LEN + bodyLen then Err(UnexpectedEof)
    else if Hash(buf[CRC_LEN..HEADER_LEN + bodyLen]) != storedCrc then Err(Corruption)
    else Ok(HEADER_LEN + bodyLen)
  }

  lemma FrameParts(body: seq<byte>, rest: seq<byte>)
    ensures var r := Frame(body);
            && r[..4] == U32(Hash(Blob(body)))
            && r[4..8] == U32(|body|)
            && r[8..] == body
            && r[4..] == Blob(body)
            && (r + rest)[0..4] == r[..4] && (r + rest)[4..8] == r[4..8]
            && (r + rest)[4..8 + |body|] == r[4..]
            && (r + rest)[8..8 + |body|] == body
  {
    hide FromLe, ToLe, Hash;
  }

  /** The header: the checksum of everything behind it, then the length of the body. */
  lemma FrameLayout(body: seq<byte>)
    ensures var r := Frame(body);
            && IsLe(r[0..4], Checksum(r[4..]) as int)
            && IsLe(r[4..8], |r| - 8)
            && r[8..] == body
  {
    hide FromLe, ToLe, Hash, Feed;
    FrameParts(body, []);
    var r := Frame(body);
    HashIsChecksum(Blob(body));
    FieldDigits(Hash(Blob(body)));
    FieldDigits(|body|);
    assert r[0..4] == r[..4];
  }

  lemma FrameHolds(body: seq<byte>)
    ensures HasAt(Frame(body), HEADER_LEN, body)
  {
    hide FromLe, ToLe, Hash;
    FrameParts(body, []);
  }

  /** Writes the crc of everything behind it over the placeholder. */
  method Backfill(buf: seq<byte>) returns (out: seq<byte>)
    requires |buf| >= CRC_LEN
    ensures out == U32(Hash(buf[CRC_LEN..])) + buf[CRC_LEN..]
  {
    var crc := ComputeHash(buf[CRC_LEN..]);
    out := U32(crc) + buf[CRC_LEN..];
  }

  /** A framed body passes the checks, whatever follows it. */
  lemma FrameChecks(body: seq<byte>, rest: seq<byte>)
    requires |body| < U32_END
    ensures CheckFrame(Frame(body) + rest) == Ok(HEADER_LEN + |body|)
  {
    hide FromLe, ToLe, Hash;
    FrameParts(body, rest);
  }

  /** Whatever passes the checks is a framed body: the frame is canonical. */
  lemma CheckedIsFrame(buf: seq<byte>)
    requires CheckFrame(buf).Ok?
    ensures var end := CheckFrame(buf).value;
            buf[..end] == Frame(buf[HEADER_LEN..end]) && end - HEADER_LEN < U32_END
  {
    hide FromLe, ToLe, Hash;
    var end := CheckFrame(buf).value;
    var body := buf[HEADER_LEN..end];
    U32OfField(buf[0..4]);
    U32OfField(buf[4..8]);
    assert buf[4..end] == buf[4..8] + body;
    assert buf[..end] == buf[0..4] + buf[4..8] + body;
  }

  /** Every strict prefix of a record reads as an early end of input, never as corruption. */
  lemma TruncatedFrame(body: seq<byte>, n: nat)
    requires |body| < U32_END && n < |Frame(body)|
    ensures CheckFrame(Frame(body)[..n]) == Err(UnexpectedEof)
  {
    hide FromLe, ToLe, Hash;
    var cut := Frame(body)[..n];
    FrameParts(body, []);
    if n >= 8 {
      assert cut[4..8] == Frame(body)[4..8];
    }
  }

  /** `b` is `a` with changes only in the four bytes from `at` on. */
  ghost predicate DiffersWithin(a: seq<byte>, b: seq<byte>, at: nat) {
    && |a| == |b| && a != b
    && forall j :: 0 <= j < |a| && !(at <= j < at + 4) ==> a[j] == b[j]
  }

  /** A change inside the body, inside one four-byte window, changes the checksum. */
  lemma BodyChangeDetected(a: seq<byte>, b: seq<byte>, at: nat)
    requires DiffersWithin(a, b, at)
    ensures Hash(a) != Hash(b)
  {
    hide FromLe, ToLe, Hash;
    var lo := if at <= |a| then at else |a|;
    var hi := if at + 4 <= |a| then at + 4 else |a|;
    assert a == a[..lo] + a[lo..hi] + a[hi..];
    assert b == a[..lo] + b[lo..hi] + a[hi..];
    BurstDetected(a[..lo], a[lo..hi], b[lo..hi], a[hi..]);
  }

  /** A frame of the right length: its checks are one comparison. */
  lemma CheckWhole(body: seq<byte>, bad: seq<byte>)
    requires |body| < U32_END && |bad| == |Frame(body)| && bad[4..8] == Frame(body)[4..8]
    ensures CheckFrame(bad) == if Hash(bad[4..]) == FromLe(bad[0..4]) then Ok(|bad|) else Err(Corruption)
  {
    hide FromLe, ToLe, Hash;
    FrameParts(body, []);
    assert bad[4..8 + |body|] == bad[4..];
  }

  /** The checksum a frame carries is that of the rest. */
  lemma FrameCarries(body: seq<byte>)
    ensures FromLe(Frame(body)[0..4]) == Hash(Frame(body)[4..])
  {
    hide FromLe, ToLe, Hash;
    FrameParts(body, []);
    assert Frame(body)[0..4] == Frame(body)[..4];
  }

  lemma HalvesDiffer(a: seq<byte>, b: seq<byte>)
    requires |a| == |b| >= 4 && a != b && a[4..] == b[4..]
    ensures a[0..4] != b[0..4]
  {
    assert a == a[0..4] + a[4..] && b == b[0..4] + b[4..];
  }

  lemma RestDiffers(a: seq<byte>, b: seq<byte>, at: nat)
    requires DiffersWithin(a, b, at) && |a| >= 8 && a[4..] != b[4..] && a[4..8] == b[4..8]
    ensures at >= 4 && a[0..4] == b[0..4] && DiffersWithin(a[4..], b[4..], at - 4)
  {
    var k :| 0 <= k < |a| - 4 && a[4..][k] != b[4..][k];
    assert a[4 + k] != b[4 + k];
    assert forall j :: 0 <= j < 4 ==> a[4 + j] == a[4..8][j] && b[4 + j] == b[4..8][j];
  }

  /** With `body_len` intact, changes confined to four consecutive bytes fail the checksum. */
  lemma DamageKeepingLength(body: seq<byte>, bad: seq<byte>, at: nat)
    requires |body| < U32_END && DiffersWithin(Frame(body), bad, at)
    requires bad[4..8] == Frame(body)[4..8]
    ensures CheckFrame(bad) == Err(Corruption)
  {
    hide FromLe, ToLe, Hash, Frame, CheckFrame;
    var good := Frame(body);
    CheckWhole(body, bad);
    FrameCarries(body);
    if bad[4..] == good[4..] {
      HalvesDiffer(good, bad);
      if FromLe(bad[0..4]) == FromLe(good[0..4]) {
        FromLeInjective(bad[0..4], good[0..4]);
      }
    } else {
      RestDiffers(good, bad, at);
      BodyChangeDetected(good[4..], bad[4..], at - 4);
    }
  }

  /**
   Changes confined to four consecutive bytes of a record get past the frame checks only by
   shortening `body_len`; then everything from byte 11 on is untouched.
   */
  lemma DamagedFrame(body: seq<byte>, bad: seq<byte>, at: nat)
    requires |body| < U32_END && DiffersWithin(Frame(body), bad, at)
    requires CheckFrame(bad).Ok?
    ensures CheckFrame(bad).value < |bad| && 1 <= at <= 7
  {
    hide FromLe, ToLe, Hash;
    var good := Frame(body);
    FrameParts(body, []);
    if bad[4..8] == good[4..8] {
      DamageKeepingLength(body, bad, at);
    } else {
      if FromLe(bad[4..8]) == |body| {
        FromLeInjective(bad[4..8], good[4..8]);
      }
      var k :| 0 <= k < 4 && bad[4..8][k] != good[4..8][k];
      assert bad[4 + k] != good[4 + k];
    }
  }
}
