/**
 The streaming reader that cuts a log or hint file into records and tells a clean end from
 a torn tail.
 */
module RecordReader {
  import opened Bytes
  import opened Framing

  datatype RecordRead =
    | Record(position: nat, bytes: seq<byte>)
    | CleanEof
    | TornTail(position: nat)   // the record runs past the end of the file

  /**
   One read at byte `start` of a file said to be `fileLen` bytes long, with `rest` still
   unread. The file may have shrunk below `fileLen`, but not grown past it: then the
   subtraction of the remaining length cannot underflow.
   */
  function ReadOne(rest: seq<byte>, start: nat, fileLen: nat): (r: RecordRead)
    requires start + |rest| <= fileLen
    ensures r.Record? ==> r.position == start && HEADER_LEN <= |r.bytes| <= |rest| && r.bytes == rest[..|r.bytes|]
  {
    if |rest| < HEADER_LEN then
      if start == fileLen then CleanEof else TornTail(start)
    else
      var bodyLen := FromLe(rest[CRC_LEN..HEADER_LEN]);
      var remaining: nat := fileLen - start - HEADER_LEN;
      if bodyLen > remaining then TornTail(start)
      else if |rest| < HEADER_LEN + bodyLen then TornTail(start)
      else Record(start, rest[..HEADER_LEN + bodyLen])
  }

  /**
   Which read it is, from what is left and what the metadata says alone: a clean end exactly
   at the announced length, a record exactly if all of it is there, else a torn tail here.
   */
  lemma ReadOneExactly(rest: seq<byte>, start: nat, fileLen: nat)
    requires start + |rest| <= fileLen
    ensures var r := ReadOne(rest, start, fileLen);
            && (r.CleanEof? <==> start == fileLen)
            && (r.Record? <==> |rest| >= 8 && 8 + FromLe(rest[4..8]) <= |rest|)
            && (r.Record? ==> r == Record(start, rest[..8 + FromLe(rest[4..8])]))
            && (r.TornTail? ==> r.position == start)
  {
    hide FromLe;
  }

  class Reader {
    var rest: seq<byte>      // what the underlying reader has not delivered yet
    var position: nat
    const fileLen: nat
    var buf: seq<byte>       // reused between records

    ghost predicate Valid()
      reads this
    {
      position + |rest| <= fileLen
    }

    constructor (data: seq<byte>, fileLen: nat)
      requires |data| <= fileLen
      ensures Valid() && rest == data && position == 0 && this.fileLen == fileLen
    {
      rest := data;
      position := 0;
      this.fileLen := fileLen;
      buf := [];
    }

    /** `read_exact`: all `n` bytes, or an early end that uses up the stream. */
    method ReadExact(n: nat) returns (r: Option<seq<byte>>)
      modifies this`rest
      ensures n <= |old(rest)| ==> r == Some(old(rest)[..n]) && rest == old(rest)[n..]
      ensures n > |old(rest)| ==> r == None && rest == []
    {
      if n > |rest| {
        rest := [];
        return None;
      }
      r := Some(rest[..n]);
      rest := rest[n..];
    }

    method NextRecord() returns (r: RecordRead)
      requires Valid()
      modifies this
      ensures Valid()
      ensures r == ReadOne(old(rest), old(position), fileLen)
      ensures r.Record? ==> rest == old(rest)[|r.bytes|..] && position == old(position) + |r.bytes|
      ensures !r.Record? ==> position == old(position)
    {
      hide FromLe;
      var start := position;
      var header := ReadExact(HEADER_LEN);
      if header.None? {
        return if start == fileLen then CleanEof else TornTail(start);
      }
      assert header.value[CRC_LEN..HEADER_LEN] == old(rest)[CRC_LEN..HEADER_LEN];
      var bodyLen := FromLe(header.value[CRC_LEN..HEADER_LEN]);
      var remaining: nat := fileLen - start - HEADER_LEN;
      if bodyLen > remaining {
        return TornTail(start);
      }
      var body := ReadExact(bodyLen);
      if body.None? {
        return TornTail(start);
      }
      buf := header.value + body.value;
      assert buf == old(rest)[..HEADER_LEN + bodyLen];
      assert rest == old(rest)[HEADER_LEN + bodyLen..];
      position := start + HEADER_LEN + bodyLen;
      return Record(start, buf);
    }
  }

  // ---- whole files ----

  /** Every record of a file from `start` on, and how the file ends: CleanEof or TornTail. */
  datatype Scanned = Scanned(records: seq<RecordRead>, end: RecordRead)

  /** Reading to the end a file that is exactly as long as its metadata says. */
  function Scan(rest: seq<byte>, start: nat): (s: Scanned)
    ensures !s.end.Record?
    ensures forall i :: 0 <= i < |s.records| ==> s.records[i].Record?
    decreases |rest|
  {
    var r := ReadOne(rest, start, start + |rest|);
    if r.Record? then
      var tail := Scan(rest[|r.bytes|..], start + |r.bytes|);
      Scanned([r] + tail.records, tail.end)
    else Scanned([], r)
  }

  /** A byte string that the reader takes for one record: its header tells its length. */
  ghost predicate IsRecord(r: seq<byte>) {
    HEADER_LEN <= |r| && |r| == HEADER_LEN + FromLe(r[CRC_LEN..HEADER_LEN])
  }

  lemma FrameIsRecord(body: seq<byte>)
    requires |body| < U32_END
    ensures IsRecord(Frame(body))
  {
    FrameParts(body, []);
  }

  function Concat(recs: seq<seq<byte>>): seq<byte> {
    if recs == [] then [] else recs[0] + Concat(recs[1..])
  }

  lemma ConcatNone()
    ensures Concat([]) == []
  {
  }

  lemma Joined(a: seq<byte>, b: seq<byte>, c: seq<byte>)
    ensures a + (b + c) == (a + b) + c
  {
  }

  lemma {:induction false} ConcatAppend(a: seq<seq<byte>>, b: seq<seq<byte>>)
    ensures Concat(a + b) == Concat(a) + Concat(b)
  {
    hide Concat, Placed;
    if a == [] {
      ConcatNone();
      assert a + b == b;
    } else {
      ConcatAppend(a[1..], b);
      assert (a + b)[1..] == a[1..] + b && (a + b)[0] == a[0];
      Unroll(a, 0);
      Unroll(a + b, 0);
      Joined(a[0], Concat(a[1..]), Concat(b));
    }
  }

  /** The records in order, each at the byte position where it starts. */
  function Placed(recs: seq<seq<byte>>, start: nat): (s: seq<RecordRead>)
    ensures |s| == |recs|
    decreases |recs|
  {
    if recs == [] then [] else [Record(start, recs[0])] + Placed(recs[1..], start + |recs[0]|)
  }

  /** One whole record at the front is delivered, and the scan goes on behind it. */
  lemma ScanWholeRecord(r: seq<byte>, rest: seq<byte>, start: nat)
    requires IsRecord(r)
    ensures Scan(r + rest, start) ==
            Scanned([Record(start, r)] + Scan(rest, start + |r|).records, Scan(rest, start + |r|).end)
  {
    hide FromLe;
    var all := r + rest;
    assert all[CRC_LEN..HEADER_LEN] == r[CRC_LEN..HEADER_LEN];
    assert all[..|r|] == r && all[|r|..] == rest;
  }

  /** A strict prefix of one record is a torn tail, or a clean end when nothing is left. */
  lemma ScanTorn(r: seq<byte>, n: nat, start: nat)
    requires IsRecord(r) && n < |r|
    ensures Scan(r[..n], start) == Scanned([], if n == 0 then CleanEof else TornTail(start))
  {
    hide FromLe;
    if n >= HEADER_LEN {
      assert r[..n][CRC_LEN..HEADER_LEN] == r[CRC_LEN..HEADER_LEN];
    }
  }

  /**
   Wherever a file of whole records is cut, the reader yields exactly the records that are
   wholly contained, each at its true position, and then a clean end if the cut is on a
   boundary or a torn tail at the last boundary if it is not.
   */
  lemma {:induction false} ScanTruncated(recs: seq<seq<byte>>, whole: nat, extra: nat, start: nat)
    requires forall i :: 0 <= i < |recs| ==> IsRecord(recs[i])
    requires whole <= |recs|
    requires if whole == |recs| then extra == 0 else extra < |recs[whole]|
    ensures var n := |Concat(recs[..whole])| + extra;
            && n <= |Concat(recs)|
            && Scan(Concat(recs)[..n], start) ==
               Scanned(Placed(recs[..whole], start),
                       if extra == 0 then CleanEof else TornTail(start + |Concat(recs[..whole])|))
    decreases |recs|
  {
    hide FromLe, IsRecord, Scan, Concat, Placed;
    if whole == 0 {
      ScanCutFirst(recs, extra, start);
    } else {
      var r, tail := recs[0], recs[1..];
      ScanTruncated(tail, whole - 1, extra, start + |r|);
      var m := |Concat(tail[..whole - 1])| + extra;
      ScanWholeRecord(r, Concat(tail)[..m], start);
      Unroll(recs, start);
      Unroll(recs[..whole], start);
      assert recs[..whole][1..] == tail[..whole - 1];
      assert (r + Concat(tail))[..|r| + m] == r + Concat(tail)[..m];
    }
  }

  lemma ScanCutFirst(recs: seq<seq<byte>>, extra: nat, start: nat)
    requires recs == [] ==> extra == 0
    requires recs != [] ==> IsRecord(recs[0]) && extra < |recs[0]|
    ensures extra <= |Concat(recs)| && Concat(recs[..0]) == [] && Placed(recs[..0], start) == []
    ensures Scan(Concat(recs)[..extra], start) == Scanned([], if extra == 0 then CleanEof else TornTail(start))
  {
    if recs == [] {
      assert Concat(recs)[..extra] == [];
    } else {
      ScanTorn(recs[0], extra, start);
      assert Concat(recs)[..extra] == recs[0][..extra];
    }
  }

  lemma Unroll(recs: seq<seq<byte>>, start: nat)
    requires recs != []
    ensures Concat(recs) == recs[0] + Concat(recs[1..])
    ensures Placed(recs, start) == [Record(start, recs[0])] + Placed(recs[1..], start + |recs[0]|)
  {
  }

  /** A file of whole records is read back record by record to a clean end. */
  lemma ScanWhole(recs: seq<seq<byte>>, start: nat)
    requires forall i :: 0 <= i < |recs| ==> IsRecord(recs[i])
    ensures Scan(Concat(recs), start) == Scanned(Placed(recs, start), CleanEof)
  {
    ScanTruncated(recs, |recs|, 0, start);
    assert recs[..|recs|] == recs;
    assert Concat(recs)[..|Concat(recs)|] == Concat(recs);
  }

  /** Every cut falls into exactly one record, or on a boundary. */
  lemma {:induction false} CutAt(recs: seq<seq<byte>>, n: nat) returns (whole: nat, extra: nat)
    requires n <= |Concat(recs)| && forall i :: 0 <= i < |recs| ==> recs[i] != []
    ensures whole <= |recs| && n == |Concat(recs[..whole])| + extra
    ensures if whole == |recs| then extra == 0 else extra < |recs[whole]|
    ensures Concat(recs)[..n] == Concat(recs[..whole]) + (if whole == |recs| then [] else recs[whole][..extra])
    decreases |recs|
  {
    if recs == [] || n < |recs[0]| {
      whole, extra := 0, n;
      assert Concat(recs[..0]) == [];
    } else {
      whole, extra := CutAt(recs[1..], n - |recs[0]|);
      var w := whole + 1;
      assert recs[..w][1..] == recs[1..][..whole] && recs[..w][0] == recs[0];
      assert Concat(recs)[..n] == recs[0] + Concat(recs[1..])[..n - |recs[0]|];
      whole := w;
    }
  }
}
