/**
 `open` on the bytes a crash left: which files it reads, through hints or data, where it
 cuts a torn tail, and the keydir, offset and stale count it arrives at.
 */
module Recovery {
  import opened Bytes
  import opened Commands
  import opened Framing
  import opened RecordReader
  import opened Logs
  import Hints

  // ---- replaying one data file ----

  /** What `Loader` accumulates. */
  datatype Load = Load(index: Keydir, offset: nat, stale: nat)

  /** One record of data file `fileId`. */
  function LoadRecord(l: Load, fileId: nat, r: RecordRead): Result<Load>
    requires r.Record?
  {
    var (c, _) :- Decode(r.bytes);
    match c
    case Set(ts, key, _) =>
      Ok(Load(l.index[key := Hints.IndexValue(fileId, ts, r.position, |r.bytes|)], l.offset + |r.bytes|, l.stale))
    case Rm(_, key) =>
      Ok(Load(Without(l.index, key), l.offset + |r.bytes|, l.stale + |r.bytes|))
  }

  ghost predicate AllRecords(rs: seq<RecordRead>) {
    forall i :: 0 <= i < |rs| ==> rs[i].Record?
  }

  /** Records in order; the first one that does not decode ends the replay. */
  function LoadRecords(l: Load, fileId: nat, rs: seq<RecordRead>): Result<Load>
    requires AllRecords(rs)
  {
    if rs == [] then Ok(l)
    else
      var before :- LoadRecords(l, fileId, rs[..|rs| - 1]);
      LoadRecord(before, fileId, rs[|rs| - 1])
  }

  lemma {:induction false} LoadStops(l: Load, fileId: nat, a: seq<RecordRead>, b: seq<RecordRead>)
    requires AllRecords(a) && AllRecords(b) && LoadRecords(l, fileId, a).Err?
    ensures LoadRecords(l, fileId, a + b) == LoadRecords(l, fileId, a)
  {
    hide LoadRecord;
    if b == [] {
      assert a + b == a;
    } else {
      var n := |b| - 1;
      assert (a + b)[..|a| + n] == a + b[..n];
      LoadStops(l, fileId, a, b[..n]);
    }
  }

  // ---- replaying one hint file ----

  datatype HintLoad = HintLoad(index: Keydir, ok: bool)

  /** Hint records in order; one that does not decode makes the hint bad from there on. */
  function LoadHints(index: Keydir, fileId: nat, rs: seq<RecordRead>): HintLoad
    requires AllRecords(rs)
  {
    if rs == [] then HintLoad(index, true)
    else
      var before := LoadHints(index, fileId, rs[..|rs| - 1]);
      if !before.ok then before
      else
        match Hints.Decode(rs[|rs| - 1].bytes, fileId)
        case Ok((key, value, _)) => HintLoad(before.index[key := value], true)
        case Err(_) => HintLoad(before.index, false)
  }

  lemma {:induction false} HintsStop(index: Keydir, fileId: nat, a: seq<RecordRead>, b: seq<RecordRead>)
    requires AllRecords(a) && AllRecords(b) && !LoadHints(index, fileId, a).ok
    ensures LoadHints(index, fileId, a + b) == LoadHints(index, fileId, a)
  {
    if b == [] {
      assert a + b == a;
    } else {
      var n := |b| - 1;
      assert (a + b)[..|a| + n] == a + b[..n];
      HintsStop(index, fileId, a, b[..n]);
    }
  }

  /** A whole hint file: good only if every record decodes and the file ends cleanly. */
  function LoadHintFile(index: Keydir, fileId: nat, bytes: seq<byte>): HintLoad {
    var s := Scan(bytes, 0);
    var h := LoadHints(index, fileId, s.records);
    HintLoad(h.index, h.ok && s.end.CleanEof?)
  }

  // ---- one file, then all of them ----

  /** After a file: go on, or stop because the active file's tail was cut off at `torn`. */
  datatype Loaded = Loaded(load: Load, torn: Option<nat>, badHints: set<nat>)

  function LoadData(l: Load, fileId: nat, current: nat, bytes: seq<byte>): Result<(Load, Option<nat>)> {
    var s := Scan(bytes, 0);
    var r :- LoadRecords(l.(offset := 0), fileId, s.records);
    if s.end.CleanEof? then Ok((r, None))
    else if fileId == current then Ok((r.(offset := s.end.position), Some(s.end.position)))
    else Err(Corruption)
  }

  function LoadFile(l: Loaded, fileId: nat, current: nat, data: seq<byte>, hint: Option<seq<byte>>): Result<Loaded> {
    if fileId != current && hint.Some? then
      var h := LoadHintFile(l.load.index, fileId, hint.value);
      if h.ok then Ok(l.(load := l.load.(index := h.index)))
      else
        var (load, torn) :- LoadData(l.load.(index := h.index), fileId, current, data);
        Ok(Loaded(load, torn, l.badHints + {fileId}))
    else
      var (load, torn) :- LoadData(l.load, fileId, current, data);
      Ok(Loaded(load, torn, l.badHints))
  }

  function HintOf(hints: map<nat, seq<byte>>, id: nat): Option<seq<byte>> {
    if id in hints then Some(hints[id]) else None
  }

  /** The files `ids` in order; a cut tail ends the replay at once. */
  function LoadFiles(data: map<nat, seq<byte>>, hints: map<nat, seq<byte>>, current: nat, ids: seq<nat>): Result<Loaded>
    requires forall id :: id in ids ==> id in data
  {
    if ids == [] then Ok(Loaded(Load(map[], 0, 0), None, {}))
    else
      var id := ids[|ids| - 1];
      var before :- LoadFiles(data, hints, current, ids[..|ids| - 1]);
      if before.torn.Some? then Ok(before) else LoadFile(before, id, current, data[id], HintOf(hints, id))
  }

  // ---- what the engine writes ----

  function Encodings(recs: seq<Command>): (s: seq<seq<byte>>)
    ensures |s| == |recs|
  {
    if recs == [] then [] else Encodings(recs[..|recs| - 1]) + [Encode(recs[|recs| - 1])]
  }

  /** The bytes of a data file that holds `recs`. */
  function EncodeLog(recs: seq<Command>): seq<byte> {
    Concat(Encodings(recs))
  }

  ghost predicate AllEncodable(recs: seq<Command>) {
    forall i :: 0 <= i < |recs| ==> Encodable(recs[i])
  }

  /** What is left of a record that was not written out: a strict prefix, possibly empty. */
  ghost predicate Torn(tail: seq<byte>, c: Command) {
    Encodable(c) && |tail| < RecordLen(c) && tail == Encode(c)[..|tail|]
  }

  lemma EncodingsAppend(recs: seq<Command>, c: Command)
    ensures Encodings(recs + [c]) == Encodings(recs) + [Encode(c)]
  {
    assert (recs + [c])[..|recs|] == recs;
  }

  lemma ConcatOne(r: seq<byte>)
    ensures Concat([r]) == r
  {
    assert [r][1..] == [];
    assert Concat([r][1..]) == [];
  }

  lemma EncodeLogAppend(recs: seq<Command>, c: Command)
    ensures EncodeLog(recs + [c]) == EncodeLog(recs) + Encode(c)
  {
    hide Encode, Encodings, Concat;
    EncodingsAppend(recs, c);
    ConcatAppend(Encodings(recs), [Encode(c)]);
    ConcatOne(Encode(c));
  }

  lemma {:induction false} EncodeLogConcat(a: seq<Command>, b: seq<Command>)
    ensures EncodeLog(a + b) == EncodeLog(a) + EncodeLog(b)
  {
    hide Encode, EncodeLog;
    if b == [] {
      assert a + b == a;
      EncodeLogEmpty();
    } else {
      var n := |b| - 1;
      EncodeLogConcat(a, b[..n]);
      EncodeLogAppend(a + b[..n], b[n]);
      EncodeLogAppend(b[..n], b[n]);
      assert a + b[..n] + [b[n]] == a + b && b[..n] + [b[n]] == b;
    }
  }

  lemma EncodeLogEmpty()
    ensures EncodeLog([]) == []
  {
  }

  lemma {:induction false} EncodeLogSize(recs: seq<Command>)
    ensures |EncodeLog(recs)| == Size(recs)
  {
    hide Encode, EncodeLog;
    if recs == [] {
      EncodeLogEmpty();
    } else {
      var n := |recs| - 1;
      EncodeLogSize(recs[..n]);
      EncodeLogAppend(recs[..n], recs[n]);
      assert recs[..n] + [recs[n]] == recs;
    }
  }

  lemma {:induction false} EncodingsAreRecords(recs: seq<Command>)
    requires AllEncodable(recs)
    ensures forall i :: 0 <= i < |recs| ==> IsRecord(Encodings(recs)[i])
  {
    hide IsRecord, Encode;
    if recs != [] {
      var n := |recs| - 1;
      EncodingsAreRecords(recs[..n]);
      EncodingIsRecord(recs[n]);
    }
  }

  lemma EncodingIsRecord(c: Command)
    requires Encodable(c)
    ensures IsRecord(Encode(c))
  {
    hide IsRecord, Frame;
    FrameIsRecord(Body(c));
  }

  lemma {:induction false} PlacedAppend(recs: seq<seq<byte>>, r: seq<byte>, start: nat)
    ensures Placed(recs + [r], start) == Placed(recs, start) + [Record(start + |Concat(recs)|, r)]
    decreases |recs|
  {
    if recs != [] {
      PlacedAppend(recs[1..], r, start + |recs[0]|);
      assert (recs + [r])[1..] == recs[1..] + [r];
    } else {
      assert [r][1..] == [];
      assert recs + [r] == [r];
    }
  }

  lemma PlacedRecords(recs: seq<seq<byte>>, start: nat)
    ensures AllRecords(Placed(recs, start))
    decreases |recs|
  {
    if recs != [] {
      PlacedRecords(recs[1..], start + |recs[0]|);
    }
  }

  /** A record of the engine, replayed at its place, does what `ReplayRecord` says. */
  lemma LoadEncodedRecord(l: Load, fileId: nat, offset: nat, c: Command)
    requires Encodable(c)
    ensures LoadRecord(l, fileId, Record(offset, Encode(c))) ==
            Ok(Load(ReplayRecord(l.index, fileId, offset, c), l.offset + RecordLen(c),
                    l.stale + if c.Rm? then RecordLen(c) else 0))
  {
    hide Decode, Encode, RecordLen;
    DecodeEncode(c, []);
    assert Encode(c) + [] == Encode(c);
  }

  /** What a file's records leave behind. */
  function Replayed(l: Load, fileId: nat, recs: seq<Command>): Load {
    Load(ReplayFile(l.index, fileId, recs), l.offset + Size(recs), l.stale + ReplayStale(recs))
  }

  lemma ReplayedAppend(l: Load, fileId: nat, recs: seq<Command>, c: Command)
    ensures var before := Replayed(l, fileId, recs);
            Replayed(l, fileId, recs + [c]) ==
            Load(ReplayRecord(before.index, fileId, Size(recs), c), before.offset + RecordLen(c),
                 before.stale + if c.Rm? then RecordLen(c) else 0)
  {
    hide RecordLen, ReplayRecord;
    assert (recs + [c])[..|recs|] == recs;
  }

  lemma PlacedEncodings(recs: seq<Command>, c: Command)
    ensures Placed(Encodings(recs + [c]), 0) == Placed(Encodings(recs), 0) + [Record(Size(recs), Encode(c))]
  {
    hide Encode, Encodings, Placed;
    EncodingsAppend(recs, c);
    PlacedAppend(Encodings(recs), Encode(c), 0);
    EncodeLogSize(recs);
  }

  lemma LoadAppend(l: Load, fileId: nat, rs: seq<RecordRead>, r: RecordRead)
    requires AllRecords(rs) && r.Record?
    ensures LoadRecords(l, fileId, rs + [r]) ==
            match LoadRecords(l, fileId, rs)
            case Ok(before) => LoadRecord(before, fileId, r)
            case Err(error) => Err(error)
  {
    hide LoadRecord;
    assert (rs + [r])[..|rs|] == rs;
  }

  lemma LoadNothing(l: Load, fileId: nat)
    ensures Placed(Encodings([]), 0) == [] && LoadRecords(l, fileId, []) == Ok(Replayed(l, fileId, []))
  {
  }

  lemma {:induction false} LoadEncoded(l: Load, fileId: nat, recs: seq<Command>)
    requires AllEncodable(recs)
    ensures AllRecords(Placed(Encodings(recs), 0))
    ensures LoadRecords(l, fileId, Placed(Encodings(recs), 0)) == Ok(Replayed(l, fileId, recs))
  {
    hide AllRecords, LoadRecord, LoadRecords, Encode, Encodings, Placed, Replayed, Encodable, ReplayRecord, RecordLen;
    PlacedRecords(Encodings(recs), 0);
    if recs == [] {
      LoadNothing(l, fileId);
    } else {
      var n := |recs| - 1;
      var before, c := recs[..n], recs[n];
      assert recs == before + [c];
      LoadEncoded(l, fileId, before);
      PlacedEncodings(before, c);
      LoadAppend(l, fileId, Placed(Encodings(before), 0), Record(Size(before), Encode(c)));
      LoadEncodedRecord(Replayed(l, fileId, before), fileId, Size(before), c);
      ReplayedAppend(l, fileId, before, c);
    }
  }

  /** Whole records and then part of one: the reader sees exactly the whole ones. */
  lemma ScanTornLog(recs: seq<Command>, c: Command, tail: seq<byte>)
    requires AllEncodable(recs) && Torn(tail, c)
    ensures Scan(EncodeLog(recs) + tail, 0) ==
            Scanned(Placed(Encodings(recs), 0), if tail == [] then CleanEof else TornTail(Size(recs)))
  {
    hide IsRecord, Encode, Encodings, Scan, Concat, Placed;
    var all := Encodings(recs) + [Encode(c)];
    EncodingsAreRecords(recs);
    EncodingIsRecord(c);
    assert all[..|recs|] == Encodings(recs);
    ConcatAppend(Encodings(recs), [Encode(c)]);
    ConcatOne(Encode(c));
    EncodeLogSize(recs);
    assert (EncodeLog(recs) + Encode(c))[..|EncodeLog(recs)| + |tail|] == EncodeLog(recs) + tail;
    ScanTruncated(all, |recs|, |tail|, 0);
  }

  /** Replaying a data file of the engine, cut anywhere behind `recs`. */
  lemma DataLoads(l: Load, fileId: nat, current: nat, recs: seq<Command>, c: Command, tail: seq<byte>)
    requires AllEncodable(recs) && Torn(tail, c) && (tail == [] || fileId == current)
    ensures LoadData(l, fileId, current, EncodeLog(recs) + tail) ==
            Ok((Replayed(l.(offset := 0), fileId, recs), if tail == [] then None else Some(Size(recs))))
  {
    hide Encodings, EncodeLog, Scan, LoadRecords, ReplayFile, ReplayStale, Encode, Placed;
    ScanTornLog(recs, c, tail);
    LoadEncoded(l.(offset := 0), fileId, recs);
  }

  // ---- hints of the engine ----

  /** One hint record per copied record, with its place in the output. */
  function HintRecords(fileId: nat, recs: seq<Command>): (s: seq<seq<byte>>)
    ensures |s| == |recs|
  {
    if recs == [] then []
    else
      var n := |recs| - 1;
      HintRecords(fileId, recs[..n]) + [Hints.Encode(recs[n].key, EntryFor(fileId, Size(recs[..n]), recs[n]))]
  }

  /** The bytes of the hint file of an output that holds `recs`. */
  function HintBytes(fileId: nat, recs: seq<Command>): seq<byte> {
    Concat(HintRecords(fileId, recs))
  }

  /** An output: only sets, each of which fits a hint record. */
  ghost predicate Hintable(recs: seq<Command>) {
    && Size(recs) < U64_END
    && forall i :: 0 <= i < |recs| ==> recs[i].Set? && Encodable(recs[i]) && |recs[i].key| + 28 < U32_END
  }

  lemma HintablePrefix(recs: seq<Command>, n: nat)
    requires Hintable(recs) && n <= |recs|
    ensures Hintable(recs[..n])
  {
    SizeConcat(recs[..n], recs[n..]);
    assert recs == recs[..n] + recs[n..];
  }

  lemma HintRecordsAppend(fileId: nat, recs: seq<Command>, c: Command)
    ensures HintRecords(fileId, recs + [c]) == HintRecords(fileId, recs) + [Hints.Encode(c.key, EntryFor(fileId, Size(recs), c))]
  {
    hide Size;
    assert (recs + [c])[..|recs|] == recs;
  }

  lemma {:induction false} HintRecordsPrefix(fileId: nat, recs: seq<Command>, n: nat)
    requires n <= |recs|
    ensures HintRecords(fileId, recs)[..n] == HintRecords(fileId, recs[..n])
  {
    hide HintRecords;
    if n == |recs| {
      assert recs[..n] == recs;
    } else {
      var m := |recs| - 1;
      HintRecordsPrefix(fileId, recs[..m], n);
      assert recs[..m][..n] == recs[..n];
      assert recs == recs[..m] + [recs[m]];
      HintRecordsAppend(fileId, recs[..m], recs[m]);
    }
  }

  lemma HintEncodable(fileId: nat, recs: seq<Command>, c: Command)
    requires Hintable(recs + [c])
    ensures Hintable(recs) && c.Set? && Hints.Encodable(c.key, EntryFor(fileId, Size(recs), c))
  {
    SizeAppend(recs, c);
    assert (recs + [c])[|recs|] == c && (recs + [c])[..|recs|] == recs;
    HintablePrefix(recs + [c], |recs|);
  }

  lemma HintIsRecord(key: Key, e: Entry)
    requires Hints.Encodable(key, e)
    ensures IsRecord(Hints.Encode(key, e))
  {
    hide IsRecord, Frame;
    FrameIsRecord(Hints.Body(key, e));
  }

  lemma {:induction false} HintRecordsAre(fileId: nat, recs: seq<Command>)
    requires Hintable(recs)
    ensures forall i :: 0 <= i < |recs| ==> IsRecord(HintRecords(fileId, recs)[i])
  {
    hide IsRecord, Hintable, Hints.Encode, Hints.Encodable;
    if recs != [] {
      var n := |recs| - 1;
      assert recs == recs[..n] + [recs[n]];
      HintEncodable(fileId, recs[..n], recs[n]);
      HintRecordsAre(fileId, recs[..n]);
      HintIsRecord(recs[n].key, EntryFor(fileId, Size(recs[..n]), recs[n]));
    }
  }

  lemma HintsAppend(index: Keydir, fileId: nat, rs: seq<RecordRead>, position: nat, key: Key, e: Entry)
    requires AllRecords(rs) && LoadHints(index, fileId, rs).ok && Hints.Encodable(key, e) && e.fileId == fileId
    ensures LoadHints(index, fileId, rs + [Record(position, Hints.Encode(key, e))]) ==
            HintLoad(LoadHints(index, fileId, rs).index[key := e], true)
  {
    hide Hints.Decode, Hints.Encode, Hints.Encodable;
    var r := Record(position, Hints.Encode(key, e));
    assert (rs + [r])[..|rs|] == rs;
    Hints.DecodeEncode(key, e, []);
    assert Hints.Encode(key, e) + [] == Hints.Encode(key, e);
  }

  /** Replaying an output through its hint is replaying its records. */
  lemma {:induction false} HintsLoad(index: Keydir, fileId: nat, recs: seq<Command>)
    requires Hintable(recs)
    ensures AllRecords(Placed(HintRecords(fileId, recs), 0))
    ensures LoadHints(index, fileId, Placed(HintRecords(fileId, recs), 0)) == HintLoad(ReplayFile(index, fileId, recs), true)
  {
    hide AllRecords, LoadHints, Hintable, HintRecords, Placed, Hints.Encode, Hints.Encodable, Size, RecordLen;
    PlacedRecords(HintRecords(fileId, recs), 0);
    if recs == [] {
      NoHints(index, fileId);
    } else {
      var n := |recs| - 1;
      var before, c := recs[..n], recs[n];
      var e := EntryFor(fileId, Size(before), c);
      assert recs == before + [c];
      HintEncodable(fileId, before, c);
      HintsLoad(index, fileId, before);
      HintRecordsAppend(fileId, before, c);
      var hs := HintRecords(fileId, before);
      PlacedAppend(hs, Hints.Encode(c.key, e), 0);
      HintsAppend(index, fileId, Placed(hs, 0), 0 + |Concat(hs)|, c.key, e);
    }
  }

  lemma NoHints(index: Keydir, fileId: nat)
    ensures Placed(HintRecords(fileId, []), 0) == [] && LoadHints(index, fileId, []) == HintLoad(index, true)
  {
  }

  /** A hint cut in or before record `whole`: the whole records count, a torn one makes it bad. */
  lemma HintCut(index: Keydir, fileId: nat, recs: seq<Command>, whole: nat, extra: nat)
    requires Hintable(recs) && whole <= |recs|
    requires if whole == |recs| then extra == 0 else extra < |HintRecords(fileId, recs)[whole]|
    ensures var n := |HintBytes(fileId, recs[..whole])| + extra;
            && n <= |HintBytes(fileId, recs)|
            && LoadHintFile(index, fileId, HintBytes(fileId, recs)[..n]) ==
               HintLoad(ReplayFile(index, fileId, recs[..whole]), extra == 0)
  {
    hide Hintable, HintRecords, LoadHints, Placed, Scan, Concat, IsRecord, ReplayFile, AllRecords;
    HintRecordsPrefix(fileId, recs, whole);
    HintRecordsAre(fileId, recs);
    ScanTruncated(HintRecords(fileId, recs), whole, extra, 0);
    HintablePrefix(recs, whole);
    HintsLoad(index, fileId, recs[..whole]);
  }

  // ---- hints against data ----

  ghost predicate SameAt(a: Keydir, b: Keydir, k: Key) {
    (k in a <==> k in b) && (k in a ==> a[k] == b[k])
  }

  /** What a file says about a key does not depend on the index before it. */
  lemma {:induction false} ReplayOverrides(a: Keydir, b: Keydir, fileId: nat, recs: seq<Command>, k: Key)
    requires Mentions(recs, k) || SameAt(a, b, k)
    ensures SameAt(ReplayFile(a, fileId, recs), ReplayFile(b, fileId, recs), k)
  {
    if recs != [] {
      hide Size;
      var n := |recs| - 1;
      if recs[n].key != k {
        if Mentions(recs, k) {
          var i :| 0 <= i < |recs| && recs[i].key == k;
          assert recs[..n][i].key == k;
        }
        ReplayOverrides(a, b, fileId, recs[..n], k);
      }
    }
  }

  /** Replaying a file again on top of some of its own records changes nothing. */
  lemma ReplayAgain(index: Keydir, fileId: nat, recs: seq<Command>, n: nat)
    requires n <= |recs|
    ensures ReplayFile(ReplayFile(index, fileId, recs[..n]), fileId, recs) == ReplayFile(index, fileId, recs)
  {
    hide ReplayFile;
    var part := ReplayFile(index, fileId, recs[..n]);
    var x, y := ReplayFile(part, fileId, recs), ReplayFile(index, fileId, recs);
    forall k ensures SameAt(x, y, k) {
      if !Mentions(recs, k) {
        assert !Mentions(recs[..n], k);
        ReplayFileMeans(index, fileId, recs[..n], k);
      }
      ReplayOverrides(part, index, fileId, recs, k);
    }
    SameEverywhere(x, y);
  }

  lemma SameEverywhere(a: Keydir, b: Keydir)
    requires forall k :: SameAt(a, b, k)
    ensures a == b
  {
    forall k ensures (k in a <==> k in b) && (k in a ==> a[k] == b[k]) {
      assert SameAt(a, b, k);
    }
    assert a.Keys == b.Keys;
  }

  /** A proper prefix of an output never replays like the whole. */
  lemma ReplayPrefixDiffers(index: Keydir, fileId: nat, recs: seq<Command>, n: nat)
    requires Hintable(recs) && n < |recs| && forall k :: k in index ==> index[k].fileId != fileId
    ensures ReplayFile(index, fileId, recs[..n]) != ReplayFile(index, fileId, recs)
  {
    var last := |recs| - 1;
    var c, part := recs[last], recs[..n];
    assert ReplayFile(index, fileId, recs)[c.key] == EntryFor(fileId, Size(recs[..last]), c);
    hide ReplayFile, Size, Lookup;
    var x := ReplayFile(index, fileId, part);
    ReplayFileMeans(index, fileId, part, c.key);
    if c.key in x && x[c.key].fileId == fileId {
      var e := x[c.key];
      var i :| 0 <= i < |part| && Size(part[..i]) == e.offset;
      assert part[..i] == recs[..i];
      OffsetsGrow(recs, i, last);
    }
  }

  /** The cut falls on a record boundary before the end. */
  ghost predicate OnBoundary(fileId: nat, recs: seq<Command>, n: nat) {
    exists p :: 0 <= p < |recs| && n == |HintBytes(fileId, recs[..p])|
  }

  lemma {:induction false} NoStaleSets(recs: seq<Command>)
    requires forall i :: 0 <= i < |recs| ==> recs[i].Set?
    ensures ReplayStale(recs) == 0
  {
    if recs != [] {
      NoStaleSets(recs[..|recs| - 1]);
    }
  }

  lemma WholeFileLoads(l: Load, fileId: nat, current: nat, recs: seq<Command>)
    requires AllEncodable(recs)
    ensures LoadData(l, fileId, current, EncodeLog(recs)) == Ok((Replayed(l.(offset := 0), fileId, recs), None))
  {
    hide LoadData, EncodeLog, Replayed;
    DataLoads(l, fileId, current, recs, Rm(0, []), []);
    assert EncodeLog(recs) + [] == EncodeLog(recs);
  }

  /**
   A sealed file whose hint was cut: its whole hint records count, and if the cut was inside
   a record the data file is read on top of them.
   */
  lemma CutHintLoads(l: Loaded, fileId: nat, current: nat, recs: seq<Command>, n: nat) returns (whole: nat)
    requires Hintable(recs) && fileId != current && l.torn.None? && n <= |HintBytes(fileId, recs)|
    ensures whole <= |recs|
    ensures var r := LoadFile(l, fileId, current, EncodeLog(recs), Some(HintBytes(fileId, recs)[..n]));
            && r.Ok? && r.value.torn.None? && r.value.load.stale == l.load.stale
            && l.badHints <= r.value.badHints <= l.badHints + {fileId}
            && r.value.load.index ==
               ReplayFile(l.load.index, fileId, if n == |HintBytes(fileId, recs[..whole])| then recs[..whole] else recs)
    ensures |HintBytes(fileId, recs[..whole])| <= n
    ensures whole < |recs| ==> n < |HintBytes(fileId, recs[..whole + 1])|
    ensures whole == |recs| ==> n == |HintBytes(fileId, recs[..whole])|
  {
    hide HintBytes, LoadHintFile, LoadData, EncodeLog, ReplayFile, ReplayStale, HintRecords, Hintable, AllEncodable, Size, OnBoundary;
    var extra: nat;
    whole, extra := HintCutAt(fileId, recs, n);
    HintableSets(recs);
    HintCut(l.load.index, fileId, recs, whole, extra);
    var part := ReplayFile(l.load.index, fileId, recs[..whole]);
    WholeFileLoads(l.load.(index := part), fileId, current, recs);
    ReplayAgain(l.load.index, fileId, recs, whole);
    var hint := HintBytes(fileId, recs)[..n];
    assert LoadHintFile(l.load.index, fileId, hint) == HintLoad(part, extra == 0);
  }

  lemma HintCutAt(fileId: nat, recs: seq<Command>, n: nat) returns (whole: nat, extra: nat)
    requires Hintable(recs) && n <= |HintBytes(fileId, recs)|
    ensures whole <= |recs| && n == |HintBytes(fileId, recs[..whole])| + extra
    ensures if whole == |recs| then extra == 0 else extra < |HintRecords(fileId, recs)[whole]|
    ensures whole < |recs| ==> n < |HintBytes(fileId, recs[..whole + 1])|
  {
    hide Hintable, HintRecords, Concat;
    HintRecordsAre(fileId, recs);
    var hs := HintRecords(fileId, recs);
    whole, extra := CutAt(hs, n);
    HintRecordsPrefix(fileId, recs, whole);
    if whole < |recs| {
      HintRecordsPrefix(fileId, recs, whole + 1);
      assert hs[..whole + 1] == hs[..whole] + [hs[whole]];
      ConcatAppend(hs[..whole], [hs[whole]]);
      ConcatOne(hs[whole]);
    }
  }

  lemma {:induction false} HintBytesGrow(fileId: nat, recs: seq<Command>, a: nat, b: nat)
    requires a < b <= |recs|
    ensures |HintBytes(fileId, recs[..a])| < |HintBytes(fileId, recs[..b])|
  {
    hide HintRecords, Concat, Hints.Encode;
    var before, c := recs[..b - 1], recs[b - 1];
    assert recs[..b] == before + [c];
    HintRecordsAppend(fileId, before, c);
    var h := Hints.Encode(c.key, EntryFor(fileId, Size(before), c));
    ConcatAppend(HintRecords(fileId, before), [h]);
    ConcatOne(h);
    if a < b - 1 {
      HintBytesGrow(fileId, recs, a, b - 1);
    }
  }

  /**
   A genuine hint, truncated anywhere, gives the same keydir as the data file unless the cut
   falls on a record boundary before its end; then it is accepted and keys are missing.
   */
  lemma HintTruncationExact(l: Loaded, fileId: nat, current: nat, recs: seq<Command>, n: nat)
    requires Hintable(recs) && fileId != current && l.torn.None? && n <= |HintBytes(fileId, recs)|
    requires forall k :: k in l.load.index ==> l.load.index[k].fileId != fileId
    ensures var byHint := LoadFile(l, fileId, current, EncodeLog(recs), Some(HintBytes(fileId, recs)[..n]));
            var byData := LoadFile(l, fileId, current, EncodeLog(recs), None);
            && byHint.Ok? && byData.Ok? && byHint.value.load.stale == byData.value.load.stale
            && byData.value.load.index == ReplayFile(l.load.index, fileId, recs)
            && (byHint.value.load.index == byData.value.load.index <==> !OnBoundary(fileId, recs, n))
  {
    hide LoadFile, HintBytes, EncodeLog, ReplayFile, Hintable;
    var whole := CutHintLoads(l, fileId, current, recs, n);
    HintableSets(recs);
    NoHintLoads(l, fileId, current, recs);
    BoundaryIs(fileId, recs, n, whole);
    if OnBoundary(fileId, recs, n) {
      ReplayPrefixDiffers(l.load.index, fileId, recs, whole);
    } else {
      assert recs[..|recs|] == recs;
    }
  }

  lemma BoundaryIs(fileId: nat, recs: seq<Command>, n: nat, whole: nat)
    requires whole <= |recs| && |HintBytes(fileId, recs[..whole])| <= n
    requires whole < |recs| ==> n < |HintBytes(fileId, recs[..whole + 1])|
    requires whole == |recs| ==> n == |HintBytes(fileId, recs[..whole])|
    ensures OnBoundary(fileId, recs, n) <==> whole < |recs| && n == |HintBytes(fileId, recs[..whole])|
  {
    hide HintBytes;
    if OnBoundary(fileId, recs, n) {
      var p :| 0 <= p < |recs| && n == |HintBytes(fileId, recs[..p])|;
      if p < whole {
        HintBytesGrow(fileId, recs, p, whole);
      } else if whole + 1 < p {
        HintBytesGrow(fileId, recs, whole + 1, p);
      }
    }
  }

  lemma NoHintLoads(l: Loaded, fileId: nat, current: nat, recs: seq<Command>)
    requires AllEncodable(recs)
    ensures LoadFile(l, fileId, current, EncodeLog(recs), None) ==
            Ok(Loaded(Replayed(l.load.(offset := 0), fileId, recs), None, l.badHints))
  {
    hide LoadData, EncodeLog, Replayed;
    WholeFileLoads(l.load, fileId, current, recs);
  }

  // ---- directories ----

  /** No hint, or the file's genuine one, whole or cut inside a record. */
  ghost predicate GoodHint(fileId: nat, recs: seq<Command>, hint: Option<seq<byte>>) {
    hint.Some? ==>
      && Hintable(recs)
      && |hint.value| <= |HintBytes(fileId, recs)| && hint.value == HintBytes(fileId, recs)[..|hint.value|]
      && !OnBoundary(fileId, recs, |hint.value|)
  }

  lemma SealedLoads(l: Loaded, fileId: nat, current: nat, recs: seq<Command>, hint: Option<seq<byte>>)
    requires AllEncodable(recs) && fileId != current && l.torn.None? && GoodHint(fileId, recs, hint)
    ensures var r := LoadFile(l, fileId, current, EncodeLog(recs), hint);
            && r.Ok? && r.value.torn.None?
            && l.badHints <= r.value.badHints <= l.badHints + {fileId}
            && r.value.load.index == ReplayFile(l.load.index, fileId, recs)
            && r.value.load.stale == l.load.stale + ReplayStale(recs)
  {
    hide LoadFile, HintBytes, EncodeLog, ReplayFile, Hintable;
    if hint.None? {
      NoHintLoads(l, fileId, current, recs);
    } else {
      var n := |hint.value|;
      var whole := CutHintLoads(l, fileId, current, recs, n);
      BoundaryIs(fileId, recs, n, whole);
      assert recs[..|recs|] == recs;
      HintableSets(recs);
    }
  }

  lemma HintableSets(recs: seq<Command>)
    requires Hintable(recs)
    ensures AllEncodable(recs) && ReplayStale(recs) == 0
  {
    NoStaleSets(recs);
  }
}
