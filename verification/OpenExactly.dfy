/**
 When `open` succeeds, for any directory whatever: exactly if every file is sound, its hint
 or its data, and it fails on everything else.
 */
module OpenExactly {
  import opened Bytes
  import opened Commands
  import opened Framing
  import opened RecordReader
  import opened Logs
  import Engine
  import opened RotateSteps
  import opened Recovery
  import opened Opening
  import opened Crashes
  import Hints

  // ---- any file is records and a rest ----

  function RecordBytes(rs: seq<RecordRead>): (s: seq<seq<byte>>)
    requires AllRecords(rs)
    ensures |s| == |rs| && forall i :: 0 <= i < |rs| ==> s[i] == rs[i].bytes
  {
    if rs == [] then [] else [rs[0].bytes] + RecordBytes(rs[1..])
  }

  /** What a scan found, told from the bytes: records in a row, and a rest that is not one. */
  ghost predicate SplitsAs(bytes: seq<byte>, start: nat, s: Scanned) {
    && AllRecords(s.records)
    && var rs := RecordBytes(s.records);
       var n := |Concat(rs)|;
       && n <= |bytes| && bytes[..n] == Concat(rs) && Placed(rs, start) == s.records
       && (forall i :: 0 <= i < |rs| ==> IsRecord(rs[i]))
       && Incomplete(bytes[n..])
       && s.end == if n == |bytes| then CleanEof else TornTail(start + n)
  }

  lemma ScanUnroll(bytes: seq<byte>, start: nat)
    ensures var r := ReadOne(bytes, start, start + |bytes|);
            Scan(bytes, start) ==
            if r.Record? then
              var tail := Scan(bytes[|r.bytes|..], start + |r.bytes|);
              Scanned([r] + tail.records, tail.end)
            else Scanned([], r)
  {
    hide ReadOne;
  }

  lemma {:induction false} ScanSplits(bytes: seq<byte>, start: nat)
    ensures SplitsAs(bytes, start, Scan(bytes, start))
    decreases |bytes|
  {
    hide FromLe, ReadOne, Scan, SplitsAs;
    ReadOneExactly(bytes, start, start + |bytes|);
    ScanUnroll(bytes, start);
    var r := ReadOne(bytes, start, start + |bytes|);
    if r.Record? {
      var n := |r.bytes|;
      ScanSplits(bytes[n..], start + n);
      SplitsMore(bytes, start, r.bytes, Scan(bytes[n..], start + n));
    } else {
      NothingSplits(bytes, start);
    }
  }

  lemma SplitsMore(bytes: seq<byte>, start: nat, r: seq<byte>, s: Scanned)
    requires |r| <= |bytes| && r == bytes[..|r|] && |bytes| >= 8 && |r| == 8 + FromLe(bytes[4..8])
    requires SplitsAs(bytes[|r|..], start + |r|, s)
    ensures SplitsAs(bytes, start, Scanned([Record(start, r)] + s.records, s.end))
  {
    hide FromLe, Incomplete;
    var all := [Record(start, r)] + s.records;
    assert all[1..] == s.records;
    var rs := RecordBytes(s.records);
    assert RecordBytes(all) == [r] + rs;
    Unroll([r] + rs, start);
    assert ([r] + rs)[1..] == rs;
    assert r[4..8] == bytes[4..8];
    var n := |Concat(rs)|;
    assert bytes[..|r| + n] == r + bytes[|r|..][..n];
    assert bytes[|r| + n..] == bytes[|r|..][n..];
  }

  lemma NothingSplits(bytes: seq<byte>, start: nat)
    requires Incomplete(bytes)
    ensures SplitsAs(bytes, start, Scanned([], if bytes == [] then CleanEof else TornTail(start)))
  {
    hide FromLe;
    assert bytes[0..] == bytes;
  }

  // ---- data files ----

  /** The bytes are the records `recs` and a rest that no record starts with. */
  ghost predicate Holding(bytes: seq<byte>, recs: seq<Command>, rest: seq<byte>) {
    AllEncodable(recs) && Incomplete(rest) && bytes == EncodeLog(recs) + rest
  }

  lemma {:induction false} LoadsIfDecodes(l: Load, fileId: nat, rs: seq<RecordRead>)
    requires AllRecords(rs)
    ensures LoadRecords(l, fileId, rs).Ok? <==> forall i :: 0 <= i < |rs| ==> Decode(rs[i].bytes).Ok?
  {
    hide Decode;
    if rs != [] {
      LoadsIfDecodes(l, fileId, rs[..|rs| - 1]);
    }
  }

  /** The commands of records that all decode. */
  function DecodeAll(rs: seq<seq<byte>>): (recs: seq<Command>)
    requires forall i :: 0 <= i < |rs| ==> Decode(rs[i]).Ok?
    ensures |recs| == |rs|
  {
    hide Decode;
    if rs == [] then [] else DecodeAll(rs[..|rs| - 1]) + [Decode(rs[|rs| - 1]).value.0]
  }

  /** A record that decodes is exactly the encoding of its command. */
  lemma DecodedRecord(r: seq<byte>)
    requires IsRecord(r) && Decode(r).Ok?
    ensures Encodable(Decode(r).value.0) && Encode(Decode(r).value.0) == r
  {
    hide FromLe, Crc32.Hash, Encode, ParseBody;
    DecodeCanonical(r);
    assert r[..|r|] == r;
  }

  lemma {:induction false} DecodedRecords(rs: seq<seq<byte>>)
    requires forall i :: 0 <= i < |rs| ==> IsRecord(rs[i]) && Decode(rs[i]).Ok?
    ensures AllEncodable(DecodeAll(rs)) && Encodings(DecodeAll(rs)) == rs
  {
    hide IsRecord, Decode, Encode, Encodable;
    if rs != [] {
      var n := |rs| - 1;
      DecodedRecords(rs[..n]);
      DecodedRecord(rs[n]);
      EncodingsAppend(DecodeAll(rs[..n]), Decode(rs[n]).value.0);
    }
  }

  /** Reading back `recs` and a rest finds exactly those records. */
  lemma HoldingScans(bytes: seq<byte>, recs: seq<Command>, rest: seq<byte>)
    requires Holding(bytes, recs, rest)
    ensures Scan(bytes, 0) == Scanned(Placed(Encodings(recs), 0), if rest == [] then CleanEof else TornTail(Size(recs)))
  {
    hide IsRecord, Encode, Encodings, Scan, Concat, Placed, Incomplete;
    EncodingsAreRecords(recs);
    EncodeLogSize(recs);
    ScanAfter(Encodings(recs), rest, 0);
  }

  lemma {:induction false} ScanAfter(rs: seq<seq<byte>>, rest: seq<byte>, start: nat)
    requires Incomplete(rest) && forall i :: 0 <= i < |rs| ==> IsRecord(rs[i])
    ensures Scan(Concat(rs) + rest, start) ==
            Scanned(Placed(rs, start), if rest == [] then CleanEof else TornTail(start + |Concat(rs)|))
    decreases |rs|
  {
    hide FromLe, IsRecord, Scan, Concat, Placed, Incomplete;
    if rs == [] {
      ScanRest(rs, rest, start);
    } else {
      var tail := Concat(rs[1..]) + rest;
      Unroll(rs, start);
      assert Concat(rs) + rest == rs[0] + tail;
      ScanWholeRecord(rs[0], tail, start);
      ScanAfter(rs[1..], rest, start + |rs[0]|);
    }
  }

  lemma ScanRest(rs: seq<seq<byte>>, rest: seq<byte>, start: nat)
    requires rs == [] && Incomplete(rest)
    ensures Concat(rs) == [] && Placed(rs, start) == []
    ensures Scan(Concat(rs) + rest, start) == Scanned([], if rest == [] then CleanEof else TornTail(start))
  {
    hide FromLe, ReadOne;
    assert Concat(rs) + rest == rest;
    ReadOneExactly(rest, start, start + |rest|);
  }

  /**
   A data file loads exactly if it is whole decodable records, followed in the active file by
   a rest that is no record; then it leaves those records' keydir, offset, stale count and
   cut. A rest anywhere else is corruption.
   */
  lemma LoadDataExactly(l: Load, fileId: nat, current: nat, bytes: seq<byte>)
    ensures LoadData(l, fileId, current, bytes).Ok? <==>
              exists recs, rest :: Holding(bytes, recs, rest) && (rest == [] || fileId == current)
    ensures forall recs, rest :: Holding(bytes, recs, rest) ==>
              LoadData(l, fileId, current, bytes) ==
              if rest != [] && fileId != current then Err(Corruption)
              else Ok((Replayed(l.(offset := 0), fileId, recs), if rest == [] then None else Some(Size(recs))))
  {
    hide LoadRecords, Scan, Incomplete, EncodeLog, Replayed, Holding;
    forall recs, rest | Holding(bytes, recs, rest)
      ensures LoadData(l, fileId, current, bytes) ==
              if rest != [] && fileId != current then Err(Corruption)
              else Ok((Replayed(l.(offset := 0), fileId, recs), if rest == [] then None else Some(Size(recs))))
    {
      HoldingLoads(l, fileId, current, bytes, recs, rest);
    }
    if LoadData(l, fileId, current, bytes).Ok? {
      var recs, rest := LoadedHolds(l, fileId, bytes);
    }
  }

  lemma HoldingLoads(l: Load, fileId: nat, current: nat, bytes: seq<byte>, recs: seq<Command>, rest: seq<byte>)
    requires Holding(bytes, recs, rest)
    ensures LoadData(l, fileId, current, bytes) ==
            if rest != [] && fileId != current then Err(Corruption)
            else Ok((Replayed(l.(offset := 0), fileId, recs), if rest == [] then None else Some(Size(recs))))
  {
    HoldingScans(bytes, recs, rest);
    LoadEncoded(l.(offset := 0), fileId, recs);
    hide LoadRecords, Scan, Holding, ReplayFile, ReplayStale, Size, Placed, Encodings;
  }

  lemma LoadedHolds(l: Load, fileId: nat, bytes: seq<byte>) returns (recs: seq<Command>, rest: seq<byte>)
    requires LoadRecords(l.(offset := 0), fileId, Scan(bytes, 0).records).Ok?
    ensures Holding(bytes, recs, rest)
  {
    hide LoadRecords, Scan, Incomplete, IsRecord, Decode, Encode, Encodings, Concat, Placed;
    ScanSplits(bytes, 0);
    var s := Scan(bytes, 0);
    LoadsIfDecodes(l.(offset := 0), fileId, s.records);
    var rs := RecordBytes(s.records);
    DecodedRecords(rs);
    recs := DecodeAll(rs);
    rest := bytes[|Concat(rs)|..];
    assert bytes == bytes[..|Concat(rs)|] + rest;
  }

  // ---- hint files ----

  ghost predicate HintsOf(fileId: nat, hs: seq<Engine.HintRecord>) {
    forall i :: 0 <= i < |hs| ==> Hints.Encodable(hs[i].key, hs[i].entry) && hs[i].entry.fileId == fileId
  }

  /** The bytes are exactly these hint records. */
  ghost predicate HoldingHints(bytes: seq<byte>, fileId: nat, hs: seq<Engine.HintRecord>) {
    HintsOf(fileId, hs) && bytes == HintFile(hs)
  }

  function InsertAll(index: Keydir, hs: seq<Engine.HintRecord>): Keydir {
    if hs == [] then index else InsertAll(index, hs[..|hs| - 1])[hs[|hs| - 1].key := hs[|hs| - 1].entry]
  }

  lemma {:induction false} HintsIfDecode(index: Keydir, fileId: nat, rs: seq<RecordRead>)
    requires AllRecords(rs)
    ensures LoadHints(index, fileId, rs).ok <==> forall i :: 0 <= i < |rs| ==> Hints.Decode(rs[i].bytes, fileId).Ok?
  {
    hide Hints.Decode;
    if rs != [] {
      HintsIfDecode(index, fileId, rs[..|rs| - 1]);
    }
  }

  function DecodeHints(rs: seq<seq<byte>>, fileId: nat): (hs: seq<Engine.HintRecord>)
    requires forall i :: 0 <= i < |rs| ==> Hints.Decode(rs[i], fileId).Ok?
    ensures |hs| == |rs|
  {
    hide Hints.Decode;
    if rs == [] then []
    else
      var last := Hints.Decode(rs[|rs| - 1], fileId).value;
      DecodeHints(rs[..|rs| - 1], fileId) + [Engine.HintRecord(last.0, last.1)]
  }

  lemma DecodedHint(r: seq<byte>, fileId: nat)
    requires IsRecord(r) && Hints.Decode(r, fileId).Ok?
    ensures var h := Hints.Decode(r, fileId).value;
            Hints.Encodable(h.0, h.1) && h.1.fileId == fileId && Hints.Encode(h.0, h.1) == r
  {
    hide FromLe, Crc32.Hash, Hints.Encode, Hints.ParseBody;
    Hints.DecodeCanonical(r, fileId);
    assert r[..|r|] == r;
  }

  lemma DecodeHintsStep(rs: seq<seq<byte>>, fileId: nat)
    requires forall i :: 0 <= i < |rs| ==> Hints.Decode(rs[i], fileId).Ok?
    ensures rs == [] ==> DecodeHints(rs, fileId) == [] && EncodeHints([]) == []
    ensures rs != [] ==>
              var h := Hints.Decode(rs[|rs| - 1], fileId).value;
              DecodeHints(rs, fileId) == DecodeHints(rs[..|rs| - 1], fileId) + [Engine.HintRecord(h.0, h.1)]
  {
    hide Hints.Decode;
  }

  lemma {:induction false} DecodedHints(rs: seq<seq<byte>>, fileId: nat)
    requires forall i :: 0 <= i < |rs| ==> IsRecord(rs[i]) && Hints.Decode(rs[i], fileId).Ok?
    ensures HintsOf(fileId, DecodeHints(rs, fileId)) && EncodeHints(DecodeHints(rs, fileId)) == rs
  {
    hide IsRecord, Hints.Decode, Hints.Encode, Hints.Encodable, EncodeHints, DecodeHints;
    DecodeHintsStep(rs, fileId);
    if rs != [] {
      var n := |rs| - 1;
      DecodedHints(rs[..n], fileId);
      DecodedHint(rs[n], fileId);
      var h := Hints.Decode(rs[n], fileId).value;
      EncodeHintsAppend(DecodeHints(rs[..n], fileId), Engine.HintRecord(h.0, h.1));
      assert rs == rs[..n] + [rs[n]];
    }
  }

  lemma {:induction false} HintsAreRecords(hs: seq<Engine.HintRecord>, fileId: nat)
    requires HintsOf(fileId, hs)
    ensures forall i :: 0 <= i < |hs| ==> IsRecord(EncodeHints(hs)[i])
  {
    hide IsRecord, Hints.Encode, Hints.Encodable;
    if hs != [] {
      var n := |hs| - 1;
      HintsAreRecords(hs[..n], fileId);
      HintIsRecord(hs[n].key, hs[n].entry);
    }
  }

  lemma {:induction false} LoadAllHints(index: Keydir, fileId: nat, hs: seq<Engine.HintRecord>)
    requires HintsOf(fileId, hs)
    ensures AllRecords(Placed(EncodeHints(hs), 0))
    ensures LoadHints(index, fileId, Placed(EncodeHints(hs), 0)) == HintLoad(InsertAll(index, hs), true)
  {
    hide AllRecords, LoadHints, EncodeHints, Placed, Hints.Encode, Hints.Encodable;
    PlacedRecords(EncodeHints(hs), 0);
    if hs == [] {
      NoHintsLoaded(index, fileId);
    } else {
      var n := |hs| - 1;
      var before, h := hs[..n], hs[n];
      assert hs == before + [h];
      LoadAllHints(index, fileId, before);
      EncodeHintsAppend(before, h);
      PlacedAppend(EncodeHints(before), Hints.Encode(h.key, h.entry), 0);
      HintsAppend(index, fileId, Placed(EncodeHints(before), 0), 0 + |Concat(EncodeHints(before))|, h.key, h.entry);
    }
  }

  lemma NoHintsLoaded(index: Keydir, fileId: nat)
    ensures Placed(EncodeHints([]), 0) == [] && LoadHints(index, fileId, []) == HintLoad(index, true)
  {
  }

  /**
   A hint file is used exactly if it is whole decodable hint records to its end; then each of
   them goes into the keydir.
   */
  lemma LoadHintsExactly(index: Keydir, fileId: nat, bytes: seq<byte>)
    ensures LoadHintFile(index, fileId, bytes).ok <==> exists hs :: HoldingHints(bytes, fileId, hs)
    ensures forall hs :: HoldingHints(bytes, fileId, hs) ==> LoadHintFile(index, fileId, bytes) == HintLoad(InsertAll(index, hs), true)
  {
    hide LoadHintFile, HoldingHints, InsertAll;
    forall hs | HoldingHints(bytes, fileId, hs) ensures LoadHintFile(index, fileId, bytes) == HintLoad(InsertAll(index, hs), true) {
      HeldHintsLoad(index, fileId, bytes, hs);
    }
    if LoadHintFile(index, fileId, bytes).ok {
      var hs := LoadedHints(index, fileId, bytes);
    }
  }

  lemma HeldHintsLoad(index: Keydir, fileId: nat, bytes: seq<byte>, hs: seq<Engine.HintRecord>)
    requires HoldingHints(bytes, fileId, hs)
    ensures LoadHintFile(index, fileId, bytes) == HintLoad(InsertAll(index, hs), true)
  {
    hide LoadHints, Scan, IsRecord, EncodeHints, Placed, Concat, InsertAll, HintsOf;
    HintsAreRecords(hs, fileId);
    ScanWhole(EncodeHints(hs), 0);
    LoadAllHints(index, fileId, hs);
  }

  lemma LoadedHints(index: Keydir, fileId: nat, bytes: seq<byte>) returns (hs: seq<Engine.HintRecord>)
    requires LoadHintFile(index, fileId, bytes).ok
    ensures HoldingHints(bytes, fileId, hs)
  {
    hide LoadHints, Scan, Incomplete, IsRecord, Hints.Decode, Hints.Encode, EncodeHints, Concat, Placed, HintsOf;
    ScanSplits(bytes, 0);
    var s := Scan(bytes, 0);
    HintsIfDecode(index, fileId, s.records);
    var rs := RecordBytes(s.records);
    DecodedHints(rs, fileId);
    hs := DecodeHints(rs, fileId);
    assert bytes[..|bytes|] == bytes;
  }

  // ---- directories ----

  ghost predicate HintSound(hints: map<nat, seq<byte>>, id: nat) {
    id in hints && exists hs :: HoldingHints(hints[id], id, hs)
  }

  ghost predicate DataSound(bytes: seq<byte>, id: nat, current: nat) {
    exists recs, rest :: Holding(bytes, recs, rest) && (rest == [] || id == current)
  }

  /** The file has a hint that will do, or its data will. */
  ghost predicate FileSound(data: map<nat, seq<byte>>, hints: map<nat, seq<byte>>, current: nat, id: nat) {
    (id != current && HintSound(hints, id)) || (id in data && DataSound(data[id], id, current))
  }

  lemma LoadFileExactly(l: Loaded, data: map<nat, seq<byte>>, hints: map<nat, seq<byte>>, current: nat, id: nat)
    requires id in data && l.torn.None?
    ensures var r := LoadFile(l, id, current, data[id], HintOf(hints, id));
            && (r.Ok? <==> FileSound(data, hints, current, id))
            && (r.Ok? ==> r.value.badHints == l.badHints + (if id != current && id in hints && !HintSound(hints, id) then {id} else {}))
            && (r.Ok? && r.value.torn.Some? ==> id == current)
  {
    hide LoadHintFile, LoadData, Holding, HoldingHints;
    if id in hints {
      LoadHintsExactly(l.load.index, id, hints[id]);
      LoadDataExactly(l.load.(index := LoadHintFile(l.load.index, id, hints[id]).index), id, current, data[id]);
      TornOnlyAtCurrent(l.load.(index := LoadHintFile(l.load.index, id, hints[id]).index), id, current, data[id]);
    }
    LoadDataExactly(l.load, id, current, data[id]);
    TornOnlyAtCurrent(l.load, id, current, data[id]);
  }

  lemma TornOnlyAtCurrent(l: Load, id: nat, current: nat, bytes: seq<byte>)
    ensures LoadData(l, id, current, bytes).Ok? && LoadData(l, id, current, bytes).value.1.Some? ==> id == current
  {
    hide LoadRecords, Scan;
  }

  /** All files below `hi` are sound, and only the active one may end the replay. */
  ghost predicate LoadedBelow(r: Result<Loaded>, data: map<nat, seq<byte>>, hints: map<nat, seq<byte>>, current: nat, hi: nat) {
    && (r.Ok? <==> forall id :: id in data && id < hi ==> FileSound(data, hints, current, id))
    && (r.Ok? ==> (forall id :: id in r.value.badHints <==> id in data && id < hi && id != current && id in hints && !HintSound(hints, id)))
    && (r.Ok? && r.value.torn.Some? ==> current < hi)
  }

  lemma {:induction false} FilesExactly(data: map<nat, seq<byte>>, hints: map<nat, seq<byte>>, current: nat, hi: nat)
    requires hi <= current + 1
    ensures forall id :: id in Sorted(data.Keys, hi) ==> id in data
    ensures LoadedBelow(LoadFiles(data, hints, current, Sorted(data.Keys, hi)), data, hints, current, hi)
  {
    SortedMembers(data.Keys, hi);
    hide LoadFiles, LoadedBelow;
    if hi == 0 {
      NoFilesLoaded(data, hints, current);
    } else {
      var id := hi - 1;
      var below := Sorted(data.Keys, id);
      FilesExactly(data, hints, current, id);
      if id in data {
        OneMoreFile(data, hints, current, below, id);
      } else {
        assert below + [] == below;
        OneMissingId(LoadFiles(data, hints, current, below), data, hints, current, id);
      }
    }
  }

  lemma OneMoreFile(data: map<nat, seq<byte>>, hints: map<nat, seq<byte>>, current: nat, below: seq<nat>, id: nat)
    requires id in data && id <= current && forall i :: i in below ==> i in data
    requires LoadedBelow(LoadFiles(data, hints, current, below), data, hints, current, id)
    ensures LoadedBelow(LoadFiles(data, hints, current, below + [id]), data, hints, current, id + 1)
  {
    hide LoadFile, LoadFiles, FileSound, HintSound;
    var before := LoadFiles(data, hints, current, below);
    if before.Ok? {
      LoadFilesAppend(data, hints, current, below, id);
      LoadFileExactly(before.value, data, hints, current, id);
      JustOneMore(before, LoadFiles(data, hints, current, below + [id]), data, hints, current, id);
    } else {
      FilesFail(data, hints, current, below, id);
    }
  }

  lemma JustOneMore(before: Result<Loaded>, r: Result<Loaded>, data: map<nat, seq<byte>>, hints: map<nat, seq<byte>>, current: nat, id: nat)
    requires before.Ok? && LoadedBelow(before, data, hints, current, id) && id in data
    requires r.Ok? <==> FileSound(data, hints, current, id)
    requires r.Ok? ==> r.value.badHints == before.value.badHints + (if id != current && id in hints && !HintSound(hints, id) then {id} else {})
    requires r.Ok? && r.value.torn.Some? ==> id == current
    ensures LoadedBelow(r, data, hints, current, id + 1)
  {
    hide FileSound, HintSound;
  }

  lemma OneMissingId(r: Result<Loaded>, data: map<nat, seq<byte>>, hints: map<nat, seq<byte>>, current: nat, id: nat)
    requires id !in data && LoadedBelow(r, data, hints, current, id)
    ensures LoadedBelow(r, data, hints, current, id + 1)
  {
    hide FileSound, HintSound;
  }

  lemma FilesFail(data: map<nat, seq<byte>>, hints: map<nat, seq<byte>>, current: nat, ids: seq<nat>, id: nat)
    requires id in data && (forall i :: i in ids ==> i in data) && LoadFiles(data, hints, current, ids).Err?
    ensures LoadFiles(data, hints, current, ids + [id]).Err?
  {
    hide LoadFile;
    assert (ids + [id])[..|ids|] == ids;
  }

  lemma NoFilesLoaded(data: map<nat, seq<byte>>, hints: map<nat, seq<byte>>, current: nat)
    ensures LoadedBelow(LoadFiles(data, hints, current, []), data, hints, current, 0)
  {
  }

  /**
   For any directory: `open` succeeds if and only if every data file is sound, by a hint that
   is whole records or by its data, where only the active file may end in a rest. Then the
   hints that did not do are removed and the others stay, and nothing else is left over.
   */
  lemma OpensExactly(disk: Disk, current: nat)
    requires IsCurrent(disk.data.Keys, current)
    ensures var data, hints := WithCurrent(disk.data, current), LinkedHints(disk);
            && (OpenAt(disk, current).Ok? <==> forall id :: id in data ==> FileSound(data, hints, current, id))
            && (OpenAt(disk, current).Ok? ==>
                  var o := OpenAt(disk, current).value;
                  && o.disk.compacts == {} && o.current == current && o.disk.data.Keys == data.Keys
                  && forall id :: id in o.disk.hints <==> id in hints && (id == current || HintSound(hints, id)))
  {
    hide LoadFiles, FileSound, HintSound, Sorted;
    var data, hints := WithCurrent(disk.data, current), LinkedHints(disk);
    SortedMembers(data.Keys, current + 1);
    FilesExactly(data, hints, current, current + 1);
  }

  /** Without hints: every file below the active one is whole records, and that one may have a rest. */
  lemma DataOnlyOpensExactly(disk: Disk, current: nat)
    requires IsCurrent(disk.data.Keys, current) && disk.hints == map[] && current in disk.data
    ensures OpenAt(disk, current).Ok? <==>
              forall id :: id in disk.data ==>
                exists recs, rest :: Holding(disk.data[id], recs, rest) && (rest == [] || id == current)
  {
    hide OpenAt, Holding;
    OpensExactly(disk, current);
    var data := WithCurrent(disk.data, current);
    assert LinkedHints(disk) == map[];
    assert forall id :: id in data ==> (FileSound(data, map[], current, id) <==> DataSound(data[id], id, current));
  }

  /** An empty directory opens to an empty store on file 1, whatever leftovers there are. */
  lemma EmptyOpens(hints: map<nat, seq<byte>>, compacts: set<nat>)
    ensures OpenAt(Disk(map[], hints, compacts), 1) == Ok(Opened(Disk(map[1 := []], map[], {}), map[], 1, 0, 0))
  {
    hide LoadFiles, Sorted;
    var disk := Disk(map[], hints, compacts);
    var data := WithCurrent(disk.data, 1);
    assert data == map[1 := []] && data.Keys == {1} && LinkedHints(disk) == map[];
    OnlyFileOne();
    EmptyFileLoads();
  }

  lemma OnlyFileOne()
    ensures Sorted({1}, 2) == [1]
  {
    assert Sorted({1}, 0) == [] && Sorted({1}, 1) == [];
  }

  lemma EmptyFileLoads()
    ensures LoadFiles(map[1 := []], map[], 1, [1]) == Ok(Loaded(Load(map[], 0, 0), None, {}))
  {
    hide LoadData;
    assert LoadData(Load(map[], 0, 0), 1, 1, []) == Ok((Load(map[], 0, 0), None)) by {
      EmptyDataLoads();
    }
    assert [1][..0] == [];
  }

  lemma EmptyDataLoads()
    ensures LoadData(Load(map[], 0, 0), 1, 1, []) == Ok((Load(map[], 0, 0), None))
  {
    hide LoadData, EncodeLog;
    EncodeLogEmpty();
    assert Holding([], [], []);
    LoadDataExactly(Load(map[], 0, 0), 1, 1, []);
  }

  /** A sealed file cut inside a record, without a good hint, makes open fail. */
  lemma TornSealedFails(disk: Disk, current: nat, id: nat, recs: seq<Command>, c: Command, tail: seq<byte>)
    requires IsCurrent(disk.data.Keys, current) && id in disk.data && id != current
    requires AllEncodable(recs) && Torn(tail, c) && tail != [] && disk.data[id] == EncodeLog(recs) + tail
    requires !HintSound(LinkedHints(disk), id)
    ensures OpenAt(disk, current).Err?
    ensures forall l :: LoadData(l, id, current, disk.data[id]) == Err(Corruption)
  {
    hide OpenAt, LoadData, EncodeLog, HintSound;
    TornIsIncomplete(tail, c);
    assert Holding(disk.data[id], recs, tail);
    forall l ensures LoadData(l, id, current, disk.data[id]) == Err(Corruption) {
      LoadDataExactly(l, id, current, disk.data[id]);
    }
    LoadDataExactly(Load(map[], 0, 0), id, current, disk.data[id]);
    OpensExactly(disk, current);
    assert !DataSound(disk.data[id], id, current);
  }

  lemma TornIsIncomplete(tail: seq<byte>, c: Command)
    requires Torn(tail, c)
    ensures Incomplete(tail)
  {
    hide FromLe, Encode;
    EncodingIsRecord(c);
    var r := Encode(c);
    if |tail| >= 8 {
      assert tail[4..8] == r[4..8];
    }
  }

  /** A whole record that does not decode, in a file without a good hint, makes open fail. */
  lemma BadRecordFails(disk: Disk, current: nat, id: nat, before: seq<seq<byte>>, bad: seq<byte>, after: seq<byte>)
    requires IsCurrent(disk.data.Keys, current) && id in disk.data && (id == current || !HintSound(LinkedHints(disk), id))
    requires forall i :: 0 <= i < |before| ==> IsRecord(before[i])
    requires IsRecord(bad) && Decode(bad).Err? && disk.data[id] == Concat(before) + (bad + after)
    ensures OpenAt(disk, current).Err?
  {
    hide OpenAt, LoadData, HintSound, IsRecord, Decode, Concat, Holding;
    OpensExactly(disk, current);
    if DataSound(disk.data[id], id, current) {
      var recs, rest :| Holding(disk.data[id], recs, rest) && (rest == [] || id == current);
      LoadDataExactly(Load(map[], 0, 0), id, current, disk.data[id]);
      BadRecordStops(Load(map[], 0, 0), id, before, bad, after);
      LoadDataNeedsRecords(Load(map[], 0, 0), id, current, disk.data[id]);
    }
  }

  lemma LoadDataNeedsRecords(l: Load, id: nat, current: nat, bytes: seq<byte>)
    requires l.offset == 0 && LoadData(l, id, current, bytes).Ok?
    ensures LoadRecords(l, id, Scan(bytes, 0).records).Ok?
  {
    hide LoadRecords, Scan;
    assert l.(offset := 0) == l;
  }

  lemma BadRecordStops(l: Load, id: nat, before: seq<seq<byte>>, bad: seq<byte>, after: seq<byte>)
    requires forall i :: 0 <= i < |before| ==> IsRecord(before[i])
    requires IsRecord(bad) && Decode(bad).Err?
    ensures LoadRecords(l, id, Scan(Concat(before) + (bad + after), 0).records).Err?
  {
    hide IsRecord, Decode, Concat, Scan, LoadRecords;
    var s := Scan(Concat(before) + (bad + after), 0);
    ScanReaches(before, bad, after, 0);
    LoadsIfDecodes(l, id, s.records);
    assert s.records[|before|].bytes == bad;
  }

  lemma {:induction false} ScanReaches(before: seq<seq<byte>>, bad: seq<byte>, after: seq<byte>, start: nat)
    requires IsRecord(bad) && forall i :: 0 <= i < |before| ==> IsRecord(before[i])
    ensures var s := Scan(Concat(before) + (bad + after), start);
            |s.records| > |before| && s.records[|before|].Record? && s.records[|before|].bytes == bad
    decreases |before|
  {
    hide IsRecord, Scan, Concat;
    if before == [] {
      NoBytes(before);
      assert Concat(before) + (bad + after) == bad + after;
      ScanWholeRecord(bad, after, start);
    } else {
      var tail := Concat(before[1..]) + (bad + after);
      Unroll(before, start);
      assert Concat(before) + (bad + after) == before[0] + tail;
      ScanWholeRecord(before[0], tail, start);
      ScanReaches(before[1..], bad, after, start + |before[0]|);
    }
  }

  lemma NoBytes(rs: seq<seq<byte>>)
    requires rs == []
    ensures Concat(rs) == []
  {
  }
}
