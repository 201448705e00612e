/**
 `open` and `Loader::replay` in the code's own shape: loops over the directory listing, the
 files and their records that update the keydir and the writer state in place.
 */
module Loader {
  import opened Bytes
  import opened Commands
  import opened RecordReader
  import opened Logs
  import opened Index
  import opened Recovery
  import opened Opening
  import opened RotateSteps
  import Hints
  import Invariants

  /** A directory entry, its file name already taken apart. */
  datatype Name = DataName(id: nat) | CompactName(id: nat) | HintName(id: nat)

  ghost predicate OnDisk(disk: Disk, name: Name) {
    match name
    case DataName(id) => id in disk.data
    case CompactName(id) => id in disk.compacts
    case HintName(id) => id in disk.hints
  }

  /** A listing names what is in the directory, in any order. */
  ghost predicate Lists(listing: seq<Name>, disk: Disk) {
    forall name :: name in listing <==> OnDisk(disk, name)
  }

  lemma ScanStep(bytes: seq<byte>, done: seq<RecordRead>, rest: seq<byte>, position: nat)
    requires Scan(bytes, 0) == Scanned(done + Scan(rest, position).records, Scan(rest, position).end)
    ensures var r := ReadOne(rest, position, position + |rest|);
            && (r.Record? ==>
                  var tail := Scan(rest[|r.bytes|..], position + |r.bytes|);
                  Scan(bytes, 0) == Scanned((done + [r]) + tail.records, tail.end))
            && (!r.Record? ==> Scan(bytes, 0) == Scanned(done, r))
  {
    hide ReadOne;
    var r := ReadOne(rest, position, position + |rest|);
    if r.Record? {
      var tail := Scan(rest[|r.bytes|..], position + |r.bytes|);
      assert done + ([r] + tail.records) == (done + [r]) + tail.records;
    } else {
      assert done + [] == done;
    }
  }

  class Loader {
    var disk: Disk
    const index: Index
    var current: nat
    var offset: nat
    var stale: nat

    ghost predicate Valid()
      reads this, index
    {
      index.Valid()
    }

    /** What the replay has accumulated. */
    ghost function State(): Load
      reads this, index
    {
      Load(index.contents, offset, stale)
    }

    constructor (disk: Disk)
      ensures Valid() && fresh(index) && this.disk == disk && State() == Load(map[], 0, 0) && current == 1
    {
      this.disk := disk;
      index := new Index();
      current, offset, stale := 1, 0, 0;
    }

    /** One hint file; a record that does not decode or a torn tail makes it bad. */
    method ReplayHint(fileId: nat, bytes: seq<byte>) returns (ok: bool)
      requires Valid()
      modifies index
      ensures Valid() && HintLoad(index.contents, ok) == LoadHintFile(old(index.contents), fileId, bytes)
    {
      hide ReadOne, Scan, Hints.Decode, LoadHints;
      var reader := new Reader(bytes, |bytes|);
      ghost var done: seq<RecordRead> := [];
      NoRecords(index.contents, fileId);
      assert done + Scan(bytes, 0).records == Scan(bytes, 0).records;
      while true
        invariant Valid() && reader.Valid() && reader.position + |reader.rest| == reader.fileLen
        invariant AllRecords(done)
        invariant Scan(bytes, 0) == Scanned(done + Scan(reader.rest, reader.position).records, Scan(reader.rest, reader.position).end)
        invariant LoadHints(old(index.contents), fileId, done) == HintLoad(index.contents, true)
        decreases |reader.rest|
      {
        ScanStep(bytes, done, reader.rest, reader.position);
        var r := reader.NextRecord();
        match r {
          case Record(position, record) =>
            HintStep(old(index.contents), fileId, done, r);
            var entry := Hints.Deserialize(record, fileId);
            match entry {
              case Ok((key, value, n)) =>
                index.Insert(key, value);
                done := done + [r];
              case Err(_) =>
                HintsStop(old(index.contents), fileId, done + [r], Scan(reader.rest, reader.position).records);
                return false;
            }
          case CleanEof => return true;
          case TornTail(_) => return false;
        }
      }
    }

    /** One replayed record: a set goes into the keydir, an rm takes the key out. */
    method ReplayRecord(fileId: nat, position: nat, record: seq<byte>) returns (r: Result<()>)
      requires Valid()
      modifies this`offset, this`stale, index
      ensures Valid() && unchanged(this`disk) && unchanged(this`current)
      ensures match LoadRecord(old(State()), fileId, Record(position, record))
              case Ok(l) => r.Ok? && State() == l
              case Err(e) => r == Err(e)
    {
      hide Decode;
      var decoded := Deserialize(record);
      match decoded {
        case Err(e) => return Err(e);
        case Ok((command, _)) =>
          match command {
            case Set(ts, key, _) =>
              index.Insert(key, Hints.IndexValue(fileId, ts, position, |record|));
            case Rm(_, key) =>
              stale := stale + |record|;
              var gone := index.Remove(key);
          }
          offset := offset + |record|;
          return Ok(());
      }
    }

    /** The records of a data file up to its end, clean or torn. */
    method ReplayRecords(fileId: nat, bytes: seq<byte>) returns (r: Result<RecordRead>)
      requires Valid()
      modifies this`offset, this`stale, index
      ensures Valid()
      ensures match LoadRecords(old(State()), fileId, Scan(bytes, 0).records)
              case Ok(l) => r == Ok(Scan(bytes, 0).end) && State() == l
              case Err(e) => r == Err(e)
    {
      hide ReadOne, Scan, LoadRecord, LoadRecords;
      var reader := new Reader(bytes, |bytes|);
      ghost var start, done: seq<RecordRead> := State(), [];
      NothingLoaded(start, fileId);
      assert done + Scan(bytes, 0).records == Scan(bytes, 0).records;
      while true
        invariant Valid() && reader.Valid() && reader.position + |reader.rest| == reader.fileLen
        invariant AllRecords(done)
        invariant Scan(bytes, 0) == Scanned(done + Scan(reader.rest, reader.position).records, Scan(reader.rest, reader.position).end)
        invariant LoadRecords(start, fileId, done) == Ok(State())
        decreases |reader.rest|
      {
        ScanStep(bytes, done, reader.rest, reader.position);
        var next := reader.NextRecord();
        match next {
          case Record(position, record) =>
            LoadAppend(start, fileId, done, next);
            var replayed := ReplayRecord(fileId, position, record);
            if replayed.Err? {
              LoadStops(start, fileId, done + [next], Scan(reader.rest, reader.position).records);
              return Err(replayed.error);
            }
            done := done + [next];
          case CleanEof => return Ok(next);
          case TornTail(_) => return Ok(next);
        }
      }
    }

    /** One data file; a torn tail is cut off the active file and is corruption elsewhere. */
    method ReplayData(fileId: nat) returns (r: Result<Option<nat>>)
      requires Valid() && fileId in disk.data
      modifies this`offset, this`stale, this`disk, index
      ensures Valid() && unchanged(this`current) && disk.compacts == old(disk).compacts
      ensures match LoadData(old(State()), fileId, current, old(disk).data[fileId])
              case Ok((l, torn)) =>
                && r == Ok(torn) && State() == l && (torn.Some? ==> fileId == current)
                && disk == old(disk).(data := CutTail(old(disk).data, fileId, torn))
              case Err(e) => r == Err(e)
    {
      hide Scan, LoadRecords;
      var bytes := disk.data[fileId];
      ScanEnds(bytes, 0);
      offset := 0;
      var end := ReplayRecords(fileId, bytes);
      if end.Err? {
        return Err(end.error);
      }
      if end.value.CleanEof? {
        return Ok(None);
      }
      if fileId != current {
        return Err(Corruption);
      }
      var position := end.value.position;
      disk := disk.(data := disk.data[fileId := bytes[..position]]);
      offset := position;
      return Ok(Some(position));
    }

    /** Removes leftovers of merges and finds the largest id, in whatever order the names come. */
    method CleanUp(listing: seq<Name>) returns (maxId: Option<nat>)
      requires Lists(listing, disk)
      modifies this`disk
      ensures disk == Disk(old(disk).data, LinkedHints(old(disk)), {})
      ensures if old(disk).data.Keys == {} then maxId.None? else maxId.Some? && IsCurrent(old(disk).data.Keys, maxId.value)
    {
      ghost var d := disk;
      maxId := None;
      for i := 0 to |listing|
        invariant disk.data == d.data && disk.hints.Keys <= d.hints.Keys && disk.compacts <= d.compacts
        invariant forall id :: id in disk.hints ==> disk.hints[id] == d.hints[id]
        invariant forall id :: id in d.hints ==> (id in disk.hints <==> id in d.data || HintName(id) !in listing[..i])
        invariant forall id :: id in d.compacts ==> (id in disk.compacts <==> CompactName(id) !in listing[..i])
        invariant maxId.Some? ==> maxId.value in d.data
        invariant forall id: nat :: DataName(id) in listing[..i] ==> maxId.Some? && id <= maxId.value
      {
        assert listing[..i + 1] == listing[..i] + [listing[i]];
        assert OnDisk(d, listing[i]);
        match listing[i] {
          case CompactName(id) =>
            disk := disk.(compacts := disk.compacts - {id});
          case HintName(id) =>
            if id !in disk.data {
              disk := disk.(hints := Dropped(disk.hints, {id}));
            }
          case DataName(id) =>
            maxId := Some(if maxId.Some? && maxId.value > id then maxId.value else id);
        }
      }
      assert listing[..|listing|] == listing;
      Listed(listing, d);
      assert disk.hints == LinkedHints(d);
      assert disk.compacts == {};
    }

    /** `open`: clean up, pick or create the active file, replay. */
    method Open(listing: seq<Name>) returns (r: Result<()>)
      requires Valid() && State() == Load(map[], 0, 0) && Lists(listing, disk)
      modifies this`offset, this`stale, this`disk, this`current, index
      ensures Valid() && IsCurrent(old(disk).data.Keys, current)
      ensures match OpenAt(old(disk), current)
              case Ok(o) => r.Ok? && Opened(disk, index.contents, current, offset, stale) == o
              case Err(e) => r == Err(e)
    {
      hide LoadFiles, Sorted, LinkedHints, Lists;
      var maxId := CleanUp(listing);
      current := if maxId.Some? then maxId.value else 1;
      if current !in disk.data {
        disk := disk.(data := disk.data[current := []]);
      }
      assert disk.data == WithCurrent(old(disk).data, current);
      r := Replay();
    }

    /**
     Replays every file in ascending order of ids, through its hint if it has a good one. A
     bad hint is removed and its file is read from the data; a torn tail of the active file
     is cut off and ends the replay.
     */
    method Replay() returns (r: Result<()>)
      requires Valid() && State() == Load(map[], 0, 0) && current in disk.data
      modifies this`offset, this`stale, this`disk, index
      ensures Valid() && unchanged(this`current) && disk.compacts == old(disk).compacts
      ensures forall id :: id in Sorted(old(disk).data.Keys, current + 1) ==> id in old(disk).data
      ensures match LoadFiles(old(disk).data, old(disk).hints, current, Sorted(old(disk).data.Keys, current + 1))
              case Ok(l) =>
                r.Ok? && Opened(disk.(compacts := {}), index.contents, current, offset, stale)
                         == AfterReplay(old(disk).data, old(disk).hints, current, l)
              case Err(e) => r == Err(e)
    {
      hide LoadFiles, LoadFile, Dropped, CutTail;
      ghost var data, hints := disk.data, disk.hints;
      NothingDropped(hints);
      NoCut(data, current);
      SortedMembers(disk.data.Keys, current + 1);
      var ids := Sorted(disk.data.Keys, current + 1);
      hide Sorted;
      ghost var l := Loaded(Load(map[], 0, 0), None, {});
      NoFiles(data, hints, current);
      for i := 0 to |ids|
        invariant Valid() && unchanged(this`current) && disk.compacts == old(disk).compacts
        invariant disk.data == data && disk.hints == Dropped(hints, l.badHints)
        invariant l.load == State() && l.torn.None? && (forall id :: id in l.badHints ==> id in ids[..i])
        invariant LoadFiles(data, hints, current, ids[..i]) == Ok(l)
      {
        var fileId := ids[i];
        NotBefore(ids, i);
        assert ids[..i + 1] == ids[..i] + [fileId];
        LoadFilesAppend(data, hints, current, ids[..i], fileId);
        StillThere(hints, l.badHints, fileId);
        NoCut(data, fileId);
        var torn := ReplayOne(fileId, l);
        if torn.Err? {
          FilesStop(data, hints, current, ids, i + 1);
          return Err(torn.error);
        }
        ghost var before := l;
        l := LoadFile(l, fileId, current, data[fileId], HintOf(hints, fileId)).value;
        DroppedTwice(hints, before.badHints, l.badHints);
        if torn.value.Some? {
          FilesStop(data, hints, current, ids, i + 1);
          return Ok(());
        }
      }
      assert ids[..|ids|] == ids;
      return Ok(());
    }

    /** The body of the loop: one file, by hint or by data. */
    method ReplayOne(fileId: nat, ghost before: Loaded) returns (torn: Result<Option<nat>>)
      requires Valid() && fileId in disk.data && before.load == State() && before.torn.None? && fileId !in before.badHints
      modifies this`offset, this`stale, this`disk, index
      ensures Valid() && unchanged(this`current) && disk.compacts == old(disk).compacts
      ensures match LoadFile(before, fileId, current, old(disk).data[fileId], HintOf(old(disk).hints, fileId))
              case Ok(l) =>
                && torn == Ok(l.torn) && State() == l.load
                && (l.torn.Some? ==> fileId == current)
                && before.badHints <= l.badHints <= before.badHints + {fileId}
                && disk.data == CutTail(old(disk).data, fileId, l.torn)
                && disk.hints == Dropped(old(disk).hints, l.badHints - before.badHints)
              case Err(e) => torn == Err(e)
    {
      hide LoadData, LoadHintFile;
      ghost var hint := HintOf(disk.hints, fileId);
      if fileId != current && fileId in disk.hints {
        var hintProcessed := ReplayHint(fileId, disk.hints[fileId]);
        if hintProcessed {
          HintLoads(before, fileId, current, disk.data[fileId], hint.value);
          return Ok(None);
        }
        disk := disk.(hints := Dropped(disk.hints, {fileId}));
      }
      DataStep(before, State(), fileId, current, disk.data[fileId], hint);
      torn := ReplayData(fileId);
    }
  }

  lemma NoRecords(index: Keydir, fileId: nat)
    ensures LoadHints(index, fileId, []) == HintLoad(index, true)
  {
  }

  lemma HintStep(index: Keydir, fileId: nat, done: seq<RecordRead>, r: RecordRead)
    requires AllRecords(done) && r.Record? && LoadHints(index, fileId, done).ok
    ensures AllRecords(done + [r])
    ensures var before := LoadHints(index, fileId, done).index;
            LoadHints(index, fileId, done + [r]) ==
            match Hints.Decode(r.bytes, fileId)
            case Ok((key, value, _)) => HintLoad(before[key := value], true)
            case Err(_) => HintLoad(before, false)
  {
    hide Hints.Decode;
    assert (done + [r])[..|done|] == done;
  }

  lemma NothingLoaded(l: Load, fileId: nat)
    ensures LoadRecords(l, fileId, []) == Ok(l)
  {
  }

  lemma NoFiles(data: map<nat, seq<byte>>, hints: map<nat, seq<byte>>, current: nat)
    ensures LoadFiles(data, hints, current, []) == Ok(Loaded(Load(map[], 0, 0), None, {}))
  {
  }

  lemma NotBefore(ids: seq<nat>, i: nat)
    requires Invariants.Ascending(ids) && i < |ids|
    ensures ids[i] !in ids[..i]
  {
  }

  lemma HintLoads(l: Loaded, fileId: nat, current: nat, data: seq<byte>, hint: seq<byte>)
    requires fileId != current && LoadHintFile(l.load.index, fileId, hint).ok
    ensures LoadFile(l, fileId, current, data, Some(hint)) ==
            Ok(l.(load := l.load.(index := LoadHintFile(l.load.index, fileId, hint).index)))
  {
    hide LoadHintFile, LoadData;
  }

  /** Reading the data file, after a bad hint or without one, finishes `LoadFile`. */
  lemma DataStep(l: Loaded, before: Load, fileId: nat, current: nat, data: seq<byte>, hint: Option<seq<byte>>)
    requires var hinted := fileId != current && hint.Some?;
             && (hinted ==> HintLoad(before.index, false) == LoadHintFile(l.load.index, fileId, hint.value))
             && before == (if hinted then l.load.(index := before.index) else l.load)
    ensures LoadFile(l, fileId, current, data, hint) ==
            match LoadData(before, fileId, current, data)
            case Ok((load, torn)) =>
              Ok(Loaded(load, torn, if fileId != current && hint.Some? then l.badHints + {fileId} else l.badHints))
            case Err(e) => Err(e)
  {
    hide LoadHintFile, LoadData;
  }

  /** An error or a cut tail is final. */
  lemma {:induction false} FilesStop(data: map<nat, seq<byte>>, hints: map<nat, seq<byte>>, current: nat, ids: seq<nat>, n: nat)
    requires n <= |ids| && forall id :: id in ids ==> id in data
    requires var r := LoadFiles(data, hints, current, ids[..n]); r.Err? || r.value.torn.Some?
    ensures LoadFiles(data, hints, current, ids) == LoadFiles(data, hints, current, ids[..n])
    decreases |ids|
  {
    hide LoadFile;
    if n < |ids| {
      var m := |ids| - 1;
      assert ids[..m][..n] == ids[..n];
      FilesStop(data, hints, current, ids[..m], n);
    } else {
      assert ids[..n] == ids;
    }
  }

  /** A torn tail starts inside the file. */
  lemma {:induction false} ScanEnds(rest: seq<byte>, start: nat)
    ensures Scan(rest, start).end.TornTail? ==> Scan(rest, start).end.position <= start + |rest|
    decreases |rest|
  {
    hide FromLe;
    var r := ReadOne(rest, start, start + |rest|);
    if r.Record? {
      ScanEnds(rest[|r.bytes|..], start + |r.bytes|);
    }
  }

  lemma StillThere(hints: map<nat, seq<byte>>, bad: set<nat>, id: nat)
    requires id !in bad
    ensures HintOf(Dropped(hints, bad), id) == HintOf(hints, id)
  {
  }

  lemma DroppedTwice(hints: map<nat, seq<byte>>, a: set<nat>, b: set<nat>)
    requires a <= b
    ensures Dropped(Dropped(hints, a), b - a) == Dropped(hints, b)
  {
  }

  lemma NothingDropped(hints: map<nat, seq<byte>>)
    ensures Dropped(hints, {}) == hints
  {
  }

  lemma NoCut(data: map<nat, seq<byte>>, id: nat)
    requires id in data
    ensures CutTail(data, id, None) == data
  {
  }

  lemma Listed(listing: seq<Name>, disk: Disk)
    requires Lists(listing, disk)
    ensures forall id :: id in disk.data <==> DataName(id) in listing
    ensures forall id :: id in disk.hints <==> HintName(id) in listing
    ensures forall id :: id in disk.compacts <==> CompactName(id) in listing
  {
    forall id ensures id in disk.data <==> DataName(id) in listing {
      assert OnDisk(disk, DataName(id)) <==> id in disk.data;
    }
    forall id ensures id in disk.hints <==> HintName(id) in listing {
      assert OnDisk(disk, HintName(id)) <==> id in disk.hints;
    }
    forall id ensures id in disk.compacts <==> CompactName(id) in listing {
      assert OnDisk(disk, CompactName(id)) <==> id in disk.compacts;
    }
  }
}
