/**
 `run_compaction` and `finish_output` in the code's own shape: loops over sources, records,
 pending updates and files to delete. Each loop body is a step of the machine, so the merge
 keeps the store and frees its sources.
 */
module Compaction {
  import opened Bytes
  import opened Commands
  import opened Framing
  import opened RecordReader
  import opened Logs
  import opened Engine
  import opened Invariants
  import opened Theorems
  import opened RotateSteps
  import opened MergeSteps
  import opened DeleteSteps
  import opened DiskSteps
  import opened PowerLoss
  import opened Recovery
  import opened Opening
  import opened Index
  import opened Bitcask
  import Hints

  // ---- the output being written ----

  class MergeOutput {
    const id: nat
    var data: seq<byte>
    var hint: seq<byte>
    var written: nat
    ghost var synced: nat              // bytes of the data that `sync_all` has covered; the disk knows

    /** The buffers hold exactly the records `recs` and their hints. */
    ghost predicate Shows(recs: seq<Command>)
      reads this
    {
      data == EncodeLog(recs) && hint == HintBytes(id, recs) && written == Size(recs)
    }

    constructor (id: nat)
      ensures this.id == id && Shows([])
    {
      this.id := id;
      data, hint, written, synced := [], [], 0, 0;
    }

    /** Adds one record and its hint; the entry says where the record now is. */
    method Append(record: seq<byte>, c: Command, ghost recs: seq<Command>) returns (e: Entry)
      requires Shows(recs) && record == Encode(c)
      modifies this
      ensures Shows(recs + [c]) && e == EntryFor(id, Size(recs), c)
    {
      hide EncodeLog, HintBytes, Encode, Hints.Encode, Size, RecordLen;
      EncodeLogAppend(recs, c);
      HintBytesAppend(id, recs, c);
      SizeAppend(recs, c);
      data := data + record;
      e := Hints.IndexValue(id, c.ts, written, |record|);
      var serialized := Hints.Serialize(c.key, e);
      hint := hint + serialized;
      written := written + |record|;
    }

    /** Flushes and syncs data and hint. */
    method Sync()
      modifies this`synced
      ensures synced == |data|
    {
      synced := |data|;
    }

    method IsFull(threshold: nat) returns (full: bool)
      ensures full == (written >= threshold)
    {
      full := written >= threshold;
    }
  }

  lemma HintBytesAppend(id: nat, recs: seq<Command>, c: Command)
    ensures HintBytes(id, recs + [c]) == HintBytes(id, recs) + Hints.Encode(c.key, EntryFor(id, Size(recs), c))
  {
    hide HintRecords, Concat, Hints.Encode;
    HintRecordsAppend(id, recs, c);
    var h := Hints.Encode(c.key, EntryFor(id, Size(recs), c));
    ConcatAppend(HintRecords(id, recs), [h]);
    ConcatOne(h);
  }

  // ---- starting ----

  /** Bytes behind the handles `ids`. */
  method TotalBytes(b: Bitcask, ids: seq<nat>) returns (total: nat)
    requires b.Valid() && forall id :: id in ids ==> id in b.view.files
    ensures total == TotalSize(b.view.files, ids)
  {
    hide Reachable, EncodeLog, HintsShow, Shards, SyncedShows;
    total := 0;
    for i := 0 to |ids|
      invariant total == TotalSize(b.view.files, ids[..i])
    {
      assert ids[..i + 1][..i] == ids[..i];
      EncodeLogSize(b.view.files[ids[i]]);
      total := total + |b.data[ids[i]]|;
    }
    assert ids[..|ids|] == ids;
  }

  /** The merge's snapshot, taken under the writer lock, and the rotation past its ids. */
  ghost function Started(cfg: Config, v: State): State
    requires cfg.threshold > 0 && v.current in v.files
  {
    RotateInstall(MergeStart(cfg, v))
  }

  ghost predicate StartedFrom(cfg: Config, v: State, t: State) {
    cfg.threshold > 0 && v.current in v.files && t == Started(cfg, v)
  }

  /** Too few stale bytes, or nothing but the active file. */
  ghost predicate Idle(cfg: Config, v: State) {
    v.stale < cfg.compactionThreshold || Sources(v) == []
  }

  lemma StartedIs(cfg: Config, v: State)
    requires Reachable(cfg, v) && CanMergeStart(cfg, v) && ValidConfig(cfg)
    ensures var t, job := Started(cfg, v), NewJob(cfg, v);
            && Reachable(cfg, t)
            && t.merge == Merge(job, 0, job.prev, None, [], Scan(0), 0, 0)
            && job.nextActive !in v.files && job.nextActive !in v.hints
            && RotateInstall(RotateCreate(v, job.nextActive)) == t.(merge := v.merge, hist := RotateInstall(RotateCreate(v, job.nextActive)).hist)
            && t.store == v.store && t.lock.Free? && t.stale == v.stale && t.keydir == v.keydir
            && t.dir == v.dir + {job.nextActive} && t.current == job.nextActive
            && t.readers == v.readers + {job.nextActive} && t.files == v.files[job.nextActive := []]
            && t.hist.durable == 0 && t.media == RotateInstall(RotateCreate(v, job.nextActive)).media
            && job.total == TotalSize(v.files, Sources(v))
            && job.sources == Sources(v) && job.prev == v.current && job.initStale == v.stale
            && job.nextActive == v.current + (TotalSize(v.files, Sources(v)) / cfg.threshold + 2) + 1
            && (job.clean <==> forall id :: id in Sources(v) ==> id in v.dir)
  {
    Facts(cfg, v);
    hide Reachable, Sources, TotalSize, Logged;
    var started := MergeStart(cfg, v);
    Reaches(cfg, v, DoMergeStart, started);
    Reaches(cfg, started, DoRotateInstall, RotateInstall(started));
  }

  /** Nothing happens below the threshold or without sources; otherwise the merge has begun. */
  method Start(b: Bitcask) returns (sources: Option<seq<nat>>)
    requires b.Valid() && b.view.lock.Free? && b.view.merge.NoMerge?
    requires TotalSize(b.view.files, Sources(b.view)) < U64_END
    modifies b
    ensures b.Valid()
    ensures sources.None? <==> Idle(b.cfg, old(b.view))
    ensures sources.None? ==> b.view == old(b.view)
    ensures sources.Some? ==> StartedFrom(b.cfg, old(b.view), b.view) && sources.value == b.view.merge.job.sources
  {
    hide Reachable, TotalSize, HintsShow, FilesShow, Shards, SyncedShows, Started, RotateInstall, RotateCreate, Sorted, NewJob, MergeStart;
    Facts(b.cfg, b.view);
    if b.stale < b.cfg.compactionThreshold {
      return None;
    }
    var ids := Sorted(b.readers - {b.current}, b.current + 1);
    if ids == [] {
      return None;
    }
    ReadersHaveFiles(b.cfg, b.view);
    var total := TotalBytes(b, ids);
    var reserve := total / b.cfg.threshold + 2;
    var nextActive := b.current + reserve + 1;
    StartedIs(b.cfg, b.view);
    b.RotateTo(nextActive, b.view);
    Rotated(b.view, nextActive);
    SyncedFrame(b.synced, RotateInstall(RotateCreate(b.view, nextActive)), Started(b.cfg, b.view));
    b.view := Started(b.cfg, b.view);
    return Some(ids);
  }

  /** The sources are exactly the handles but the active file's, in ascending order. */
  lemma SourcesExactly(cfg: Config, v: State)
    requires Reachable(cfg, v) && !v.lock.Created?
    ensures Ascending(Sources(v)) && forall id :: id in Sources(v) <==> id in v.readers && id != v.current
  {
    hide Reachable, Sorted;
    Facts(cfg, v);
    SortedMembers(v.readers - {v.current}, v.current + 1);
  }

  lemma ReadersHaveFiles(cfg: Config, v: State)
    requires Reachable(cfg, v)
    ensures forall id :: id in Sources(v) ==> id in v.files
  {
    hide Reachable;
    Facts(cfg, v);
    SortedMembers(v.readers - {v.current}, v.current + 1);
  }

  // ---- scanning one source ----

  function CurrentSource(v: State): nat
    requires v.merge.Merge? && v.merge.src < |v.merge.job.sources|
  {
    v.merge.job.sources[v.merge.src]
  }

  /** What scanning one record does to the machine's state. */
  lemma ScanIs(cfg: Config, v: State)
    requires Reachable(cfg, v) && CanScanRecord(v)
    ensures var t, m, fileId := ScanRecord(v), v.merge, CurrentSource(v);
            var c := v.files[fileId][m.phase.at];
            var offset := Size(v.files[fileId][..m.phase.at]);
            && Reachable(cfg, t) && Encodable(c)
            && t == v.(merge := t.merge, media := t.media) && t.media.safe == v.media.safe
            && t.merge == (
                 if SitsInIndex(v, fileId, offset, c) then
                   m.(phase := Scan(m.phase.at + 1), out := Some(Output(m.out.value.id, m.out.value.recs + [c])),
                      pending := m.pending + [Pending(c.key, fileId, offset, EntryFor(m.out.value.id, Size(m.out.value.recs), c))])
                 else m.(phase := Scan(m.phase.at + 1)))
  {
    hide Size, RecordLen, Inv, CleanInv;
    Reaches(cfg, v, DoScanRecord, ScanRecord(v));
    ReachableKeeps(cfg, v);
    SourceStorable(cfg, v);
  }

  /** One record of the source: copied and queued if the keydir still points at it. */
  method ScanOne(b: Bitcask, out: MergeOutput, pending: seq<Pending>, fileId: nat, position: nat, record: seq<byte>)
    returns (pending': seq<Pending>)
    requires b.Valid() && CanScanRecord(b.view) && b.view.merge.out.value.id == out.id && out.Shows(b.view.merge.out.value.recs)
    requires pending == b.view.merge.pending && fileId == CurrentSource(b.view)
    requires position == Size(b.view.files[fileId][..b.view.merge.phase.at])
    requires record == Encode(b.view.files[fileId][b.view.merge.phase.at])
    modifies b`view, out
    ensures b.Valid() && CanScanRecord(old(b.view)) && b.view == ScanRecord(old(b.view))
    ensures b.view.merge.out.Some? && b.view.merge.out.value.id == out.id && out.Shows(b.view.merge.out.value.recs)
    ensures pending' == b.view.merge.pending
  {
    hide Reachable, Encode, Decode, Size, HintsShow, FilesShow, Shards, SyncedShows, ScanRecord, HintBytes, EncodeLog, RecordLen, Encodable;
    ScanIs(b.cfg, b.view);
    ghost var c := b.view.files[fileId][b.view.merge.phase.at];
    DecodeEncode(c, []);
    assert record + [] == record;
    pending' := pending;
    var decoded := Deserialize(record);
    var command := decoded.value.0;
    if command.Set? {
      var entry := b.index.Find(command.key);
      if entry.Some? && entry.value.fileId == fileId && entry.value.offset == position {
        var copy := out.Append(record, command, b.view.merge.out.value.recs);
        pending' := pending + [Pending(command.key, fileId, position, copy)];
      }
    }
    SyncedFrame(b.synced, b.view, ScanRecord(b.view));
    b.view := ScanRecord(b.view);
  }

  /** What the reader delivers at record `at` of a file of the engine. */
  lemma ReadsAt(recs: seq<Command>, at: nat)
    requires AllEncodable(recs) && at <= |recs|
    ensures Size(recs[..at]) + |EncodeLog(recs[at..])| == Size(recs)
    ensures ReadOne(EncodeLog(recs[at..]), Size(recs[..at]), Size(recs)) ==
            if at < |recs| then Record(Size(recs[..at]), Encode(recs[at])) else CleanEof
    ensures at < |recs| ==> EncodeLog(recs[at..])[RecordLen(recs[at])..] == EncodeLog(recs[at + 1..])
    ensures at < |recs| ==> Size(recs[..at]) + RecordLen(recs[at]) == Size(recs[..at + 1])
  {
    hide Encode, EncodeLog, ReadOne, Size, Encodable;
    EncodeLogSize(recs[at..]);
    SizeConcat(recs[..at], recs[at..]);
    assert recs == recs[..at] + recs[at..];
    if at < |recs| {
      LogAroundRecord(recs[at..], 0);
      assert recs[at..][..0] == [] && recs[at..][1..] == recs[at + 1..];
      EncodeLogEmpty();
      assert EncodeLog(recs[at..]) == Encode(recs[at]) + EncodeLog(recs[at + 1..]);
      EncodingIsRecord(recs[at]);
      ReadWhole(Encode(recs[at]), EncodeLog(recs[at + 1..]), Size(recs[..at]));
      SizeAppend(recs[..at], recs[at]);
      assert recs[..at + 1] == recs[..at] + [recs[at]];
    } else {
      EncodeLogEmpty();
      ReadNothing(Size(recs));
    }
  }

  lemma ReadWhole(r: seq<byte>, rest: seq<byte>, start: nat)
    requires IsRecord(r)
    ensures ReadOne(r + rest, start, start + |r + rest|) == Record(start, r)
  {
    hide FromLe;
    var all := r + rest;
    assert all[CRC_LEN..HEADER_LEN] == r[CRC_LEN..HEADER_LEN];
    assert all[..|r|] == r;
  }

  lemma ReadNothing(start: nat)
    ensures ReadOne([], start, start) == CleanEof
  {
  }

  /** Reads a source to its clean end. */
  method ScanSource(b: Bitcask, out: MergeOutput, pending: seq<Pending>, fileId: nat) returns (pending': seq<Pending>)
    requires b.Valid() && Scanning(b.view) && b.view.merge.phase == Scan(0)
    requires b.view.merge.out.value.id == out.id && out.Shows(b.view.merge.out.value.recs)
    requires pending == b.view.merge.pending && fileId == CurrentSource(b.view)
    modifies b`view, out
    ensures b.Valid() && CanFinishSource(b.view)
    ensures b.view == old(b.view).(merge := b.view.merge, media := b.view.media)
    ensures b.view.merge == old(b.view).merge.(phase := b.view.merge.phase, out := b.view.merge.out, pending := b.view.merge.pending)
    ensures b.view.merge.out.value.id == out.id && out.Shows(b.view.merge.out.value.recs)
    ensures pending' == b.view.merge.pending
  {
    hide Reachable, Encode, EncodeLog, Size, HintsShow, Shards, SyncedShows, ScanRecord, HintBytes, RecordLen, ReadOne, AllEncodable;
    SourceEncodable(b.cfg, b.view);
    ghost var recs := b.view.files[fileId];
    assert recs[0..] == recs && recs[..0] == [];
    SizeEmpty();
    EncodeLogSize(recs);
    var reader := new Reader(b.data[fileId], |b.data[fileId]|);
    pending' := pending;
    ghost var at := 0;
    while true
      invariant b.Valid() && Scanning(b.view) && b.view.merge.phase == Scan(at) && at <= |recs|
      invariant b.view == old(b.view).(merge := b.view.merge, media := b.view.media)
      invariant b.view.merge == old(b.view).merge.(phase := b.view.merge.phase, out := b.view.merge.out, pending := b.view.merge.pending)
      invariant b.view.merge.out.value.id == out.id && out.Shows(b.view.merge.out.value.recs)
      invariant pending' == b.view.merge.pending
      invariant reader.Valid() && reader.rest == EncodeLog(recs[at..]) && reader.position == Size(recs[..at]) && reader.fileLen == Size(recs)
      decreases |recs| - at
    {
      ReadsAt(recs, at);
      var next := reader.NextRecord();
      if next.CleanEof? {
        return;
      }
      ScanIs(b.cfg, b.view);
      pending' := ScanOne(b, out, pending', fileId, next.position, next.bytes);
      at := at + 1;
    }
  }

  lemma SourceEncodable(cfg: Config, v: State)
    requires Reachable(cfg, v) && Scanning(v)
    ensures AllEncodable(v.files[CurrentSource(v)])
  {
    ReachableKeeps(cfg, v);
    hide Reachable, CleanInv, ReplayInv, DurableInv, AckInv, HintsInv, OffsetInv, LinkedInv, KeydirInv, MergeInv, Size;
    assert AllStorable(v.files[CurrentSource(v)]);
  }

  // ---- finishing an output ----

  /** Only the merge's own fields differ. */
  ghost predicate SameButMerge(v: State, t: State) {
    && t.store == v.store && t.lock == v.lock && t.current == v.current && t.offset == v.offset
    && t.flushed == v.flushed && t.stale == v.stale && t.hist == v.hist
    && v.merge.Merge? && t.merge.Merge? && t.merge.job == v.merge.job && t.merge.src == v.merge.src
  }

  lemma OutputFacts(cfg: Config, v: State)
    requires Inv(cfg, v) && InPhase(v, SyncOutput)
    ensures v.merge.out.Some?
  {
    hide FilesInv, ReplayInv, DurableInv, AckInv, HintsInv, OffsetInv, LinkedInv, KeydirInv, JobInv, CopiesInv, PendingInv, CoverInv, SnapshotInv, BaseInv, CountInv;
  }

  lemma OutputHintable(cfg: Config, v: State)
    requires Inv(cfg, v) && InPhase(v, RenameOutput)
    ensures v.merge.out.Some? && v.merge.out.value.id !in v.files && v.merge.out.value.id !in v.dir
    ensures Hintable(v.merge.out.value.recs) && Size(v.merge.out.value.recs) <= v.merge.job.total
  {
    RenameFrame(cfg, v);
    hide FilesInv, ReplayInv, DurableInv, AckInv, HintsInv, OffsetInv, LinkedInv, KeydirInv, PendingInv, CoverInv, SnapshotInv, BaseInv, CountInv, Size, TotalSize, Ascending;
  }

  /** The complete hint of an output is good. */
  lemma FullHintGood(id: nat, recs: seq<Command>)
    requires Hintable(recs)
    ensures GoodHint(id, recs, Some(HintBytes(id, recs)))
  {
    hide HintBytes, Hintable;
    var h := HintBytes(id, recs);
    assert h[..|h|] == h && recs[..|recs|] == recs;
    if OnBoundary(id, recs, |h|) {
      var p :| 0 <= p < |recs| && |h| == |HintBytes(id, recs[..p])|;
      HintBytesGrow(id, recs, p, |recs|);
    }
  }

  lemma HintAdded(hints: map<nat, seq<byte>>, dir: set<nat>, files: Files, id: nat, recs: seq<Command>)
    requires HintsShow(hints, dir, files) && id !in dir && Hintable(recs)
    ensures HintsShow(hints[id := HintBytes(id, recs)], dir + {id}, files[id := recs])
  {
    FullHintGood(id, recs);
    hide GoodHint, HintBytes;
  }

  /** An output is covered by its sync when it gets its name. */
  lemma SyncedRenamed(cfg: Config, synced: map<nat, nat>, v: State, n: nat)
    requires Reachable(cfg, v) && InPhase(v, RenameOutput) && v.merge.out.Some? && SyncedShows(synced, v)
    requires n == |EncodeLog(v.merge.out.value.recs)|
    ensures SyncedShows(synced[v.merge.out.value.id := n], RenameOutputStep(v))
  {
    hide Reachable, EncodeLog, Size, Hintable;
    RenameStepIs(cfg, v);
    Facts(cfg, v);
    var recs := v.merge.out.value.recs;
    EncodeLogSize(recs);
    assert recs[..|recs|] == recs;
  }

  lemma SyncStepIs(cfg: Config, v: State)
    requires Reachable(cfg, v) && InPhase(v, SyncOutput)
    ensures v.merge.out.Some? && v.merge.out.value.id !in v.dir
    ensures var t := SyncOutputStep(v);
            && Reachable(cfg, t) && InPhase(t, RenameOutput) && SameButMerge(v, t)
            && t == v.(merge := v.merge.(phase := RenameOutput), media := t.media) && t.media.safe == v.media.safe
  {
    hide Reachable, Inv, CleanInv;
    ReachableKeeps(cfg, v);
    OutputFacts(cfg, v);
    OutputNotLinked(cfg, v);
    FilesLinked(cfg, v);
    Reaches(cfg, v, DoSyncOutput, SyncOutputStep(v));
  }

  lemma RenameStepIs(cfg: Config, v: State)
    requires Reachable(cfg, v) && InPhase(v, RenameOutput) && v.merge.out.Some?
    ensures var t, out := RenameOutputStep(v), v.merge.out.value;
            && Reachable(cfg, t) && InPhase(t, InsertReader) && SameButMerge(v, t)
            && t == v.(files := v.files[out.id := out.recs], dir := v.dir + {out.id}, compacts := v.compacts - {out.id},
                       merge := v.merge.(phase := InsertReader), media := t.media)
            && t.media.safe == v.media.safe[out.id := |out.recs|]
            && out.id !in v.files && out.id !in v.dir && out.id < v.current
            && Hintable(out.recs) && Size(out.recs) <= v.merge.job.total
  {
    hide Reachable, Inv, CleanInv, Hintable, Size, HintRecsInv;
    ReachableKeeps(cfg, v);
    ReachableDisk(cfg, v);
    OutputHintable(cfg, v);
    OutputNotLinked(cfg, v);
    Reaches(cfg, v, DoRenameOutput, RenameOutputStep(v));
  }

  /** `MergeOutput::sync`: data and hint are flushed and covered by syncs. */
  method SyncOut(b: Bitcask, out: MergeOutput)
    requires b.Valid() && InPhase(b.view, SyncOutput)
    requires b.view.merge.out.Some? && b.view.merge.out.value.id == out.id && out.Shows(b.view.merge.out.value.recs)
    requires out.id in b.view.hints
    modifies b`hints, b`view, out`synced
    ensures b.Valid() && b.view == SyncOutputStep(old(b.view))
    ensures out.Shows(old(b.view).merge.out.value.recs) && out.synced == |out.data|
    ensures b.hints == old(b.hints)[out.id := HintBytes(out.id, old(b.view).merge.out.value.recs)]
  {
    hide Reachable, EncodeLog, HintBytes, HintsShow, FilesShow, Shards, SyncedShows, SyncOutputStep, Size;
    SyncStepIs(b.cfg, b.view);
    HintOpened(b.hints, b.dir, b.view.files, out.id, out.hint);
    SyncedFrame(b.synced, b.view, SyncOutputStep(b.view));
    out.Sync();
    b.hints := b.hints[out.id := out.hint];
    b.view := SyncOutputStep(b.view);
  }

  /** Gives the synced output its final name. */
  method Rename(b: Bitcask, out: MergeOutput)
    requires b.Valid() && InPhase(b.view, RenameOutput)
    requires b.view.merge.out.Some? && b.view.merge.out.value.id == out.id && out.Shows(b.view.merge.out.value.recs)
    requires out.id in b.hints && b.hints[out.id] == HintBytes(out.id, b.view.merge.out.value.recs) && out.synced == |out.data|
    modifies b`synced, b`data, b`compacts, b`dir, b`view
    ensures b.Valid() && b.view == RenameOutputStep(old(b.view))
  {
    hide Reachable, EncodeLog, HintBytes, HintsShow, FilesShow, Shards, SyncedShows, RenameOutputStep, Size, Hintable;
    RenameStepIs(b.cfg, b.view);
    SyncedRenamed(b.cfg, b.synced, b.view, out.synced);
    ghost var recs := b.view.merge.out.value.recs;
    HintAdded(b.hints, b.dir, b.view.files, out.id, recs);
    assert b.hints[out.id := HintBytes(out.id, recs)] == b.hints;
    FileAdded(b.data, b.view.files, out.id, out.data, recs);
    b.synced := b.synced[out.id := out.synced];
    b.data := b.data[out.id := out.data];
    b.compacts := b.compacts - {out.id};
    b.dir := b.dir + {out.id};
    b.view := RenameOutputStep(b.view);
  }

  lemma PublishIs(cfg: Config, v: State)
    requires Reachable(cfg, v) && CanPublishOne(v)
    ensures var t, p := PublishOne(v), v.merge.pending[0];
            && Reachable(cfg, t) && SameButMerge(v, t)
            && t == v.(keydir := t.keydir, merge := t.merge) && t.merge == v.merge.(pending := v.merge.pending[1..])
            && t.keydir == (if p.key in v.keydir && v.keydir[p.key].fileId == p.prevFile && v.keydir[p.key].offset == p.prevOffset
                            then v.keydir[p.key := p.copy] else v.keydir)
  {
    hide Reachable;
    Reaches(cfg, v, DoPublishOne, PublishOne(v));
  }

  /** Drains the pending updates, each under its bucket's lock. */
  method Publish(b: Bitcask, pending: seq<Pending>)
    requires b.Valid() && InPhase(b.view, Phase.Publish) && pending == b.view.merge.pending
    modifies b`view, b.index
    ensures b.Valid() && CanPublishDone(b.view) && SameButMerge(old(b.view), b.view)
    ensures b.view == old(b.view).(keydir := b.view.keydir, merge := old(b.view).merge.(pending := []))
  {
    hide Reachable, HintsShow, FilesShow, Shards, SyncedShows, PublishOne;
    for i := 0 to |pending|
      invariant b.Valid() && InPhase(b.view, Phase.Publish) && b.view.merge.pending == pending[i..]
      invariant b.view == old(b.view).(keydir := b.view.keydir, merge := old(b.view).merge.(pending := pending[i..]))
    {
      var p := pending[i];
      PublishIs(b.cfg, b.view);
      assert pending[i..][1..] == pending[i + 1..];
      var entry := b.index.Find(p.key);
      if entry.Some? && entry.value.fileId == p.prevFile && entry.value.offset == p.prevOffset {
        b.index.Insert(p.key, p.copy);
      }
      SyncedFrame(b.synced, b.view, PublishOne(b.view));
      b.view := PublishOne(b.view);
    }
    assert pending[|pending|..] == [];
  }

  lemma InsertIs(cfg: Config, v: State)
    requires Reachable(cfg, v) && InPhase(v, InsertReader) && v.merge.out.Some?
    ensures var t := InsertReaderStep(v);
            && Reachable(cfg, t) && SameButMerge(v, t) && InPhase(t, Phase.Publish)
            && t == v.(readers := v.readers + {v.merge.out.value.id}, merge := t.merge)
            && t.merge.pending == v.merge.pending && t.merge.next == v.merge.next
  {
    hide Reachable, Size;
    Reaches(cfg, v, DoInsertReader, InsertReaderStep(v));
  }

  lemma DoneIs(cfg: Config, v: State)
    requires Reachable(cfg, v) && CanPublishDone(v)
    ensures var t := PublishDone(v);
            && Reachable(cfg, t) && SameButMerge(v, t) && t == v.(merge := t.merge)
            && t.merge.phase == (if v.merge.src < |v.merge.job.sources| then Scan(0) else Delete(0, false))
            && t.merge.out.None? && t.merge.pending == [] && t.merge.next == v.merge.next
  {
    hide Reachable, Inv, CleanInv;
    ReachableKeeps(cfg, v);
    DoneFacts(cfg, v);
    Reaches(cfg, v, DoPublishDone, PublishDone(v));
  }

  lemma DoneFacts(cfg: Config, v: State)
    requires Inv(cfg, v) && CanPublishDone(v)
    ensures v.merge.out.None?
  {
    hide FilesInv, ReplayInv, DurableInv, AckInv, HintsInv, OffsetInv, LinkedInv, KeydirInv, JobInv, CopiesInv, PendingInv, CoverInv, SnapshotInv, BaseInv, CountInv;
  }

  /** What a finished output leaves of the merge. */
  ghost predicate OutputDone(v: State, t: State) {
    && SameButMerge(v, t) && t.merge.out.None? && t.merge.pending == [] && t.merge.next == v.merge.next
    && t.merge.phase == (if v.merge.src < |v.merge.job.sources| then Scan(0) else Delete(0, false))
    && v.dir <= t.dir && (forall id :: id in t.dir ==> id in v.dir || v.merge.job.prev < id)
    && t.hints == v.hints && v.readers <= t.readers && OutputsAdded(v, t)
  }

  /** Files that were there are unchanged, and new ones are no larger than the sources together. */
  ghost predicate OutputsAdded(v: State, t: State) {
    && v.merge.Merge? && v.files.Keys <= t.files.Keys
    && (forall id :: id in v.files ==> t.files[id] == v.files[id])
    && (forall id :: id in t.files && id !in v.files ==> Size(t.files[id]) <= v.merge.job.total)
  }

  /** Adds the handle of the renamed output. */
  method InsertHandle(b: Bitcask, id: nat)
    requires b.Valid() && InPhase(b.view, InsertReader) && b.view.merge.out.Some? && id == b.view.merge.out.value.id
    modifies b`readers, b`view
    ensures b.Valid() && old(b.view).merge.Merge? && old(b.view).merge.out.Some? && b.view == InsertReaderStep(old(b.view))
  {
    hide Reachable, HintsShow, FilesShow, Shards, SyncedShows, InsertReaderStep;
    InsertIs(b.cfg, b.view);
    SyncedFrame(b.synced, b.view, InsertReaderStep(b.view));
    b.readers := b.readers + {id};
    b.view := InsertReaderStep(b.view);
  }

  /** Publishes everything pending and goes on to the next source or to deletion. */
  method PublishAll(b: Bitcask, pending: seq<Pending>)
    requires b.Valid() && InPhase(b.view, Phase.Publish) && pending == b.view.merge.pending
    modifies b`view, b.index
    ensures b.Valid() && SameButMerge(old(b.view), b.view)
    ensures b.view == old(b.view).(keydir := b.view.keydir, merge := b.view.merge)
    ensures b.view.merge.out.None? && b.view.merge.pending == [] && b.view.merge.next == old(b.view).merge.next
    ensures b.view.merge.phase == (if old(b.view).merge.src < |old(b.view).merge.job.sources| then Scan(0) else Delete(0, false))
  {
    hide Reachable, HintsShow, FilesShow, Shards, SyncedShows, PublishDone;
    Publish(b, pending);
    DoneIs(b.cfg, b.view);
    SyncedFrame(b.synced, b.view, PublishDone(b.view));
    b.view := PublishDone(b.view);
  }

  /** `finish_output`: sync, rename, add the handle, publish. */
  method FinishOutput(b: Bitcask, out: MergeOutput, pending: seq<Pending>)
    requires b.Valid() && InPhase(b.view, SyncOutput) && out.id in b.view.hints
    requires b.view.merge.out.Some? && b.view.merge.out.value.id == out.id && out.Shows(b.view.merge.out.value.recs)
    requires pending == b.view.merge.pending && b.view.merge.job.prev < out.id
    modifies b, b.index, out`synced
    ensures b.Valid() && OutputDone(old(b.view), b.view)
    ensures out.id in b.hints && out.id in b.view.dir && out.id !in old(b.view).dir
    ensures b.hints[out.id] == HintBytes(out.id, old(b.view).merge.out.value.recs)
    ensures Hinted(old(b.view), b.view, b.hints) && HintsKept(old(b.hints), b.hints, old(b.view).dir)
  {
    hide Reachable, b.Shows, out.Shows, SyncOutputStep, RenameOutputStep, InsertReaderStep, Hintable, OutputsAdded, Size, HintBytes, Hinted, HintsKept;
    ghost var v, hintsBefore := b.view, b.hints;
    SyncStepIs(b.cfg, b.view);
    SyncOut(b, out);
    RenameStepIs(b.cfg, b.view);
    Rename(b, out);
    InsertIs(b.cfg, b.view);
    InsertHandle(b, out.id);
    PublishAll(b, pending);
    OneOutputAdded(v, b.view, v.merge.out.value.id, v.merge.out.value.recs);
    OneHinted(v, b.view, hintsBefore, out.id, v.merge.out.value.recs);
  }

  /** Every data file that is new has its complete hint, but the active one. */
  ghost predicate Hinted(v: State, t: State, hints: map<nat, seq<byte>>) {
    forall id :: id in t.dir && id !in v.dir && id != t.current ==>
      id in t.files && id in hints && hints[id] == HintBytes(id, t.files[id])
  }

  /** The hints of files that were linked are untouched. */
  ghost predicate HintsKept(before: map<nat, seq<byte>>, after: map<nat, seq<byte>>, dir: set<nat>) {
    forall id :: id in dir ==> (id in before <==> id in after) && (id in before ==> after[id] == before[id])
  }

  lemma OneHinted(v: State, t: State, before: map<nat, seq<byte>>, id: nat, recs: seq<Command>)
    requires t.dir == v.dir + {id} && id !in v.dir && t.files == v.files[id := recs]
    ensures var after := before[id := HintBytes(id, recs)];
            Hinted(v, t, after) && HintsKept(before, after, v.dir)
  {
    hide HintBytes;
  }

  /** Two parts of a merge, one after the other. */
  lemma HintedThrough(v: State, s: State, t: State, h0: map<nat, seq<byte>>, h1: map<nat, seq<byte>>, h2: map<nat, seq<byte>>)
    requires Hinted(v, s, h1) && HintsKept(h0, h1, v.dir) && Hinted(s, t, h2) && HintsKept(h1, h2, s.dir)
    requires v.dir <= s.dir && s.current == t.current && s.files.Keys <= t.files.Keys
    requires forall id :: id in s.files ==> t.files[id] == s.files[id]
    ensures Hinted(v, t, h2) && HintsKept(h0, h2, v.dir)
  {
    hide HintBytes;
  }

  lemma OneOutputAdded(v: State, t: State, id: nat, recs: seq<Command>)
    requires v.merge.Merge? && id !in v.files && t.files == v.files[id := recs] && Size(recs) <= v.merge.job.total
    ensures OutputsAdded(v, t)
  {
    hide Size;
  }

  // ---- all sources ----

  lemma OpenIs(cfg: Config, v: State)
    requires Reachable(cfg, v) && CanOpenOutput(v)
    ensures var t, id := OpenOutput(v), v.merge.next + 1;
            && Reachable(cfg, t) && SameButMerge(v, t) && id !in v.dir
            && t == v.(merge := v.merge.(next := id, out := Some(Output(id, []))), compacts := v.compacts + {id}, hints := v.hints + {id}, media := t.media)
            && t.media.safe == v.media.safe
  {
    hide Reachable, Inv, CleanInv, MergeInv;
    ReachableKeeps(cfg, v);
    FilesLinked(cfg, v);
    OpenOutputMerge(cfg, v);
    Reaches(cfg, v, DoOpenOutput, OpenOutput(v));
  }

  lemma FilesLinked(cfg: Config, v: State)
    requires Inv(cfg, v)
    ensures v.dir <= v.files.Keys
  {
    hide ReplayInv, DurableInv, AckInv, HintsInv, OffsetInv, LinkedInv, KeydirInv, MergeInv;
  }

  /** With an output open the next source can be scanned. */
  lemma ScanReady(cfg: Config, v: State)
    requires Reachable(cfg, v) && v.merge.Merge? && v.merge.phase == Scan(0)
    ensures v.merge.src < |v.merge.job.sources|
    ensures v.merge.out.Some? ==> Scanning(v) && v.merge.job.prev < v.merge.out.value.id && v.merge.out.value.id == v.merge.next
    ensures v.merge.out.None? ==> CanOpenOutput(v) && v.merge.pending == []
  {
    ReachableKeeps(cfg, v);
    hide Reachable, CleanInv, FilesInv, ReplayInv, DurableInv, AckInv, HintsInv, OffsetInv, LinkedInv, KeydirInv, JobInv, CopiesInv, PendingInv, CoverInv, SnapshotInv, BaseInv, CountInv;
  }

  lemma HintOpened(hints: map<nat, seq<byte>>, dir: set<nat>, files: Files, id: nat, bytes: seq<byte>)
    requires HintsShow(hints, dir, files) && id !in dir
    ensures HintsShow(hints[id := bytes], dir, files)
  {
    hide GoodHint;
  }

  /** Creates the next output's two files. */
  method OpenNext(b: Bitcask, id: nat) returns (out: MergeOutput)
    requires b.Valid() && CanOpenOutput(b.view) && id == b.view.merge.next + 1
    modifies b`compacts, b`hints, b`view
    ensures b.Valid() && b.view == OpenOutput(old(b.view)) && fresh(out)
    ensures id !in b.view.dir && b.hints == old(b.hints)[id := []]
    ensures b.view.merge.out == Some(Output(out.id, [])) && out.Shows([]) && out.id in b.view.hints
  {
    hide Reachable, HintsShow, FilesShow, Shards, SyncedShows, OpenOutput, EncodeLog, HintBytes, Size;
    OpenIs(b.cfg, b.view);
    HintOpened(b.hints, b.dir, b.view.files, id, []);
    out := new MergeOutput(id);
    SyncedFrame(b.synced, b.view, OpenOutput(b.view));
    b.compacts := b.compacts + {id};
    b.hints := b.hints[id := []];
    b.view := OpenOutput(b.view);
  }

  lemma FinishIs(cfg: Config, v: State)
    requires Reachable(cfg, v) && CanFinishSource(v)
    ensures var t := FinishSource(cfg, v);
            && Reachable(cfg, t)
            && t == v.(merge := v.merge.(src := v.merge.src + 1, phase := t.merge.phase))
            && t.merge.phase == (if Size(v.merge.out.value.recs) >= cfg.threshold || v.merge.src + 1 == |v.merge.job.sources|
                                 then SyncOutput else Scan(0))
  {
    hide Reachable, Size;
    Reaches(cfg, v, DoFinishSource, FinishSource(cfg, v));
  }

  /** What the merge may change before it deletes anything. */
  ghost predicate MergedSoFar(v: State, t: State) {
    && t.store == v.store && t.lock == v.lock && t.stale == v.stale && t.current == v.current
    && v.merge.Merge? && t.merge.Merge? && t.merge.job == v.merge.job
    && v.dir <= t.dir && (forall id :: id in t.dir ==> id in v.dir || v.merge.job.prev < id)
    && v.readers <= t.readers && OutputsAdded(v, t)
  }

  /** The output variable and the pending list are the machine's. */
  ghost predicate LocalsShow(v: State, out: Option<MergeOutput>, pending: seq<Pending>, next: nat)
    reads if out.Some? then {out.value} else {}
  {
    && v.merge.Merge? && v.merge.next == next && v.merge.pending == pending
    && (out.Some? <==> v.merge.out.Some?)
    && (out.Some? ==>
          && v.merge.out.value.id == out.value.id && out.value.Shows(v.merge.out.value.recs)
          && out.value.id in v.hints && v.merge.job.prev < out.value.id)
  }

  /** Between two sources, or behind the last one with or without an unfinished output. */
  ghost predicate Between(v: State, i: nat, out: Option<MergeOutput>) {
    && v.merge.Merge? && v.merge.src == i <= |v.merge.job.sources|
    && v.merge.phase == (if i < |v.merge.job.sources| then Scan(0) else if out.Some? then SyncOutput else Delete(0, false))
  }

  ghost predicate SourceEnded(cfg: Config, v: State, t: State) {
    && v.merge.Merge? && v.merge.out.Some?
    && var full := Size(v.merge.out.value.recs) >= cfg.threshold || v.merge.src + 1 == |v.merge.job.sources|;
       t == v.(merge := v.merge.(src := v.merge.src + 1, phase := if full then SyncOutput else Scan(0)))
  }

  /** The end of a source: the output is to be finished if it is full or no source is left. */
  method EndSource(b: Bitcask)
    requires b.Valid() && CanFinishSource(b.view)
    modifies b`view
    ensures b.Valid() && SourceEnded(b.cfg, old(b.view), b.view)
  {
    hide Reachable, FilesShow, HintsShow, Shards, SyncedShows, FinishSource, Size;
    FinishIs(b.cfg, b.view);
    SyncedFrame(b.synced, b.view, FinishSource(b.cfg, b.view));
    b.view := FinishSource(b.cfg, b.view);
  }

  /** Opening an output and scanning add no data file. */
  lemma NothingNew(v: State, t: State, before: map<nat, seq<byte>>, after: map<nat, seq<byte>>, id: nat)
    requires t.dir == v.dir && (after == before || (id !in v.dir && after == before[id := []]))
    ensures Hinted(v, t, after) && HintsKept(before, after, v.dir)
  {
    hide HintBytes;
  }

  lemma Transitive(v: State, s: State, t: State, h0: map<nat, seq<byte>>, h1: map<nat, seq<byte>>, h2: map<nat, seq<byte>>)
    requires Hinted(v, s, h1) && HintsKept(h0, h1, v.dir) && Hinted(s, t, h2) && HintsKept(h1, h2, s.dir)
    requires v.dir <= s.dir && s.current == t.current && OutputsAdded(s, t)
    ensures Hinted(v, t, h2) && HintsKept(h0, h2, v.dir)
  {
    hide Hinted, HintsKept, Size;
    HintedThrough(v, s, t, h0, h1, h2);
  }

  /** One source: open an output if there is none, scan, and finish the output if it is full. */
  method MergeSource(b: Bitcask, fileId: nat, out: Option<MergeOutput>, pending: seq<Pending>, next: nat)
    returns (out': Option<MergeOutput>, pending': seq<Pending>, next': nat)
    requires b.Valid() && b.view.merge.Merge? && b.view.merge.src < |b.view.merge.job.sources|
    requires Between(b.view, b.view.merge.src, out) && LocalsShow(b.view, out, pending, next) && fileId == CurrentSource(b.view)
    modifies b, b.index, if out.Some? then {out.value} else {}
    ensures b.Valid() && MergedSoFar(old(b.view), b.view)
    ensures Hinted(old(b.view), b.view, b.hints) && HintsKept(old(b.hints), b.hints, old(b.view).dir)
    ensures Between(b.view, old(b.view).merge.src + 1, out') && LocalsShow(b.view, out', pending', next')
    ensures out'.Some? && b.view.merge.src < |b.view.merge.job.sources| ==> out'.value.written < b.cfg.threshold
    ensures out'.Some? ==> out'.value == (if out.Some? then out.value else out'.value) && (out.None? ==> fresh(out'.value))
  {
    hide Reachable, b.Shows, OpenOutput, EncodeLog, HintBytes, Size, Hinted, HintsKept;
    ScanReady(b.cfg, b.view);
    next' := next;
    var o: MergeOutput;
    if out.Some? {
      o := out.value;
    } else {
      next' := next + 1;
      OpenIs(b.cfg, b.view);
      o := OpenNext(b, next');
      ScanReady(b.cfg, b.view);
    }
    pending' := ScanSource(b, o, pending, fileId);
    EndSource(b);
    out' := Some(o);
    ghost var v, h := b.view, b.hints;
    assert Hinted(old(b.view), v, h) && HintsKept(old(b.hints), h, old(b.view).dir) by {
      NothingNew(old(b.view), v, old(b.hints), h, next');
    }
    var full := o.IsFull(b.cfg.threshold);
    if full {
      FinishOutput(b, o, pending');
      Transitive(old(b.view), v, b.view, old(b.hints), h, b.hints);
      out', pending' := None, [];
    }
  }

  /** Walks all sources and finishes the last, half-filled output. */
  method MergeSources(b: Bitcask, sources: seq<nat>, prev: nat)
    requires b.Valid() && b.view.merge.Merge? && b.view.merge.job.sources == sources
    requires b.view.merge.phase == Scan(0) && b.view.merge.src == 0 && b.view.merge.out.None?
    requires b.view.merge.next == prev && b.view.merge.pending == []
    modifies b, b.index
    ensures b.Valid() && MergedSoFar(old(b.view), b.view)
    ensures InPhase(b.view, Delete(0, false)) && b.view.merge.pending == []
    ensures Hinted(old(b.view), b.view, b.hints) && HintsKept(old(b.hints), b.hints, old(b.view).dir)
  {
    hide Reachable, b.Shows, EncodeLog, HintBytes, Size, Hinted, HintsKept;
    ScanReady(b.cfg, b.view);
    NothingNew(b.view, b.view, b.hints, b.hints, 0);
    var out: Option<MergeOutput> := None;
    var pending: seq<Pending> := [];
    var next := prev;
    for i := 0 to |sources|
      invariant b.Valid() && MergedSoFar(old(b.view), b.view)
      invariant Hinted(old(b.view), b.view, b.hints) && HintsKept(old(b.hints), b.hints, old(b.view).dir)
      invariant Between(b.view, i, out) && LocalsShow(b.view, out, pending, next)
      invariant out.Some? ==> fresh(out.value)
    {
      ghost var v, h := b.view, b.hints;
      out, pending, next := MergeSource(b, sources[i], out, pending, next);
      Transitive(old(b.view), v, b.view, old(b.hints), h, b.hints);
    }
    if out.Some? {
      ghost var v, h := b.view, b.hints;
      FinishOutput(b, out.value, pending);
      Transitive(old(b.view), v, b.view, old(b.hints), h, b.hints);
    } else {
      DeleteReady(b.cfg, b.view);
    }
  }

  lemma DeleteReady(cfg: Config, v: State)
    requires Reachable(cfg, v) && InPhase(v, Delete(0, false))
    ensures v.merge.pending == []
  {
    ReachableKeeps(cfg, v);
    hide Reachable, CleanInv, FilesInv, ReplayInv, DurableInv, AckInv, HintsInv, OffsetInv, LinkedInv, KeydirInv, JobInv, CopiesInv, PendingInv, CoverInv, SnapshotInv, BaseInv, CountInv;
  }

  // ---- deleting ----

  lemma DeleteIs(cfg: Config, v: State)
    requires Reachable(cfg, v) && Deleting(v, false)
    ensures Reachable(cfg, DeleteData(v))
    ensures var id := v.merge.job.sources[v.merge.phase.i];
            && (id in v.dir <==> v.merge.job.clean)
            && (id in v.dir ==>
                  && Deleting(DeleteData(v), true)
                  && Reachable(cfg, DeleteHint(DeleteData(v)))
                  && DeleteHint(DeleteData(v)) ==
                     v.(dir := v.dir - {id}, hints := v.hints - {id}, hist := v.hist.(deleted := true),
                        merge := v.merge.(phase := Delete(v.merge.phase.i + 1, false))))
            && (id !in v.dir ==> DeleteData(v) == v.(merge := NoMerge) && v.merge.phase.i == 0)
  {
    DeletesExactlyWhenClean(cfg, v);
    hide Reachable;
    Reaches(cfg, v, DoDeleteData, DeleteData(v));
    if v.merge.job.clean {
      Reaches(cfg, DeleteData(v), DoDeleteHint, DeleteHint(DeleteData(v)));
    }
  }

  lemma HintsLess(hints: map<nat, seq<byte>>, dir: set<nat>, files: Files, id: nat)
    requires HintsShow(hints, dir, files)
    ensures HintsShow(Dropped(hints, {id}), dir - {id}, files)
  {
    hide GoodHint;
  }

  /** Removes one source's data file and then its hint. */
  method DeleteOne(b: Bitcask, id: nat) returns (r: Result<()>)
    requires b.Valid() && Deleting(b.view, false) && id == b.view.merge.job.sources[b.view.merge.phase.i]
    modifies b
    ensures b.Valid() && (r.Ok? <==> old(b.view).merge.job.clean)
    ensures r.Ok? ==> b.view == old(b.view).(dir := b.view.dir, hints := b.view.hints, hist := b.view.hist, merge := b.view.merge)
                      && b.view.dir == old(b.view).dir - {id}
                      && b.view.merge == old(b.view).merge.(phase := Delete(old(b.view).merge.phase.i + 1, false))
    ensures r.Err? ==> r.error == FileNotFound && b.view == old(b.view).(merge := NoMerge) && old(b.view).merge.phase.i == 0
    ensures b.hints == (if r.Ok? then Dropped(old(b.hints), {id}) else old(b.hints))
  {
    hide Reachable, FilesShow, HintsShow, Shards, SyncedShows, DeleteData, DeleteHint, Dropped;
    DeleteIs(b.cfg, b.view);
    if id !in b.dir {
      SyncedFrame(b.synced, b.view, DeleteData(b.view));
      b.view := DeleteData(b.view);
      return Err(FileNotFound);
    }
    HintsLess(b.hints, b.dir, b.view.files, id);
    DroppedKeys(b.hints, id);
    b.dir := b.dir - {id};
    b.hints := Dropped(b.hints, {id});
    SyncedFrame(b.synced, b.view, DeleteHint(DeleteData(b.view)));
    b.view := DeleteHint(DeleteData(b.view));
    return Ok(());
  }

  lemma DroppedKeys(hints: map<nat, seq<byte>>, id: nat)
    ensures Dropped(hints, {id}).Keys == hints.Keys - {id}
  {
  }

  /** Removes the sources in ascending order; the first one already gone is an error. */
  method DeleteSources(b: Bitcask, sources: seq<nat>) returns (r: Result<()>)
    requires b.Valid() && InPhase(b.view, Delete(0, false)) && b.view.merge.job.sources == sources != []
    modifies b
    ensures b.Valid() && (r.Ok? <==> old(b.view).merge.job.clean)
    ensures r.Ok? ==> b.view == old(b.view).(dir := b.view.dir, hints := b.view.hints, hist := b.view.hist, merge := b.view.merge)
                      && (forall id :: id in b.view.dir <==> id in old(b.view).dir && id !in sources)
                      && b.view.merge == old(b.view).merge.(phase := Delete(|sources|, false))
    ensures r.Err? ==> r.error == FileNotFound && b.view == old(b.view).(merge := NoMerge)
    ensures forall id :: id !in sources ==> (id in b.hints <==> id in old(b.hints)) && (id in b.hints ==> b.hints[id] == old(b.hints)[id])
    ensures r.Ok? ==> forall id :: id in sources ==> id !in b.hints
  {
    hide Reachable, b.Shows;
    for i := 0 to |sources|
      invariant b.Valid() && (i > 0 ==> old(b.view).merge.job.clean)
      invariant b.view == old(b.view).(dir := b.view.dir, hints := b.view.hints, hist := b.view.hist, merge := b.view.merge)
      invariant i == 0 ==> b.view == old(b.view)
      invariant b.view.merge == old(b.view).merge.(phase := Delete(i, false))
      invariant forall id :: id in b.view.dir <==> id in old(b.view).dir && id !in sources[..i]
      invariant forall id :: id !in sources[..i] ==> (id in b.hints <==> id in old(b.hints)) && (id in b.hints ==> b.hints[id] == old(b.hints)[id])
      invariant forall id :: id in sources[..i] ==> id !in b.hints
    {
      assert sources[..i + 1] == sources[..i] + [sources[i]];
      var deleted := DeleteOne(b, sources[i]);
      if deleted.Err? {
        return deleted;
      }
    }
    assert sources[..|sources|] == sources;
    return Ok(());
  }

  lemma EndIs(cfg: Config, v: State)
    requires Reachable(cfg, v) && v.lock.Free? && v.merge.Merge? && v.merge.phase == Delete(|v.merge.job.sources|, false)
    ensures v.merge.job.initStale <= v.stale
    ensures Reachable(cfg, MergeEnd(v)) && MergeEnd(v) == v.(stale := v.stale - v.merge.job.initStale, merge := NoMerge)
  {
    hide Reachable, Inv, CleanInv;
    ReachableKeeps(cfg, v);
    StaleCovers(cfg, v);
    Reaches(cfg, v, DoMergeEnd, MergeEnd(v));
  }

  /** Subtracts the stale bytes counted when the merge began. */
  method SubtractStale(b: Bitcask, initStale: nat)
    requires b.Valid() && b.view.lock.Free? && b.view.merge.Merge?
    requires b.view.merge.phase == Delete(|b.view.merge.job.sources|, false) && initStale == b.view.merge.job.initStale
    modifies b`stale, b`view
    ensures b.Valid() && initStale <= old(b.stale)
    ensures b.view == old(b.view).(stale := old(b.view.stale) - initStale, merge := NoMerge)
  {
    hide Reachable, FilesShow, HintsShow, Shards, SyncedShows, MergeEnd;
    EndIs(b.cfg, b.view);
    b.stale := b.stale - initStale;
    SyncedFrame(b.synced, b.view, MergeEnd(b.view));
    b.view := MergeEnd(b.view);
  }

  /**
   What a merge leaves of the files: the old ones unchanged behind their handles, outputs no
   larger than the sources together, and the active file past the reserved ids.
   */
  ghost predicate MergeGrew(cfg: Config, v: State, t: State) {
    && cfg.threshold > 0
    && var total := TotalSize(v.files, Sources(v));
       && t.current == v.current + total / cfg.threshold + 3
       && v.files.Keys <= t.files.Keys && (forall id :: id in v.files ==> t.files[id] == v.files[id])
       && (forall id :: id in t.files && id !in v.files ==> Size(t.files[id]) <= total)
  }

  lemma GrewThrough(cfg: Config, v: State, a: State, t: State)
    requires StartedFrom(cfg, v, a) && a.files == v.files[a.current := []] && a.current !in v.files && a.merge.Merge?
    requires a.merge.job.total == TotalSize(v.files, Sources(v)) && OutputsAdded(a, t) && t.current == a.current
    requires a.current == v.current + TotalSize(v.files, Sources(v)) / cfg.threshold + 3
    ensures MergeGrew(cfg, v, t)
  {
    hide Started, Sources, TotalSize, Size;
    SizeEmpty();
  }

  /**
   `run_compaction`: keeps the store whatever happens. It does nothing below the threshold or
   without sources. Otherwise it succeeds exactly when every source is still linked; then all
   of them are gone, the stale count is back to zero and no key is read from a source.
   */
  method RunCompaction(b: Bitcask) returns (r: Result<()>)
    requires b.Valid() && b.view.lock.Free? && b.view.merge.NoMerge?
    requires TotalSize(b.view.files, Sources(b.view)) < U64_END
    modifies b, b.index
    ensures b.Valid() && b.view.lock.Free? && b.view.merge.NoMerge? && b.view.store == old(b.view).store
    ensures old(b.view).stale < b.cfg.compactionThreshold || Sources(old(b.view)) == [] ==> r.Ok? && b.view == old(b.view)
    ensures old(b.view).stale >= b.cfg.compactionThreshold && Sources(old(b.view)) != [] ==>
              && (r.Ok? <==> forall id :: id in Sources(old(b.view)) ==> id in old(b.view).dir)
              && (r.Ok? ==> b.view.stale == 0 && forall id :: id in Sources(old(b.view)) ==> id !in b.view.dir)
              && (r.Err? ==> r.error == FileNotFound && b.view.stale == old(b.view).stale && old(b.view).dir <= b.view.dir)
              && (forall k :: k in b.view.keydir ==> b.view.keydir[k].fileId !in Sources(old(b.view)))
              && old(b.view).readers <= b.view.readers
              && MergeGrew(b.cfg, old(b.view), b.view)
              && (forall id :: id in b.view.dir && id !in old(b.view).dir && id != b.view.current ==>
                    id in b.view.files && id in b.hints && b.hints[id] == HintBytes(id, b.view.files[id]))
              && (r.Ok? ==> forall id :: id in Sources(old(b.view)) ==> id !in b.hints)
  {
    hide Reachable, b.Shows, TotalSize, Sources, Started, NewJob, OutputsAdded, Size, HintBytes, Hinted, HintsKept, MergeGrew;
    ghost var v := b.view;
    var prev, initStale := b.current, b.stale;
    ShownFields(b);
    var sources := Start(b);
    if sources.None? {
      return Ok(());
    }
    StartedIs(b.cfg, v);
    ghost var started := b.view;
    MergeSources(b, sources.value, prev);
    GrewThrough(b.cfg, v, started, b.view);
    SourcesWereLinked(b.cfg, v, started, b.view, b.hints);
    NoEntries(b.cfg, b.view);
    ghost var merged, hints := b.view, b.hints;
    r := DeleteAndEnd(b, sources.value, initStale);
    HintsOutlive(v, merged, b.view, hints, b.hints);
    GrewSame(b.cfg, v, merged, b.view);
  }

  lemma GrewSame(cfg: Config, v: State, t: State, t': State)
    requires MergeGrew(cfg, v, t) && t'.files == t.files && t'.current == t.current
    ensures MergeGrew(cfg, v, t')
  {
    hide Sources, TotalSize, Size;
  }

  /** The end of a merge: delete the sources, and if all went subtract the stale bytes. */
  method DeleteAndEnd(b: Bitcask, sources: seq<nat>, initStale: nat) returns (r: Result<()>)
    requires b.Valid() && b.view.lock.Free? && InPhase(b.view, Delete(0, false))
    requires b.view.merge.job.sources == sources != [] && initStale == b.view.merge.job.initStale
    modifies b
    ensures b.Valid() && b.view.merge.NoMerge? && (r.Ok? <==> old(b.view).merge.job.clean)
    ensures b.view == old(b.view).(dir := b.view.dir, hints := b.view.hints, hist := b.view.hist, stale := b.view.stale, merge := NoMerge)
    ensures r.Ok? ==>
              && (forall id :: id in b.view.dir <==> id in old(b.view).dir && id !in sources)
              && initStale <= old(b.view).stale && b.view.stale == old(b.view).stale - initStale
              && (forall id :: id in sources ==> id !in b.hints)
    ensures r.Err? ==> r.error == FileNotFound && b.view == old(b.view).(merge := NoMerge)
    ensures forall id :: id !in sources ==> (id in b.hints <==> id in old(b.hints)) && (id in b.hints ==> b.hints[id] == old(b.hints)[id])
  {
    hide Reachable, b.Shows;
    r := DeleteSources(b, sources);
    if r.Ok? {
      SubtractStale(b, initStale);
    }
  }

  /** The hints of the outputs outlive the deletions. */
  lemma HintsOutlive(v: State, t: State, t': State, hints: map<nat, seq<byte>>, hints': map<nat, seq<byte>>)
    requires forall id :: id in t.dir && id !in v.dir && id != t.current ==>
               id !in Sources(v) && id in t.files && id in hints && hints[id] == HintBytes(id, t.files[id])
    requires t'.dir <= t.dir && t'.current == t.current && t'.files == t.files
    requires forall id :: id !in Sources(v) ==> (id in hints' <==> id in hints) && (id in hints' ==> hints'[id] == hints[id])
    ensures forall id :: id in t'.dir && id !in v.dir && id != t'.current ==>
              id in t'.files && id in hints' && hints'[id] == HintBytes(id, t'.files[id])
  {
    hide HintBytes, Sources;
  }

  /** The outputs are new files above the old active one, so no source is among them. */
  lemma SourcesWereLinked(cfg: Config, v: State, started: State, t: State, hints: map<nat, seq<byte>>)
    requires Reachable(cfg, v) && started.dir == v.dir + {started.current} && Hinted(started, t, hints) && t.current == started.current
    requires started.merge.Merge? && started.merge.job.prev == v.current
    requires forall id :: id in t.dir ==> id in started.dir || v.current < id
    ensures forall id :: id in t.dir && id !in v.dir && id != t.current ==>
              id !in Sources(v) && id in t.files && id in hints && hints[id] == HintBytes(id, t.files[id])
  {
    hide Reachable, HintBytes, Sorted;
    SortedMembers(v.readers - {v.current}, v.current + 1);
  }

  lemma ShownFields(b: Bitcask)
    requires b.Valid()
    ensures b.current == b.view.current && b.stale == b.view.stale
  {
    hide Reachable, FilesShow, HintsShow, Shards, SyncedShows;
  }

  lemma NoEntries(cfg: Config, v: State)
    requires Reachable(cfg, v) && InPhase(v, Delete(0, false))
    ensures forall k :: k in v.keydir ==> v.keydir[k].fileId !in v.merge.job.sources
  {
    hide Reachable;
    forall k | k in v.keydir ensures v.keydir[k].fileId !in v.merge.job.sources {
      NoEntryIntoSources(cfg, v, k);
    }
  }

  // ---- two merges of one process ----

  lemma {:induction false} SortedCount(ids: set<nat>, hi: nat)
    ensures |Sorted(ids, hi)| <= hi
  {
    if hi > 0 {
      SortedCount(ids, hi - 1);
    }
  }

  lemma {:induction false} TotalSizeBound(files: Files, ids: seq<nat>, m: nat)
    requires forall id :: id in files ==> Size(files[id]) <= m
    ensures TotalSize(files, ids) <= m * |ids|
  {
    hide Size;
    if ids != [] {
      var n := |ids| - 1;
      TotalSizeBound(files, ids[..n], m);
      assert m * (n + 1) == m * n + m;
    }
  }

  lemma SourcesBound(v: State, m: nat, n: nat)
    requires (forall id :: id in v.files ==> Size(v.files[id]) <= m) && v.current + 1 <= n
    ensures TotalSize(v.files, Sources(v)) <= m * n
  {
    hide Size, Sorted, TotalSize;
    TotalSizeBound(v.files, Sources(v), m);
    SortedCount(v.readers - {v.current}, v.current + 1);
    MulMonotone(m, |Sources(v)|, n);
  }

  /** The store behind one put into a fresh store that rotates after every record. */
  lemma OnePut(cfg: Config, c: Command, v: State)
    requires cfg.threshold == 1 && Extended(cfg, Fresh(), c, v)
    ensures v.files == map[1 := [c], 2 := []] && v.dir == {1, 2} && v.readers == {1, 2} && v.current == 2
    ensures Sources(v) == [1] && TotalSize(v.files, Sources(v)) == RecordLen(c)
    ensures forall id :: id in v.files ==> Size(v.files[id]) <= RecordLen(c)
  {
    assert [] + [c] == [c];
    assert v.files == map[1 := [c], 2 := []];
    assert v.readers - {2} == {1};
    assert Sorted({1}, 1) == [] && Sorted({1}, 2) == [1] && Sorted({1}, 3) == [1];
    SizeAppend([], c);
    SizeEmpty();
    assert TotalSize(v.files, []) == 0;
    assert [1][..0] == [];
    assert TotalSize(v.files, [1]) == Size([c]);
  }

  /** After the first merge: its source is gone from the directory but not from the readers. */
  lemma SecondIsUnclean(cfg: Config, v: State, t: State, len: nat)
    requires v.readers == {1, 2} && v.current == 2 && Sources(v) == [1] && TotalSize(v.files, Sources(v)) == len < 0x200_0000
    requires cfg.threshold == 1 && MergeGrew(cfg, v, t) && v.readers <= t.readers && 1 !in t.dir
    requires forall id :: id in v.files ==> Size(v.files[id]) <= len
    ensures 1 in Sources(t) && TotalSize(t.files, Sources(t)) < U64_END
  {
    hide Size, TotalSize, Sorted;
    SortedMembers(t.readers - {t.current}, t.current + 1);
    SourcesBound(t, len, len + 6);
    MulMonotone(len, len + 6, 0x400_0000);
    MulMonotone(0x400_0000, len, 0x400_0000);
  }

  /** A fresh store that rotates after every record, with one put in it. */
  method PutOnce(key: Key, value: Value, ts: nat, due: bool) returns (b: Bitcask)
    requires |key| + |value| < 0x100_0000 && ts < U64_END
    ensures b.Valid() && b.cfg == Config(1, 0, SyncOnEveryPut) && b.view.lock.Free? && b.view.merge.NoMerge?
    ensures Extended(b.cfg, Fresh(), Commands.Set(ts, key, value), b.view) && fresh(b) && fresh(b.index)
  {
    hide Reachable, Shards, FilesShow, HintsShow, SyncedShows, Extended;
    b := new Bitcask(Config(1, 0, SyncOnEveryPut));
    b.Set(key, value, ts, due);
  }

  /** Two merges of a store whose one source is still linked. */
  method MergeAndAgain(b: Bitcask, ghost len: nat) returns (first: Result<()>, second: Result<()>)
    requires b.Valid() && b.cfg == Config(1, 0, SyncOnEveryPut) && b.view.lock.Free? && b.view.merge.NoMerge?
    requires b.view.readers == {1, 2} && b.view.dir == {1, 2} && b.view.current == 2
    requires Sources(b.view) == [1] && TotalSize(b.view.files, Sources(b.view)) == len < 0x200_0000
    requires forall id :: id in b.view.files ==> Size(b.view.files[id]) <= len
    modifies b, b.index
    ensures first.Ok? && second == Err(FileNotFound)
  {
    hide b.Valid, Sources, TotalSize, Size, MergeGrew;
    ghost var v := b.view;
    assert forall id :: id in [1] ==> id in v.dir;
    first := RunCompaction(b);
    assert 1 in Sources(v);
    SecondIsUnclean(b.cfg, v, b.view, len);
    second := RunCompaction(b);
  }

  /**
   One put into a store that rotates after every record, then two merges: the first frees its
   source, and the second one fails on it.
   */
  method MergeTwice(key: Key, value: Value, ts: nat, due: bool) returns (first: Result<()>, second: Result<()>)
    requires |key| + |value| < 0x100_0000 && ts < U64_END
    ensures first.Ok? && second == Err(FileNotFound)
  {
    hide Reachable, Shards, FilesShow, HintsShow, SyncedShows, Extended, Sources, TotalSize, Size;
    var b := PutOnce(key, value, ts, due);
    ghost var c := Commands.Set(ts, key, value);
    OnePut(b.cfg, c, b.view);
    first, second := MergeAndAgain(b, RecordLen(c));
  }
}
