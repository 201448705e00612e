/**
 The merge's steps keep the invariant: scanning, finishing an output, publishing, deleting.
 */
module MergeSteps {
  import opened Bytes
  import opened Commands
  import opened Logs
  import opened Engine
  import opened Invariants
  import opened WriterSteps
  import opened RotateSteps

  /** Steps that change nothing but the merge's local state keep everything else. */
  lemma LocalStep(cfg: Config, s: State, t: State)
    requires Inv(cfg, s) && s.merge.Merge? && t.merge.Merge?
    requires t == s.(merge := t.merge, media := t.media)
    requires !s.merge.phase.Starting? && !t.merge.phase.Starting?
    requires t.merge.phase.InsertReader? || !s.merge.phase.InsertReader?
    requires t.merge.next == s.merge.next
    requires MergeInv(cfg, t)
    ensures Inv(cfg, t)
  {
    hide MergeInv, KeydirInv, HintsInv, OffsetInv, FilesInv, DurableInv, ReplayInv, Lookup, Log;
  }

  // ---- opening an output ----

  lemma CountBound(threshold: nat, full: nat, done: nat, total: nat)
    requires threshold > 0 && threshold * full <= done <= total
    ensures full <= total / threshold
  {
    var q := total / threshold;
    assert total == threshold * q + total % threshold;
    assert threshold * (q + 1) == threshold * q + threshold;
    MulMonotone(threshold, q + 1, full);
  }

  lemma MulMonotone(n: nat, a: nat, b: nat)
    ensures a <= b ==> n * a <= n * b
  {
    if a <= b {
      assert n * b == n * a + n * (b - a);
    }
  }

  lemma {:induction false} TotalSizePrefix(files: Files, ids: seq<nat>, n: nat)
    requires n <= |ids|
    ensures TotalSize(files, ids[..n]) <= TotalSize(files, ids)
    decreases |ids|
  {
    if n < |ids| {
      TotalSizePrefix(files, ids[..|ids| - 1], n);
      assert ids[..|ids| - 1][..n] == ids[..n];
    } else {
      assert ids[..n] == ids;
    }
  }

  lemma {:induction false} SizePrefix(recs: seq<Command>, n: nat)
    requires n <= |recs|
    ensures Size(recs[..n]) <= Size(recs)
  {
    SizeConcat(recs[..n], recs[n..]);
    assert recs == recs[..n] + recs[n..];
  }

  lemma TotalSizeStep(files: Files, ids: seq<nat>, n: nat)
    requires n < |ids| && ids[n] in files
    ensures TotalSize(files, ids[..n + 1]) == TotalSize(files, ids[..n]) + Size(files[ids[n]])
  {
    assert ids[..n + 1][..n] == ids[..n];
  }

  /** The merge never reads more than the sources hold. */
  lemma PassedAtMostTotal(files: Files, m: Merge)
    requires m.Merge? && PhaseInv(files, m)
    ensures BytesPassed(files, m) <= TotalSize(files, m.job.sources)
  {
    hide TotalSize, Size;
    var ids := m.job.sources;
    TotalSizePrefix(files, ids, m.src);
    if m.phase.Scan? {
      var f := files[ids[m.src]];
      TotalSizeStep(files, ids, m.src);
      TotalSizePrefix(files, ids, m.src + 1);
      SizePrefix(f, m.phase.at);
    }
  }

  lemma OpenOutputMerge(cfg: Config, s: State)
    requires Inv(cfg, s) && CanOpenOutput(s)
    ensures MergeInv(cfg, OpenOutput(s)) && OpenOutput(s).merge.next < s.merge.job.nextActive
    ensures OpenOutput(s).merge.next !in s.files
  {
    hide ReplayInv, DurableInv, AckInv, KeydirInv, HintsInv, OffsetInv, LinkedInv, Lookup, Log, Size, Mentions, Holds, TotalSize, EntryOk;
    var m, t := s.merge, OpenOutput(s);
    PassedAtMostTotal(s.files, m);
    CountBound(cfg.threshold, m.full, m.done, m.job.total);
    assert Size([]) == 0 by {
      SizeEmpty();
    }
  }

  lemma SizeEmpty()
    ensures Size([]) == 0
  {
  }

  lemma OpenOutputKeeps(cfg: Config, s: State)
    requires Inv(cfg, s) && CanOpenOutput(s)
    ensures Inv(cfg, OpenOutput(s))
  {
    hide MergeInv, ReplayInv, DurableInv, KeydirInv, OffsetInv, FilesInv, HintsInv, LinkedInv, AckInv;
    OpenOutputMerge(cfg, s);
    OpenOutputHints(cfg, s);
    OpenOutputOthers(cfg, s);
  }

  lemma OpenOutputOthers(cfg: Config, s: State)
    requires Inv(cfg, s) && CanOpenOutput(s)
    ensures var t := OpenOutput(s);
            && LinkedInv(t.dir, t.readers, t.lock, t.merge)
            && AckInv(cfg, t.files, t.current, t.lock, t.merge, Logged(t), t.hist)
  {
    hide MergeInv, ReplayInv, DurableInv, KeydirInv, OffsetInv, FilesInv, HintsInv, Lookup, Unsynced;
  }

  lemma OpenOutputHints(cfg: Config, s: State)
    requires Inv(cfg, s) && CanOpenOutput(s)
    ensures HintsInv(s.files, s.dir, OpenOutput(s).hints, s.current)
  {
    OpenOutputMerge(cfg, s);
    hide PhaseInv, CopiesInv, PendingInv, CoverInv, SnapshotInv, BaseInv, CountInv, ReplayInv, DurableInv, KeydirInv, OffsetInv, FilesInv, LinkedInv, AckInv, TotalSize, Ascending, AllSets;
  }

  // ---- scanning one record ----

  lemma HoldsUnique(recs: seq<Command>, i: nat, c: Command)
    requires i < |recs| && Holds(recs, Size(recs[..i]), c)
    ensures recs[i] == c
  {
    var j :| 0 <= j < |recs| && recs[j] == c && Size(recs[..j]) == Size(recs[..i]);
    if j < i {
      OffsetsGrow(recs, j, i);
    } else if i < j {
      OffsetsGrow(recs, i, j);
    }
  }

  /** A live record has the value the store holds, and held at the snapshot. */
  lemma LiveRecordValue(cfg: Config, s: State)
    requires Inv(cfg, s) && CanScanRecord(s)
    ensures var fileId := s.merge.job.sources[s.merge.src];
            var c := s.files[fileId][s.merge.phase.at];
            SitsInIndex(s, fileId, Size(s.files[fileId][..s.merge.phase.at]), c) ==>
              Get(s.merge.job.snapshot, c.key) == Some(c.value)
  {
    hide ReplayInv, DurableInv, AckInv, HintsInv, OffsetInv, LinkedInv, Lookup, Log, Size, Mentions, Holds, CountInv, CoverInv, PendingInv, CopiesInv;
    var m := s.merge;
    var fileId := m.job.sources[m.src];
    var recs := s.files[fileId];
    var c := recs[m.phase.at];
    assert fileId in m.job.sources;
    if SitsInIndex(s, fileId, Size(recs[..m.phase.at]), c) {
      HoldsUnique(recs, m.phase.at, Set(s.keydir[c.key].ts, c.key, s.store[c.key]));
    }
  }

  /** An entry that the scan passes with this record is the entry of this record. */
  lemma NewlyPassed(cfg: Config, s: State, k: Key)
    requires Inv(cfg, s) && CanScanRecord(s) && k in s.keydir
    requires Passed(s.files, s.merge.(phase := Scan(s.merge.phase.at + 1)), s.keydir[k].fileId, s.keydir[k].offset)
    requires !Passed(s.files, s.merge, s.keydir[k].fileId, s.keydir[k].offset)
    ensures var fileId := s.merge.job.sources[s.merge.src];
            && s.files[fileId][s.merge.phase.at].key == k
            && SitsInIndex(s, fileId, Size(s.files[fileId][..s.merge.phase.at]), s.files[fileId][s.merge.phase.at])
  {
    hide ReplayInv, DurableInv, AckInv, HintsInv, OffsetInv, LinkedInv, MergeInv, Lookup, Log, Size, Mentions;
    var m, e := s.merge, s.keydir[k];
    var recs := s.files[m.job.sources[m.src]];
    var i :| 0 <= i < |recs| && recs[i] == Set(e.ts, k, s.store[k]) && Size(recs[..i]) == e.offset;
    if i > m.phase.at {
      if i > m.phase.at + 1 {
        OffsetsGrow(recs, m.phase.at + 1, i);
      }
    } else if i < m.phase.at {
      OffsetsGrow(recs, i, m.phase.at);
    }
  }

  lemma ScanCover(cfg: Config, s: State)
    requires Inv(cfg, s) && CanScanRecord(s)
    ensures CoverInv(s.files, s.keydir, ScanRecord(s).merge)
  {
    hide ReplayInv, DurableInv, AckInv, HintsInv, OffsetInv, LinkedInv, KeydirInv, Lookup, Log, Size, Mentions, CountInv, PendingInv, CopiesInv, BaseInv, SnapshotInv;
    var m, t := s.merge, ScanRecord(s);
    forall k | k in s.keydir && Passed(s.files, t.merge, s.keydir[k].fileId, s.keydir[k].offset)
      ensures Queued(t.merge, k, s.keydir[k])
    {
      var e := s.keydir[k];
      if Passed(s.files, m, e.fileId, e.offset) {
        var i :| 0 <= i < |m.pending| && m.pending[i].key == k
                 && m.pending[i].prevFile == e.fileId && m.pending[i].prevOffset == e.offset;
        assert t.merge.pending[i] == m.pending[i];
      } else {
        NewlyPassed(cfg, s, k);
        assert t.merge.pending[|m.pending|].key == k;
      }
    }
  }

  lemma SourceStorable(cfg: Config, s: State)
    requires Inv(cfg, s) && CanScanRecord(s)
    ensures Storable(s.files[s.merge.job.sources[s.merge.src]][s.merge.phase.at])
  {
    hide ReplayInv, DurableInv, AckInv, HintsInv, OffsetInv, LinkedInv, KeydirInv, MergeInv, Storable;
    assert AllStorable(s.files[s.merge.job.sources[s.merge.src]]);
  }

  lemma CopiesAppend(m: Merge, m': Merge, c: Command)
    requires m.Merge? && CopiesInv(m) && m.out.Some?
    requires m'.Merge? && m'.job == m.job && m'.out == Some(Output(m.out.value.id, m.out.value.recs + [c]))
    requires Storable(c) && c.Set? && Get(m.job.snapshot, c.key) == Some(c.value)
    ensures CopiesInv(m')
  {
    hide Storable;
  }

  lemma ScanCopies(cfg: Config, s: State)
    requires Inv(cfg, s) && CanScanRecord(s)
    ensures CopiesInv(ScanRecord(s).merge)
  {
    LiveRecordValue(cfg, s);
    SourceStorable(cfg, s);
    hide FilesInv, ReplayInv, DurableInv, AckInv, HintsInv, OffsetInv, LinkedInv, KeydirInv, PendingInv, CopiesInv, Size, Storable, CountInv, CoverInv, BaseInv, SnapshotInv, JobInv, PhaseInv;
    var m, t := s.merge, ScanRecord(s);
    var fileId := m.job.sources[m.src];
    var c := s.files[fileId][m.phase.at];
    if SitsInIndex(s, fileId, Size(s.files[fileId][..m.phase.at]), c) {
      CopiesAppend(m, t.merge, c);
    } else {
      CopiesPhase(m, t.merge.phase);
    }
  }

  /** The output grows by one record, and its update joins the queue. */
  lemma PendingAppend(files: Files, m: Merge, m': Merge, c: Command, p: Pending)
    requires m.Merge? && m.out.Some? && PendingInv(files, m)
    requires m'.Merge? && m'.job == m.job && m'.next == m.next
    requires m'.out == Some(Output(m.out.value.id, m.out.value.recs + [c])) && m'.pending == m.pending + [p]
    requires c.Set? && Get(m.job.snapshot, c.key) == Some(c.value) && p.key == c.key && p.prevFile < m.job.prev
    requires p.copy == EntryFor(m.next, Size(m.out.value.recs), c)
    ensures PendingInv(files, m')
  {
    hide Holds, Size, RecordLen;
    var recs := m.out.value.recs;
    assert c == Set(c.ts, c.key, m.job.snapshot[c.key]);
    HoldsLast(recs, c);
    forall i | 0 <= i < |m.pending|
      ensures var q := m.pending[i];
              Holds(recs + [c], q.copy.offset, Set(q.copy.ts, q.key, m.job.snapshot[q.key]))
    {
      var q := m.pending[i];
      HoldsAppend(recs, [c], q.copy.offset, Set(q.copy.ts, q.key, m.job.snapshot[q.key]));
    }
  }

  lemma ScanPending(cfg: Config, s: State)
    requires Inv(cfg, s) && CanScanRecord(s)
    ensures PendingInv(s.files, ScanRecord(s).merge)
  {
    LiveRecordValue(cfg, s);
    hide ReplayInv, DurableInv, AckInv, HintsInv, OffsetInv, LinkedInv, KeydirInv, CopiesInv, FilesInv, Size, CountInv, CoverInv, BaseInv, SnapshotInv, PendingInv, Ascending, TotalSize;
    var m, t := s.merge, ScanRecord(s);
    var fileId := m.job.sources[m.src];
    var c := s.files[fileId][m.phase.at];
    var offset := Size(s.files[fileId][..m.phase.at]);
    assert fileId in m.job.sources;
    if SitsInIndex(s, fileId, offset, c) {
      PendingAppend(s.files, m, t.merge, c, Pending(c.key, fileId, offset, EntryFor(m.next, Size(m.out.value.recs), c)));
    } else {
      PendingPhase(s.files, m, t.merge);
    }
  }

  lemma ScanCount(cfg: Config, s: State)
    requires Inv(cfg, s) && CanScanRecord(s)
    ensures CountInv(cfg, s.files, ScanRecord(s).merge)
  {
    hide ReplayInv, DurableInv, AckInv, HintsInv, OffsetInv, LinkedInv, KeydirInv, Lookup, Log, Size, Mentions, Holds, PendingInv, CoverInv, BaseInv, SnapshotInv, CopiesInv, TotalSize;
    var m := s.merge;
    var recs := s.files[m.job.sources[m.src]];
    var at := m.phase.at;
    assert recs[..at + 1] == recs[..at] + [recs[at]];
    SizeAppend(recs[..at], recs[at]);
    SizeAppend(m.out.value.recs, recs[at]);
  }

  /** Job, snapshot and base do not look at the pending list or the current output's content. */
  lemma SameJob(cfg: Config, s: State, m': Merge)
    requires MergeInv(cfg, s) && s.merge.Merge? && !s.merge.phase.Delete? && !s.merge.phase.Starting?
    requires m'.Merge? && m'.job == s.merge.job && m'.next == s.merge.next
    requires !m'.phase.Delete? && !m'.phase.Starting?
    requires Renamed(m') == Renamed(s.merge)
    requires m'.phase.InsertReader? || m'.phase.Publish? ==> m'.next in s.dir
    ensures JobInv(cfg, s.files, s.dir, s.current, s.lock, s.stale, m')
    ensures SnapshotInv(s.keydir, s.store, m')
    ensures BaseInv(s.files, s.dir, s.keydir, Top(s), m')
  {
    hide PhaseInv, CopiesInv, PendingInv, CoverInv, CountInv, Lookup, Log, Mentions, TotalSize, Ascending;
  }

  lemma ScanRecordKeeps(cfg: Config, s: State)
    requires Inv(cfg, s) && CanScanRecord(s)
    ensures Inv(cfg, ScanRecord(s))
  {
    var m, t := s.merge, ScanRecord(s);
    assert PhaseInv(t.files, t.merge);
    hide ReplayInv, DurableInv, AckInv, HintsInv, OffsetInv, LinkedInv, KeydirInv, FilesInv, PendingInv, CoverInv, CopiesInv, CountInv, JobInv, SnapshotInv, BaseInv, PhaseInv, Size;
    ScanCover(cfg, s);
    ScanCopies(cfg, s);
    ScanPending(cfg, s);
    ScanCount(cfg, s);
    SameJob(cfg, s, t.merge);
    LocalStep(cfg, s, t);
  }

  // ---- the end of a source ----

  lemma EntryWithinFile(files: Files, k: Key, e: Entry, v: Value)
    requires EntryOk(files, k, e, v)
    ensures e.offset < Size(files[e.fileId])
  {
    var recs := files[e.fileId];
    var i :| 0 <= i < |recs| && recs[i] == Set(e.ts, k, v) && Size(recs[..i]) == e.offset;
    assert recs[..|recs|] == recs;
    OffsetsGrow(recs, i, |recs|);
  }

  lemma FinishCover(cfg: Config, s: State)
    requires Inv(cfg, s) && CanFinishSource(s)
    ensures CoverInv(s.files, s.keydir, FinishSource(cfg, s).merge)
  {
    hide ReplayInv, DurableInv, AckInv, HintsInv, OffsetInv, LinkedInv, Lookup, Log, Size, Mentions, Holds, CountInv, PendingInv, CopiesInv, BaseInv, SnapshotInv, EntryOk, Queued;
    var m, t := s.merge, FinishSource(cfg, s);
    var recs := s.files[m.job.sources[m.src]];
    assert recs[..|recs|] == recs;
    assert m.job.sources[..m.src + 1] == m.job.sources[..m.src] + [m.job.sources[m.src]];
    forall k | k in s.keydir && Passed(s.files, t.merge, s.keydir[k].fileId, s.keydir[k].offset)
      ensures Queued(t.merge, k, s.keydir[k])
    {
      var e := s.keydir[k];
      EntryWithinFile(s.files, k, e, s.store[k]);
      if t.merge.phase.Scan? {
        assert s.files[e.fileId][..0] == [];
        SizeEmpty();
      }
      assert Passed(s.files, m, e.fileId, e.offset);
      QueuedSame(m, t.merge, k, e);
    }
  }

  lemma QueuedSame(m: Merge, m': Merge, k: Key, e: Entry)
    requires m.Merge? && m'.Merge? && m.pending == m'.pending && Queued(m, k, e)
    ensures Queued(m', k, e)
  {
  }

  lemma FinishCount(cfg: Config, s: State)
    requires Inv(cfg, s) && CanFinishSource(s)
    ensures CountInv(cfg, s.files, FinishSource(cfg, s).merge)
  {
    hide ReplayInv, DurableInv, AckInv, HintsInv, OffsetInv, LinkedInv, KeydirInv, Lookup, Log, Size, Mentions, Holds, PendingInv, CoverInv, BaseInv, SnapshotInv, CopiesInv, TotalSize;
    var m := s.merge;
    var recs := s.files[m.job.sources[m.src]];
    assert recs[..|recs|] == recs;
    TotalSizeStep(s.files, m.job.sources, m.src);
  }

  lemma PendingPhase(files: Files, m: Merge, m': Merge)
    requires m.Merge? && PendingInv(files, m) && CopiesInv(m)
    requires m'.Merge? && m'.job == m.job && m'.next == m.next && m'.out == m.out && m'.pending == m.pending
    ensures PendingInv(files, m') && CopiesInv(m')
  {
    hide Holds;
  }

  lemma FinishPhase(cfg: Config, s: State)
    requires Inv(cfg, s) && CanFinishSource(s)
    ensures PhaseInv(s.files, FinishSource(cfg, s).merge)
  {
    hide ReplayInv, DurableInv, AckInv, HintsInv, OffsetInv, LinkedInv, KeydirInv, FilesInv, PendingInv, CoverInv, CopiesInv, CountInv, SnapshotInv, BaseInv, Size, TotalSize, Ascending;
    var m := FinishSource(cfg, s).merge;
    assert m.src < |m.job.sources| ==> m.job.sources[m.src] in m.job.sources;
  }

  lemma FinishSourceKeeps(cfg: Config, s: State)
    requires Inv(cfg, s) && CanFinishSource(s)
    ensures Inv(cfg, FinishSource(cfg, s))
  {
    hide ReplayInv, DurableInv, AckInv, HintsInv, OffsetInv, LinkedInv, KeydirInv, FilesInv, JobInv, PhaseInv, PendingInv, CoverInv, CopiesInv, CountInv, SnapshotInv, BaseInv, Size;
    var t := FinishSource(cfg, s);
    FinishCover(cfg, s);
    FinishCount(cfg, s);
    FinishPhase(cfg, s);
    PendingPhase(s.files, s.merge, t.merge);
    SameJob(cfg, s, t.merge);
    LocalStep(cfg, s, t);
  }

  // ---- finishing an output ----

  lemma CoverPhase(files: Files, keydir: Keydir, m: Merge, m': Merge)
    requires m.Merge? && CoverInv(files, keydir, m) && !m.phase.Scan?
    requires m'.Merge? && m'.job == m.job && m'.src == m.src && m'.pending == m.pending && !m'.phase.Scan?
    ensures CoverInv(files, keydir, m')
  {
    hide Queued;
    forall k | k in keydir && Passed(files, m', keydir[k].fileId, keydir[k].offset) ensures Queued(m', k, keydir[k]) {
      assert Passed(files, m, keydir[k].fileId, keydir[k].offset);
      QueuedSame(m, m', k, keydir[k]);
    }
  }

  lemma SyncOutputKeeps(cfg: Config, s: State)
    requires Inv(cfg, s) && InPhase(s, SyncOutput) && s.merge.out.Some?
    ensures Inv(cfg, SyncOutputStep(s))
  {
    var t := SyncOutputStep(s);
    CoverPhase(s.files, s.keydir, s.merge, t.merge);
    PendingPhase(s.files, s.merge, t.merge);
    hide ReplayInv, DurableInv, AckInv, HintsInv, OffsetInv, LinkedInv, KeydirInv, FilesInv, Lookup, Log, Size, Mentions, PendingInv, CoverInv, CopiesInv;
    LocalStep(cfg, s, t);
  }

  /**
   A file of copies of the snapshot's values, slipped in behind everything the snapshot was
   made of, changes nothing: not the base, and not the whole log.
   */
  lemma InsertCopies(files: Files, dir: set<nat>, files': Files, dir': set<nat>, id: nat, base: nat, top: nat, k: Key, v: Option<Value>)
    requires id < base <= top
    requires forall i: nat :: i < top && i != id ==> FileOf(files, dir, i) == FileOf(files', dir', i)
    requires forall i: nat :: id <= i < base ==> FileOf(files, dir, i) == []
    requires Lookup(Log(files, dir, 0, base), k, None) == v
    requires forall i :: 0 <= i < |FileOf(files', dir', id)| && FileOf(files', dir', id)[i].key == k ==>
               Effect(FileOf(files', dir', id)[i]) == v
    ensures Lookup(Log(files', dir', 0, base), k, None) == v
    ensures Lookup(Log(files', dir', 0, top), k, None) == Lookup(Log(files, dir, 0, top), k, None)
    ensures Log(files', dir', base, top) == Log(files, dir, base, top)
  {
    hide Lookup, Log;
    var copies := FileOf(files', dir', id);
    var below := Log(files', dir', 0, id);
    LogFrame(files, dir, files', dir', 0, id);
    LogSplit(files, dir, 0, id, base);
    LogEmpty(files, dir, id, base);
    assert Log(files, dir, 0, base) == below;
    LogAround(files', dir', 0, id, base);
    LogFrame(files, dir, files', dir', id + 1, base);
    LogEmpty(files', dir', id + 1, base);
    assert Log(files', dir', 0, base) == below + copies;
    LookupConcat(below, copies, k, None);
    LookupSame(copies, k, v);
    LogFrame(files, dir, files', dir', base, top);
    LogSplit(files, dir, 0, base, top);
    LogSplit(files', dir', 0, base, top);
    LookupConcat(Log(files, dir, 0, base), Log(files, dir, base, top), k, None);
    LookupConcat(Log(files', dir', 0, base), Log(files', dir', base, top), k, None);
  }

  /** What a rename leaves: the frame that `InsertCopies` needs. */
  lemma RenameFrame(cfg: Config, s: State)
    requires Inv(cfg, s) && InPhase(s, RenameOutput)
    ensures var t, id, j := RenameOutputStep(s), s.merge.next, s.merge.job;
            && j.prev < id < j.nextActive <= s.current < Top(s) && id !in s.files && id !in s.dir
            && (forall i: nat :: i != id ==> FileOf(s.files, s.dir, i) == FileOf(t.files, t.dir, i))
            && (forall i: nat :: id <= i < j.nextActive ==> FileOf(s.files, s.dir, i) == [])
            && FileOf(t.files, t.dir, id) == s.merge.out.value.recs
            && Size(s.merge.out.value.recs) <= j.total
  {
    hide ReplayInv, DurableInv, AckInv, KeydirInv, HintsInv, OffsetInv, LinkedInv, BaseInv, PendingInv, CoverInv, CopiesInv, SnapshotInv, Lookup, Log, Size, Mentions, TotalSize;
    PassedAtMostTotal(s.files, s.merge);
  }

  lemma BaseLookup(cfg: Config, s: State, k: Key)
    requires MergeInv(cfg, s) && s.merge.Merge? && !s.merge.phase.Delete?
    ensures Lookup(Log(s.files, s.dir, 0, s.merge.job.nextActive), k, None) == Get(s.merge.job.snapshot, k)
  {
    hide JobInv, PhaseInv, CopiesInv, PendingInv, CoverInv, SnapshotInv, CountInv, Log, Lookup;
  }

  lemma CopiesEffect(m: Merge, k: Key)
    requires m.Merge? && m.out.Some? && CopiesInv(m)
    ensures forall i :: 0 <= i < |m.out.value.recs| && m.out.value.recs[i].key == k ==>
              Effect(m.out.value.recs[i]) == Get(m.job.snapshot, k)
  {
  }

  /** The rename leaves the value of every key alone, in any files that agree below the tail. */
  lemma RenameOneKey(cfg: Config, s: State, f: Files, g: Files, k: Key)
    requires Inv(cfg, s) && InPhase(s, RenameOutput)
    requires var t := RenameOutputStep(s);
             && (forall i: nat :: i < s.merge.job.nextActive ==> FileOf(f, s.dir, i) == FileOf(s.files, s.dir, i))
             && FileOf(g, t.dir, s.merge.next) == s.merge.out.value.recs
             && (forall i: nat :: i != s.merge.next ==> FileOf(f, s.dir, i) == FileOf(g, t.dir, i))
    ensures var t, j := RenameOutputStep(s), s.merge.job;
            && Lookup(Log(g, t.dir, 0, j.nextActive), k, None) == Get(j.snapshot, k)
            && Lookup(Log(g, t.dir, 0, Top(t)), k, None) == Lookup(Log(f, s.dir, 0, Top(s)), k, None)
  {
    hide DurableInv, AckInv, KeydirInv, HintsInv, OffsetInv, LinkedInv, ReplayInv, FilesInv, Lookup, Log, FileOf, Effect,
         JobInv, CopiesInv, PendingInv, CoverInv, SnapshotInv, BaseInv, CountInv;
    RenameFrame(cfg, s);
    var t, j := RenameOutputStep(s), s.merge.job;
    LogFrame(s.files, s.dir, f, s.dir, 0, j.nextActive);
    BaseLookup(cfg, s, k);
    CopiesEffect(s.merge, k);
    InsertCopies(f, s.dir, g, t.dir, s.merge.next, j.nextActive, Top(s), k, Get(j.snapshot, k));
  }

  lemma RenameReplay(cfg: Config, s: State)
    requires Inv(cfg, s) && InPhase(s, RenameOutput)
    ensures var t := RenameOutputStep(s);
            && ReplayInv(t.files, t.dir, Top(t), Logged(t))
            && BaseInv(t.files, t.dir, t.keydir, Top(t), t.merge)
  {
    RenameFrame(cfg, s);
    var t := RenameOutputStep(s);
    hide DurableInv, AckInv, KeydirInv, HintsInv, OffsetInv, LinkedInv, MergeInv, FilesInv, Lookup, Log, Size, Mentions;
    forall k ensures Lookup(Log(t.files, t.dir, 0, Top(t)), k, None) == Get(Logged(t), k)
                     && Lookup(Log(t.files, t.dir, 0, s.merge.job.nextActive), k, None) == Get(s.merge.job.snapshot, k) {
      RenameOneKey(cfg, s, s.files, t.files, k);
    }
  }

  lemma RenameSynced(cfg: Config, s: State, k: Key)
    requires Inv(cfg, s) && InPhase(s, RenameOutput)
    ensures var t := RenameOutputStep(s);
            Lookup(Log(SyncedFiles(t.files, t.current, t.hist), t.dir, 0, Top(t)), k, None)
            == Lookup(Log(SyncedFiles(s.files, s.current, s.hist), s.dir, 0, Top(s)), k, None)
  {
    RenameFrame(cfg, s);
    hide Inv, Lookup, Log, Size;
    var t := RenameOutputStep(s);
    RenameOneKey(cfg, s, SyncedFiles(s.files, s.current, s.hist), SyncedFiles(t.files, t.current, t.hist), k);
  }

  lemma RenameUnsynced(cfg: Config, s: State)
    requires Inv(cfg, s) && InPhase(s, RenameOutput)
    ensures var t := RenameOutputStep(s);
            Unsynced(t.files, t.current, t.hist) == Unsynced(s.files, s.current, s.hist)
            && (s.current in s.files ==> s.current in t.files && t.files[s.current] == s.files[s.current])
  {
    RenameFrame(cfg, s);
    hide Inv, Lookup, Log, Size;
  }

  lemma RenameHistory(cfg: Config, s: State)
    requires Inv(cfg, s) && InPhase(s, RenameOutput)
    ensures var t := RenameOutputStep(s);
            && DurableInv(t.files, t.dir, Top(t), t.current, t.lock, Logged(t), t.flushed, t.hist)
            && AckInv(cfg, t.files, t.current, t.lock, t.merge, Logged(t), t.hist)
  {
    var t := RenameOutputStep(s);
    hide KeydirInv, HintsInv, OffsetInv, LinkedInv, MergeInv, ReplayInv, FilesInv, Lookup, Log, Size, Unsynced, SyncedFiles;
    RenameUnsynced(cfg, s);
    forall k ensures Lookup(Log(SyncedFiles(t.files, t.current, t.hist), t.dir, 0, Top(t)), k, None)
                     == Lookup(Log(SyncedFiles(s.files, s.current, s.hist), s.dir, 0, Top(s)), k, None) {
      RenameSynced(cfg, s, k);
    }
  }

  lemma RenameFiles(cfg: Config, s: State)
    requires Inv(cfg, s) && InPhase(s, RenameOutput)
    ensures var t := RenameOutputStep(s);
            && FilesInv(t.files, t.dir, t.readers, t.current, t.lock)
            && OffsetInv(t.files, t.current, t.offset, t.lock)
            && LinkedInv(t.dir, t.readers, t.lock, t.merge)
            && HintsInv(t.files, t.dir, t.hints, t.current)
            && KeydirInv(t.files, t.dir, t.readers, t.keydir, t.store)
  {
    RenameFrame(cfg, s);
    var t := RenameOutputStep(s);
    hide ReplayInv, DurableInv, AckInv, KeydirInv, BaseInv, PendingInv, CoverInv, SnapshotInv, CountInv, PhaseInv, Lookup, Log, Size, Mentions;
    GrowKeydir(s.files, t.files, s.dir, t.dir, s.readers, t.readers, s.keydir, s.store);
  }

  lemma RenameCover(cfg: Config, s: State)
    requires Inv(cfg, s) && InPhase(s, RenameOutput)
    ensures var t := RenameOutputStep(s);
            && CoverInv(t.files, t.keydir, t.merge) && CopiesInv(t.merge) && PendingInv(t.files, t.merge)
            && SnapshotInv(t.keydir, t.store, t.merge)
  {
    RenameFrame(cfg, s);
    hide FilesInv, ReplayInv, DurableInv, AckInv, KeydirInv, LinkedInv, HintsInv, OffsetInv, JobInv, PhaseInv, CountInv, BaseInv, CoverInv, CopiesInv, SnapshotInv, PendingInv, Size;
    var t, m := RenameOutputStep(s), s.merge;
    CoverPhase(s.files, s.keydir, m, t.merge);
    CoverFrame(s.files, t.files, s.keydir, t.merge);
    PendingPhase(s.files, m, t.merge);
    PendingFrame(s.files, t.files, t.merge);
    SnapshotPhase(s.keydir, s.store, m, t.merge);
  }

  /** While an output is open the queued updates do not look at the files. */
  lemma PendingFrame(files: Files, files': Files, m: Merge)
    requires m.Merge? && m.out.Some? && PendingInv(files, m)
    ensures PendingInv(files', m)
  {
    hide Holds;
  }

  lemma RenameCount(cfg: Config, s: State)
    requires Inv(cfg, s) && InPhase(s, RenameOutput)
    ensures var t := RenameOutputStep(s);
            && CountInv(cfg, t.files, t.merge) && TotalSize(t.files, s.merge.job.sources) == TotalSize(s.files, s.merge.job.sources)
  {
    RenameFrame(cfg, s);
    hide FilesInv, ReplayInv, DurableInv, AckInv, KeydirInv, LinkedInv, HintsInv, OffsetInv, PendingInv, BaseInv, CoverInv, CopiesInv, SnapshotInv, Size, TotalSize, Ascending;
    var t, m := RenameOutputStep(s), s.merge;
    TotalSizeFrame(s.files, t.files, m.job.sources);
    assert forall i :: 0 <= i < m.src ==> m.job.sources[..m.src][i] in m.job.sources;
    TotalSizeFrame(s.files, t.files, m.job.sources[..m.src]);
  }

  lemma RenameJob(cfg: Config, s: State)
    requires Inv(cfg, s) && InPhase(s, RenameOutput)
    ensures var t := RenameOutputStep(s);
            && JobInv(cfg, t.files, t.dir, t.current, t.lock, t.stale, t.merge) && PhaseInv(t.files, t.merge)
  {
    RenameFrame(cfg, s);
    RenameCount(cfg, s);
    hide FilesInv, ReplayInv, DurableInv, AckInv, KeydirInv, LinkedInv, HintsInv, OffsetInv, PendingInv, BaseInv, CoverInv, CopiesInv, SnapshotInv, CountInv, Size, TotalSize, Ascending;
  }

  lemma RenameMerge(cfg: Config, s: State)
    requires Inv(cfg, s) && InPhase(s, RenameOutput)
    ensures MergeInv(cfg, RenameOutputStep(s))
  {
    hide Inv, JobInv, PhaseInv, CopiesInv, PendingInv, CoverInv, SnapshotInv, BaseInv, CountInv;
    RenameReplay(cfg, s);
    RenameCover(cfg, s);
    RenameCount(cfg, s);
    RenameJob(cfg, s);
  }

  lemma RenameOutputKeeps(cfg: Config, s: State)
    requires Inv(cfg, s) && InPhase(s, RenameOutput)
    ensures Inv(cfg, RenameOutputStep(s))
  {
    hide MergeInv, ReplayInv, KeydirInv, HintsInv, OffsetInv, FilesInv, DurableInv, LinkedInv, AckInv;
    RenameReplay(cfg, s);
    RenameHistory(cfg, s);
    RenameFiles(cfg, s);
    RenameMerge(cfg, s);
  }

  lemma InsertReaderLocal(cfg: Config, s: State)
    requires MergeInv(cfg, s) && InPhase(s, InsertReader)
    ensures var m' := InsertReaderStep(s).merge;
            && PhaseInv(s.files, m') && CopiesInv(m') && PendingInv(s.files, m')
            && CoverInv(s.files, s.keydir, m')
  {
    var t, m := InsertReaderStep(s), s.merge;
    CoverPhase(s.files, s.keydir, m, t.merge);
    hide JobInv, SnapshotInv, BaseInv, CountInv, CoverInv, Holds, RecordLen;
    assert Copies(s.files, t.merge) == Copies(s.files, m);
  }

  lemma InsertReaderCount(cfg: Config, s: State)
    requires MergeInv(cfg, s) && InPhase(s, InsertReader)
    ensures CountInv(cfg, s.files, InsertReaderStep(s).merge)
  {
    hide JobInv, SnapshotInv, BaseInv, CoverInv, PendingInv, CopiesInv, Size, TotalSize;
    var m := s.merge;
    assert cfg.threshold * (m.full + 1) == cfg.threshold * m.full + cfg.threshold;
  }

  lemma InsertReaderMerge(cfg: Config, s: State)
    requires Inv(cfg, s) && InPhase(s, InsertReader)
    ensures MergeInv(cfg, InsertReaderStep(s))
  {
    var t := InsertReaderStep(s);
    assert s.merge.next in s.dir by {
      assert JobInv(cfg, s.files, s.dir, s.current, s.lock, s.stale, s.merge);
    }
    InsertReaderLocal(cfg, s);
    InsertReaderCount(cfg, s);
    SameJob(cfg, s, t.merge);
    hide ReplayInv, DurableInv, AckInv, KeydirInv, LinkedInv, HintsInv, OffsetInv, FilesInv, JobInv, PhaseInv, CopiesInv, PendingInv, CoverInv, SnapshotInv, BaseInv, CountInv, Size;
  }

  lemma InsertReaderOthers(cfg: Config, s: State)
    requires Inv(cfg, s) && InPhase(s, InsertReader)
    ensures var t := InsertReaderStep(s);
            && FilesInv(t.files, t.dir, t.readers, t.current, t.lock)
            && LinkedInv(t.dir, t.readers, t.lock, t.merge)
            && AckInv(cfg, t.files, t.current, t.lock, t.merge, Logged(t), t.hist)
            && KeydirInv(t.files, t.dir, t.readers, t.keydir, t.store)
  {
    var t := InsertReaderStep(s);
    assert s.merge.next in s.dir && s.merge.out.value.id == s.merge.next && s.merge.next <= s.current by {
      assert JobInv(cfg, s.files, s.dir, s.current, s.lock, s.stale, s.merge);
    }
    hide MergeInv, ReplayInv, KeydirInv, HintsInv, OffsetInv, DurableInv, Lookup, Log, Size;
    GrowKeydir(s.files, t.files, s.dir, t.dir, s.readers, t.readers, s.keydir, s.store);
  }

  lemma InsertReaderKeeps(cfg: Config, s: State)
    requires Inv(cfg, s) && InPhase(s, InsertReader)
    ensures Inv(cfg, InsertReaderStep(s))
  {
    hide MergeInv, ReplayInv, KeydirInv, HintsInv, OffsetInv, DurableInv, FilesInv, LinkedInv, AckInv;
    InsertReaderMerge(cfg, s);
    InsertReaderOthers(cfg, s);
  }

  // ---- publishing ----

  /** A queued update that still applies leads to a copy with the key's current value. */
  lemma PublishedValue(cfg: Config, s: State)
    requires Inv(cfg, s) && CanPublishOne(s)
    ensures var p := s.merge.pending[0];
            p.key in s.keydir && s.keydir[p.key].fileId == p.prevFile && s.keydir[p.key].offset == p.prevOffset ==>
              && p.key in s.store && Get(s.merge.job.snapshot, p.key) == Some(s.store[p.key])
              && p.copy.fileId in s.dir && p.copy.fileId in s.readers && EntryOk(s.files, p.key, p.copy, s.store[p.key])
  {
    hide ReplayInv, DurableInv, AckInv, HintsInv, OffsetInv, BaseInv, CoverInv, CountInv, CopiesInv, Size, Holds, TotalSize, Ascending, RecordLen, AllStorable;
    var p := s.merge.pending[0];
    assert s.merge.next in s.dir && s.merge.next in s.files;
  }

  lemma PublishKeydir(cfg: Config, s: State)
    requires Inv(cfg, s) && CanPublishOne(s)
    ensures var t := PublishOne(s);
            && KeydirInv(t.files, t.dir, t.readers, t.keydir, t.store)
            && SnapshotInv(t.keydir, t.store, t.merge)
  {
    hide FilesInv, LinkedInv, ReplayInv, DurableInv, AckInv, HintsInv, OffsetInv, JobInv, PhaseInv, PendingInv, BaseInv, CoverInv, CountInv, CopiesInv, EntryOk;
    PublishedValue(cfg, s);
  }

  lemma PublishCover(cfg: Config, s: State)
    requires Inv(cfg, s) && CanPublishOne(s)
    ensures CoverInv(s.files, PublishOne(s).keydir, PublishOne(s).merge)
  {
    hide ReplayInv, DurableInv, AckInv, HintsInv, OffsetInv, BaseInv, CountInv, CopiesInv, KeydirInv, Lookup, Log, Size, Mentions, Holds, TotalSize, SnapshotInv;
    var m, t := s.merge, PublishOne(s);
    var p := m.pending[0];
    forall k | k in t.keydir && Passed(s.files, t.merge, t.keydir[k].fileId, t.keydir[k].offset)
      ensures Queued(t.merge, k, t.keydir[k])
    {
      var e := t.keydir[k];
      assert e.fileId in m.job.sources;
      assert k in s.keydir && e == s.keydir[k];
      var i :| 0 <= i < |m.pending| && m.pending[i].key == k
               && m.pending[i].prevFile == e.fileId && m.pending[i].prevOffset == e.offset;
      assert i > 0;
      assert t.merge.pending[i - 1] == m.pending[i];
    }
  }

  lemma PublishPending(cfg: Config, s: State)
    requires Inv(cfg, s) && CanPublishOne(s)
    ensures PendingInv(s.files, PublishOne(s).merge)
  {
    hide ReplayInv, DurableInv, AckInv, HintsInv, OffsetInv, BaseInv, CountInv, CopiesInv, KeydirInv, CoverInv, Lookup, Log, Size, Mentions, Holds, TotalSize, SnapshotInv;
    var m, t := s.merge, PublishOne(s);
    forall i | 0 <= i < |t.merge.pending| ensures t.merge.pending[i] == m.pending[i + 1] {
    }
  }

  lemma PublishLocal(cfg: Config, s: State)
    requires MergeInv(cfg, s) && CanPublishOne(s)
    ensures var t := PublishOne(s);
            PhaseInv(t.files, t.merge) && CopiesInv(t.merge) && CountInv(cfg, t.files, t.merge)
  {
    hide JobInv, SnapshotInv, BaseInv, CoverInv, PendingInv, CopiesInv, Size, TotalSize;
    CopiesNone(PublishOne(s).merge);
  }

  /** Before deletion begins the base does not depend on the keydir. */
  lemma BaseAnyKeydir(files: Files, dir: set<nat>, keydir: Keydir, keydir': Keydir, top: nat, m: Merge)
    requires BaseInv(files, dir, keydir, top, m) && m.Merge? && !m.phase.Delete?
    ensures BaseInv(files, dir, keydir', top, m)
  {
    hide Lookup, Log, Mentions;
  }

  lemma PublishRest(cfg: Config, s: State)
    requires Inv(cfg, s) && CanPublishOne(s)
    ensures var t := PublishOne(s);
            && JobInv(cfg, t.files, t.dir, t.current, t.lock, t.stale, t.merge)
            && BaseInv(t.files, t.dir, t.keydir, Top(t), t.merge)
  {
    var t := PublishOne(s);
    assert s.merge.next in s.dir by {
      assert JobInv(cfg, s.files, s.dir, s.current, s.lock, s.stale, s.merge);
    }
    hide ReplayInv, DurableInv, HintsInv, OffsetInv, KeydirInv, FilesInv, LinkedInv, AckInv, MergeInv, JobInv, SnapshotInv, BaseInv;
    SameJob(cfg, s, t.merge);
    BaseAnyKeydir(s.files, s.dir, s.keydir, t.keydir, Top(s), t.merge);
  }

  lemma PublishOthers(cfg: Config, s: State)
    requires Inv(cfg, s) && CanPublishOne(s)
    ensures var t := PublishOne(s);
            && LinkedInv(t.dir, t.readers, t.lock, t.merge)
            && AckInv(cfg, t.files, t.current, t.lock, t.merge, Logged(t), t.hist)
  {
    hide MergeInv, ReplayInv, DurableInv, HintsInv, OffsetInv, KeydirInv, FilesInv, Lookup;
  }

  lemma PublishOneKeeps(cfg: Config, s: State)
    requires Inv(cfg, s) && CanPublishOne(s)
    ensures Inv(cfg, PublishOne(s))
  {
    hide ReplayInv, KeydirInv, HintsInv, OffsetInv, FilesInv, DurableInv, LinkedInv, AckInv, SnapshotInv,
         CoverInv, BaseInv, CountInv, JobInv, PhaseInv, CopiesInv, PendingInv;
    PublishKeydir(cfg, s);
    PublishCover(cfg, s);
    PublishPending(cfg, s);
    PublishLocal(cfg, s);
    PublishRest(cfg, s);
    PublishOthers(cfg, s);
  }

  /** When the last pending update is drained, no entry points into a scanned source. */
  lemma PublishedAll(cfg: Config, s: State)
    requires Inv(cfg, s) && CanPublishDone(s)
    ensures forall k :: k in s.keydir ==> !Passed(s.files, s.merge, s.keydir[k].fileId, s.keydir[k].offset)
    ensures s.merge.src == |s.merge.job.sources| ==>
              forall k :: k in s.keydir ==> s.keydir[k].fileId >= s.merge.job.prev
  {
    hide ReplayInv, DurableInv, AckInv, HintsInv, OffsetInv, BaseInv, CountInv, CopiesInv, Lookup, Log, Size, Mentions, TotalSize, SnapshotInv, PendingInv, EntryOk;
    forall k | k in s.keydir ensures !Passed(s.files, s.merge, s.keydir[k].fileId, s.keydir[k].offset) {
    }
    if s.merge.src == |s.merge.job.sources| {
      assert s.merge.job.sources[..s.merge.src] == s.merge.job.sources;
      forall k | k in s.keydir ensures s.keydir[k].fileId >= s.merge.job.prev {
      }
    }
  }

  lemma PublishDoneLocal(cfg: Config, s: State)
    requires Inv(cfg, s) && CanPublishDone(s)
    ensures var m' := PublishDone(s).merge;
            && PhaseInv(s.files, m') && CountInv(cfg, s.files, m')
            && CopiesInv(m') && PendingInv(s.files, m') && SnapshotInv(s.keydir, s.store, m')
  {
    hide ReplayInv, DurableInv, AckInv, HintsInv, OffsetInv, KeydirInv, FilesInv, LinkedInv, BaseInv, CoverInv, SnapshotInv, CopiesInv, Size, TotalSize, Ascending;
    var m, m' := s.merge, PublishDone(s).merge;
    CopiesNone(m');
    SnapshotPhase(s.keydir, s.store, m, m');
    if m.src < |m.job.sources| {
      assert m.job.sources[m.src] in m.job.sources;
      assert s.files[m.job.sources[m.src]][..0] == [];
      SizeEmpty();
    }
  }

  lemma PublishDoneCover(cfg: Config, s: State)
    requires Inv(cfg, s) && CanPublishDone(s)
    ensures CoverInv(s.files, s.keydir, PublishDone(s).merge)
  {
    PublishedAll(cfg, s);
    hide Inv, Queued, Size;
    var m' := PublishDone(s).merge;
    forall k | k in s.keydir ensures !Passed(s.files, m', s.keydir[k].fileId, s.keydir[k].offset) {
      var e := s.keydir[k];
      assert !Passed(s.files, s.merge, e.fileId, e.offset);
      if m'.phase.Scan? && e.fileId in s.files {
        assert s.files[e.fileId][..0] == [];
        SizeEmpty();
      }
    }
  }

  lemma PublishDoneBase(cfg: Config, s: State)
    requires Inv(cfg, s) && CanPublishDone(s)
    ensures var m' := PublishDone(s).merge;
            && JobInv(cfg, s.files, s.dir, s.current, s.lock, s.stale, m')
            && BaseInv(s.files, s.dir, s.keydir, Top(s), m')
  {
    PublishedAll(cfg, s);
    hide ReplayInv, DurableInv, AckInv, HintsInv, OffsetInv, KeydirInv, FilesInv, LinkedInv, CoverInv, SnapshotInv, CopiesInv, PendingInv, CountInv, Size, TotalSize, Ascending, Lookup, Log, Mentions, Passed;
    assert s.merge.job.sources[0..] == s.merge.job.sources;
  }

  lemma PublishDoneMerge(cfg: Config, s: State)
    requires Inv(cfg, s) && CanPublishDone(s)
    ensures MergeInv(cfg, PublishDone(s))
  {
    hide Inv, JobInv, PhaseInv, CopiesInv, PendingInv, CoverInv, SnapshotInv, BaseInv, CountInv;
    PublishDoneLocal(cfg, s);
    PublishDoneCover(cfg, s);
    PublishDoneBase(cfg, s);
  }

  lemma SnapshotPhase(keydir: Keydir, store: Store, m: Merge, m': Merge)
    requires m.Merge? && m'.Merge? && m.job == m'.job && SnapshotInv(keydir, store, m)
    ensures SnapshotInv(keydir, store, m')
  {
  }

  lemma CopiesNone(m: Merge)
    requires m.Merge? && m.out.None?
    ensures CopiesInv(m)
  {
  }

  lemma PublishDoneKeeps(cfg: Config, s: State)
    requires Inv(cfg, s) && CanPublishDone(s)
    ensures Inv(cfg, PublishDone(s))
  {
    PublishDoneMerge(cfg, s);
    hide MergeInv, ReplayInv, DurableInv, AckInv, HintsInv, OffsetInv, KeydirInv, FilesInv, LinkedInv;
    LocalStep(cfg, s, PublishDone(s));
  }
}
