/**
 Deleting the merge's sources keeps the invariant: tombstones that were not copied never
 let an older value show through again.
 */
module DeleteSteps {
  import opened Bytes
  import opened Commands
  import opened Logs
  import opened Engine
  import opened Invariants
  import opened RotateSteps
  import opened MergeSteps

  /**
   Dropping the first file of the directory leaves every key as it was, provided each key
   with a value is mentioned again further up.
   */
  lemma DropFirstFile(files: Files, dir: set<nat>, id: nat, base: nat, k: Key, v: Option<Value>)
    requires id in dir && id < base
    requires forall i :: i in dir ==> id <= i
    requires Lookup(Log(files, dir, 0, base), k, None) == v
    requires v.Some? ==> Mentions(Log(files, dir, id + 1, base), k)
    ensures Lookup(Log(files, dir - {id}, 0, base), k, None) == v
    ensures Log(files, dir - {id}, id + 1, base) == Log(files, dir, id + 1, base)
  {
    hide Lookup, Log;
    var dir' := dir - {id};
    var rest := Log(files, dir, id + 1, base);
    LogAround(files, dir, 0, id, base);
    LogEmpty(files, dir, 0, id);
    assert [] + (FileOf(files, dir, id) + rest) == FileOf(files, dir, id) + rest;
    LogAround(files, dir', 0, id, base);
    LogEmpty(files, dir', 0, id);
    LogFrame(files, dir, files, dir', id + 1, base);
    assert [] + ([] + rest) == rest;
    LookupConcat(FileOf(files, dir, id), rest, k, None);
    if Mentions(rest, k) {
      LookupMentioned(rest, k, Lookup(FileOf(files, dir, id), k, None), None);
    } else {
      LookupUnmentioned(rest, k, None);
    }
  }

  lemma MentionedByEntry(files: Files, dir: set<nat>, lo: nat, hi: nat, k: Key, e: Entry, v: Value)
    requires EntryOk(files, k, e, v) && e.fileId in dir && lo <= e.fileId < hi
    ensures Mentions(Log(files, dir, lo, hi), k)
  {
    hide Log;
    var recs := files[e.fileId];
    var i :| 0 <= i < |recs| && recs[i] == Set(e.ts, k, v) && Size(recs[..i]) == e.offset;
    assert recs[i].key == k;
    MentionedInLog(files, dir, lo, hi, e.fileId, k);
  }

  ghost predicate DeletesLinked(s: State) {
    Deleting(s, false) && s.merge.job.sources[s.merge.phase.i] in s.dir
  }

  /** The source about to go is the smallest id in the directory. */
  lemma SourceIsFirst(cfg: Config, s: State)
    requires Inv(cfg, s) && DeletesLinked(s)
    ensures var id := s.merge.job.sources[s.merge.phase.i];
            && (forall d :: d in s.dir ==> id <= d)
            && id < s.merge.job.prev < s.merge.job.nextActive <= s.current < Top(s)
  {
    hide ReplayInv, DurableInv, AckInv, KeydirInv, HintsInv, OffsetInv, LinkedInv, BaseInv, PendingInv, CoverInv, CopiesInv, SnapshotInv, CountInv, TotalSize;
    var m := s.merge;
    var id := m.job.sources[m.phase.i];
    assert id in m.job.sources;
    forall d | d in s.dir ensures id <= d {
      if d < m.job.prev {
        assert d in m.job.sources[m.phase.i..];
        var n :| 0 <= n < |m.job.sources[m.phase.i..]| && m.job.sources[m.phase.i..][n] == d;
        assert m.job.sources[m.phase.i + n] == d;
      }
    }
  }

  /** A key the snapshot held and nobody wrote since lives in the old active file or an output. */
  lemma LiveAboveSources(cfg: Config, s: State, k: Key)
    requires Inv(cfg, s) && s.merge.Merge? && s.merge.phase.Delete? && s.merge.job.prev <= s.merge.job.nextActive <= s.current < Top(s)
    requires k in s.merge.job.snapshot
    requires !Mentions(Log(s.files, s.dir, s.merge.job.nextActive, Top(s)), k)
    ensures Mentions(Log(s.files, s.dir, s.merge.job.prev, s.merge.job.nextActive), k)
  {
    hide DurableInv, AckInv, HintsInv, LinkedInv, JobInv, PendingInv, CoverInv, CopiesInv, SnapshotInv, CountInv, PhaseInv, Lookup, Log, Mentions, EntryOk, Size, Get;
    var j := s.merge.job;
    LogSplit(s.files, s.dir, 0, j.nextActive, Top(s));
    var base, tail := Log(s.files, s.dir, 0, j.nextActive), Log(s.files, s.dir, j.nextActive, Top(s));
    LookupConcat(base, tail, k, None);
    LookupUnmentioned(tail, k, Lookup(base, k, None));
    assert Get(Logged(s), k) == Get(j.snapshot, k);
    InFlightIsMentioned(cfg, s, k);
    GetSome(j.snapshot, s.store, k);
    var e := s.keydir[k];
    if e.fileId >= j.nextActive {
      MentionedByEntry(s.files, s.dir, j.nextActive, Top(s), k, e, s.store[k]);
    } else {
      MentionedByEntry(s.files, s.dir, j.prev, j.nextActive, k, e, s.store[k]);
    }
  }

  lemma GetSome(a: Store, b: Store, k: Key)
    requires k in a && Get(a, k) == Get(b, k)
    ensures k in b
  {
  }

  /** A record in the file but not in the keydir is the last one of the log's tail. */
  lemma InFlightIsMentioned(cfg: Config, s: State, k: Key)
    requires Inv(cfg, s) && s.merge.Merge? && s.merge.job.nextActive <= s.current < Top(s)
    requires !Mentions(Log(s.files, s.dir, s.merge.job.nextActive, Top(s)), k)
    ensures Get(Logged(s), k) == Get(s.store, k)
  {
    hide DurableInv, AckInv, HintsInv, LinkedInv, KeydirInv, ReplayInv, MergeInv, Lookup, Log, Size, Get;
    if s.lock.Written? && s.lock.cmd.key == k {
      var recs := s.files[s.current];
      assert recs[|recs| - 1].key == k;
      assert Mentions(FileOf(s.files, s.dir, s.current), k);
      MentionedInLog(s.files, s.dir, s.merge.job.nextActive, Top(s), s.current, k);
    }
  }

  lemma BaseUnwritten(cfg: Config, s: State, k: Key)
    requires MergeInv(cfg, s) && s.merge.Merge? && s.merge.phase.Delete?
    requires !Mentions(Log(s.files, s.dir, s.merge.job.nextActive, Top(s)), k)
    ensures Lookup(Log(s.files, s.dir, 0, s.merge.job.nextActive), k, None) == Get(s.merge.job.snapshot, k)
  {
    hide JobInv, PendingInv, CoverInv, CopiesInv, SnapshotInv, CountInv, PhaseInv, Lookup, Log, Mentions;
  }

  /** Dropping tombstones resurrects nothing: keys not written since keep the snapshot's value. */
  lemma DeleteKeepsBase(cfg: Config, s: State, id: nat, k: Key)
    requires Inv(cfg, s) && DeletesLinked(s) && id == s.merge.job.sources[s.merge.phase.i]
    requires !Mentions(Log(s.files, s.dir, s.merge.job.nextActive, Top(s)), k)
    ensures Lookup(Log(s.files, s.dir, 0, s.merge.job.nextActive), k, None) == Get(s.merge.job.snapshot, k)
    ensures Lookup(Log(s.files, s.dir - {id}, 0, s.merge.job.nextActive), k, None) == Get(s.merge.job.snapshot, k)
  {
    hide FilesInv, ReplayInv, DurableInv, AckInv, HintsInv, LinkedInv, KeydirInv, OffsetInv, MergeInv, Lookup, Log, Mentions;
    SourceIsFirst(cfg, s);
    BaseUnwritten(cfg, s, k);
    var j := s.merge.job;
    if k in j.snapshot {
      LiveAboveSources(cfg, s, k);
      LogSplit(s.files, s.dir, id + 1, j.prev, j.nextActive);
      MentionsConcat(Log(s.files, s.dir, id + 1, j.prev), Log(s.files, s.dir, j.prev, j.nextActive), k);
    }
    DropFirstFile(s.files, s.dir, id, j.nextActive, k, Get(j.snapshot, k));
  }

  /** The tail of the log decides the keys it mentions; the base decides the others. */
  lemma SplitLookup(files: Files, dir: set<nat>, dir': set<nat>, mid: nat, top: nat, k: Key)
    requires mid <= top && Log(files, dir, mid, top) == Log(files, dir', mid, top)
    requires !Mentions(Log(files, dir, mid, top), k) ==>
               Lookup(Log(files, dir, 0, mid), k, None) == Lookup(Log(files, dir', 0, mid), k, None)
    ensures Lookup(Log(files, dir, 0, top), k, None) == Lookup(Log(files, dir', 0, top), k, None)
  {
    hide Lookup, Log, Mentions;
    LogSplit(files, dir, 0, mid, top);
    LogSplit(files, dir', 0, mid, top);
    var base, base' := Log(files, dir, 0, mid), Log(files, dir', 0, mid);
    var tail := Log(files, dir, mid, top);
    LookupConcat(base, tail, k, None);
    LookupConcat(base', tail, k, None);
    if Mentions(tail, k) {
      LookupMentioned(tail, k, Lookup(base, k, None), Lookup(base', k, None));
    }
  }

  lemma DeleteOneKey(cfg: Config, s: State, id: nat, k: Key)
    requires Inv(cfg, s) && DeletesLinked(s) && id == s.merge.job.sources[s.merge.phase.i]
    ensures var j, dir' := s.merge.job, s.dir - {id};
            && Log(s.files, dir', j.nextActive, Top(s)) == Log(s.files, s.dir, j.nextActive, Top(s))
            && (!Mentions(Log(s.files, s.dir, j.nextActive, Top(s)), k) ==>
                  Lookup(Log(s.files, dir', 0, j.nextActive), k, None) == Get(j.snapshot, k))
            && Lookup(Log(s.files, dir', 0, Top(s)), k, None) == Lookup(Log(s.files, s.dir, 0, Top(s)), k, None)
  {
    hide FilesInv, ReplayInv, DurableInv, AckInv, HintsInv, LinkedInv, KeydirInv, OffsetInv, MergeInv, Lookup, Log, Mentions;
    SourceIsFirst(cfg, s);
    var j, dir' := s.merge.job, s.dir - {id};
    LogFrame(s.files, s.dir, s.files, dir', j.nextActive, Top(s));
    if !Mentions(Log(s.files, s.dir, j.nextActive, Top(s)), k) {
      DeleteKeepsBase(cfg, s, id, k);
    }
    SplitLookup(s.files, s.dir, dir', j.nextActive, Top(s), k);
  }

  lemma DeleteReplay(cfg: Config, s: State)
    requires Inv(cfg, s) && DeletesLinked(s)
    ensures var t := DeleteData(s);
            && ReplayInv(t.files, t.dir, Top(t), Logged(t))
            && BaseInv(t.files, t.dir, t.keydir, Top(t), t.merge)
  {
    hide FilesInv, DurableInv, AckInv, HintsInv, LinkedInv, KeydirInv, OffsetInv, JobInv, PendingInv, CoverInv, CopiesInv, SnapshotInv, CountInv, PhaseInv, Lookup, Log, Mentions;
    var t, j := DeleteData(s), s.merge.job;
    forall k ensures Lookup(Log(t.files, t.dir, 0, Top(t)), k, None) == Get(Logged(t), k)
                     && (!Mentions(Log(t.files, t.dir, j.nextActive, Top(t)), k) ==>
                           Lookup(Log(t.files, t.dir, 0, j.nextActive), k, None) == Get(j.snapshot, k)) {
      DeleteOneKey(cfg, s, j.sources[s.merge.phase.i], k);
    }
  }

  /** Moving on within the deletion phase touches only the deletion cursor. */
  lemma DeletePhaseLocal(cfg: Config, s: State, m': Merge)
    requires MergeInv(cfg, s) && s.merge.Merge? && s.merge.phase.Delete?
    requires m'.Merge? && m' == s.merge.(phase := m'.phase) && m'.phase.Delete?
    requires m'.phase.i <= |m'.job.sources| && (m'.phase.hintDue ==> m'.phase.i < |m'.job.sources|)
    ensures PhaseInv(s.files, m') && CopiesInv(m') && PendingInv(s.files, m')
    ensures CoverInv(s.files, s.keydir, m') && SnapshotInv(s.keydir, s.store, m')
    ensures CountInv(cfg, s.files, m')
  {
    CoverPhase(s.files, s.keydir, s.merge, m');
    SnapshotPhase(s.keydir, s.store, s.merge, m');
    hide JobInv, BaseInv, CoverInv, SnapshotInv, TotalSize, Size;
  }

  lemma DeleteJob(cfg: Config, s: State)
    requires Inv(cfg, s) && DeletesLinked(s)
    ensures var t := DeleteData(s);
            JobInv(cfg, t.files, t.dir, t.current, t.lock, t.stale, t.merge)
  {
    hide ReplayInv, DurableInv, AckInv, HintsInv, LinkedInv, KeydirInv, OffsetInv, FilesInv, BaseInv, PhaseInv, CopiesInv, PendingInv, CoverInv, SnapshotInv, CountInv, TotalSize, Size, Ascending;
    var m := s.merge;
    assert m.job.sources[m.phase.i] in m.job.sources;
    RestCovers(s.dir, m.job.sources, m.phase.i, m.job.prev);
  }

  /** With the next source gone, the ones behind it are all that is left below the old active file. */
  lemma RestCovers(dir: set<nat>, sources: seq<nat>, i: nat, prev: nat)
    requires i < |sources| && forall id :: id in dir && id < prev ==> id in sources[i..]
    ensures forall id :: id in dir - {sources[i]} && id < prev ==> id in sources[i + 1..]
  {
    assert sources[i..] == [sources[i]] + sources[i + 1..];
  }

  lemma DeleteFiles(cfg: Config, s: State)
    requires Inv(cfg, s) && DeletesLinked(s)
    ensures var t := DeleteData(s);
            && FilesInv(t.files, t.dir, t.readers, t.current, t.lock)
            && LinkedInv(t.dir, t.readers, t.lock, t.merge)
            && HintsInv(t.files, t.dir, t.hints, t.current)
            && KeydirInv(t.files, t.dir, t.readers, t.keydir, t.store)
  {
    SourceIsFirst(cfg, s);
    hide ReplayInv, DurableInv, AckInv, OffsetInv, JobInv, PendingInv, CoverInv, CopiesInv, SnapshotInv, CountInv, PhaseInv, Lookup, Log, Mentions, EntryOk;
    var t := DeleteData(s);
  }

  lemma DeleteHistory(cfg: Config, s: State)
    requires Inv(cfg, s) && DeletesLinked(s)
    ensures var t := DeleteData(s);
            && DurableInv(t.files, t.dir, Top(t), t.current, t.lock, Logged(t), t.flushed, t.hist)
            && AckInv(cfg, t.files, t.current, t.lock, t.merge, Logged(t), t.hist)
  {
    hide ReplayInv, OffsetInv, MergeInv, FilesInv, LinkedInv, KeydirInv, HintsInv, Lookup, Log;
  }

  lemma DeleteDataKeeps(cfg: Config, s: State)
    requires Inv(cfg, s) && Deleting(s, false)
    ensures Inv(cfg, DeleteData(s))
  {
    hide FilesInv, ReplayInv, DurableInv, AckInv, HintsInv, LinkedInv, KeydirInv, OffsetInv, JobInv, PendingInv, CoverInv, CopiesInv, SnapshotInv, BaseInv, CountInv, PhaseInv;
    if DeletesLinked(s) {
      DeleteReplay(cfg, s);
      DeleteJob(cfg, s);
      DeletePhaseLocal(cfg, s, DeleteData(s).merge);
      DeleteFiles(cfg, s);
      DeleteHistory(cfg, s);
    } else {
      DeleteGivesUp(cfg, s);
      MergeOver(cfg, DeleteData(s));
    }
  }

  /** The merge ends early: what only looks at the merge's phase still holds. */
  lemma DeleteGivesUp(cfg: Config, s: State)
    requires Inv(cfg, s) && Deleting(s, false) && !DeletesLinked(s)
    ensures var t := DeleteData(s);
            && t == s.(merge := NoMerge)
            && LinkedInv(t.dir, t.readers, t.lock, t.merge)
            && AckInv(cfg, t.files, t.current, t.lock, t.merge, Logged(t), t.hist)
  {
    hide FilesInv, ReplayInv, DurableInv, HintsInv, KeydirInv, OffsetInv, MergeInv, Lookup, Unsynced;
  }

  lemma MergeOver(cfg: Config, t: State)
    requires t.merge.NoMerge?
    ensures MergeInv(cfg, t)
  {
  }

  lemma DeleteHintJob(cfg: Config, s: State)
    requires MergeInv(cfg, s) && Deleting(s, true)
    ensures var t := DeleteHint(s);
            && JobInv(cfg, t.files, t.dir, t.current, t.lock, t.stale, t.merge)
            && BaseInv(t.files, t.dir, t.keydir, Top(t), t.merge)
  {
    hide PhaseInv, CopiesInv, PendingInv, CoverInv, SnapshotInv, CountInv, Lookup, Log, Mentions, TotalSize, Ascending;
    assert Remaining(DeleteHint(s).merge) == Remaining(s.merge);
  }

  lemma DeleteHintKeeps(cfg: Config, s: State)
    requires Inv(cfg, s) && Deleting(s, true)
    ensures Inv(cfg, DeleteHint(s))
  {
    hide FilesInv, ReplayInv, DurableInv, KeydirInv, OffsetInv, JobInv, PhaseInv, CopiesInv, PendingInv, CoverInv, SnapshotInv, BaseInv, CountInv, Lookup;
    StartingHoldsLock(cfg, s);
    DeleteHintJob(cfg, s);
    DeletePhaseLocal(cfg, s, DeleteHint(s).merge);
  }

  /** The stale count never falls below what it was when the merge began. */
  lemma StaleCovers(cfg: Config, s: State)
    requires Inv(cfg, s) && s.merge.Merge?
    ensures s.merge.job.initStale <= s.stale
  {
    hide FilesInv, ReplayInv, DurableInv, AckInv, HintsInv, OffsetInv, LinkedInv, KeydirInv, PhaseInv, CopiesInv, PendingInv, CoverInv, SnapshotInv, BaseInv, CountInv, TotalSize, Ascending;
  }

  /** The subtraction at the end of a merge does not underflow. */
  lemma MergeEndKeeps(cfg: Config, s: State)
    requires Inv(cfg, s) && CanMergeEnd(s)
    ensures Inv(cfg, MergeEnd(s))
    ensures s.merge.job.initStale <= s.stale && MergeEnd(s).stale == s.stale - s.merge.job.initStale
  {
    StaleCovers(cfg, s);
    hide FilesInv, ReplayInv, DurableInv, HintsInv, KeydirInv, OffsetInv, Lookup, Log;
    StartingHoldsLock(cfg, s);
    MergeOver(cfg, MergeEnd(s));
  }
}
