/**
 Rotation keeps the invariant, both when an append fills the active file and when a merge
 starts.
 */
module RotateSteps {
  import opened Bytes
  import opened Framing
  import opened Logs
  import opened Engine
  import opened Invariants
  import opened WriterSteps

  /** What both rotations share: a new empty file above everything else. */
  lemma CreateFiles(cfg: Config, s: State, next: nat)
    requires Inv(cfg, s) && (s.lock.Free? || s.lock.Settled?) && s.current < next
    ensures var t := RotateCreate(s, next);
            && FilesInv(t.files, t.dir, t.readers, t.current, t.lock)
            && OffsetInv(t.files, t.current, t.offset, t.lock)
            && HintsInv(t.files, t.dir, t.hints, t.current)
            && KeydirInv(t.files, t.dir, t.readers, t.keydir, t.store)
  {
    hide MergeInv, ReplayInv, DurableInv, AckInv, LinkedInv, KeydirInv, Log, Lookup;
    var t := RotateCreate(s, next);
    assert Grows(s.files, t.files);
    GrowKeydir(s.files, t.files, s.dir, t.dir, s.readers, t.readers, s.keydir, s.store);
  }

  lemma CreateReplay(cfg: Config, s: State, next: nat)
    requires Inv(cfg, s) && (s.lock.Free? || s.lock.Settled?) && s.current < next
    ensures var t := RotateCreate(s, next);
            && Log(t.files, t.dir, 0, Top(t)) == Log(s.files, s.dir, 0, Top(s))
            && ReplayInv(t.files, t.dir, Top(t), Logged(t))
  {
    hide MergeInv, DurableInv, AckInv, LinkedInv, KeydirInv, HintsInv, OffsetInv, Lookup, Log;
    var t := RotateCreate(s, next);
    LogPastTop(s.files, s.dir, t.files, t.dir, 0, Top(s), Top(t));
  }

  lemma CreateHistory(cfg: Config, s: State, next: nat)
    requires Inv(cfg, s) && (s.lock.Free? || s.lock.Settled?) && s.current < next
    ensures var t := RotateCreate(s, next);
            && DurableInv(t.files, t.dir, Top(t), t.current, t.lock, Logged(t), t.flushed, t.hist)
            && Unsynced(t.files, t.current, t.hist) == []
            && forall k :: Get(Logged(t), k) == Lookup(t.hist.unacked, k, Get(t.hist.ackStore, k))
  {
    SyncedHistory(cfg, s);
    CreateReplay(cfg, s, next);
    hide MergeInv, KeydirInv, HintsInv, Log, Size;
    var t := RotateCreate(s, next);
    var f := s.files[s.current];
    assert f[..|f|] == f && f[|f|..] == [];
    assert SyncedFiles(t.files, t.current, t.hist) == t.files;
  }

  lemma RotateIfFullMerge(cfg: Config, s: State)
    requires Inv(cfg, s) && CanRotateIfFull(cfg, s)
    ensures MergeInv(cfg, RotateCreate(s, s.current + 1))
  {
    hide ReplayInv, DurableInv, AckInv, LinkedInv, KeydirInv, HintsInv, OffsetInv, Lookup, Log, Size,
         PhaseInv, CopiesInv, PendingInv, CoverInv, SnapshotInv, BaseInv, CountInv, Mentions;
    var t := RotateCreate(s, s.current + 1);
    if s.merge.Merge? {
      var j := s.merge.job;
      TotalSizeFrame(s.files, t.files, j.sources);
      LogPastTop(s.files, s.dir, t.files, t.dir, j.nextActive, Top(s), Top(t));
    }
    MergeFrame(cfg, s, t);
  }

  lemma RotateIfFullRest(cfg: Config, s: State)
    requires Inv(cfg, s) && CanRotateIfFull(cfg, s)
    ensures var t := RotateCreate(s, s.current + 1);
            && LinkedInv(t.dir, t.readers, t.lock, t.merge)
            && AckInv(cfg, t.files, t.current, t.lock, t.merge, Logged(t), t.hist)
  {
    StartingHoldsLock(cfg, s);
    CreateHistory(cfg, s, s.current + 1);
    hide MergeInv, ReplayInv, KeydirInv, HintsInv, OffsetInv, FilesInv, DurableInv, Lookup, Log, Size, Unsynced;
    var t := RotateCreate(s, s.current + 1);
    assert t.hist.unacked == s.hist.unacked && t.hist.reopens == s.hist.reopens;
  }

  lemma RotateIfFullKeeps(cfg: Config, s: State)
    requires Inv(cfg, s) && CanRotateIfFull(cfg, s)
    ensures Inv(cfg, RotateCreate(s, s.current + 1))
  {
    hide MergeInv, ReplayInv, KeydirInv, HintsInv, OffsetInv, FilesInv, DurableInv, LinkedInv, AckInv;
    CreateFiles(cfg, s, s.current + 1);
    CreateReplay(cfg, s, s.current + 1);
    CreateHistory(cfg, s, s.current + 1);
    RotateIfFullMerge(cfg, s);
    RotateIfFullRest(cfg, s);
  }

  lemma StartingHoldsLock(cfg: Config, s: State)
    requires MergeInv(cfg, s)
    ensures s.merge.Merge? && s.merge.phase.Starting? ==> s.lock == Created(s.merge.job.nextActive)
    ensures s.merge.Merge? && !s.merge.phase.Starting? ==> s.merge.job.nextActive <= s.current
  {
  }

  // ---- installing the new file ----

  lemma StartScan(cfg: Config, s: State)
    requires MergeInv(cfg, s) && s.merge.Merge? && s.merge.phase.Starting?
    ensures var m := s.merge.(phase := Scan(0));
            && PhaseInv(s.files, m) && CoverInv(s.files, s.keydir, m) && CountInv(cfg, s.files, m)
            && PendingInv(s.files, m)
  {
    hide Holds, Queued;
    var m := s.merge;
    assert m.job.sources[..0] == [];
    assert m.job.sources[0] in m.job.sources;
    var f := s.files[m.job.sources[0]];
    assert f[..0] == [];
    assert Size(f[..0]) == 0;
  }

  lemma InstallMerge(cfg: Config, s: State)
    requires Inv(cfg, s) && s.lock.Created?
    ensures MergeInv(cfg, RotateInstall(s))
  {
    hide ReplayInv, DurableInv, AckInv, KeydirInv, HintsInv, OffsetInv, Lookup, Log, Mentions, CopiesInv, CountInv, PendingInv, CoverInv, PhaseInv;
    if s.merge.Merge? && s.merge.phase.Starting? {
      StartScan(cfg, s);
      assert CopiesInv(s.merge.(phase := Scan(0))) by {
        CopiesPhase(s.merge, Scan(0));
      }
    }
  }

  lemma CopiesPhase(m: Merge, phase: Phase)
    requires m.Merge? && CopiesInv(m)
    ensures CopiesInv(m.(phase := phase))
  {
  }

  lemma InstallHistory(cfg: Config, s: State)
    requires Inv(cfg, s) && s.lock.Created?
    ensures var t := RotateInstall(s);
            && DurableInv(t.files, t.dir, Top(t), t.current, t.lock, Logged(t), t.flushed, t.hist)
            && AckInv(cfg, t.files, t.current, t.lock, t.merge, Logged(t), t.hist)
  {
    hide ReplayInv, KeydirInv, HintsInv, Log;
    var t := RotateInstall(s);
    assert Unsynced(s.files, s.current, s.hist) == [];
    var f := s.files[s.current];
    assert f[..|f|] == f;
    assert SyncedFiles(s.files, s.current, s.hist) == s.files;
    assert t.files[t.current][..0] == [];
    assert SyncedFiles(t.files, t.current, t.hist) == t.files;
  }

  lemma InstallFiles(cfg: Config, s: State)
    requires Inv(cfg, s) && s.lock.Created?
    ensures var t := RotateInstall(s);
            && FilesInv(t.files, t.dir, t.readers, t.current, t.lock)
            && OffsetInv(t.files, t.current, t.offset, t.lock)
            && LinkedInv(t.dir, t.readers, t.lock, t.merge)
            && HintsInv(t.files, t.dir, t.hints, t.current)
            && KeydirInv(t.files, t.dir, t.readers, t.keydir, t.store)
  {
    hide MergeInv, ReplayInv, KeydirInv, DurableInv, AckInv;
    var t := RotateInstall(s);
    GrowKeydir(s.files, t.files, s.dir, t.dir, s.readers, t.readers, s.keydir, s.store);
  }

  lemma RotateInstallKeeps(cfg: Config, s: State)
    requires Inv(cfg, s) && s.lock.Created?
    ensures Inv(cfg, RotateInstall(s))
  {
    hide MergeInv, KeydirInv, HintsInv, OffsetInv, FilesInv, DurableInv, LinkedInv, AckInv, Lookup, Log;
    InstallMerge(cfg, s);
    InstallHistory(cfg, s);
    InstallFiles(cfg, s);
  }

  // ---- starting a merge ----

  lemma {:induction false} SortedMembers(ids: set<nat>, hi: nat)
    ensures Ascending(Sorted(ids, hi))
    ensures forall id :: id in Sorted(ids, hi) <==> id in ids && id < hi
  {
    if hi > 0 {
      SortedMembers(ids, hi - 1);
      var below := Sorted(ids, hi - 1);
      assert forall i :: 0 <= i < |below| ==> below[i] in below;
    }
  }

  /** The sources: all linked files below the active one, ascending. */
  lemma SourcesAre(cfg: Config, s: State)
    requires Inv(cfg, s) && CanMergeStart(cfg, s)
    ensures Ascending(Sources(s))
    ensures forall id :: id in Sources(s) ==> id < s.current && id in s.files
    ensures forall id :: id in s.dir && id < s.current ==> id in Sources(s)
    ensures forall id :: id in s.files ==> id <= s.current
    ensures s.current in s.dir
  {
    hide ReplayInv, DurableInv, AckInv, KeydirInv, HintsInv, OffsetInv, MergeInv, Size, Sorted, TotalSize, AllStorable;
    SortedMembers(s.readers - {s.current}, s.current + 1);
  }

  /** What the job of a merge that starts now is. */
  lemma NewJobIs(cfg: Config, s: State)
    requires cfg.threshold > 0
    ensures var j := NewJob(cfg, s);
            && j.sources == Sources(s) && j.prev == s.current && j.total == TotalSize(s.files, Sources(s))
            && j.initStale == s.stale && j.snapshot == s.store
            && j.nextActive == s.current + j.total / cfg.threshold + 3 > s.current
  {
    hide Sources, TotalSize;
    SmallQuotient(TotalSize(s.files, Sources(s)), cfg.threshold);
  }

  /** The state a merge starts with. */
  lemma MergeStartIs(cfg: Config, s: State)
    requires cfg.threshold > 0 && s.current in s.files
    ensures var t, j := MergeStart(cfg, s), NewJob(cfg, s);
            && t.files == s.files[j.nextActive := []] && t.dir == s.dir + {j.nextActive}
            && t.current == s.current && t.lock == Created(j.nextActive) && t.stale == s.stale
            && t.merge == Merge(j, 0, j.prev, None, [], Starting, 0, 0)
  {
    hide NewJob, Logged;
  }

  lemma MergeStartJob(cfg: Config, s: State)
    requires Inv(cfg, s) && CanMergeStart(cfg, s) && ValidConfig(cfg)
    ensures var t := MergeStart(cfg, s);
            JobInv(cfg, t.files, t.dir, t.current, t.lock, t.stale, t.merge)
  {
    hide Inv, Size, Sources, TotalSize, Ascending, NewJob, MergeStart;
    SourcesAre(cfg, s);
    NewJobIs(cfg, s);
    MergeStartIs(cfg, s);
    var j := NewJob(cfg, s);
    NewFileKeepsSources(s.files, j.sources, j.nextActive);
    StartedJob(cfg, s.files, s.dir, s.current, s.stale, j);
  }

  lemma NewFileKeepsSources(files: Files, sources: seq<nat>, next: nat)
    requires forall id :: id in sources ==> id in files && id != next
    ensures TotalSize(files[next := []], sources) == TotalSize(files, sources)
  {
    hide TotalSize;
    TotalSizeFrame(files, files[next := []], sources);
  }

  /** A fresh job whose new active file lies above everything. */
  lemma StartedJob(cfg: Config, files: Files, dir: set<nat>, current: nat, stale: nat, j: Job)
    requires cfg.threshold > 0 && Ascending(j.sources) && |j.sources| > 0 && j.prev == current && current in dir && current in files
    requires forall id :: id in j.sources ==> id < current && id in files
    requires forall id :: id in dir && id < current ==> id in j.sources
    requires forall id :: id in files ==> id <= current
    requires j.total == TotalSize(files, j.sources) == TotalSize(files[j.nextActive := []], j.sources) < U64_END
    requires j.nextActive == current + j.total / cfg.threshold + 3 > current && j.initStale == stale
    ensures JobInv(cfg, files[j.nextActive := []], dir + {j.nextActive}, current, Created(j.nextActive), stale,
                   Merge(j, 0, j.prev, None, [], Starting, 0, 0))
  {
    hide TotalSize, Ascending;
    SmallQuotient(j.total, cfg.threshold);
  }

  lemma SmallQuotient(total: nat, threshold: nat)
    requires threshold > 0
    ensures total / threshold >= 0
  {
  }

  lemma MergeStartLocal(cfg: Config, s: State)
    requires Inv(cfg, s) && CanMergeStart(cfg, s) && ValidConfig(cfg)
    ensures var t := MergeStart(cfg, s);
            && PhaseInv(t.files, t.merge) && CopiesInv(t.merge) && PendingInv(t.files, t.merge)
            && CoverInv(t.files, t.keydir, t.merge)
            && SnapshotInv(t.keydir, t.store, t.merge)
            && CountInv(cfg, t.files, t.merge)
  {
    hide ReplayInv, DurableInv, AckInv, HintsInv, OffsetInv, MergeInv, Lookup, Log, Size, Sorted;
    var t := MergeStart(cfg, s);
    assert t.merge.job.sources[..0] == [];
  }

  lemma MergeStartBase(cfg: Config, s: State)
    requires Inv(cfg, s) && CanMergeStart(cfg, s) && ValidConfig(cfg)
    ensures var t := MergeStart(cfg, s);
            BaseInv(t.files, t.dir, t.keydir, Top(t), t.merge)
  {
    hide DurableInv, AckInv, HintsInv, OffsetInv, MergeInv, KeydirInv, Lookup, Log, Size, Sorted, TotalSize;
    var t := MergeStart(cfg, s);
    LogPastTop(s.files, s.dir, t.files, t.dir, 0, Top(s), t.merge.job.nextActive);
  }

  /** The same for any merge that is just starting. */
  lemma StartRest(cfg: Config, s: State, next: nat, m: Merge)
    requires Inv(cfg, s) && s.lock.Free? && s.merge.NoMerge? && s.current < next
    requires m.Merge? && m.phase.Starting?
    ensures var t := RotateCreate(s, next).(merge := m);
            && LinkedInv(t.dir, t.readers, t.lock, t.merge)
            && AckInv(cfg, t.files, t.current, t.lock, t.merge, Logged(t), t.hist)
  {
    CreateHistory(cfg, s, next);
    hide MergeInv, ReplayInv, KeydirInv, HintsInv, OffsetInv, FilesInv, DurableInv, Lookup, Log, Size, Unsynced;
    var u := RotateCreate(s, next);
    assert u.hist.unacked == s.hist.unacked && u.hist.reopens == s.hist.reopens;
  }

  lemma MergeStartRest(cfg: Config, s: State)
    requires Inv(cfg, s) && CanMergeStart(cfg, s) && ValidConfig(cfg)
    ensures var t := MergeStart(cfg, s);
            && LinkedInv(t.dir, t.readers, t.lock, t.merge)
            && AckInv(cfg, t.files, t.current, t.lock, t.merge, Logged(t), t.hist)
  {
    hide Inv, LinkedInv, AckInv, NewJob, RotateCreate, Logged;
    var t := MergeStart(cfg, s);
    assert NewJob(cfg, s).nextActive > s.current by {
      JobAbove(cfg, s);
    }
    StartRest(cfg, s, NewJob(cfg, s).nextActive, t.merge);
  }

  lemma JobAbove(cfg: Config, s: State)
    requires ValidConfig(cfg)
    ensures NewJob(cfg, s).nextActive > s.current && NewJob(cfg, s).prev == s.current
  {
  }

  lemma MergeStartKeeps(cfg: Config, s: State)
    requires Inv(cfg, s) && CanMergeStart(cfg, s) && ValidConfig(cfg)
    ensures Inv(cfg, MergeStart(cfg, s))
  {
    hide ReplayInv, KeydirInv, HintsInv, OffsetInv, FilesInv, DurableInv, LinkedInv, AckInv, SnapshotInv,
         CoverInv, BaseInv, CountInv, JobInv, PhaseInv, CopiesInv, PendingInv, Sorted, TotalSize;
    var next := MergeStart(cfg, s).merge.job.nextActive;
    CreateFiles(cfg, s, next);
    CreateReplay(cfg, s, next);
    CreateHistory(cfg, s, next);
    MergeStartJob(cfg, s);
    MergeStartLocal(cfg, s);
    MergeStartBase(cfg, s);
    MergeStartRest(cfg, s);
  }
}
