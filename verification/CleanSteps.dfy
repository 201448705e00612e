/**
 Which merges free their sources: exactly those that started while every read handle still
 belonged to a linked file.
 */
module CleanSteps {
  import opened Logs
  import opened Engine
  import opened Invariants
  import opened RotateSteps

  /** Nothing the merge's deletions depend on has changed. */
  ghost predicate SameClean(s: State, t: State) {
    && s.merge.Merge? && t.merge.Merge? && s.merge.job == t.merge.job
    && s.readers <= t.readers
    && (forall id :: id in s.merge.job.sources ==> (id in s.dir <==> id in t.dir))
    && (s.merge.phase.Delete? <==> t.merge.phase.Delete?) && (s.merge.phase.Delete? ==> s.merge.phase == t.merge.phase)
  }

  lemma CleanFrame(s: State, t: State)
    requires CleanInv(s.dir, s.readers, s.merge) && SameClean(s, t)
    ensures CleanInv(t.dir, t.readers, t.merge)
  {
    if t.merge.phase.Delete? {
      assert forall id :: id in Remaining(t.merge) ==> id in t.merge.job.sources;
    }
  }

  /** If the first source is linked, so are all others: unlinked ids lie below linked ones. */
  lemma FirstDecides(cfg: Config, s: State)
    requires Inv(cfg, s) && CleanInv(s.dir, s.readers, s.merge) && s.merge.Merge?
    requires s.merge.job.sources[0] in s.dir
    ensures forall id :: id in s.merge.job.sources ==> id in s.dir
  {
    hide KeydirInv, ReplayInv, DurableInv, AckInv, HintsInv, OffsetInv, LinkedInv, PhaseInv, CopiesInv, PendingInv, CoverInv, SnapshotInv, BaseInv, CountInv, TotalSize;
    forall id | id in s.merge.job.sources ensures id in s.dir {
      var n :| 0 <= n < |s.merge.job.sources| && s.merge.job.sources[n] == id;
      assert n > 0 ==> s.merge.job.sources[0] < id;
    }
  }

  lemma RestDiffers(ids: seq<nat>, i: nat)
    requires Ascending(ids) && i < |ids|
    ensures forall d :: d in ids[i + 1..] ==> d in ids[i..] && d in ids && d != ids[i]
  {
    forall d | d in ids[i + 1..] ensures d in ids[i..] && d in ids && d != ids[i] {
      var n :| 0 <= n < |ids| - i - 1 && ids[i + 1..][n] == d;
      assert d == ids[i + 1 + n] == ids[i..][n + 1];
    }
  }

  /** With the first source gone, or about to go, all that remain are linked. */
  lemma RemainingLinked(dir: set<nat>, sources: seq<nat>, i: nat)
    requires Ascending(sources) && i < |sources| && forall id :: id in sources[i..] ==> id in dir
    ensures forall id :: id in sources[i + 1..] ==> id in dir - {sources[i]}
  {
    RestDiffers(sources, i);
    hide Ascending;
  }

  lemma AllRemain(cfg: Config, s: State)
    requires Inv(cfg, s) && CleanInv(s.dir, s.readers, s.merge) && Deleting(s, false)
    requires s.merge.job.sources[s.merge.phase.i] in s.dir
    ensures s.merge.job.clean && forall id :: id in s.merge.job.sources[s.merge.phase.i..] ==> id in s.dir
    ensures Ascending(s.merge.job.sources)
  {
    if s.merge.phase.i == 0 {
      FirstDecides(cfg, s);
      assert s.merge.job.sources[0..] == s.merge.job.sources;
    }
    hide FilesInv, KeydirInv, ReplayInv, DurableInv, AckInv, HintsInv, OffsetInv, LinkedInv, PhaseInv, CopiesInv, PendingInv, CoverInv, SnapshotInv, BaseInv, CountInv, TotalSize, Ascending;
  }

  lemma DeleteKeepsClean(cfg: Config, s: State)
    requires Inv(cfg, s) && CleanInv(s.dir, s.readers, s.merge) && Deleting(s, false)
    ensures CleanInv(DeleteData(s).dir, DeleteData(s).readers, DeleteData(s).merge)
  {
    hide Inv, Ascending;
    if s.merge.job.sources[s.merge.phase.i] in s.dir {
      AllRemain(cfg, s);
      RemainingLinked(s.dir, s.merge.job.sources, s.merge.phase.i);
    } else {
      NoMergeClean(DeleteData(s));
    }
  }

  lemma DeleteHintKeepsClean(s: State)
    requires CleanInv(s.dir, s.readers, s.merge) && Deleting(s, true)
    ensures CleanInv(DeleteHint(s).dir, DeleteHint(s).readers, DeleteHint(s).merge)
  {
    assert Remaining(DeleteHint(s).merge) == Remaining(s.merge);
  }

  lemma MergeStartClean(cfg: Config, s: State)
    requires Inv(cfg, s) && CanMergeStart(cfg, s) && ValidConfig(cfg)
    ensures CleanInv(MergeStart(cfg, s).dir, MergeStart(cfg, s).readers, MergeStart(cfg, s).merge)
  {
    hide KeydirInv, ReplayInv, DurableInv, AckInv, HintsInv, OffsetInv, LinkedInv, MergeInv, TotalSize, Sorted;
    SortedMembers(s.readers - {s.current}, s.current + 1);
    var t := MergeStart(cfg, s);
    assert forall id :: id in Sources(s) ==> id <= s.current < t.merge.job.nextActive;
  }

  /** Sources lie below the old active file, so creating or renaming files does not touch them. */
  lemma SourcesBelow(cfg: Config, s: State)
    requires Inv(cfg, s) && s.merge.Merge?
    ensures forall id :: id in s.merge.job.sources ==> id < s.merge.job.prev <= s.current
    ensures s.merge.out.Some? ==> s.merge.job.prev < s.merge.out.value.id
  {
    hide KeydirInv, ReplayInv, DurableInv, AckInv, HintsInv, OffsetInv, LinkedInv, CopiesInv, PendingInv, CoverInv, SnapshotInv, BaseInv, CountInv, TotalSize, Ascending;
  }

  lemma PublishDoneClean(cfg: Config, s: State)
    requires Inv(cfg, s) && CleanInv(s.dir, s.readers, s.merge) && CanPublishDone(s)
    ensures CleanInv(PublishDone(s).dir, PublishDone(s).readers, PublishDone(s).merge)
  {
  }

  lemma WriterStepSame(cfg: Config, s: State, step: Step, t: State)
    requires Next(cfg, s, step, t)
    requires step.DoAppendBegin? || step.DoAppendWrite? || step.DoAppendIndex? || step.DoPolicySync?
             || step.DoPolicySkip? || step.DoRelease? || step.DoSyncNow?
    ensures t.merge == s.merge && t.dir == s.dir && t.readers == s.readers
  {
  }

  lemma RotateStepSame(cfg: Config, s: State, step: Step, t: State)
    requires Next(cfg, s, step, t) && s.merge.Merge?
    requires forall id :: id in s.merge.job.sources ==> id < s.merge.job.prev <= s.current
    requires step.DoRotateIfFull? || step.DoRotateInstall?
    ensures SameClean(s, t)
  {
  }

  lemma MergeStepSame(cfg: Config, s: State, step: Step, t: State)
    requires Next(cfg, s, step, t) && s.merge.Merge?
    requires forall id :: id in s.merge.job.sources ==> id < s.merge.job.prev
    requires s.merge.out.Some? ==> s.merge.job.prev < s.merge.out.value.id
    requires step.DoOpenOutput? || step.DoScanRecord? || step.DoFinishSource? || step.DoSyncOutput?
             || step.DoRenameOutput? || step.DoInsertReader? || step.DoPublishOne?
    ensures SameClean(s, t)
  {
    hide Size;
  }

  lemma StepKeepsClean(cfg: Config, s: State, step: Step, t: State)
    requires Inv(cfg, s) && CleanInv(s.dir, s.readers, s.merge) && Next(cfg, s, step, t)
    ensures CleanInv(t.dir, t.readers, t.merge)
  {
    hide Inv, CleanInv, SameClean, Reopen, Sorted, TotalSize, Size, Apply, ReplayRecord, DeleteData, DeleteHint, MergeStart, PublishDone;
    if s.merge.Merge? {
      SourcesBelow(cfg, s);
    }
    match step {
      case DoMergeStart => MergeStartClean(cfg, s);
      case DoDeleteData => DeleteKeepsClean(cfg, s);
      case DoDeleteHint => DeleteHintKeepsClean(s);
      case DoPublishDone => PublishDoneClean(cfg, s);
      case DoMergeEnd => NoMergeClean(t);
      case DoReopen(power, keep) => ReopenClean(s, power, keep);
      case DoRotateIfFull => RotateClean(cfg, s, step, t);
      case DoRotateInstall => RotateClean(cfg, s, step, t);
      case DoOpenOutput => MergeStepSame(cfg, s, step, t); CleanFrame(s, t);
      case DoScanRecord => MergeStepSame(cfg, s, step, t); CleanFrame(s, t);
      case DoFinishSource => MergeStepSame(cfg, s, step, t); CleanFrame(s, t);
      case DoSyncOutput => MergeStepSame(cfg, s, step, t); CleanFrame(s, t);
      case DoRenameOutput => MergeStepSame(cfg, s, step, t); CleanFrame(s, t);
      case DoInsertReader => MergeStepSame(cfg, s, step, t); CleanFrame(s, t);
      case DoPublishOne => MergeStepSame(cfg, s, step, t); CleanFrame(s, t);
      case _ => WriterStepSame(cfg, s, step, t);
    }
  }

  lemma RotateClean(cfg: Config, s: State, step: Step, t: State)
    requires Inv(cfg, s) && CleanInv(s.dir, s.readers, s.merge) && Next(cfg, s, step, t)
    requires step.DoRotateIfFull? || step.DoRotateInstall?
    ensures CleanInv(t.dir, t.readers, t.merge)
  {
    hide Inv, CleanInv, SameClean;
    if s.merge.Merge? {
      SourcesBelow(cfg, s);
      RotateStepSame(cfg, s, step, t);
      CleanFrame(s, t);
    } else {
      NoMergeClean(t);
    }
  }

  lemma ReopenClean(s: State, power: bool, keep: nat)
    requires CanReopen(s, power, keep)
    ensures CleanInv(Reopen(s, power, keep).dir, Reopen(s, power, keep).readers, Reopen(s, power, keep).merge)
  {
    hide Log, ApplyAll, ReplayDir, ReplayStale, KeptFiles, Size;
  }

  lemma NoMergeClean(t: State)
    requires t.merge.NoMerge?
    ensures CleanInv(t.dir, t.readers, t.merge)
  {
  }
}
