/**
 What is on the disk: every step keeps sealed files wholly synced and hints genuine, so a
 power loss can only cut the last file.
 */
module DiskSteps {
  import opened Commands
  import opened Logs
  import opened Engine
  import opened Invariants
  import opened MergeSteps
  import opened ReopenSteps

  ghost predicate DiskInv(s: State) {
    SafeInv(s) && HintRecsInv(s)
  }

  /** Nothing the disk invariant looks at has changed, but the active file may have grown. */
  ghost predicate SameDisk(s: State, t: State) {
    && t.current == s.current && t.lock.Created? == s.lock.Created? && (s.lock.Created? ==> t.lock == s.lock)
    && t.dir <= s.dir && t.hints <= s.hints && t.media == s.media
    && (forall id :: id in t.dir && id in t.files && id != t.current ==> id in s.files && t.files[id] == s.files[id])
    && (t.merge.Merge? && t.merge.out.Some? ==>
          s.merge.Merge? && t.merge.out == s.merge.out && (t.merge.phase.RenameOutput? ==> s.merge.phase.RenameOutput?))
  }

  lemma DiskFrame(s: State, t: State)
    requires DiskInv(s) && SameDisk(s, t) && t.current !in t.hints
    ensures DiskInv(t)
  {
    hide HintsFor;
  }

  lemma ActiveHasNoHint(cfg: Config, s: State)
    requires Inv(cfg, s)
    ensures s.current !in s.hints && s.current in s.files && s.current in s.dir && s.dir <= s.files.Keys
    ensures forall h :: h in s.hints ==> h < s.current
    ensures s.lock.Created? ==> s.current < s.lock.next && s.hist.durable == |s.files[s.current]|
    ensures forall id :: id in s.files ==> id <= s.current || (s.lock.Created? && id == s.lock.next)
  {
    hide KeydirInv, ReplayInv, AckInv, LinkedInv, OffsetInv, MergeInv, Size, Lookup, Log, AllStorable, AllSets;
  }

  /** Steps of the writer and the merge that move no file, sync or hint. */
  predicate Quiet(step: Step) {
    !step.DoRotateIfFull? && !step.DoMergeStart? && !step.DoRotateInstall? && !step.DoReopen?
    && !step.DoOpenOutput? && !step.DoScanRecord? && !step.DoSyncOutput? && !step.DoRenameOutput?
  }

  lemma QuietIsSame(cfg: Config, s: State, step: Step, t: State)
    requires Next(cfg, s, step, t) && Quiet(step)
    ensures SameDisk(s, t)
  {
    hide Size, Apply, ReplayRecord;
  }

  /** A file that is being created is not looked at yet. */
  lemma CreateDisk(cfg: Config, s: State, next: nat)
    requires Inv(cfg, s) && DiskInv(s) && !s.lock.Created? && s.current < next
    ensures var t := RotateCreate(s, next); SafeInv(t) && HintRecsInv(t)
  {
    hide Inv, HintsFor, Logged;
    ActiveHasNoHint(cfg, s);
  }

  lemma MergeStartDisk(cfg: Config, s: State)
    requires Inv(cfg, s) && DiskInv(s) && CanMergeStart(cfg, s) && ValidConfig(cfg)
    ensures DiskInv(MergeStart(cfg, s))
  {
    hide Inv, HintsFor, Sources, TotalSize, SafeInv, HintRecsInv, RotateCreate;
    ActiveHasNoHint(cfg, s);
    var next := NewJob(cfg, s).nextActive;
    CreateDisk(cfg, s, next);
    NoOutputDisk(RotateCreate(s, next), MergeStart(cfg, s).merge);
  }

  lemma NoOutputDisk(s: State, m: Merge)
    requires DiskInv(s) && m.Merge? && m.out.None?
    ensures DiskInv(s.(merge := m))
  {
    hide HintsFor;
  }

  /** The writer moves on: the file it leaves was synced before the next one was created. */
  lemma InstallDisk(cfg: Config, s: State)
    requires Inv(cfg, s) && DiskInv(s) && s.lock.Created?
    ensures DiskInv(RotateInstall(s))
  {
    hide Inv, HintsFor, RotateInstall;
    ActiveHasNoHint(cfg, s);
    StartingHasNoOutput(cfg, s);
    InstallMoves(s);
  }

  lemma InstallMoves(s: State)
    requires s.lock.Created?
    ensures var t := RotateInstall(s);
            && t.files == s.files && t.dir == s.dir && t.hints == s.hints && t.current == s.lock.next && t.lock.Free?
            && t.media == s.media.(safe := s.media.safe[s.current := s.hist.durable])
            && (t.merge == s.merge || (s.merge.Merge? && s.merge.phase.Starting? && t.merge == s.merge.(phase := Scan(0))))
  {
  }

  lemma StartingHasNoOutput(cfg: Config, s: State)
    requires Inv(cfg, s)
    ensures s.merge.Merge? && s.merge.phase.Starting? ==> s.merge.out.None?
  {
    hide FilesInv, KeydirInv, ReplayInv, DurableInv, AckInv, HintsInv, LinkedInv, OffsetInv, JobInv, CopiesInv, PendingInv, CoverInv, SnapshotInv, BaseInv, CountInv;
  }

  lemma OpenOutputDisk(cfg: Config, s: State)
    requires Inv(cfg, s) && DiskInv(s) && CanOpenOutput(s)
    ensures DiskInv(OpenOutput(s))
  {
    assert HintsFor(s.merge.next + 1, []) == [];
    hide Inv, MergeInv, HintsFor;
    OpenOutputMerge(cfg, s);
    ActiveHasNoHint(cfg, s);
  }

  lemma HintsForAppend(id: nat, recs: seq<Command>, c: Command)
    ensures HintsFor(id, recs + [c]) == HintsFor(id, recs) + [HintRecord(c.key, EntryFor(id, Size(recs), c))]
  {
    hide Size;
    assert (recs + [c])[..|recs|] == recs;
  }

  lemma ScanDisk(s: State)
    requires DiskInv(s) && CanScanRecord(s)
    ensures DiskInv(ScanRecord(s))
  {
    hide HintsFor, Size, RecordLen;
    var out := s.merge.out.value;
    HintsForAppend(out.id, out.recs, s.files[s.merge.job.sources[s.merge.src]][s.merge.phase.at]);
  }

  lemma SyncOutputDisk(cfg: Config, s: State)
    requires Inv(cfg, s) && DiskInv(s) && InPhase(s, SyncOutput) && s.merge.out.Some?
    ensures DiskInv(SyncOutputStep(s))
  {
    hide Inv, HintsFor;
    OutputNotLinked(cfg, s);
    ActiveHasNoHint(cfg, s);
  }

  lemma OutputNotLinked(cfg: Config, s: State)
    requires Inv(cfg, s) && s.merge.Merge? && s.merge.out.Some? && !s.merge.phase.InsertReader?
    ensures s.merge.out.value.id !in s.files && s.merge.out.value.id < s.current
  {
    hide KeydirInv, ReplayInv, DurableInv, AckInv, HintsInv, LinkedInv, OffsetInv, CopiesInv, PendingInv, CoverInv, SnapshotInv, BaseInv, CountInv, TotalSize, Ascending, Size, AllStorable;
  }

  /** An output gets its name only after the sync that covers it and its hint. */
  lemma RenameDisk(cfg: Config, s: State)
    requires Inv(cfg, s) && DiskInv(s) && InPhase(s, RenameOutput) && s.merge.out.Some?
    ensures DiskInv(RenameOutputStep(s))
  {
    hide Inv, HintsFor;
    OutputNotLinked(cfg, s);
    ActiveHasNoHint(cfg, s);
  }

  lemma ReopenDisk(cfg: Config, s: State, power: bool, keep: nat)
    requires Inv(cfg, s) && DiskInv(s) && CanReopen(s, power, keep)
    ensures DiskInv(Reopen(s, power, keep))
  {
    hide Inv, HintsFor, Size, Log, ApplyAll, ReplayDir, ReplayStale, KeptFiles;
    ActiveHasNoHint(cfg, s);
    KeptFilesAre(cfg, s, power, keep);
  }

  lemma StepKeepsDisk(cfg: Config, s: State, step: Step, t: State)
    requires Inv(cfg, s) && DiskInv(s) && Next(cfg, s, step, t) && Inv(cfg, t)
    ensures DiskInv(t)
  {
    hide Inv, DiskInv, SameDisk, Reopen, ScanRecord, OpenOutput, RotateCreate, MergeStart, RotateInstall, SyncOutputStep, RenameOutputStep;
    match step {
      case DoRotateIfFull => CreateDisk(cfg, s, s.current + 1); DiskParts(t);
      case DoMergeStart => MergeStartDisk(cfg, s);
      case DoRotateInstall => InstallDisk(cfg, s);
      case DoOpenOutput => OpenOutputDisk(cfg, s);
      case DoScanRecord => ScanDisk(s);
      case DoSyncOutput => SyncOutputDisk(cfg, s);
      case DoRenameOutput => RenameDisk(cfg, s);
      case DoReopen(power, keep) => ReopenDisk(cfg, s, power, keep);
      case _ => QuietIsSame(cfg, s, step, t); ActiveHasNoHint(cfg, t); DiskFrame(s, t);
    }
  }

  lemma DiskParts(s: State)
    requires SafeInv(s) && HintRecsInv(s)
    ensures DiskInv(s)
  {
  }

  // ---- power loss ----

  /** A power loss: of every linked file some number of records survives that covers the synced ones. */
  ghost predicate PowerCut(s: State, cut: map<nat, nat>) {
    && cut.Keys == s.dir && s.dir <= s.files.Keys
    && forall id :: id in s.dir ==> SafeLen(s, id) <= cut[id] <= |s.files[id]|
  }

  function CutFiles(s: State, cut: map<nat, nat>): Files
    requires cut.Keys == s.dir && s.dir <= s.files.Keys && forall id :: id in s.dir ==> cut[id] <= |s.files[id]|
  {
    map id | id in s.dir :: s.files[id][..cut[id]]
  }

  /** Whatever the power loss may cut, only the last file gets shorter. */
  lemma PowerLossCutsOnlyTheLast(cfg: Config, s: State, cut: map<nat, nat>)
    requires Inv(cfg, s) && DiskInv(s) && PowerCut(s, cut)
    ensures Last(s) in s.dir && CanReopen(s, true, cut[Last(s)])
    ensures forall id :: id in s.dir && id != Last(s) ==> cut[id] == |s.files[id]|
    ensures CutFiles(s, cut) == KeptFiles(s, cut[Last(s)])
  {
    hide Inv, HintRecsInv;
    ActiveHasNoHint(cfg, s);
    LastIsLinked(cfg, s);
    var keep := cut[Last(s)];
    forall id | id in s.dir && id != Last(s) ensures cut[id] == |s.files[id]| && s.files[id][..cut[id]] == s.files[id] {
    }
  }

  lemma LastIsLinked(cfg: Config, s: State)
    requires Inv(cfg, s)
    ensures Last(s) in s.dir && Last(s) in s.files && (s.lock.Created? ==> s.files[Last(s)] == [])
  {
    hide KeydirInv, ReplayInv, DurableInv, AckInv, HintsInv, LinkedInv, OffsetInv, MergeInv, Size, AllStorable;
  }
}
