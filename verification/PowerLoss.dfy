/**
 What survives a power loss, which may cut every file back to what a sync has covered.
 */
module PowerLoss {
  import opened Bytes
  import opened Commands
  import opened Framing
  import opened Logs
  import opened Engine
  import opened Invariants
  import opened WriterSteps
  import opened ReopenSteps
  import opened DiskSteps
  import opened Theorems

  // ---- what a power loss can cut ----

  lemma {:induction false} RunKeepsDisk(cfg: Config, states: seq<State>, steps: seq<Step>, n: nat)
    requires IsRun(cfg, states, steps) && states[0] == Fresh() && n < |states|
    ensures DiskInv(states[n])
  {
    hide Inv, CleanInv, Next, DiskInv;
    FreshKeeps(cfg);
    if n == 0 {
      FreshDisk();
    } else {
      RunKeepsDisk(cfg, states, steps, n - 1);
      RunKeeps(cfg, states, steps, n - 1);
      RunKeeps(cfg, states, steps, n);
      StepKeepsDisk(cfg, states[n - 1], steps[n - 1], states[n]);
    }
  }

  lemma FreshDisk()
    ensures DiskInv(Fresh())
  {
  }

  lemma ReachableDisk(cfg: Config, s: State)
    requires Reachable(cfg, s)
    ensures DiskInv(s)
  {
    hide Next, DiskInv;
    var states, steps, n: nat :| IsRun(cfg, states, steps) && states[0] == Fresh() && n < |states| && states[n] == s;
    RunKeepsDisk(cfg, states, steps, n);
  }

  /**
   A power loss at any step may cut every linked file, merge outputs included, back to what
   a sync has covered of it; in every reachable state that shortens at most the last file,
   so it is one of the machine's reopen steps.
   */
  lemma PowerLossIsReopen(cfg: Config, s: State, cut: map<nat, nat>)
    requires Reachable(cfg, s) && PowerCut(s, cut)
    ensures Last(s) in s.dir && CanReopen(s, true, cut[Last(s)])
    ensures CutFiles(s, cut) == KeptFiles(s, cut[Last(s)])
    ensures Reopen(s, true, cut[Last(s)]).store == ApplyAll(map[], Log(CutFiles(s, cut), s.dir, 0, Top(s)))
  {
    hide Reachable, Inv, CleanInv, DiskInv, KeptFiles, Log, ApplyAll, ReplayDir, ReplayStale, Size;
    ReachableKeeps(cfg, s);
    ReachableDisk(cfg, s);
    PowerLossCutsOnlyTheLast(cfg, s, cut);
  }

  // ---- power loss ----

  /** What a power loss takes away is the end of the active file. */
  function Lost(s: State, keep: nat): seq<Command>
    requires Last(s) in s.files && keep <= |s.files[Last(s)]|
  {
    s.files[Last(s)][keep..]
  }

  /** The log that is left, with the lost records put back, is the whole log. */
  lemma LogMinusLost(cfg: Config, s: State, keep: nat)
    requires Inv(cfg, s) && CanReopen(s, true, keep)
    ensures Log(s.files, s.dir, 0, Top(s)) == Log(KeptFiles(s, keep), s.dir, 0, Top(s)) + Lost(s, keep)
  {
    hide Inv, KeptFiles, Log;
    KeptFilesAre(cfg, s, true, keep);
    LogOfCut(KeptFiles(s, keep), s.files, s.dir, Last(s), Lost(s, keep));
  }

  /** Every key that no lost record mentions keeps its logged value. */
  lemma PowerLossKeepsUnlost(cfg: Config, s: State, keep: nat, k: Key)
    requires Reachable(cfg, s) && CanReopen(s, true, keep)
    ensures !Mentions(Lost(s, keep), k) ==> Get(Reopen(s, true, keep).store, k) == Get(Logged(s), k)
  {
    hide Reachable, CleanInv, Log, Lookup, ApplyAll, ReplayDir, ReplayStale, KeptFiles, FilesInv, KeydirInv, HintsInv, OffsetInv, LinkedInv, MergeInv, DurableInv, AckInv, Mentions;
    ReachableKeeps(cfg, s);
    LogMinusLost(cfg, s, keep);
    var kept := Log(KeptFiles(s, keep), s.dir, 0, Top(s));
    ApplyAllMeans(map[], kept, k);
    LookupConcat(kept, Lost(s, keep), k, None);
    if !Mentions(Lost(s, keep), k) {
      LookupUnmentioned(Lost(s, keep), k, Lookup(kept, k, None));
    }
  }

  lemma AcknowledgedKept(cfg: Config, s: State, keep: nat, k: Key)
    requires Reachable(cfg, s) && CanReopen(s, true, keep) && cfg.policy.SyncOnEveryPut?
    requires !Mentions(s.hist.unacked, k)
    ensures Get(Reopen(s, true, keep).store, k) == Get(s.hist.ackStore, k)
    ensures |s.hist.unacked| <= s.hist.reopens + 1
  {
    ReachableKeeps(cfg, s);
    PowerLossKeepsUnlost(cfg, s, keep, k);
    LostIsUnacked(cfg, s, keep, k);
    hide Reachable, CleanInv, Log, Reopen, FilesInv, KeydirInv, HintsInv, OffsetInv, LinkedInv, MergeInv, DurableInv, Mentions, Lookup;
    LookupUnmentioned(s.hist.unacked, k, Get(s.hist.ackStore, k));
  }

  lemma LostIsUnacked(cfg: Config, s: State, keep: nat, k: Key)
    requires Inv(cfg, s) && CanReopen(s, true, keep) && cfg.policy.SyncOnEveryPut?
    requires !Mentions(s.hist.unacked, k)
    ensures !Mentions(Lost(s, keep), k)
  {
    hide Inv, Mentions;
    LastIsLinked(cfg, s);
    if s.lock.Created? {
      assert Lost(s, keep) == [];
      NothingMentioned(k);
    } else {
      UnsyncedIsUnacked(cfg, s);
      var f := s.files[s.current];
      assert f[keep..] == f[s.hist.durable..][keep - s.hist.durable..];
      SuffixMentions(f[s.hist.durable..], s.hist.unacked, keep - s.hist.durable, k);
    }
  }

  lemma UnsyncedIsUnacked(cfg: Config, s: State)
    requires Inv(cfg, s) && cfg.policy.SyncOnEveryPut?
    ensures s.current in s.files && s.hist.durable <= |s.files[s.current]|
    ensures IsSuffix(s.files[s.current][s.hist.durable..], s.hist.unacked)
  {
    hide FilesInv, ReplayInv, KeydirInv, HintsInv, OffsetInv, LinkedInv, MergeInv, Log, Lookup, Size;
  }

  lemma SuffixMentions(a: seq<Command>, b: seq<Command>, n: nat, k: Key)
    requires IsSuffix(a, b) && n <= |a| && !Mentions(b, k)
    ensures !Mentions(a[n..], k)
  {
    assert forall i :: 0 <= i < |a| - n ==> a[n..][i] == b[|b| - |a| + n + i];
  }

  lemma NothingMentioned(k: Key)
    ensures !Mentions([], k)
  {
  }

  /**
   With SyncOnEveryPut, a power loss at any step, even in the middle of a merge, and whatever
   it cuts of files not wholly synced, recovers the last acknowledged value of every key but
   those of appends that had not returned; without a process crash in between there is at
   most one of those.
   */
  lemma AcknowledgedSurvives(cfg: Config, s: State, cut: map<nat, nat>, k: Key)
    requires Reachable(cfg, s) && PowerCut(s, cut) && cfg.policy.SyncOnEveryPut?
    requires !Mentions(s.hist.unacked, k)
    ensures Get(ApplyAll(map[], Log(CutFiles(s, cut), s.dir, 0, Top(s))), k) == Get(s.hist.ackStore, k)
    ensures |s.hist.unacked| <= s.hist.reopens + 1
  {
    hide Reachable, Reopen, Log, ApplyAll, Mentions, KeptFiles;
    PowerLossIsReopen(cfg, s, cut);
    AcknowledgedKept(cfg, s, cut[Last(s)], k);
  }

  /**
   A store whose active file is wholly synced, as it is after every put that its policy syncs,
   loses nothing to a power loss at that point, whatever the policy.
   */
  lemma SyncedStoreSurvives(cfg: Config, s: State, cut: map<nat, nat>)
    requires Reachable(cfg, s) && PowerCut(s, cut)
    requires s.current in s.files && s.hist.durable == |s.files[s.current]|
    ensures ApplyAll(map[], Log(CutFiles(s, cut), s.dir, 0, Top(s))) == Logged(s)
  {
    hide Reachable, Inv, CleanInv, Reopen, Log, ApplyAll, KeptFiles;
    PowerLossIsReopen(cfg, s, cut);
    ReachableKeeps(cfg, s);
    LastIsLinked(cfg, s);
    var keep := cut[Last(s)];
    assert Lost(s, keep) == [];
    forall k ensures Get(Reopen(s, true, keep).store, k) == Get(Logged(s), k) {
      PowerLossKeepsUnlost(cfg, s, keep, k);
    }
    SameMap(Reopen(s, true, keep).store, Logged(s));
  }

  /** How many records of the writer's file are left: all, if the last file is a newer one. */
  function KeptOfCurrent(s: State, keep: nat): nat
    requires s.current in s.files
  {
    if s.lock.Created? then |s.files[s.current]| else keep
  }

  /**
   Under any policy, a power loss recovers the store after some prefix of what was written
   since the last sync, on top of everything before, provided no data file was deleted since;
   between creating and installing the next file even that does not matter.
   */
  lemma PowerLossKeepsPrefix(cfg: Config, s: State, keep: nat)
    requires Reachable(cfg, s) && CanReopen(s, true, keep) && (s.hist.deleted ==> s.lock.Created?)
    ensures s.current in s.files && s.hist.durable <= KeptOfCurrent(s, keep) <= |s.files[s.current]|
    ensures Reopen(s, true, keep).store ==
            ApplyAll(s.hist.durableStore, s.files[s.current][s.hist.durable..KeptOfCurrent(s, keep)])
    ensures ApplyAll(s.hist.durableStore, s.files[s.current][s.hist.durable..]) == Logged(s)
  {
    hide Reachable, Inv, CleanInv, Reopen, ApplyAll;
    ReachableKeeps(cfg, s);
    UnsyncedReplays(cfg, s);
    if s.lock.Created? {
      CreatedLosesNothing(cfg, s, keep);
      var f := s.files[s.current];
      assert f[s.hist.durable..|f|] == f[s.hist.durable..];
    } else {
      InstalledKeepsPrefix(cfg, s, keep);
    }
  }

  lemma UnsyncedReplays(cfg: Config, s: State)
    requires Inv(cfg, s)
    ensures s.current in s.files && s.hist.durable <= |s.files[s.current]|
    ensures s.lock.Created? ==> s.hist.durable == |s.files[s.current]|
    ensures ApplyAll(s.hist.durableStore, s.files[s.current][s.hist.durable..]) == Logged(s)
  {
    hide FilesInv, KeydirInv, HintsInv, OffsetInv, LinkedInv, MergeInv, ReplayInv, AckInv, Log, Lookup, Size, ApplyAll;
    var h, f := s.hist, s.files[s.current];
    forall k ensures Get(ApplyAll(h.durableStore, f[h.durable..]), k) == Get(Logged(s), k) {
      ApplyAllMeans(h.durableStore, f[h.durable..], k);
    }
    SameMap(ApplyAll(h.durableStore, f[h.durable..]), Logged(s));
  }

  /** Between creating and installing the next file there is nothing a power loss could take. */
  lemma CreatedLosesNothing(cfg: Config, s: State, keep: nat)
    requires Reachable(cfg, s) && CanReopen(s, true, keep) && s.lock.Created?
    ensures keep == 0 && Reopen(s, true, keep).store == Logged(s)
  {
    hide Reachable, Inv, CleanInv, Reopen;
    ReachableKeeps(cfg, s);
    LastIsLinked(cfg, s);
    forall k ensures Get(Reopen(s, true, keep).store, k) == Get(Logged(s), k) {
      PowerLossKeepsUnlost(cfg, s, keep, k);
    }
    SameMap(Reopen(s, true, keep).store, Logged(s));
  }

  lemma InstalledKeepsPrefix(cfg: Config, s: State, keep: nat)
    requires Inv(cfg, s) && CanReopen(s, true, keep) && !s.hist.deleted && !s.lock.Created?
    ensures s.hist.durable <= keep <= |s.files[s.current]|
    ensures Reopen(s, true, keep).store ==
            ApplyAll(s.hist.durableStore, s.files[s.current][s.hist.durable..keep])
  {
    hide Log, Lookup, ApplyAll, ReplayDir, ReplayStale, FilesInv, KeydirInv, HintsInv, OffsetInv, LinkedInv, MergeInv, ReplayInv, AckInv, Size;
    KeptFilesAre(cfg, s, true, keep);
    var h, f := s.hist, s.files[s.current];
    var middle := f[h.durable..keep];
    var synced := SyncedFiles(s.files, s.current, h);
    var base := Log(synced, s.dir, 0, Top(s));
    LogOfCut(synced, KeptFiles(s, keep), s.dir, s.current, middle);
    forall k ensures Get(Reopen(s, true, keep).store, k) == Get(ApplyAll(h.durableStore, middle), k) {
      ApplyAllMeans(map[], base + middle, k);
      LookupConcat(base, middle, k, None);
      ApplyAllMeans(h.durableStore, middle, k);
    }
    SameMap(Reopen(s, true, keep).store, ApplyAll(h.durableStore, middle));
  }

  lemma LogOfCut(files: Files, files': Files, dir: set<nat>, last: nat, more: seq<Command>)
    requires last in dir && last in files && last in files'
    requires forall id: nat :: id < last ==> FileOf(files, dir, id) == FileOf(files', dir, id)
    requires files'[last] == files[last] + more
    ensures Log(files', dir, 0, last + 1) == Log(files, dir, 0, last + 1) + more
  {
    LogFrame(files, dir, files', dir, 0, last);
  }

  // ---- what flushed_offset says ----

  /** `flushed_offset` is the durable length of the active file, except right after an open. */
  ghost predicate FlushInv(s: State) {
    && s.current in s.files && s.hist.durable <= |s.files[s.current]|
    && s.flushed == if s.hist.resynced then Size(s.files[s.current][..s.hist.durable]) else 0
  }

  lemma SyncedFlush(cfg: Config, s: State)
    requires Inv(cfg, s) && !s.lock.Written?
    ensures FlushInv(Synced(s))
  {
    hide FilesInv, KeydirInv, ReplayInv, HintsInv, LinkedInv, AckInv, DurableInv, MergeInv, Size;
    assert s.files[s.current][..|s.files[s.current]|] == s.files[s.current];
  }

  lemma FlushFrame(s: State, t: State)
    requires FlushInv(s) && t.current == s.current && t.flushed == s.flushed && t.current in t.files
    requires Grows(s.files, t.files)
    requires t.hist.durable == s.hist.durable && t.hist.resynced == s.hist.resynced
    ensures FlushInv(t)
  {
    hide Size;
    assert t.files[t.current][..t.hist.durable] == s.files[s.current][..s.hist.durable];
  }

  /** These steps leave the active file's synced part and `flushed_offset` alone. */
  lemma QuietStep(cfg: Config, s: State, step: Step, t: State)
    requires Next(cfg, s, step, t)
    requires !step.DoPolicySync? && !step.DoRotateIfFull? && !step.DoMergeStart? && !step.DoSyncNow?
             && !step.DoRotateInstall? && !step.DoReopen?
    ensures t.current == s.current && t.flushed == s.flushed
    ensures t.hist.durable == s.hist.durable && t.hist.resynced == s.hist.resynced
  {
    hide Size, Apply, ReplayRecord;
  }

  lemma SyncStepIsSynced(cfg: Config, s: State, step: Step, t: State)
    requires Inv(cfg, s) && Next(cfg, s, step, t)
    requires step.DoPolicySync? || step.DoRotateIfFull? || step.DoMergeStart? || step.DoSyncNow?
    ensures !s.lock.Written? && s.current in s.files && Grows(s.files, t.files)
    ensures t.current == s.current && t.flushed == Synced(s).flushed
    ensures t.hist == Synced(s).hist && Synced(s).files == s.files && Synced(s).current == s.current
  {
    hide KeydirInv, ReplayInv, HintsInv, LinkedInv, AckInv, DurableInv, MergeInv, OffsetInv, Size, TotalSize, Sorted;
  }

  lemma ActiveInFiles(cfg: Config, s: State)
    requires Inv(cfg, s)
    ensures s.current in s.files && s.hist.durable <= |s.files[s.current]|
  {
    hide FilesInv, KeydirInv, ReplayInv, HintsInv, LinkedInv, AckInv, OffsetInv, MergeInv, Size, Lookup, Log;
  }

  lemma NewActiveFlush(cfg: Config, s: State, step: Step, t: State)
    requires Next(cfg, s, step, t) && (step.DoReopen? || step.DoRotateInstall?)
    requires t.current in t.files && t.hist.durable <= |t.files[t.current]|
    ensures FlushInv(t)
  {
    hide FlushInv, Reopen, RotateInstall;
    if step.DoReopen? {
      ReopenFlush(s, step.power, step.keep);
    } else {
      InstallFlush(s, t);
    }
  }

  lemma StepKeepsFlush(cfg: Config, s: State, step: Step, t: State)
    requires Inv(cfg, s) && FlushInv(s) && Next(cfg, s, step, t) && Inv(cfg, t)
    ensures FlushInv(t)
  {
    hide Inv, FlushInv, Next, Synced;
    ActiveInFiles(cfg, t);
    if step.DoReopen? || step.DoRotateInstall? {
      NewActiveFlush(cfg, s, step, t);
    } else if step.DoPolicySync? || step.DoRotateIfFull? || step.DoMergeStart? || step.DoSyncNow? {
      SyncStepIsSynced(cfg, s, step, t);
      SyncedFlush(cfg, s);
      FlushFrame(Synced(s), t);
    } else {
      StepGrows(cfg, s, step, t);
      QuietStep(cfg, s, step, t);
      FlushFrame(s, t);
    }
  }

  lemma InstallFlush(s: State, t: State)
    requires s.lock.Created? && t == RotateInstall(s) && t.current in t.files
    ensures FlushInv(t)
  {
    assert t.files[t.current][..0] == [];
  }

  lemma ReopenFlush(s: State, power: bool, keep: nat)
    requires Last(s) in s.files && keep <= |s.files[Last(s)]|
    requires var t := Reopen(s, power, keep); t.current in t.files && t.hist.durable <= |t.files[t.current]|
    ensures FlushInv(Reopen(s, power, keep))
  {
    hide Log, ApplyAll, ReplayDir, ReplayStale, KeptFiles, Size;
  }

  lemma {:induction false} RunKeepsFlush(cfg: Config, states: seq<State>, steps: seq<Step>, n: nat)
    requires IsRun(cfg, states, steps) && states[0] == Fresh() && n < |states|
    ensures FlushInv(states[n])
  {
    hide Inv, CleanInv, Next, FlushInv;
    FreshKeeps(cfg);
    if n == 0 {
      assert FlushInv(Fresh()) by {
        FreshFlush();
      }
    } else {
      RunKeepsFlush(cfg, states, steps, n - 1);
      RunKeeps(cfg, states, steps, n - 1);
      RunKeeps(cfg, states, steps, n);
      StepKeepsFlush(cfg, states[n - 1], steps[n - 1], states[n]);
    }
  }

  lemma FreshFlush()
    ensures FlushInv(Fresh())
  {
  }

  /** A file is created only right after a sync of the one before it. */
  ghost predicate CreatedInv(s: State) {
    s.lock.Created? ==> s.hist.resynced
  }

  lemma {:induction false} RunKeepsCreated(cfg: Config, states: seq<State>, steps: seq<Step>, n: nat)
    requires IsRun(cfg, states, steps) && states[0] == Fresh() && n < |states|
    ensures CreatedInv(states[n])
  {
    hide Next;
    if n > 0 {
      RunKeepsCreated(cfg, states, steps, n - 1);
      CreatedStep(cfg, states[n - 1], steps[n - 1], states[n]);
    }
  }

  /** Only two steps create a file, and both have just synced; an open leaves none half created. */
  lemma CreatedStep(cfg: Config, s: State, step: Step, t: State)
    requires CreatedInv(s) && Next(cfg, s, step, t)
    ensures CreatedInv(t)
  {
    hide Next;
    if t.lock.Created? {
      CreatingStep(cfg, s, step, t);
    }
  }

  lemma CreatingStep(cfg: Config, s: State, step: Step, t: State)
    requires Next(cfg, s, step, t) && t.lock.Created?
    ensures t.hist.resynced || (s.lock.Created? && t.hist == s.hist) || (s.lock.Created? && t.hist == s.hist.(deleted := true))
  {
    hide Size, Apply, ReplayRecord, Reopen, Sources, TotalSize, Logged;
    if step.DoReopen? {
      ReopenIsFree(s, step.power, step.keep);
    }
  }

  lemma ReopenIsFree(s: State, power: bool, keep: nat)
    requires Last(s) in s.files && keep <= |s.files[Last(s)]|
    ensures Reopen(s, power, keep).lock.Free?
  {
    hide Log, ApplyAll, ReplayDir, ReplayStale, KeptFiles, Size;
  }

  lemma CreatedIsSynced(cfg: Config, s: State)
    requires Reachable(cfg, s)
    ensures CreatedInv(s)
  {
    hide Next, CreatedInv;
    var states, steps, n: nat :| IsRun(cfg, states, steps) && states[0] == Fresh() && n < |states| && states[n] == s;
    RunKeepsCreated(cfg, states, steps, n);
  }

  lemma ReachableFlush(cfg: Config, s: State)
    requires Reachable(cfg, s)
    ensures FlushInv(s)
  {
    hide Next, FlushInv;
    var states, steps, n: nat :| IsRun(cfg, states, steps) && states[0] == Fresh() && n < |states| && states[n] == s;
    RunKeepsFlush(cfg, states, steps, n);
  }

  /** The power losses `flushed_offset` would allow are exactly the possible ones. */
  ghost predicate FlushedIsExact(s: State)
    requires s.current in s.files
  {
    forall keep: nat :: keep <= |s.files[s.current]| ==>
      (s.flushed <= Size(s.files[s.current][..keep]) <==> CanReopen(s, true, keep))
  }

  /**
   `flushed_offset` says exactly what survives if and only if the active file was synced or
   created since the last open, or nothing of it is durable. While the next file is being
   created it is the writer's whole file, all of it durable.
   */
  lemma FlushedOffsetIsDurable(cfg: Config, s: State)
    requires Reachable(cfg, s)
    ensures s.current in s.files
    ensures !s.lock.Created? ==> (FlushedIsExact(s) <==> s.hist.resynced || s.hist.durable == 0)
    ensures s.lock.Created? ==> s.hist.resynced && s.flushed == Size(s.files[s.current]) && s.hist.durable == |s.files[s.current]|
  {
    hide Reachable, Inv, CleanInv, Size;
    ReachableKeeps(cfg, s);
    ReachableFlush(cfg, s);
    UnsyncedReplays(cfg, s);
    CreatedIsSynced(cfg, s);
    var f := s.files[s.current];
    assert f[..0] == [] && f[..|f|] == f;
    NoRecordsNoBytes();
    if s.hist.resynced || s.hist.durable == 0 {
      forall keep: nat | keep <= |f| ensures s.flushed <= Size(f[..keep]) <==> s.hist.durable <= keep {
        SizeOrder(f, s.hist.durable, keep);
      }
    } else {
      assert s.flushed <= Size(f[..0]);
    }
  }

  lemma NoRecordsNoBytes()
    ensures Size([]) == 0
  {
  }

  lemma SizeOrder(f: seq<Command>, a: nat, b: nat)
    requires a <= |f| && b <= |f|
    ensures Size(f[..a]) <= Size(f[..b]) <==> a <= b
  {
    hide Size;
    if a < b {
      OffsetsGrow(f, a, b);
    } else if b < a {
      OffsetsGrow(f, b, a);
    }
  }

  /** The states of one acknowledged put followed by a clean reopen. */
  function PutAndReopen(c: Command): seq<State> {
    var s0 := Fresh();
    var s1 := AppendBegin(s0, c);
    var s2 := AppendWrite(s1);
    var s3 := AppendIndex(s2);
    var s4 := PolicySync(s3);
    var s5 := Release(s4);
    [s0, s1, s2, s3, s4, s5, Reopen(s5, false, 1)]
  }

  lemma PutAndReopenRuns(cfg: Config, c: Command)
    requires ValidConfig(cfg) && Storable(c) && RecordLen(c) < cfg.threshold && RecordLen(c) < U64_END
    ensures Reachable(cfg, PutAndReopen(c)[6])
  {
    hide Reopen, Size, RecordLen, Storable;
    var states := PutAndReopen(c);
    var steps := [DoAppendBegin(c), DoAppendWrite, DoAppendIndex, DoPolicySync, DoRelease, DoReopen(false, 1)];
    assert [] + [c] == [c];
    assert IsRun(cfg, states, steps);
    assert states[6] == PutAndReopen(c)[6];
  }

  /**
   Right after an open `flushed_offset` is 0 although every record was acknowledged and
   synced before: read as a promise about what survives, it would allow losing them all.
   */
  lemma FlushedOffsetUnderstates(cfg: Config, c: Command)
    requires ValidConfig(cfg) && Storable(c) && RecordLen(c) < cfg.threshold && RecordLen(c) < U64_END && c.Set?
    ensures var s := PutAndReopen(c)[6];
            && Reachable(cfg, s)
            && s.flushed == 0 && !CanReopen(s, true, 0)
            && Get(s.hist.ackStore, c.key) == Some(c.value)
            && Get(Reopen(s, true, 0).store, c.key) == None
  {
    hide ReplayDir, ReplayStale, Reachable, Size;
    PutAndReopenRuns(cfg, c);
    assert [] + [c] == [c];
    var s := PutAndReopen(c)[6];
    var cut := KeptFiles(s, 0);
    assert cut[1] == [];
    LogEmpty(cut, s.dir, 0, Top(s));
  }
}
