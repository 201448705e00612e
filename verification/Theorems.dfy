/**
 What the engine promises, for every run: any interleaving of writer and merge steps, with
 process crashes and power losses at any point.
 */
module Theorems {
  import opened Bytes
  import opened Commands
  import opened Logs
  import opened Engine
  import opened Invariants
  import opened WriterSteps
  import opened RotateSteps
  import opened MergeSteps
  import opened DeleteSteps
  import opened CleanSteps
  import opened ReopenSteps

  ghost predicate FullInv(cfg: Config, s: State) {
    Inv(cfg, s) && CleanInv(s.dir, s.readers, s.merge)
  }

  lemma FreshKeeps(cfg: Config)
    ensures FullInv(cfg, Fresh())
  {
    var s := Fresh();
    LogOne(s.files, s.dir, 1);
    LogEmpty(s.files, s.dir, 0, 2);
    assert SyncedFiles(s.files, s.current, s.hist) == s.files;
  }

  /** Every step keeps the invariant. */
  lemma StepKeeps(cfg: Config, s: State, step: Step, t: State)
    requires Inv(cfg, s) && Next(cfg, s, step, t)
    ensures Inv(cfg, t)
  {
    hide Inv;
    match step {
      case DoAppendBegin(c) => AppendBeginKeeps(cfg, s, c);
      case DoAppendWrite => AppendWriteKeeps(cfg, s);
      case DoAppendIndex => AppendIndexKeeps(cfg, s);
      case DoPolicySync => PolicySyncKeeps(cfg, s);
      case DoPolicySkip => PolicySkipKeeps(cfg, s);
      case DoRelease => ReleaseKeeps(cfg, s);
      case DoRotateIfFull => RotateIfFullKeeps(cfg, s);
      case DoRotateInstall => RotateInstallKeeps(cfg, s);
      case DoSyncNow => SyncNowKeeps(cfg, s);
      case DoMergeStart => MergeStartKeeps(cfg, s);
      case DoOpenOutput => OpenOutputKeeps(cfg, s);
      case DoScanRecord => ScanRecordKeeps(cfg, s);
      case DoFinishSource => FinishSourceKeeps(cfg, s);
      case DoSyncOutput => SyncOutputKeeps(cfg, s);
      case DoRenameOutput => RenameOutputKeeps(cfg, s);
      case DoInsertReader => InsertReaderKeeps(cfg, s);
      case DoPublishOne => PublishOneKeeps(cfg, s);
      case DoPublishDone => PublishDoneKeeps(cfg, s);
      case DoDeleteData => DeleteDataKeeps(cfg, s);
      case DoDeleteHint => DeleteHintKeeps(cfg, s);
      case DoMergeEnd => MergeEndKeeps(cfg, s);
      case DoReopen(power, keep) => ReopenKeeps(cfg, s, power, keep);
    }
  }

  /** Every state of every run satisfies the invariant. */
  lemma {:induction false} RunKeeps(cfg: Config, states: seq<State>, steps: seq<Step>, n: nat)
    requires IsRun(cfg, states, steps) && FullInv(cfg, states[0]) && n < |states|
    ensures FullInv(cfg, states[n])
  {
    hide Inv, CleanInv, Next;
    if n > 0 {
      RunKeeps(cfg, states, steps, n - 1);
      StepKeeps(cfg, states[n - 1], steps[n - 1], states[n]);
      StepKeepsClean(cfg, states[n - 1], steps[n - 1], states[n]);
    }
  }

  /** A state some run from an empty directory passes through. */
  ghost predicate Reachable(cfg: Config, s: State) {
    exists states, steps, n: nat ::
      IsRun(cfg, states, steps) && states[0] == Fresh() && n < |states| && states[n] == s
  }

  lemma ReachableKeeps(cfg: Config, s: State)
    requires Reachable(cfg, s)
    ensures FullInv(cfg, s)
  {
    hide Inv, CleanInv, Next;
    var states, steps, n: nat :| IsRun(cfg, states, steps) && states[0] == Fresh() && n < |states| && states[n] == s;
    FreshKeeps(cfg);
    RunKeeps(cfg, states, steps, n);
  }

  // ---- process crashes ----

  /**
   A process crash at any step of any run, followed by open, recovers exactly the store,
   with the one record that was in the file but not yet in the keydir counted in.
   */
  lemma CrashRecovers(cfg: Config, s: State)
    requires Reachable(cfg, s)
    ensures Last(s) in s.files && CanReopen(s, false, |s.files[Last(s)]|)
    ensures Reopen(s, false, |s.files[Last(s)]|).store == Logged(s)
    ensures !s.lock.Written? ==> Reopen(s, false, |s.files[Last(s)]|).store == s.store
  {
    hide Inv, Reachable, CleanInv, Reopen;
    ReachableKeeps(cfg, s);
    ProcessCrashKeepsLog(cfg, s);
  }

  // ---- reads ----

  /** What a read of entry `e` from the open handles delivers: the record at that place. */
  ghost predicate Reads(s: State, e: Entry, c: Command) {
    e.fileId in s.readers && e.fileId in s.files && Holds(s.files[e.fileId], e.offset, c) && e.len == RecordLen(c)
  }

  /** A step of these kinds makes a file. */
  predicate MakesFile(step: Step) {
    step.DoRotateIfFull? || step.DoMergeStart? || step.DoRenameOutput?
  }

  /** The file a step makes is new: no handle, no name and no content has its id yet. */
  lemma NewFileIsNew(cfg: Config, s: State, step: Step, t: State) returns (id: nat, recs: seq<Command>)
    requires Inv(cfg, s) && Next(cfg, s, step, t) && MakesFile(step)
    ensures id !in s.files && id !in s.readers && t.files == s.files[id := recs]
    ensures t.dir == s.dir + {id} && t.readers == s.readers
  {
    if step.DoRenameOutput? {
      id, recs := RenamedIsNew(cfg, s);
    } else {
      id, recs := CreatedIsNew(cfg, s, step, t);
    }
  }

  lemma RenamedIsNew(cfg: Config, s: State) returns (id: nat, recs: seq<Command>)
    requires Inv(cfg, s) && InPhase(s, RenameOutput) && s.merge.out.Some?
    ensures var t := RenameOutputStep(s);
            && id !in s.files && id !in s.readers && t.files == s.files[id := recs]
            && t.dir == s.dir + {id} && t.readers == s.readers
  {
    RenameFrame(cfg, s);
    hide KeydirInv, ReplayInv, DurableInv, AckInv, HintsInv, OffsetInv, LinkedInv, JobInv, CopiesInv, PendingInv, CoverInv, SnapshotInv, BaseInv, CountInv, Size, AllStorable;
    id, recs := s.merge.out.value.id, s.merge.out.value.recs;
  }

  lemma CreatedIsNew(cfg: Config, s: State, step: Step, t: State) returns (id: nat, recs: seq<Command>)
    requires Inv(cfg, s) && Next(cfg, s, step, t) && (step.DoRotateIfFull? || step.DoMergeStart?)
    ensures id !in s.files && id !in s.readers && t.files == s.files[id := recs]
    ensures t.dir == s.dir + {id} && t.readers == s.readers
  {
    hide KeydirInv, ReplayInv, DurableInv, AckInv, HintsInv, OffsetInv, LinkedInv, MergeInv, Size, AllStorable, TotalSize, Sources, Logged;
    id, recs := if step.DoMergeStart? then NewJob(cfg, s).nextActive else s.current + 1, [];
  }

  /** All other steps of a living process: files only by an append, handles only more, names only fewer. */
  lemma OldFilesStay(cfg: Config, s: State, step: Step, t: State)
    requires Next(cfg, s, step, t) && !step.DoReopen? && !MakesFile(step)
    ensures t.files == s.files || (s.current in s.files && exists c :: t.files == s.files[s.current := s.files[s.current] + [c]])
    ensures s.readers <= t.readers && t.dir <= s.dir
  {
    hide Size, Apply, ReplayRecord;
    if step.DoAppendWrite? {
      assert t.files == s.files[s.current := s.files[s.current] + [s.lock.cmd]];
    }
  }

  /** Handles and the bytes behind them only grow while the process lives. */
  lemma StepGrows(cfg: Config, s: State, step: Step, t: State)
    requires Inv(cfg, s) && Next(cfg, s, step, t) && !step.DoReopen?
    ensures Grows(s.files, t.files) && s.readers <= t.readers
  {
    hide Inv, Next;
    if MakesFile(step) {
      var id, recs := NewFileIsNew(cfg, s, step, t);
    } else {
      OldFilesStay(cfg, s, step, t);
    }
  }

  lemma ReadsGrow(s: State, t: State, e: Entry, c: Command)
    requires Reads(s, e, c) && Grows(s.files, t.files) && s.readers <= t.readers
    ensures Reads(t, e, c)
  {
    hide Holds;
    var a, b := s.files[e.fileId], t.files[e.fileId];
    assert b == a + b[|a|..];
    HoldsAppend(a, b[|a|..], e.offset, c);
  }

  lemma {:induction false} ReadsStable(cfg: Config, states: seq<State>, steps: seq<Step>, i: nat, j: nat, e: Entry, c: Command)
    requires IsRun(cfg, states, steps) && FullInv(cfg, states[0]) && i <= j < |states|
    requires forall n :: i <= n < j ==> !steps[n].DoReopen?
    requires Reads(states[i], e, c)
    ensures Reads(states[j], e, c)
  {
    hide Inv, CleanInv, Next, Reads;
    if i < j {
      ReadsStable(cfg, states, steps, i, j - 1, e, c);
      RunKeeps(cfg, states, steps, j - 1);
      StepGrows(cfg, states[j - 1], steps[j - 1], states[j]);
      ReadsGrow(states[j - 1], states[j], e, c);
    }
  }

  /**
   A get that looks up the keydir in state `i` and reads the file any number of writer and
   merge steps later finds a handle in its first pass, and reads the value the key had in
   state `i`: it is linearizable at the keydir lookup.
   */
  lemma GetIsLinearizable(cfg: Config, states: seq<State>, steps: seq<Step>, i: nat, j: nat, k: Key)
    requires IsRun(cfg, states, steps) && states[0] == Fresh() && i <= j < |states|
    requires forall n :: i <= n < j ==> !steps[n].DoReopen?
    ensures k in states[i].keydir <==> k in states[i].store
    ensures k in states[i].keydir ==>
              var e := states[i].keydir[k];
              Reads(states[j], e, Set(e.ts, k, states[i].store[k]))
  {
    hide Next, CleanInv;
    FreshKeeps(cfg);
    RunKeeps(cfg, states, steps, i);
    if k in states[i].keydir {
      var e := states[i].keydir[k];
      var c := Set(e.ts, k, states[i].store[k]);
      assert Reads(states[i], e, c) by {
        EntrySound(cfg, states[i], k);
      }
      hide Inv, Reads;
      ReadsStable(cfg, states, steps, i, j, e, c);
    }
    EntrySound(cfg, states[i], k);
  }

  /** In every reachable state an entry names an open handle and a set of its key. */
  lemma EntryReads(cfg: Config, s: State, k: Key)
    requires Reachable(cfg, s)
    ensures k in s.keydir <==> k in s.store
    ensures k in s.keydir ==> Reads(s, s.keydir[k], Set(s.keydir[k].ts, k, s.store[k]))
  {
    hide Inv, CleanInv, Reachable, Reads;
    ReachableKeeps(cfg, s);
    EntrySound(cfg, s, k);
  }

  lemma EntrySound(cfg: Config, s: State, k: Key)
    requires Inv(cfg, s)
    ensures k in s.keydir <==> k in s.store
    ensures k in s.keydir ==> Reads(s, s.keydir[k], Set(s.keydir[k].ts, k, s.store[k]))
  {
    hide FilesInv, ReplayInv, DurableInv, AckInv, HintsInv, OffsetInv, LinkedInv, MergeInv, Holds;
  }

  /** A get that looks up `k` now answers `v`, whenever its read follows. */
  ghost predicate Observes(s: State, k: Key, v: Option<Value>) {
    if k in s.keydir then v.Some? && Reads(s, s.keydir[k], Set(s.keydir[k].ts, k, v.value)) else v.None?
  }

  /** What a get answers is determined, and it is the store's value. */
  lemma ObservesStore(cfg: Config, s: State, k: Key, v: Option<Value>)
    requires Inv(cfg, s)
    ensures Observes(s, k, v) <==> v == Get(s.store, k)
  {
    hide Inv;
    EntrySound(cfg, s, k);
    if k in s.keydir && Observes(s, k, v) {
      var e := s.keydir[k];
      HeldOnce(s.files[e.fileId], e.offset, Set(e.ts, k, v.value), Set(e.ts, k, s.store[k]));
    }
  }

  /** One place holds one record. */
  lemma HeldOnce(recs: seq<Command>, offset: nat, a: Command, b: Command)
    requires Holds(recs, offset, a) && Holds(recs, offset, b)
    ensures a == b
  {
    hide Size;
    var i :| 0 <= i < |recs| && recs[i] == a && Size(recs[..i]) == offset;
    HoldsUnique(recs, i, b);
  }

  lemma StoreStep(cfg: Config, s: State, step: Step, t: State)
    requires Next(cfg, s, step, t) && !step.DoReopen?
    ensures step.DoAppendIndex? ==> s.lock.Written? && t.store == Apply(s.store, s.lock.cmd)
    ensures !step.DoAppendIndex? ==> t.store == s.store
  {
    hide Size, ReplayRecord, Apply;
  }

  /**
   What gets answer changes at one step of an append and nowhere else: rotations, copies,
   publishes and deletions are invisible to readers.
   */
  lemma AnswersChangeOnlyByAppends(cfg: Config, s: State, step: Step, t: State, k: Key, v: Option<Value>)
    requires Reachable(cfg, s) && Next(cfg, s, step, t) && !step.DoReopen? && Observes(s, k, v)
    ensures !step.DoAppendIndex? ==> Observes(t, k, v)
    ensures step.DoAppendIndex? ==> s.lock.Written? && Observes(t, k, if s.lock.cmd.key == k then Effect(s.lock.cmd) else v)
  {
    hide Inv, CleanInv, Next, Observes, Reachable;
    ReachableKeeps(cfg, s);
    StepKeeps(cfg, s, step, t);
    StoreStep(cfg, s, step, t);
    ObservesStore(cfg, s, k, v);
    ObservesStore(cfg, t, k, if step.DoAppendIndex? && s.lock.cmd.key == k then Effect(s.lock.cmd) else v);
  }

  /** The commands that took effect between two states of a run. */
  function Effective(states: seq<State>, steps: seq<Step>, i: nat, j: nat): seq<Command>
    requires i <= j <= |steps| && |steps| <= |states|
    decreases j
  {
    if i == j then []
    else
      Effective(states, steps, i, j - 1)
      + (if steps[j - 1].DoAppendIndex? && states[j - 1].lock.Written? then [states[j - 1].lock.cmd] else [])
  }

  lemma {:induction false} StoreMovesForward(cfg: Config, states: seq<State>, steps: seq<Step>, i: nat, j: nat)
    requires IsRun(cfg, states, steps) && i <= j < |states|
    requires forall n :: i <= n < j ==> !steps[n].DoReopen?
    ensures states[j].store == ApplyAll(states[i].store, Effective(states, steps, i, j))
    decreases j
  {
    hide Next, ApplyAll;
    if i == j {
      ApplyNothing(states[i].store);
    } else {
      StoreMovesForward(cfg, states, steps, i, j - 1);
      StoreStep(cfg, states[j - 1], steps[j - 1], states[j]);
      var before := Effective(states, steps, i, j - 1);
      if steps[j - 1].DoAppendIndex? {
        ApplyOneMore(states[i].store, before, states[j - 1].lock.cmd);
      } else {
        assert before + [] == before;
      }
    }
  }

  lemma ApplyNothing(m: Store)
    ensures ApplyAll(m, []) == m
  {
  }

  lemma ApplyOneMore(m: Store, log: seq<Command>, c: Command)
    ensures ApplyAll(m, log + [c]) == Apply(ApplyAll(m, log), c)
  {
    hide Apply;
    assert (log + [c])[..|log|] == log;
  }

  /**
   Successive gets never go backwards. If a get with its lookup in state `i` answers `was`,
   one with its lookup in a later state `j` of the process answers exactly what the appends
   in between made of it, no matter how much later, in state `l`, it reads the file.
   */
  lemma ReadsNeverGoBack(cfg: Config, states: seq<State>, steps: seq<Step>, i: nat, j: nat, l: nat, k: Key, was: Option<Value>)
    requires IsRun(cfg, states, steps) && states[0] == Fresh() && i <= j <= l < |states|
    requires forall n :: i <= n < l ==> !steps[n].DoReopen?
    requires Observes(states[i], k, was)
    ensures var now := Lookup(Effective(states, steps, i, j), k, was);
            && Observes(states[j], k, now)
            && (k in states[j].keydir <==> now.Some?)
            && (now.Some? ==> Reads(states[l], states[j].keydir[k], Set(states[j].keydir[k].ts, k, now.value)))
  {
    hide Inv, CleanInv, Next, Reads, Lookup, ApplyAll, Effective;
    FreshKeeps(cfg);
    RunKeeps(cfg, states, steps, i);
    RunKeeps(cfg, states, steps, j);
    StoreMovesForward(cfg, states, steps, i, j);
    var log := Effective(states, steps, i, j);
    ApplyAllMeans(states[i].store, log, k);
    ObservesStore(cfg, states[i], k, was);
    var now := Lookup(log, k, was);
    ObservesStore(cfg, states[j], k, now);
    if now.Some? {
      var e := states[j].keydir[k];
      ReadsStable(cfg, states, steps, j, l, e, Set(e.ts, k, now.value));
    }
  }

  // ---- merges ----

  /** Every output's id lies strictly between the old and the new active file. */
  lemma OutputsBelowActive(cfg: Config, s: State)
    requires Reachable(cfg, s) && ValidConfig(cfg) && s.merge.Merge? && s.merge.out.Some?
    ensures s.merge.job.prev < s.merge.out.value.id < s.merge.job.nextActive <= s.current
    ensures s.merge.out.value.id - s.merge.job.prev <= s.merge.job.total / cfg.threshold + 1
  {
    ReachableKeeps(cfg, s);
    hide KeydirInv, ReplayInv, DurableInv, AckInv, HintsInv, OffsetInv, LinkedInv, CopiesInv, PendingInv, CoverInv, SnapshotInv, BaseInv, CountInv, TotalSize, Ascending, Reachable;
  }

  /** When deletion begins, and ever after, no keydir entry points into a source. */
  lemma NoEntryIntoSources(cfg: Config, s: State, k: Key)
    requires Reachable(cfg, s) && s.merge.Merge? && s.merge.phase.Delete? && k in s.keydir
    ensures s.keydir[k].fileId !in s.merge.job.sources && s.keydir[k].fileId in s.dir
  {
    ReachableKeeps(cfg, s);
    hide ReplayInv, DurableInv, AckInv, HintsInv, OffsetInv, LinkedInv, CopiesInv, PendingInv, CoverInv, SnapshotInv, CountInv, TotalSize, Ascending, Reachable, EntryOk, Lookup, Log;
  }

  /**
   Deleting a source never changes what replay finds: tombstones that were dropped do not
   let an older value come back, whatever was written during the merge.
   */
  lemma DeletionResurrectsNothing(cfg: Config, s: State)
    requires Reachable(cfg, s) && Deleting(s, false)
    ensures var t := DeleteData(s);
            forall k :: Lookup(Log(t.files, t.dir, 0, Top(t)), k, None) == Lookup(Log(s.files, s.dir, 0, Top(s)), k, None)
  {
    hide Inv, Reachable, CleanInv, Log, Lookup;
    ReachableKeeps(cfg, s);
    if DeletesLinked(s) {
      forall k ensures Lookup(Log(DeleteData(s).files, DeleteData(s).dir, 0, Top(DeleteData(s))), k, None) == Lookup(Log(s.files, s.dir, 0, Top(s)), k, None) {
        DeleteOneKey(cfg, s, s.merge.job.sources[s.merge.phase.i], k);
      }
    }
  }

  /** A merge deletes its next source if and only if every source was linked at its start. */
  lemma DeletesExactlyWhenClean(cfg: Config, s: State)
    requires Reachable(cfg, s) && Deleting(s, false)
    ensures s.merge.job.sources[s.merge.phase.i] in s.dir <==> s.merge.job.clean
    ensures !s.merge.job.clean ==> DeleteData(s).merge.NoMerge? && DeleteData(s).dir == s.dir && s.merge.phase.i == 0
  {
    ReachableKeeps(cfg, s);
    hide KeydirInv, ReplayInv, DurableInv, AckInv, HintsInv, OffsetInv, LinkedInv, FilesInv, CopiesInv, PendingInv, CoverInv, SnapshotInv, BaseInv, CountInv, TotalSize, Ascending, Reachable;
    var m := s.merge;
    var i := m.phase.i;
    assert m.job.sources[i] in m.job.sources;
    if i > 0 {
      assert m.job.sources[i..][0] == m.job.sources[i];
    } else if m.job.sources[0] in s.dir {
      FirstDecides(cfg, s);
    }
  }

  /** A handle whose file was deleted stays that way until the process ends. */
  lemma UnlinkedStays(cfg: Config, s: State, step: Step, t: State, u: nat)
    requires Inv(cfg, s) && Next(cfg, s, step, t) && !step.DoReopen?
    requires u in s.readers && u !in s.dir
    ensures u in t.readers && u !in t.dir
  {
    hide Inv, Next;
    if MakesFile(step) {
      var id, recs := NewFileIsNew(cfg, s, step, t);
    } else {
      OldFilesStay(cfg, s, step, t);
    }
  }

  /**
   Hence once one merge has deleted a file, no later merge of the same process deletes
   anything: it starts unclean.
   */
  lemma LaterMergeStartsUnclean(cfg: Config, s: State, u: nat)
    requires Inv(cfg, s) && ValidConfig(cfg) && CanMergeStart(cfg, s) && u in s.readers && u !in s.dir
    ensures !MergeStart(cfg, s).merge.job.clean
  {
    hide KeydirInv, ReplayInv, DurableInv, AckInv, HintsInv, OffsetInv, LinkedInv, MergeInv, TotalSize, Sorted;
    SortedMembers(s.readers - {s.current}, s.current + 1);
    assert u in Sources(s);
  }

  /** A step that removed a data file leaves its handle behind. */
  lemma DeletionLeavesHandle(cfg: Config, s: State) returns (u: nat)
    requires FullInv(cfg, s) && Deleting(s, false) && DeleteData(s).dir != s.dir
    ensures u in DeleteData(s).readers && u !in DeleteData(s).dir
  {
    hide Inv;
    u := s.merge.job.sources[s.merge.phase.i];
    assert u in s.merge.job.sources;
  }

  lemma {:induction false} UnlinkedStaysInRun(cfg: Config, states: seq<State>, steps: seq<Step>, i: nat, j: nat, u: nat)
    requires IsRun(cfg, states, steps) && FullInv(cfg, states[0]) && i <= j < |states|
    requires forall n :: i <= n < j ==> !steps[n].DoReopen?
    requires u in states[i].readers && u !in states[i].dir
    ensures u in states[j].readers && u !in states[j].dir
    decreases j
  {
    hide Inv, CleanInv, Next;
    if i < j {
      UnlinkedStaysInRun(cfg, states, steps, i, j - 1, u);
      RunKeeps(cfg, states, steps, j - 1);
      UnlinkedStays(cfg, states[j - 1], steps[j - 1], states[j], u);
    }
  }

  /** A merge keeps its job to its end, and one that starts fixes it. */
  lemma JobStep(cfg: Config, s: State, step: Step, t: State)
    requires Next(cfg, s, step, t)
    ensures step.DoMergeStart? ==> ValidConfig(cfg) && CanMergeStart(cfg, s) && t.merge.Merge? && t.merge.job == MergeStart(cfg, s).merge.job
    ensures !step.DoMergeStart? ==> t.merge.NoMerge? || (s.merge.Merge? && t.merge.job == s.merge.job)
  {
    hide Size, Apply, ReplayRecord, Reopen, Sources, TotalSize;
    if step.DoReopen? {
      ReopenEndsMerge(s, step.power, step.keep);
    }
  }

  lemma ReopenEndsMerge(s: State, power: bool, keep: nat)
    requires Last(s) in s.files && keep <= |s.files[Last(s)]|
    ensures Reopen(s, power, keep).merge.NoMerge?
  {
  }

  /** From the first merge that starts after a deletion on, every merge is unclean. */
  lemma {:induction false} LaterMergesAreUnclean(cfg: Config, states: seq<State>, steps: seq<Step>, m: nat, n: nat, u: nat)
    requires IsRun(cfg, states, steps) && FullInv(cfg, states[0]) && m < n < |states|
    requires steps[m].DoMergeStart? && forall i :: m <= i < n ==> !steps[i].DoReopen?
    requires u in states[m].readers && u !in states[m].dir
    ensures states[n].merge.Merge? ==> !states[n].merge.job.clean
    decreases n
  {
    hide Inv, CleanInv, Next, MergeStart, CanMergeStart;
    var s, step := states[n - 1], steps[n - 1];
    RunKeeps(cfg, states, steps, n - 1);
    JobStep(cfg, s, step, states[n]);
    if n > m + 1 {
      LaterMergesAreUnclean(cfg, states, steps, m, n - 1, u);
    }
    if step.DoMergeStart? {
      UnlinkedStaysInRun(cfg, states, steps, m, n - 1, u);
      LaterMergeStartsUnclean(cfg, s, u);
    }
  }

  /**
   Once a data file was deleted, no merge that starts later in the same process deletes
   anything: until the next open every removal it tries fails, and no data file disappears.
   */
  lemma LaterMergesDeleteNothing(cfg: Config, states: seq<State>, steps: seq<Step>, d: nat, m: nat, n: nat)
    requires IsRun(cfg, states, steps) && states[0] == Fresh() && d < m < n < |steps|
    requires steps[d].DoDeleteData? && states[d + 1].dir != states[d].dir && steps[m].DoMergeStart?
    requires forall i :: d <= i <= n ==> !steps[i].DoReopen?
    ensures states[n].merge.Merge? ==> !states[n].merge.job.clean
    ensures states[n].dir <= states[n + 1].dir
    ensures steps[n].DoDeleteData? ==> states[n + 1].dir == states[n].dir && states[n + 1].merge.NoMerge?
  {
    hide Inv, CleanInv, Next, DeleteData;
    FreshKeeps(cfg);
    RunKeeps(cfg, states, steps, d);
    DeleteStep(cfg, states[d], steps[d], states[d + 1]);
    var u := DeletionLeavesHandle(cfg, states[d]);
    UnlinkedStaysInRun(cfg, states, steps, d + 1, m, u);
    LaterMergesAreUnclean(cfg, states, steps, m, n, u);
    if steps[n].DoDeleteData? {
      DeleteStep(cfg, states[n], steps[n], states[n + 1]);
      assert Reachable(cfg, states[n]);
      DeletesExactlyWhenClean(cfg, states[n]);
    } else {
      NamesStay(cfg, states[n], steps[n], states[n + 1]);
    }
  }

  lemma DeleteStep(cfg: Config, s: State, step: Step, t: State)
    requires Next(cfg, s, step, t) && step.DoDeleteData?
    ensures Deleting(s, false) && t == DeleteData(s)
  {
    hide DeleteData;
  }

  lemma NamesStay(cfg: Config, s: State, step: Step, t: State)
    requires Next(cfg, s, step, t) && !step.DoReopen? && !step.DoDeleteData?
    ensures s.dir <= t.dir
  {
    hide Size, Apply, ReplayRecord, Sources, TotalSize;
  }

  // ---- the active file ----

  /**
   The file that open would write to has the largest id, is never described by a hint, and
   its length is the writer's offset, less the record an append has written but not indexed.
   */
  lemma ActiveFileIsLast(cfg: Config, s: State)
    requires Reachable(cfg, s)
    ensures Last(s) in s.dir && Last(s) !in s.hints && forall id :: id in s.dir ==> id <= Last(s)
    ensures s.current in s.files && (!s.lock.Written? ==> s.offset == Size(s.files[s.current]))
    ensures s.lock.Written? ==> s.files[s.current] != [] && s.offset == Size(s.files[s.current][..|s.files[s.current]| - 1])
  {
    ReachableKeeps(cfg, s);
    hide KeydirInv, ReplayInv, DurableInv, AckInv, LinkedInv, MergeInv, Reachable, Size;
  }
}
