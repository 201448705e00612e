/**
 Crash and open: replaying what is left re-establishes the invariant, and what the store
 holds afterwards.
 */
module ReopenSteps {
  import opened Bytes
  import opened Logs
  import opened Engine
  import opened Invariants
  import opened MergeSteps

  /** The kept files: every linked file is there, cut only at the last one. */
  lemma KeptFilesAre(cfg: Config, s: State, power: bool, keep: nat)
    requires Inv(cfg, s) && CanReopen(s, power, keep)
    ensures var files := KeptFiles(s, keep);
            && files.Keys == s.dir && s.dir <= s.files.Keys && Last(s) in s.dir && s.current <= Last(s)
            && (forall id :: id in s.dir ==> id <= Last(s))
            && (forall id :: id in s.dir && id != Last(s) ==> files[id] == s.files[id])
            && files[Last(s)] == s.files[Last(s)][..keep]
  {
    hide KeydirInv, ReplayInv, DurableInv, AckInv, HintsInv, OffsetInv, LinkedInv, MergeInv;
  }

  lemma ReopenHints(cfg: Config, s: State, power: bool, keep: nat)
    requires Inv(cfg, s) && CanReopen(s, power, keep)
    ensures var t := Reopen(s, power, keep);
            HintsInv(t.files, t.dir, t.hints, t.current) && LinkedInv(t.dir, t.readers, t.lock, t.merge)
  {
    hide KeydirInv, ReplayInv, DurableInv, AckInv, MergeInv, LinkedInv, OffsetInv, Size, Log, ApplyAll, ReplayDir, ReplayStale, KeptFiles;
    KeptFilesAre(cfg, s, power, keep);
    LinkedAll(s.dir);
  }

  lemma ReopenFiles(cfg: Config, s: State, power: bool, keep: nat)
    requires Inv(cfg, s) && CanReopen(s, power, keep)
    ensures var t := Reopen(s, power, keep);
            FilesInv(t.files, t.dir, t.readers, t.current, t.lock) && OffsetInv(t.files, t.current, t.offset, t.lock)
  {
    hide KeydirInv, ReplayInv, DurableInv, AckInv, MergeInv, LinkedInv, HintsInv, OffsetInv, Size, Log, ApplyAll, ReplayDir, ReplayStale, KeptFiles, Storable;
    KeptFilesAre(cfg, s, power, keep);
    SizePrefix(s.files[Last(s)], keep);
    var t := Reopen(s, power, keep);
    assert OffsetInv(t.files, t.current, t.offset, t.lock) by {
      OffsetFree(t.files, t.current);
    }
  }

  lemma OffsetFree(files: Files, current: nat)
    requires current in files
    ensures OffsetInv(files, current, Size(files[current]), Free)
  {
  }

  lemma LinkedAll(dir: set<nat>)
    ensures LinkedInv(dir, dir, Free, NoMerge)
  {
  }

  lemma ReopenReplay(cfg: Config, s: State, power: bool, keep: nat)
    requires Inv(cfg, s) && CanReopen(s, power, keep)
    ensures var t := Reopen(s, power, keep);
            && ReplayInv(t.files, t.dir, Top(t), Logged(t))
            && KeydirInv(t.files, t.dir, t.readers, t.keydir, t.store)
  {
    hide FilesInv, ReplayDir, KeptFiles, Log, Lookup, ApplyAll, EntryOk, KeydirInv, DurableInv, AckInv, HintsInv, OffsetInv, LinkedInv, MergeInv;
    var t := Reopen(s, power, keep);
    var log := Log(t.files, t.dir, 0, Top(t));
    forall k ensures Get(t.store, k) == Lookup(log, k, None) {
      ApplyAllMeans(map[], log, k);
    }
    forall k ensures IndexMeans(t.keydir, t.files, t.dir, Top(t), k) {
      ReplayDirMeans(t.files, t.dir, Top(t), k);
    }
    KeydirFromReplay(t.files, t.dir, Top(t), t.keydir, t.store);
  }

  lemma KeydirFromReplay(files: Files, dir: set<nat>, top: nat, keydir: Keydir, store: Store)
    requires forall k :: IndexMeans(keydir, files, dir, top, k)
    requires forall k :: Get(store, k) == Lookup(Log(files, dir, 0, top), k, None)
    ensures KeydirInv(files, dir, dir, keydir, store)
  {
    hide Lookup, Log, EntryOk;
    forall k ensures k in keydir <==> k in store {
      assert IndexMeans(keydir, files, dir, top, k);
      assert Get(store, k) == Lookup(Log(files, dir, 0, top), k, None);
    }
    forall k | k in keydir ensures keydir[k].fileId in dir && EntryOk(files, k, keydir[k], store[k]) {
      assert IndexMeans(keydir, files, dir, top, k);
      assert Get(store, k) == Lookup(Log(files, dir, 0, top), k, None);
    }
  }

  /** When only the process dies, replay finds exactly the logged map. */
  lemma ProcessCrashKeepsLog(cfg: Config, s: State)
    requires Inv(cfg, s)
    ensures Last(s) in s.files && CanReopen(s, false, |s.files[Last(s)]|)
    ensures var t := Reopen(s, false, |s.files[Last(s)]|);
            && Log(t.files, t.dir, 0, Top(t)) == Log(s.files, s.dir, 0, Top(s))
            && t.store == Logged(s)
  {
    hide KeydirInv, DurableInv, AckInv, HintsInv, OffsetInv, LinkedInv, MergeInv, Log, Lookup, ApplyAll, ReplayDir, ReplayStale;
    var keep := |s.files[Last(s)]|;
    KeptFilesAre(cfg, s, false, keep);
    var t := Reopen(s, false, keep);
    assert s.files[Last(s)][..keep] == s.files[Last(s)];
    LogFrame(s.files, s.dir, t.files, t.dir, 0, Top(s));
    forall k ensures Get(t.store, k) == Get(Logged(s), k) {
      ApplyAllMeans(map[], Log(t.files, t.dir, 0, Top(t)), k);
    }
    SameMap(t.store, Logged(s));
  }

  lemma PowerHistory(cfg: Config, s: State, keep: nat)
    requires Inv(cfg, s) && CanReopen(s, true, keep)
    ensures var t := Reopen(s, true, keep);
            && DurableInv(t.files, t.dir, Top(t), t.current, t.lock, Logged(t), t.flushed, t.hist)
            && AckInv(cfg, t.files, t.current, t.lock, t.merge, Logged(t), t.hist)
  {
    KeptFilesAre(cfg, s, true, keep);
    ReopenReplay(cfg, s, true, keep);
    hide FilesInv, KeydirInv, HintsInv, OffsetInv, LinkedInv, MergeInv, Log, ApplyAll, ReplayDir, ReplayStale, KeptFiles;
    var t := Reopen(s, true, keep);
    var f := t.files[t.current];
    assert |f| == keep && f[..keep] == f && f[keep..] == [];
    assert SyncedFiles(t.files, t.current, t.hist) == t.files;
  }

  /** A process crash changes no linked file, and the active one stays what a sync saw. */
  lemma ProcessFiles(cfg: Config, s: State, keep: nat)
    requires Inv(cfg, s) && CanReopen(s, false, keep)
    ensures var t := Reopen(s, false, keep);
            && t.current in t.files && t.hist.durable <= |t.files[t.current]|
            && Unsynced(t.files, t.current, t.hist) == Unsynced(s.files, s.current, s.hist)
            && forall id: nat :: id < Top(s) ==>
                 FileOf(SyncedFiles(t.files, t.current, t.hist), t.dir, id) == FileOf(SyncedFiles(s.files, s.current, s.hist), s.dir, id)
  {
    hide Inv, Size, Log, ApplyAll, ReplayDir, ReplayStale, KeptFiles;
    KeptFilesAre(cfg, s, false, keep);
    DurableWithinFile(cfg, s);
    assert s.files[Last(s)][..keep] == s.files[Last(s)];
    if s.lock.Created? {
      var f, g := s.files[s.current], s.files[Last(s)];
      assert f[..s.hist.durable] == f && f[s.hist.durable..] == [] && g[..0] == [] && g[0..] == [];
    }
  }

  lemma DurableWithinFile(cfg: Config, s: State)
    requires Inv(cfg, s)
    ensures s.current in s.files && s.hist.durable <= |s.files[s.current]|
    ensures s.lock.Created? ==> s.hist.durable == |s.files[s.current]| && Last(s) in s.files && s.files[Last(s)] == []
  {
    hide KeydirInv, HintsInv, OffsetInv, LinkedInv, MergeInv, ReplayInv, AckInv, Lookup, Log, Size, AllStorable;
  }

  lemma ProcessSynced(cfg: Config, s: State, keep: nat)
    requires Inv(cfg, s) && CanReopen(s, false, keep)
    ensures var t := Reopen(s, false, keep);
            && t.current in t.files && t.hist.durable <= |t.files[t.current]|
            && Unsynced(t.files, t.current, t.hist) == Unsynced(s.files, s.current, s.hist)
            && Log(SyncedFiles(t.files, t.current, t.hist), t.dir, 0, Top(t)) == Log(SyncedFiles(s.files, s.current, s.hist), s.dir, 0, Top(s))
  {
    hide Inv, Log, Size, ApplyAll, ReplayDir, ReplayStale, KeptFiles, SyncedFiles, Unsynced, FileOf;
    ProcessFiles(cfg, s, keep);
    var t := Reopen(s, false, keep);
    LogFrame(SyncedFiles(t.files, t.current, t.hist), t.dir, SyncedFiles(s.files, s.current, s.hist), s.dir, 0, Top(s));
  }

  lemma ProcessHistory(cfg: Config, s: State, keep: nat)
    requires Inv(cfg, s) && CanReopen(s, false, keep)
    ensures var t := Reopen(s, false, keep);
            && DurableInv(t.files, t.dir, Top(t), t.current, t.lock, Logged(t), t.flushed, t.hist)
            && AckInv(cfg, t.files, t.current, t.lock, t.merge, Logged(t), t.hist)
  {
    ProcessSynced(cfg, s, keep);
    ProcessCrashKeepsLog(cfg, s);
    hide FilesInv, KeydirInv, HintsInv, OffsetInv, LinkedInv, MergeInv, ReplayInv, Log, Lookup, Size, ApplyAll, ReplayDir, ReplayStale, KeptFiles, Unsynced, SyncedFiles;
  }

  lemma ReopenKeeps(cfg: Config, s: State, power: bool, keep: nat)
    requires Inv(cfg, s) && CanReopen(s, power, keep)
    ensures Inv(cfg, Reopen(s, power, keep))
  {
    hide FilesInv, KeydirInv, HintsInv, OffsetInv, LinkedInv, ReplayInv, DurableInv, AckInv;
    ReopenFiles(cfg, s, power, keep);
    ReopenHints(cfg, s, power, keep);
    ReopenReplay(cfg, s, power, keep);
    if power {
      PowerHistory(cfg, s, keep);
    } else {
      ProcessHistory(cfg, s, keep);
    }
  }
}
