/**
 The writer's steps keep the invariant: append, sync, rotation.
 */
module WriterSteps {
  import opened Bytes
  import opened Commands
  import opened Logs
  import opened Engine
  import opened Invariants

  // ---- growing files ----

  /** Every file of `files` is a prefix of the file of the same id in `files'`. */
  ghost predicate Grows(files: Files, files': Files) {
    forall id :: id in files ==> id in files' && files[id] <= files'[id]
  }

  lemma GrowEntry(files: Files, files': Files, k: Key, e: Entry, v: Value)
    requires Grows(files, files') && EntryOk(files, k, e, v)
    ensures EntryOk(files', k, e, v)
  {
    var a, b := files[e.fileId], files'[e.fileId];
    assert b == a + b[|a|..];
    HoldsAppend(a, b[|a|..], e.offset, Set(e.ts, k, v));
  }

  lemma GrowKeydir(files: Files, files': Files, dir: set<nat>, dir': set<nat>, readers: set<nat>, readers': set<nat>, keydir: Keydir, store: Store)
    requires KeydirInv(files, dir, readers, keydir, store)
    requires Grows(files, files') && dir <= dir' && readers <= readers'
    ensures KeydirInv(files', dir', readers', keydir, store)
  {
    hide EntryOk, Grows;
    forall k | k in keydir ensures EntryOk(files', k, keydir[k], store[k]) {
      GrowEntry(files, files', k, keydir[k], store[k]);
    }
  }

  lemma {:induction false} TotalSizeFrame(files: Files, files': Files, ids: seq<nat>)
    requires forall id :: id in ids ==> id in files && id in files' && files[id] == files'[id]
    ensures TotalSize(files, ids) == TotalSize(files', ids)
  {
    if ids != [] {
      var n := |ids| - 1;
      assert ids[n] in ids;
      assert forall id :: id in ids[..n] ==> id in ids;
      TotalSizeFrame(files, files', ids[..n]);
    }
  }

  /** Appending to the last file appends to the directory's log. */
  lemma LogGrows(files: Files, dir: set<nat>, current: nat, lo: nat, c: Command)
    requires current in files && current in dir && lo <= current
    ensures Log(files[current := files[current] + [c]], dir, lo, current + 1) == Log(files, dir, lo, current + 1) + [c]
  {
    var files' := files[current := files[current] + [c]];
    LogFrame(files, dir, files', dir, lo, current);
  }

  /** New empty files, or none at all, between `top` and `top'` add nothing to the log. */
  lemma LogPastTop(files: Files, dir: set<nat>, files': Files, dir': set<nat>, lo: nat, top: nat, top': nat)
    requires lo <= top <= top'
    requires forall id: nat :: lo <= id < top ==> FileOf(files, dir, id) == FileOf(files', dir', id)
    requires forall id: nat :: top <= id < top' ==> FileOf(files', dir', id) == []
    ensures Log(files', dir', lo, top') == Log(files, dir, lo, top)
  {
    LogSplit(files', dir', lo, top, top');
    LogFrame(files, dir, files', dir', lo, top);
    LogEmpty(files', dir', top, top');
  }

  /**
   The merge's invariants survive any change to files at or above the new active one, and
   any growth of the log's tail.
   */
  lemma MergeFrame(cfg: Config, s: State, t: State)
    requires MergeInv(cfg, s) && t.merge == s.merge && t.keydir == s.keydir && t.store == s.store
    requires s.merge.Merge? ==>
               && JobInv(cfg, t.files, t.dir, t.current, t.lock, t.stale, t.merge)
               && (forall id: nat :: id < s.merge.job.nextActive ==>
                     && (id in s.files <==> id in t.files) && (id in s.dir <==> id in t.dir)
                     && (id in s.files ==> s.files[id] == t.files[id]))
               && (forall k :: Mentions(Log(s.files, s.dir, s.merge.job.nextActive, Top(s)), k) ==>
                     Mentions(Log(t.files, t.dir, s.merge.job.nextActive, Top(t)), k))
    ensures MergeInv(cfg, t)
  {
    hide Lookup, Log, Size, Mentions, Holds;
    var m := s.merge;
    if m.Merge? {
      var j := m.job;
      assert forall id :: id in j.sources ==> id < j.nextActive;
      assert m.next < j.nextActive;
      LogFrame(s.files, s.dir, t.files, t.dir, 0, j.nextActive);
      assert forall i :: 0 <= i < m.src ==> j.sources[..m.src][i] in j.sources;
      TotalSizeFrame(s.files, t.files, j.sources[..m.src]);
      assert PhaseInv(t.files, m);
      assert PendingInv(t.files, m);
      CoverFrame(s.files, t.files, s.keydir, m);
    }
  }

  lemma CoverFrame(files: Files, files': Files, keydir: Keydir, m: Merge)
    requires m.Merge? && CoverInv(files, keydir, m)
    requires forall id :: id in m.job.sources ==> (id in files <==> id in files') && (id in files ==> files[id] == files'[id])
    ensures CoverInv(files', keydir, m)
  {
    hide Size, Queued;
    forall k | k in keydir && Passed(files', m, keydir[k].fileId, keydir[k].offset) ensures Queued(m, k, keydir[k]) {
      assert m.src < |m.job.sources| ==> m.job.sources[m.src] in m.job.sources;
      assert Passed(files, m, keydir[k].fileId, keydir[k].offset);
    }
  }

  // ---- append ----

  lemma AppendBeginKeeps(cfg: Config, s: State, c: Command)
    requires Inv(cfg, s) && CanAppendBegin(s, c)
    ensures Inv(cfg, AppendBegin(s, c))
  {
    hide KeydirInv, ReplayInv, HintsInv, BaseInv, CoverInv, PendingInv, CopiesInv, SnapshotInv, CountInv, PhaseInv, Size, Log, Lookup;
  }

  lemma AppendWriteFiles(cfg: Config, s: State)
    requires Inv(cfg, s) && s.lock.Writing?
    ensures var t := AppendWrite(s);
            && FilesInv(t.files, t.dir, t.readers, t.current, t.lock)
            && OffsetInv(t.files, t.current, t.offset, t.lock)
            && HintsInv(t.files, t.dir, t.hints, t.current)
            && KeydirInv(t.files, t.dir, t.readers, t.keydir, t.store)
  {
    hide MergeInv, ReplayInv, DurableInv, AckInv, LinkedInv, KeydirInv;
    var t := AppendWrite(s);
    SizeAppend(s.files[s.current], s.lock.cmd);
    GrowKeydir(s.files, t.files, s.dir, t.dir, s.readers, t.readers, s.keydir, s.store);
  }

  lemma AppendWriteReplay(cfg: Config, s: State)
    requires Inv(cfg, s) && s.lock.Writing?
    ensures var t := AppendWrite(s);
            ReplayInv(t.files, t.dir, Top(t), Logged(t))
  {
    hide MergeInv, DurableInv, AckInv, LinkedInv, KeydirInv, HintsInv, OffsetInv, Lookup, Log;
    var t := AppendWrite(s);
    LogGrows(s.files, s.dir, s.current, 0, s.lock.cmd);
    forall k ensures Lookup(Log(t.files, t.dir, 0, Top(t)), k, None) == Get(Logged(t), k) {
      LookupAppend(Log(s.files, s.dir, 0, Top(s)), s.lock.cmd, k, None);
    }
  }

  lemma AppendWriteMerge(cfg: Config, s: State)
    requires Inv(cfg, s) && s.lock.Writing?
    ensures MergeInv(cfg, AppendWrite(s))
  {
    hide ReplayInv, DurableInv, AckInv, LinkedInv, KeydirInv, HintsInv, OffsetInv, Lookup, Log, Size,
         PhaseInv, CopiesInv, PendingInv, CoverInv, SnapshotInv, BaseInv, CountInv, Mentions;
    var t := AppendWrite(s);
    if s.merge.Merge? {
      var j := s.merge.job;
      TotalSizeFrame(s.files, t.files, j.sources);
      LogGrows(s.files, s.dir, s.current, j.nextActive, s.lock.cmd);
      forall k | Mentions(Log(s.files, s.dir, j.nextActive, Top(s)), k)
        ensures Mentions(Log(t.files, t.dir, j.nextActive, Top(t)), k)
      {
        MentionsConcat(Log(s.files, s.dir, j.nextActive, Top(s)), [s.lock.cmd], k);
      }
    }
    MergeFrame(cfg, s, t);
  }

  /** A written record joins the unsynced ones; what is synced stays. */
  lemma AppendWriteUnsynced(cfg: Config, s: State)
    requires Inv(cfg, s) && s.lock.Writing?
    ensures s.current in s.files
    ensures var t := AppendWrite(s);
            && s.hist.durable <= |s.files[s.current]| && t.current in t.files && s.hist.durable <= |t.files[t.current]|
            && Unsynced(t.files, t.current, t.hist) == Unsynced(s.files, s.current, s.hist) + [s.lock.cmd]
            && t.files[t.current][..t.hist.durable] == s.files[s.current][..s.hist.durable]
            && SyncedFiles(t.files, t.current, t.hist) == SyncedFiles(s.files, s.current, s.hist)
  {
    hide FilesInv, MergeInv, ReplayInv, LinkedInv, KeydirInv, HintsInv, OffsetInv, AckInv, Lookup, Log, Size;
  }

  lemma AppendWriteDurable(cfg: Config, s: State)
    requires Inv(cfg, s) && s.lock.Writing?
    ensures var t := AppendWrite(s);
            DurableInv(t.files, t.dir, Top(t), t.current, t.lock, Logged(t), t.flushed, t.hist)
  {
    hide FilesInv, MergeInv, ReplayInv, LinkedInv, KeydirInv, HintsInv, OffsetInv, AckInv, Lookup, Log, Size, Unsynced, SyncedFiles, Apply;
    AppendWriteUnsynced(cfg, s);
    var t, c, u := AppendWrite(s), s.lock.cmd, Unsynced(s.files, s.current, s.hist);
    forall k ensures Get(Logged(t), k) == Lookup(u + [c], k, Get(t.hist.durableStore, k)) {
      LookupAppend(u, c, k, Get(s.hist.durableStore, k));
    }
  }

  lemma AppendWriteAck(cfg: Config, s: State)
    requires Inv(cfg, s) && s.lock.Writing?
    ensures var t := AppendWrite(s);
            AckInv(cfg, t.files, t.current, t.lock, t.merge, Logged(t), t.hist)
  {
    hide FilesInv, MergeInv, ReplayInv, LinkedInv, KeydirInv, HintsInv, OffsetInv, DurableInv, Lookup, Log, Size, Unsynced, SyncedFiles, Apply;
    AppendWriteUnsynced(cfg, s);
    var t, c := AppendWrite(s), s.lock.cmd;
    forall k ensures Get(Logged(t), k) == Lookup(t.hist.unacked, k, Get(t.hist.ackStore, k)) {
      LookupAppend(s.hist.unacked, c, k, Get(s.hist.ackStore, k));
    }
  }

  lemma AppendWriteKeeps(cfg: Config, s: State)
    requires Inv(cfg, s) && s.lock.Writing?
    ensures Inv(cfg, AppendWrite(s))
  {
    AppendWriteFiles(cfg, s);
    AppendWriteReplay(cfg, s);
    AppendWriteMerge(cfg, s);
    AppendWriteDurable(cfg, s);
    AppendWriteAck(cfg, s);
    hide MergeInv, ReplayInv, KeydirInv, HintsInv, OffsetInv, FilesInv, DurableInv, AckInv;
  }

  /** Indexing a record that is in the file keeps keydir and store in step. */
  lemma IndexRecord(files: Files, dir: set<nat>, readers: set<nat>, keydir: Keydir, store: Store, id: nat, offset: nat, c: Command)
    requires KeydirInv(files, dir, readers, keydir, store)
    requires id in dir && id in readers && id in files && Holds(files[id], offset, c)
    ensures KeydirInv(files, dir, readers, ReplayRecord(keydir, id, offset, c), Apply(store, c))
  {
    hide Holds, RecordLen;
    var keydir', store' := ReplayRecord(keydir, id, offset, c), Apply(store, c);
    assert keydir'.Keys == store'.Keys;
    forall k | k in keydir' ensures EntryOk(files, k, keydir'[k], store'[k]) {
      if k == c.key {
        assert c == Set(c.ts, k, store'[k]);
      }
    }
  }

  lemma AppendIndexKeydir(cfg: Config, s: State)
    requires Inv(cfg, s) && s.lock.Written?
    ensures var t := AppendIndex(s);
            && OffsetInv(t.files, t.current, t.offset, t.lock)
            && KeydirInv(t.files, t.dir, t.readers, t.keydir, t.store)
  {
    hide MergeInv, ReplayInv, LinkedInv, HintsInv, DurableInv, AckInv, KeydirInv, ReplayRecord, Holds, Size;
    var c := s.lock.cmd;
    var n := |s.files[s.current]| - 1;
    var before := s.files[s.current][..n];
    assert s.files[s.current] == before + [c];
    SizeAppend(before, c);
    HoldsLast(before, c);
    IndexRecord(s.files, s.dir, s.readers, s.keydir, s.store, s.current, s.offset, c);
  }

  lemma AppendIndexCover(cfg: Config, s: State)
    requires Inv(cfg, s) && s.lock.Written? && s.merge.Merge?
    ensures CoverInv(s.files, AppendIndex(s).keydir, s.merge)
  {
    hide ReplayInv, LinkedInv, HintsInv, DurableInv, AckInv, OffsetInv, KeydirInv, PhaseInv, PendingInv, CopiesInv, CountInv, SnapshotInv, BaseInv, Size, TotalSize, Ascending, Queued;
    var m, keydir := s.merge, AppendIndex(s).keydir;
    forall k | k in keydir && Passed(s.files, m, keydir[k].fileId, keydir[k].offset) ensures Queued(m, k, keydir[k]) {
      assert keydir[k].fileId in m.job.sources;
      assert k in s.keydir && keydir[k] == s.keydir[k];
    }
  }

  lemma AppendIndexBase(cfg: Config, s: State)
    requires Inv(cfg, s) && s.lock.Written? && s.merge.Merge?
    ensures var t := AppendIndex(s);
            && JobInv(cfg, t.files, t.dir, t.current, t.lock, t.stale, t.merge)
            && SnapshotInv(t.keydir, t.store, t.merge)
            && BaseInv(t.files, t.dir, t.keydir, Top(t), t.merge)
  {
    hide ReplayInv, LinkedInv, HintsInv, DurableInv, AckInv, OffsetInv, FilesInv, PhaseInv, PendingInv, CopiesInv, CountInv, CoverInv, Lookup, Log, Mentions, Size, TotalSize, Ascending, EntryOk;
  }

  lemma AppendIndexMerge(cfg: Config, s: State)
    requires Inv(cfg, s) && s.lock.Written?
    ensures MergeInv(cfg, AppendIndex(s))
  {
    hide ReplayInv, LinkedInv, HintsInv, DurableInv, AckInv, OffsetInv, FilesInv, KeydirInv, Size;
    if s.merge.Merge? {
      hide JobInv, PhaseInv, CopiesInv, PendingInv, CoverInv, SnapshotInv, BaseInv, CountInv;
      AppendIndexCover(cfg, s);
      AppendIndexBase(cfg, s);
    }
  }

  lemma AppendIndexKeeps(cfg: Config, s: State)
    requires Inv(cfg, s) && s.lock.Written?
    ensures Inv(cfg, AppendIndex(s))
  {
    AppendIndexKeydir(cfg, s);
    AppendIndexMerge(cfg, s);
    hide MergeInv, ReplayInv, KeydirInv, HintsInv, OffsetInv, Lookup, Log, Size;
  }

  // ---- sync and release ----

  /** A sync makes everything logged durable. */
  lemma SyncedHistory(cfg: Config, s: State)
    requires Inv(cfg, s) && !s.lock.Written?
    ensures var t := Synced(s);
            && DurableInv(t.files, t.dir, Top(t), t.current, t.lock, Logged(t), t.flushed, t.hist)
            && AckInv(cfg, t.files, t.current, t.lock, t.merge, Logged(t), t.hist)
            && Unsynced(t.files, t.current, t.hist) == []
            && SyncedFiles(t.files, t.current, t.hist) == s.files
  {
    hide MergeInv, KeydirInv, HintsInv, Log, Size;
    var t := Synced(s);
    var f := s.files[s.current];
    assert f[..|f|] == f && f[|f|..] == [];
    assert SyncedFiles(t.files, t.current, t.hist) == s.files;
  }

  lemma SyncNowKeeps(cfg: Config, s: State)
    requires Inv(cfg, s) && CanSyncNow(s)
    ensures Inv(cfg, Synced(s))
  {
    SyncedHistory(cfg, s);
    hide MergeInv, KeydirInv, HintsInv, ReplayInv, Log, Size, DurableInv, AckInv;
    assert MergeInv(cfg, Synced(s)) by {
      hide *;
      MergeUnchanged(cfg, s, Synced(s));
    }
  }

  /** The merge's invariants do not look at anything but these fields. */
  lemma MergeUnchanged(cfg: Config, s: State, t: State)
    requires MergeInv(cfg, s)
    requires t.files == s.files && t.dir == s.dir && t.current == s.current && t.stale == s.stale
    requires t.merge == s.merge && t.keydir == s.keydir && t.store == s.store && Top(t) == Top(s)
    requires s.merge.Merge? && s.merge.phase.Starting? ==> t.lock == s.lock
    ensures MergeInv(cfg, t)
  {
    hide PhaseInv, CopiesInv, PendingInv, CoverInv, SnapshotInv, BaseInv, CountInv;
  }

  lemma PolicySyncHistory(cfg: Config, s: State)
    requires Inv(cfg, s) && s.lock.Indexed?
    ensures var t := PolicySync(s);
            && DurableInv(t.files, t.dir, Top(t), t.current, t.lock, Logged(t), t.flushed, t.hist)
            && AckInv(cfg, t.files, t.current, t.lock, t.merge, Logged(t), t.hist)
  {
    SyncedHistory(cfg, s);
    hide FilesInv, KeydirInv, HintsInv, ReplayInv, MergeInv, OffsetInv, LinkedInv, Log, Size, Lookup, Unsynced, SyncedFiles;
  }

  lemma PolicySyncKeeps(cfg: Config, s: State)
    requires Inv(cfg, s) && s.lock.Indexed?
    ensures Inv(cfg, PolicySync(s))
  {
    PolicySyncHistory(cfg, s);
    assert s.merge.Merge? ==> !s.merge.phase.Starting?;
    hide KeydirInv, HintsInv, ReplayInv, MergeInv, DurableInv, AckInv, Size;
    MergeUnchanged(cfg, s, PolicySync(s));
  }

  lemma PolicySkipKeeps(cfg: Config, s: State)
    requires Inv(cfg, s) && CanPolicySkip(cfg, s)
    ensures Inv(cfg, PolicySkip(s))
  {
    hide KeydirInv, HintsInv, ReplayInv, Log, Size, Lookup, PhaseInv, CopiesInv, PendingInv, CoverInv, SnapshotInv, BaseInv, CountInv;
  }

  lemma ReleaseKeeps(cfg: Config, s: State)
    requires Inv(cfg, s) && CanRelease(cfg, s)
    ensures Inv(cfg, Release(s))
  {
    hide KeydirInv, HintsInv, ReplayInv, Log, Size, PhaseInv, CopiesInv, PendingInv, CoverInv, SnapshotInv, BaseInv, CountInv;
  }
}
