/**
 The store in the code's own shape: an object whose methods append, rotate, read and merge
 by updating bytes, handles, keydir and writer fields in place. Its ghost `view` is a
 reachable state of the step machine that the fields show, and every method moves it by the
 machine's steps.
 */
module Bitcask {
  import opened Bytes
  import opened Text
  import opened Commands
  import opened Framing
  import opened Logs
  import opened Engine
  import opened Invariants
  import opened Theorems
  import opened Recovery
  import opened Opening
  import opened DiskSteps
  import opened PowerLoss
  import opened Index
  import Hints

  lemma Reaches(cfg: Config, s: State, step: Step, t: State)
    requires Reachable(cfg, s) && Next(cfg, s, step, t)
    ensures Reachable(cfg, t)
  {
    hide Next;
    var states, steps, n: nat :| IsRun(cfg, states, steps) && states[0] == Fresh() && n < |states| && states[n] == s;
    var states', steps' := states[..n + 1] + [t], steps[..n] + [step];
    forall i | 0 <= i < |steps'| ensures Next(cfg, states'[i], steps'[i], states'[i + 1]) {
      if i < n {
        assert states'[i] == states[i] && states'[i + 1] == states[i + 1] && steps'[i] == steps[i];
      }
    }
    assert IsRun(cfg, states', steps');
    assert states'[n + 1] == t;
  }

  /** The facts about a reachable state that the methods use. */
  lemma Facts(cfg: Config, s: State)
    requires Reachable(cfg, s)
    ensures s.current in s.dir && s.current in s.readers && s.current in s.files
    ensures forall h :: h in s.hints ==> h < s.current
    ensures s.readers <= s.files.Keys && s.dir <= s.files.Keys
    ensures forall id :: id in s.files ==> id <= s.current || (s.lock.Created? && id == s.lock.next)
    ensures !s.lock.Written? ==> s.offset == Size(s.files[s.current])
    ensures s.lock.Created? ==> s.lock.next !in s.readers
    ensures s.merge.Merge? && s.merge.phase.Starting? ==> s.lock.Created?
  {
    ReachableKeeps(cfg, s);
    hide Reachable, KeydirInv, ReplayInv, DurableInv, AckInv, LinkedInv, CleanInv, CopiesInv, PendingInv, CoverInv, SnapshotInv, BaseInv, CountInv, PhaseInv, Size, AllStorable, AllSets, TotalSize, Ascending;
  }

  /** Bytes of files against their records. */
  ghost predicate FilesShow(data: map<nat, seq<byte>>, files: Files) {
    data.Keys == files.Keys && forall id :: id in data ==> data[id] == EncodeLog(files[id])
  }

  lemma FileAdded(data: map<nat, seq<byte>>, files: Files, id: nat, bytes: seq<byte>, recs: seq<Command>)
    requires FilesShow(data, files) && bytes == EncodeLog(recs)
    ensures FilesShow(data[id := bytes], files[id := recs])
  {
    hide EncodeLog;
  }

  /** The hint of a linked file is genuine. */
  ghost predicate HintsShow(hints: map<nat, seq<byte>>, dir: set<nat>, files: Files) {
    forall h :: h in hints && h in dir && h in files ==> GoodHint(h, files[h], Some(hints[h]))
  }

  /** A file without a hint can change. */
  lemma HintsFrame(hints: map<nat, seq<byte>>, dir: set<nat>, files: Files, id: nat, recs: seq<Command>)
    requires HintsShow(hints, dir, files) && id !in hints
    ensures HintsShow(hints, dir + {id}, files[id := recs])
  {
    hide GoodHint;
  }

  /** How much of each file is covered by syncs. */
  ghost predicate SyncedShows(synced: map<nat, nat>, v: State) {
    forall id :: id in v.dir && id in v.files ==>
      id in synced && SafeLen(v, id) <= |v.files[id]| && synced[id] == Size(v.files[id][..SafeLen(v, id)])
  }

  lemma SyncedFrame(synced: map<nat, nat>, v: State, t: State)
    requires SyncedShows(synced, v) && t.dir <= v.dir
    requires t.current == v.current && t.hist.durable == v.hist.durable && t.media.safe == v.media.safe
    requires forall id :: id in t.dir && id in t.files ==> id in v.files && t.files[id] == v.files[id]
    ensures SyncedShows(synced, t)
  {
    hide Size;
  }

  /** Records behind the synced ones do not count. */
  lemma SyncedGrown(synced: map<nat, nat>, v: State, t: State, c: Command)
    requires SyncedShows(synced, v) && v.current in v.files && v.current in v.dir
    requires t == v.(files := t.files, lock := t.lock, hist := t.hist) && t.hist.durable == v.hist.durable
    requires t.files == v.files[v.current := v.files[v.current] + [c]]
    ensures SyncedShows(synced, t)
  {
    hide Size;
    var f := v.files[v.current];
    assert (f + [c])[..v.hist.durable] == f[..v.hist.durable];
  }

  /** A sync covers the whole active file. */
  lemma SyncedNow(data: map<nat, seq<byte>>, synced: map<nat, nat>, v: State, t: State)
    requires SyncedShows(synced, v) && FilesShow(data, v.files) && v.current in v.files
    requires t == v.(flushed := t.flushed, lock := t.lock, hist := t.hist) && t.hist.durable == |v.files[v.current]|
    ensures v.current in data && SyncedShows(synced[v.current := |data[v.current]|], t)
  {
    hide Size, EncodeLog;
    var f := v.files[v.current];
    assert f[..|f|] == f;
    EncodeLogSize(f);
  }

  /** After a rotation the old file is covered and the new one has nothing to cover. */
  lemma SyncedRotated(data: map<nat, seq<byte>>, synced: map<nat, nat>, v: State, next: nat)
    requires SyncedShows(synced, v) && FilesShow(data, v.files)
    requires v.current in v.files && v.current in v.dir && next !in v.files
    ensures v.current in data
    ensures SyncedShows(synced[v.current := |data[v.current]|][next := 0], RotateInstall(RotateCreate(v, next)))
  {
    hide Size, EncodeLog, RotateInstall, RotateCreate;
    Rotated(v, next);
    var f: seq<Command>, g: seq<Command> := v.files[v.current], [];
    assert f[..|f|] == f && g[..0] == [];
    EncodeLogSize(f);
    NoRecordsNoBytes();
  }

  /** The covered bytes of a state, file by file. */
  ghost function SafeBytes(v: State): map<nat, nat> {
    map id | id in v.dir && id in v.files && SafeLen(v, id) <= |v.files[id]| :: Size(v.files[id][..SafeLen(v, id)])
  }

  lemma SafeBytesShow(cfg: Config, v: State)
    requires Reachable(cfg, v)
    ensures SyncedShows(SafeBytes(v), v)
  {
    hide Reachable, Inv, CleanInv, HintRecsInv, Size;
    ReachableKeeps(cfg, v);
    ReachableDisk(cfg, v);
    UnsyncedReplays(cfg, v);
    ActiveHasNoHint(cfg, v);
    LastIsLinked(cfg, v);
  }

  // ---- durability of a put ----

  /** Everything stored is covered by a sync. */
  ghost predicate AllDurable(v: State) {
    v.current in v.files && v.hist.durable == |v.files[v.current]| && v.hist.durableStore == v.store
  }

  ghost predicate SameDurability(v: State, t: State) {
    t.flushed == v.flushed && t.hist.durable == v.hist.durable && t.hist.durableStore == v.hist.durableStore
  }

  /** A put is durable exactly if its policy asked for a sync or the file was full; else nothing more is. */
  ghost predicate PutDurability(cfg: Config, v: State, c: Command, due: bool, t: State) {
    if cfg.policy.SyncOnEveryPut? || (cfg.policy.SyncOnInterval? && due) || v.offset + RecordLen(c) >= cfg.threshold
    then AllDurable(t) else SameDurability(v, t)
  }

  /** What a rotation changes. */
  lemma Rotated(v: State, next: nat)
    requires v.current in v.files
    ensures RotateCreate(v, next).lock.Created?
    ensures var t := RotateInstall(RotateCreate(v, next));
            && t.files == v.files[next := []] && t.dir == v.dir + {next} && t.readers == v.readers + {next}
            && t.hints == v.hints && t.compacts == v.compacts && t.keydir == v.keydir && t.stale == v.stale
            && t.current == next && t.offset == 0 && t.flushed == 0 && t.lock.Free? && t.store == v.store
            && t.hist.durable == 0 && t.hist.durableStore == Logged(v)
            && t.media.safe == v.media.safe[v.current := |v.files[v.current]|]
  {
    hide Logged;
  }

  /** A full active file is succeeded by the next one; otherwise nothing moves. */
  ghost predicate RotatedIfFull(cfg: Config, v: State, t: State) {
    if v.offset < cfg.threshold then
      t.files == v.files && t.dir == v.dir && t.readers == v.readers && t.current == v.current && t.offset == v.offset
      && t.hints == v.hints && t.compacts == v.compacts && t.stale == v.stale
    else
      var next := v.current + 1;
      t.files == v.files[next := []] && t.dir == v.dir + {next} && t.readers == v.readers + {next} && t.current == next && t.offset == 0
      && t.hints == v.hints && t.compacts == v.compacts && t.stale == v.stale
  }

  /** What an append of `c` does to files, keydir and writer, the rotation behind it included. */
  ghost predicate Extended(cfg: Config, v: State, c: Command, t: State) {
    && v.current in v.files
    && t.keydir == ReplayRecord(v.keydir, v.current, v.offset, c)
    && var replaced := if c.key in v.keydir then v.keydir[c.key].len else 0;
       RotatedIfFull(cfg, v.(files := v.files[v.current := v.files[v.current] + [c]], offset := v.offset + RecordLen(c),
                             stale := v.stale + replaced), t)
  }

  /** What the keydir update of an append changes. */
  lemma Indexes(v: State)
    requires v.lock.Written?
    ensures var t, c := AppendIndex(v), v.lock.cmd;
            && t == v.(keydir := t.keydir, stale := t.stale, offset := v.offset + RecordLen(c), store := t.store, lock := Indexed)
            && t.keydir == (if c.Set? then v.keydir[c.key := Hints.IndexValue(v.current, c.ts, v.offset, RecordLen(c))]
                            else Without(v.keydir, c.key))
            && t.stale == v.stale + if c.key in v.keydir then v.keydir[c.key].len else 0
  {
    hide Apply, RecordLen;
  }

  lemma RemovedIs(m: Store, ts: nat, key: Key)
    ensures Apply(m, Rm(ts, key)) == m - {key}
  {
  }

  class Bitcask {
    const cfg: Config
    var data: map<nat, seq<byte>>      // bytes behind every handle and every linked name
    var dir: set<nat>                  // ids of the `.data` names
    var hints: map<nat, seq<byte>>     // `.hint` files
    var compacts: set<nat>             // ids of the `.data.compact` names
    var readers: set<nat>
    const index: Index
    var current: nat
    var offset: nat
    var flushed: nat
    var stale: nat
    ghost var synced: map<nat, nat>    // bytes of each data file that `sync_all` has covered; the disk knows
    ghost var view: State

    /** The fields are those of state `v`, files as bytes. */
    ghost predicate Shows(v: State)
      reads this`data, this`dir, this`hints, this`compacts, this`readers
      reads this`current, this`offset, this`flushed, this`stale, this`synced, index
    {
      && index.Valid() && index.contents == v.keydir
      && FilesShow(data, v.files)
      && HintsShow(hints, dir, v.files)
      && SyncedShows(synced, v)
      && dir == v.dir && hints.Keys <= v.hints && compacts == v.compacts && readers == v.readers
      && current == v.current && offset == v.offset && flushed == v.flushed && stale == v.stale
    }

    ghost predicate Valid()
      reads this, index
    {
      ValidConfig(cfg) && Reachable(cfg, view) && Shows(view)
    }

    /** `open` on an empty directory. */
    constructor (cfg: Config)
      requires ValidConfig(cfg)
      ensures Valid() && this.cfg == cfg && view == Fresh() && fresh(index)
    {
      this.cfg := cfg;
      data, dir, hints, compacts, readers := map[1 := []], {1}, map[], {}, {1};
      index := new Index();
      current, offset, flushed, stale := 1, 0, 0, 0;
      synced := map[1 := 0];
      view := Fresh();
      new;
      EncodeLogEmpty();
      FreshReachable(cfg);
    }

    /** A store around what a replay found. */
    constructor Replayed(cfg: Config, disk: Disk, index: Index, current: nat, offset: nat, stale: nat, ghost v: State)
      requires ValidConfig(cfg) && Reachable(cfg, v) && index.Valid() && index.contents == v.keydir
      requires Represents(disk, v) && v.files.Keys == v.dir == v.readers && v.flushed == 0 && v.compacts == {}
      requires current == v.current && offset == v.offset && stale == v.stale
      ensures Valid() && this.cfg == cfg && this.index == index && view == v
    {
      hide Reachable, Shards, GoodHint, EncodeLog, AllEncodable, SyncedShows;
      this.cfg := cfg;
      data, dir, hints, compacts, readers := disk.data, disk.data.Keys, disk.hints, {}, disk.data.Keys;
      this.index := index;
      this.current, this.offset, flushed, this.stale := current, offset, 0, stale;
      synced := SafeBytes(v);
      view := v;
      new;
      RepresentsShows(disk, v);
      SafeBytesShow(cfg, v);
    }

    /** The directory as it is on disk. */
    ghost function OnDisk(): Disk
      reads this
    {
      Disk(map id | id in dir && id in data :: data[id], hints, compacts)
    }

    /** Dropping the last handle: what is not synced yet is. */
    method Close()
      requires Valid() && view.lock.Free?
      modifies this`flushed, this`synced, this`view
      ensures Valid() && view.lock.Free? && flushed == offset
      ensures view == old(view).(flushed := view.flushed, hist := view.hist)
      ensures view.current in view.files && view.hist.durable == |view.files[view.current]| && view.hist.durableStore == view.store
    {
      hide Reachable, HintsShow, Shards, SyncedShows, FilesShow;
      Facts(cfg, view);
      SyncedNow(data, synced, view, Synced(view));
      Sync();
      Reaches(cfg, view, DoSyncNow, Synced(view));
      view := Synced(view);
    }

    // ---- writing ----

    /** `Shared::sync`. */
    method Sync()
      requires current in data
      modifies this`flushed, this`synced
      ensures flushed == offset && synced == old(synced)[current := |data[current]|]
    {
      synced := synced[current := |data[current]|];
      flushed := offset;
    }

    /** `rotate_to`: sync, create the next file, switch the writer over, add the handle. */
    method RotateTo(next: nat, ghost v: State)
      requires Shows(v) && v.current in v.files && next !in v.files && next !in v.hints
      requires v.current in v.dir
      modifies this`flushed, this`synced, this`data, this`dir, this`current, this`offset, this`readers
      ensures Shows(RotateInstall(RotateCreate(v, next)))
    {
      hide RotateInstall, RotateCreate, FilesShow, HintsShow, Shards, SyncedShows;
      Rotated(v, next);
      SyncedRotated(data, synced, v, next);
      EncodeLogEmpty();
      FileAdded(data, v.files, next, [], []);
      HintsFrame(hints, dir, v.files, next, []);
      Sync();
      synced := synced[next := 0];
      data := data[next := []];
      dir := dir + {next};
      current := next;
      flushed := 0;
      offset := 0;
      readers := readers + {next};
    }

    /** `rotate_if_full`, the end of every append. */
    method RotateIfFull()
      requires Valid() && view.lock.Settled?
      modifies this
      ensures Valid() && view.lock.Free?
      ensures view.store == old(view.store) && view.keydir == old(view.keydir) && view.merge == old(view.merge)
      ensures view.hist.ackStore == view.store && view.hist.unacked == []
      ensures offset < cfg.threshold
      ensures RotatedIfFull(cfg, old(view), view)
      ensures view.current == if old(view).offset < cfg.threshold then old(view).current else old(view).current + 1
      ensures if old(view).offset < cfg.threshold then SameDurability(old(view), view) else AllDurable(view)
    {
      hide Reachable, FilesShow, HintsShow, Shards, SyncedShows;
      Facts(cfg, view);
      hide RotateCreate, RotateInstall, Release;
      if offset < cfg.threshold {
        Released(cfg, view);
        SyncedFrame(synced, view, Release(view));
        view := Release(view);
      } else {
        Rotated(view, current + 1);
        RotatedRuns(cfg, view);
        RotateTo(current + 1, view);
        view := RotateInstall(RotateCreate(view, view.current + 1));
      }
    }

    /** `handle_policy`; `due` says whether the flush interval has passed. */
    method HandlePolicy(due: bool)
      requires Valid() && view.lock.Indexed?
      modifies this`flushed, this`synced, this`view
      ensures Valid() && view.lock.Settled?
      ensures view == old(view).(lock := Settled, flushed := view.flushed, hist := view.hist)
      ensures cfg.policy.SyncOnEveryPut? || (cfg.policy.SyncOnInterval? && due) ==>
                && flushed == offset && view.current in view.files
                && view.hist.durable == |view.files[view.current]| && view.hist.durableStore == view.store
      ensures cfg.policy.OsDecides? || (cfg.policy.SyncOnInterval? && !due) ==>
                && flushed == old(flushed) && view.flushed == old(view).flushed && view.hist.durable == old(view).hist.durable
                && view.hist.durableStore == old(view).hist.durableStore
      ensures view.hist == old(view.hist).(durable := view.hist.durable, durableStore := view.hist.durableStore,
                                           deleted := view.hist.deleted, resynced := view.hist.resynced)
    {
      hide Reachable, FilesShow, HintsShow, Shards, SyncedShows;
      Facts(cfg, view);
      if cfg.policy.SyncOnEveryPut? || (cfg.policy.SyncOnInterval? && due) {
        SyncedNow(data, synced, view, PolicySync(view));
        Sync();
        Reaches(cfg, view, DoPolicySync, PolicySync(view));
        view := PolicySync(view);
      } else {
        SyncedFrame(synced, view, PolicySkip(view));
        Reaches(cfg, view, DoPolicySkip, PolicySkip(view));
        view := PolicySkip(view);
      }
    }

    /** Puts the new record's place into the keydir, or takes the key out; counts stale bytes. */
    method UpdateIndex(c: Command, len: nat)
      requires Shows(view) && view.lock == Written(c) && len == RecordLen(c)
      modifies this`stale, this`offset, index
      ensures Shows(AppendIndex(view))
    {
      hide FilesShow, HintsShow, AppendIndex, ReplayRecord, Shards, SyncedShows;
      Indexes(view);
      SyncedFrame(synced, view, AppendIndex(view));
      var replaced: Option<Entry>;
      match c {
        case Set(ts, key, _) =>
          replaced := index.Find(key);
          index.Insert(key, Hints.IndexValue(current, ts, offset, len));
        case Rm(_, key) =>
          replaced := index.Remove(key);
      }
      if replaced.Some? {
        stale := stale + replaced.value.len;
      }
      offset := offset + len;
    }

    /** `write_all`: the record's bytes go to the end of the active file. */
    method Write(c: Command)
      requires Valid() && view.lock.Free? && Storable(c) && offset + RecordLen(c) < U64_END
      modifies this`data, this`view
      ensures Valid() && view.lock == Written(c)
      ensures view == old(view).(files := view.files, lock := view.lock, hist := view.hist)
      ensures SameDurability(old(view), view)
      ensures view.current in old(view.files) && view.files == old(view.files)[view.current := old(view.files)[view.current] + [c]]
    {
      hide Reachable, FilesShow, HintsShow, EncodeLog, Storable, RecordLen, Shards, SyncedShows;
      Facts(cfg, view);
      var serialized := Serialize(c);
      hide AppendBegin, AppendWrite;
      Writes(cfg, view, c);
      SyncedGrown(synced, view, AppendWrite(AppendBegin(view, c)), c);
      FileBytes(data, view.files, current);
      EncodeLogAppend(view.files[current], c);
      FileAdded(data, view.files, current, data[current] + serialized, view.files[current] + [c]);
      HintsFrame(hints, dir, view.files, current, view.files[current] + [c]);
      assert dir + {current} == dir;
      data := data[current := data[current] + serialized];
      view := AppendWrite(AppendBegin(view, c));
    }

    /** `append`: write, update the keydir, then policy and rotation. */
    method Append(c: Command, due: bool)
      requires Valid() && view.lock.Free? && Storable(c) && offset + RecordLen(c) < U64_END
      modifies this, index
      ensures Valid() && view.lock.Free?
      ensures view.store == Apply(old(view.store), c) && view.hist.ackStore == view.store && view.hist.unacked == []
      ensures view.merge == old(view.merge) && offset < cfg.threshold && Extended(cfg, old(view), c, view)
      ensures view.stale == old(view).stale + if c.key in old(view).keydir then old(view).keydir[c.key].len else 0
      ensures view.current == if old(view).offset + RecordLen(c) < cfg.threshold then old(view).current else old(view).current + 1
      ensures cfg.policy.SyncOnEveryPut? || (cfg.policy.SyncOnInterval? && due) ==>
                && view.current in view.files && view.hist.durable == |view.files[view.current]|
                && view.hist.durableStore == view.store
      ensures PutDurability(cfg, old(view), c, due, view)
    {
      hide Reachable, Shows, Storable, RecordLen, Apply, ReplayRecord;
      Write(c);
      UpdateIndex(c, RecordLen(c));
      Reaches(cfg, view, DoAppendIndex, AppendIndex(view));
      view := AppendIndex(view);
      HandlePolicy(due);
      RotateIfFull();
    }

    // ---- the store's interface ----

    /** The keydir lookup that `get` and `remove` begin with. */
    method Find(key: Key) returns (e: Option<Entry>)
      requires Valid()
      ensures e.Some? <==> key in view.store
      ensures e.Some? ==> key in view.keydir && e.value == view.keydir[key]
    {
      hide Reachable, FilesShow, HintsShow, Shards, SyncedShows;
      KeydirKeys(cfg, view);
      e := index.Find(key);
    }

    method Set(key: Key, value: Value, ts: nat, due: bool)
      requires Valid() && view.lock.Free?
      requires Storable(Commands.Set(ts, key, value)) && offset + RecordLen(Commands.Set(ts, key, value)) < U64_END
      modifies this, index
      ensures Valid() && view.lock.Free? && view.merge == old(view.merge)
      ensures view.store == old(view.store)[key := value] && offset < cfg.threshold
      ensures Extended(cfg, old(view), Commands.Set(ts, key, value), view)
      ensures PutDurability(cfg, old(view), Commands.Set(ts, key, value), due, view)
    {
      hide Reachable, Shows, Storable, RecordLen, Extended;
      Append(Commands.Set(ts, key, value), due);
    }

    /** Removing a missing key is an error and writes nothing. */
    method Remove(key: Key, ts: nat, due: bool) returns (r: Result<()>)
      requires Valid() && view.lock.Free?
      requires Storable(Rm(ts, key)) && offset + RecordLen(Rm(ts, key)) < U64_END
      modifies this, index
      ensures Valid() && view.lock.Free? && view.merge == old(view.merge)
      ensures r.Ok? <==> key in old(view.store)
      ensures r.Ok? ==> view.store == old(view.store) - {key} && offset < cfg.threshold
      ensures r.Ok? ==> Extended(cfg, old(view), Rm(ts, key), view) && PutDurability(cfg, old(view), Rm(ts, key), due, view)
      ensures r.Err? ==> r.error == KeyNotFound && view == old(view) && unchanged(this)
    {
      hide Reachable, Shows, Storable, RecordLen, Apply, Extended;
      var entry := Find(key);
      if entry.None? {
        return Err(KeyNotFound);
      }
      RemovedIs(view.store, ts, key);
      Append(Rm(ts, key), due);
      return Ok(());
    }

    /**
     Reads exactly the stored value; one that is not text is an error. The loop that looks
     again when a merge took the file away ends in its first pass: the handle is there.
     */
    method Get(key: Key) returns (r: Result<Option<Value>>)
      requires Valid()
      ensures r == if key in view.store && !Utf8(view.store[key]) then Err(BadUtf8) else Ok(Logs.Get(view.store, key))
    {
      hide Reachable, ReadEntry, EncodeLog, Shards, Utf8, Shows;
      var e := Hints.IndexValue(0, 0, 0, 0);
      var found := false;
      while !found
        invariant found ==> key in view.keydir && e == view.keydir[key]
        decreases !found
      {
        var entry := Find(key);
        if entry.None? {
          return Ok(None);
        }
        e := entry.value;
        HandleThere(e.fileId, key);
        found := e.fileId in readers;
      }
      EntryRead(cfg, view, key, e);
      FileThere(e.fileId);
      var value := ReadAt(data[e.fileId], e);
      r := if value.Ok? && value.value.Some? && !Utf8(value.value.value) then Err(BadUtf8) else value;
    }

    lemma HandleThere(id: nat, key: Key)
      requires Valid() && key in view.keydir && view.keydir[key].fileId == id
      ensures id in readers
    {
      hide Reachable, FilesShow, HintsShow, Shards, SyncedShows;
      EntryRead(cfg, view, key, view.keydir[key]);
    }

    lemma FileThere(id: nat)
      requires Valid() && id in view.files
      ensures id in data && data[id] == EncodeLog(view.files[id])
    {
      hide Reachable, HintsShow, Shards, EncodeLog;
    }
  }

  /** `read_exact_at`, decode, and cut everything but the value off the buffer. */
  method ReadAt(bytes: seq<byte>, e: Entry) returns (r: Result<Option<Value>>)
    ensures r == ReadEntry(bytes, e)
  {
    hide Decode, Encode;
    if e.offset + e.len > |bytes| {
      return Err(UnexpectedEof);
    }
    var buf := bytes[e.offset..e.offset + e.len];
    var decoded := Deserialize(buf);
    match decoded {
      case Err(error) => return Err(error);
      case Ok((command, _)) =>
        if command.Rm? {
          return Ok(None);
        }
        DecodeCanonical(buf);
        buf := buf[|buf| - |command.value|..];
        return Ok(Some(buf));
    }
  }

  lemma FileBytes(data: map<nat, seq<byte>>, files: Files, id: nat)
    requires FilesShow(data, files) && id in files
    ensures id in data && data[id] == EncodeLog(files[id])
  {
  }

  lemma KeydirKeys(cfg: Config, v: State)
    requires Reachable(cfg, v)
    ensures v.keydir.Keys == v.store.Keys
  {
    ReachableKeeps(cfg, v);
    hide Reachable, FilesInv, ReplayInv, DurableInv, AckInv, HintsInv, LinkedInv, OffsetInv, MergeInv, CleanInv;
  }

  lemma EntryRead(cfg: Config, v: State, k: Key, e: Entry)
    requires Reachable(cfg, v) && k in v.keydir && v.keydir[k] == e
    ensures k in v.store && e.fileId in v.readers && e.fileId in v.files
    ensures ReadEntry(EncodeLog(v.files[e.fileId]), e) == Ok(Some(v.store[k]))
  {
    ReachableKeeps(cfg, v);
    KeydirKeys(cfg, v);
    EntrySound(cfg, v, k);
    hide Inv, Reachable, CleanInv, EncodeLog, ReadEntry, AllEncodable, EntryOk;
    EntryReadsValue(v.files, k, e, v.store[k], []);
    assert EncodeLog(v.files[e.fileId]) + [] == EncodeLog(v.files[e.fileId]);
  }

  lemma EntrySound(cfg: Config, v: State, k: Key)
    requires Inv(cfg, v) && k in v.keydir && k in v.store
    ensures v.keydir[k].fileId in v.readers && v.keydir[k].fileId in v.files
    ensures EntryOk(v.files, k, v.keydir[k], v.store[k]) && AllEncodable(v.files[v.keydir[k].fileId])
  {
    hide ReplayInv, DurableInv, AckInv, HintsInv, LinkedInv, OffsetInv, MergeInv, Holds, Size;
    assert AllStorable(v.files[v.keydir[k].fileId]);
  }

  lemma FreshReachable(cfg: Config)
    ensures Reachable(cfg, Fresh())
  {
    assert IsRun(cfg, [Fresh()], []);
    assert [Fresh()][0] == Fresh();
  }

  lemma Writes(cfg: Config, v: State, c: Command)
    requires Reachable(cfg, v) && CanAppendBegin(v, c) && v.current in v.files
    ensures AppendBegin(v, c).lock.Writing? && AppendBegin(v, c).current in AppendBegin(v, c).files
    ensures var t := AppendWrite(AppendBegin(v, c));
            && Reachable(cfg, t) && t == v.(files := t.files, lock := Written(c), hist := t.hist)
            && t.hist == v.hist.(unacked := t.hist.unacked)
            && t.files == v.files[v.current := v.files[v.current] + [c]]
  {
    hide Reachable, Storable, RecordLen;
    var begun := AppendBegin(v, c);
    Reaches(cfg, v, DoAppendBegin(c), begun);
    Reaches(cfg, begun, DoAppendWrite, AppendWrite(begun));
  }

  lemma Released(cfg: Config, v: State)
    requires Reachable(cfg, v) && CanRelease(cfg, v)
    ensures var t := Release(v);
            && Reachable(cfg, t) && t == v.(lock := Free, hist := t.hist)
            && t.hist.durable == v.hist.durable && t.hist.durableStore == v.hist.durableStore
            && t.hist.ackStore == v.store && t.hist.unacked == []
  {
    hide Reachable;
    Reaches(cfg, v, DoRelease, Release(v));
  }

  /** A full file is rotated by two steps, and the append is then acknowledged. */
  lemma RotatedRuns(cfg: Config, v: State)
    requires Reachable(cfg, v) && CanRotateIfFull(cfg, v) && !(v.merge.Merge? && v.merge.phase.Starting?)
    ensures var t := RotateInstall(RotateCreate(v, v.current + 1));
            && Reachable(cfg, t) && t.merge == v.merge && t.hist.ackStore == v.store && t.hist.unacked == []
  {
    hide Reachable, Logged;
    var created := RotateCreate(v, v.current + 1);
    Reaches(cfg, v, DoRotateIfFull, created);
    Reaches(cfg, created, DoRotateInstall, RotateInstall(created));
  }

  lemma RepresentsShows(disk: Disk, v: State)
    requires Represents(disk, v) && v.files.Keys == v.dir
    ensures FilesShow(disk.data, v.files) && HintsShow(disk.hints, v.dir, v.files)
  {
    hide GoodHint, EncodeLog, AllEncodable;
    forall id | id in v.dir ensures disk.data[id] == EncodeLog(v.files[id]) {
      assert FileImage(v.files, disk.data, disk.hints, id);
    }
    forall h | h in disk.hints && h in v.dir && h in v.files ensures GoodHint(h, v.files[h], Some(disk.hints[h])) {
      assert FileImage(v.files, disk.data, disk.hints, h);
    }
  }
}
