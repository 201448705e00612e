/**
 Closing and opening again, end to end: what the store object leaves in its directory, even
 with an append torn in the middle, opens to a store with the same contents.
 */
module Restart {
  import opened Bytes
  import opened Commands
  import opened Logs
  import opened Engine
  import opened Invariants
  import opened Theorems
  import opened ReopenSteps
  import opened Recovery
  import opened Opening
  import opened DiskSteps
  import opened PowerLoss
  import opened Crashes
  import opened Index
  import opened Bitcask
  import Loader

  lemma ReopenedIs(cfg: Config, s: State, power: bool, keep: nat)
    requires Reachable(cfg, s) && CanReopen(s, power, keep)
    ensures var t := Reopen(s, power, keep);
            && Reachable(cfg, t) && t.files.Keys == t.dir == t.readers && t.flushed == 0 && t.compacts == {}
            && t.lock.Free? && t.merge.NoMerge?
  {
    hide Reachable, Inv, CleanInv, Size, Log, ApplyAll, ReplayDir, ReplayStale, KeptFiles, Logged;
    ReachableKeeps(cfg, s);
    KeptFilesAre(cfg, s, power, keep);
    Reaches(cfg, s, DoReopen(power, keep), Reopen(s, power, keep));
  }

  /**
   `open` on any directory that a crash in a reachable state can leave: it always succeeds,
   and the store it returns shows exactly the reopened state.
   */
  method OpenStore(cfg: Config, disk: Disk, listing: seq<Loader.Name>, ghost s: State, ghost power: bool, ghost keep: nat)
    returns (b: Bitcask)
    requires ValidConfig(cfg) && Reachable(cfg, s) && CanReopen(s, power, keep) && CrashImage(s, keep, disk)
    requires Loader.Lists(listing, disk)
    ensures fresh(b) && fresh(b.index) && b.Valid() && b.cfg == cfg
    ensures b.view == Reopen(s, power, keep) && b.view.lock.Free? && b.view.merge.NoMerge?
  {
    hide Reachable, CrashImage, Reopen, OpenAt, Represents, Loader.Lists, IsCurrent, Shards;
    OpenRecovers(cfg, s, power, keep, disk);
    ReopenedIs(cfg, s, power, keep);
    ghost var t := Reopen(s, power, keep);
    var loader := new Loader.Loader(disk);
    var r := loader.Open(listing);
    OneCurrent(disk.data.Keys, loader.current, t.current);
    b := new Bitcask.Replayed(cfg, loader.disk, loader.index, loader.current, loader.offset, loader.stale, t);
  }

  lemma OneCurrent(ids: set<nat>, a: nat, b: nat)
    requires IsCurrent(ids, a) && IsCurrent(ids, b)
    ensures a == b
  {
  }

  /** The directory with `tail` written behind the active file's records. */
  ghost function WithTail(disk: Disk, current: nat, tail: seq<byte>): Disk {
    if current in disk.data then disk.(data := disk.data[current := disk.data[current] + tail]) else disk
  }

  /** What the machine's files are on disk, with part of a record behind the active one. */
  lemma ShownIsImage(cfg: Config, v: State, disk: Disk, tail: seq<byte>)
    requires Reachable(cfg, v) && Last(v) == v.current && v.current in v.files && TailOf(v, |v.files[v.current]|, tail)
    requires disk.data.Keys == v.dir && disk.hints.Keys <= v.hints && HintsShow(disk.hints, v.dir, v.files)
    requires forall id :: id in v.dir ==> id in v.files && disk.data[id] == EncodeLog(v.files[id])
    ensures CrashImage(v, |v.files[v.current]|, WithTail(disk, v.current, tail))
  {
    hide Reachable, Inv, CleanInv, DiskInv, EncodeLog, TailOf, HintsShow, SealedCut, HintsCut;
    ReachableKeeps(cfg, v);
    ReachableDisk(cfg, v);
    var recs := v.files[v.current];
    assert recs[..|recs|] == recs;
    var d := WithTail(disk, v.current, tail);
    DropPrefix(EncodeLog(recs), tail);
    ActiveHasNoHint(cfg, v);
    forall id | id in v.dir && id != v.current ensures SealedCut(v, d.data, id) {
      WholeIsSealed(cfg, v, d.data, id);
    }
    ShownHints(cfg, v, d);
  }

  lemma WholeIsSealed(cfg: Config, v: State, data: map<nat, seq<byte>>, id: nat)
    requires Inv(cfg, v) && DiskInv(v) && id in v.dir && id in v.files && id != Last(v)
    requires id in data && data[id] == EncodeLog(v.files[id])
    ensures SealedCut(v, data, id)
  {
    hide Inv, EncodeLog, Size, HintRecsInv;
    ActiveHasNoHint(cfg, v);
    var recs := v.files[id];
    assert recs[..|recs|] == recs;
    EncodeLogSize(recs);
  }

  lemma ShownHints(cfg: Config, v: State, disk: Disk)
    requires Inv(cfg, v) && DiskInv(v) && disk.hints.Keys <= v.hints && HintsShow(disk.hints, v.dir, v.files)
    ensures HintsCut(v, disk)
  {
    hide Inv, SafeInv, CutHint, GoodHint, HintsFor;
    ActiveHasNoHint(cfg, v);
    forall id | id in disk.hints && id in v.dir
      ensures id in v.hints && id in v.media.hintRecs && CutHint(v.media.hintRecs[id], disk.hints[id])
    {
      OutputsAreHintable(cfg, v, id);
      CutHintIsGood(id, v.files[id], disk.hints[id]);
    }
  }

  lemma ShownOnDisk(b: Bitcask)
    requires b.Valid()
    ensures var d, v := b.OnDisk(), b.view;
            && d.data.Keys == v.dir && d.hints.Keys <= v.hints && HintsShow(d.hints, v.dir, v.files)
            && (forall id :: id in v.dir ==> id in v.files && d.data[id] == EncodeLog(v.files[id]))
            && b.current == v.current
  {
    Facts(b.cfg, b.view);
    hide Reachable, Shards, HintsShow, EncodeLog, Size;
  }

  /**
   The process dies while the store appends `c`, with the first `n` bytes of its record in
   the file: the directory is one that `open` accepts, and it reopens to the contents before
   the append.
   */
  lemma TornAppendIsImage(b: Bitcask, c: Command, n: nat)
    requires b.Valid() && b.view.lock.Free? && CanAppendBegin(b.view, c) && n < RecordLen(c)
    ensures var s, disk := AppendBegin(b.view, c), WithTail(b.OnDisk(), b.current, Encode(c)[..n]);
            && Reachable(b.cfg, s) && s.current in s.files
            && CanReopen(s, false, |s.files[s.current]|) && CrashImage(s, |s.files[s.current]|, disk)
            && Reopen(s, false, |s.files[s.current]|).store == b.view.store
  {
    hide Reachable, b.Shows, Encode, Reopen, CrashImage, Inv, CleanInv, RecordLen, EncodeLog, HintsShow, b.OnDisk, Storable, WithTail, Size;
    var s := AppendBegin(b.view, c);
    Facts(b.cfg, b.view);
    Reaches(b.cfg, b.view, DoAppendBegin(c), s);
    ShownOnDisk(b);
    TornPrefix(c, n);
    ShownIsImage(b.cfg, s, b.OnDisk(), Encode(c)[..n]);
    CrashRecovers(b.cfg, s);
  }

  lemma TornPrefix(c: Command, n: nat)
    requires Storable(c) && n < RecordLen(c)
    ensures Torn(Encode(c)[..n], c)
  {
    hide Encode;
  }

  /** Closing a store and opening its directory again gives a store with the same contents. */
  method Reopened(b: Bitcask, listing: seq<Loader.Name>) returns (b': Bitcask)
    requires b.Valid() && b.view.lock.Free? && Loader.Lists(listing, b.OnDisk())
    modifies b
    ensures fresh(b') && b'.Valid() && b'.view.lock.Free? && b'.view.merge.NoMerge?
    ensures b'.view.store == old(b.view.store) && b'.cfg == b.cfg
  {
    hide Reachable, b.Shows, Reopen, CrashImage, Inv, CleanInv, EncodeLog, HintsShow, b.OnDisk, Loader.Lists;
    OnDiskIs(b);
    b.Close();
    var disk := Disk(map id | id in b.dir && id in b.data :: b.data[id], b.hints, b.compacts);
    OnDiskIs(b);
    ClosedIsImage(b);
    ghost var s := b.view;
    CrashRecovers(b.cfg, s);
    b' := OpenStore(b.cfg, disk, listing, s, false, |s.files[s.current]|);
  }

  lemma OnDiskIs(b: Bitcask)
    ensures b.OnDisk() == Disk(map id | id in b.dir && id in b.data :: b.data[id], b.hints, b.compacts)
  {
  }

  lemma ClosedIsImage(b: Bitcask)
    requires b.Valid() && b.view.lock.Free?
    ensures b.view.current in b.view.files && CrashImage(b.view, |b.view.files[b.view.current]|, b.OnDisk())
  {
    Facts(b.cfg, b.view);
    hide Reachable, b.Shows, CrashImage, Inv, CleanInv, EncodeLog, HintsShow, b.OnDisk;
    ShownOnDisk(b);
    ShownIsImage(b.cfg, b.view, b.OnDisk(), []);
    var disk := b.OnDisk();
    NoTail(disk, b.current);
  }

  lemma NoTail(disk: Disk, current: nat)
    ensures WithTail(disk, current, []) == disk
  {
    if current in disk.data {
      assert disk.data[current] + [] == disk.data[current];
      assert disk.data[current := disk.data[current]] == disk.data;
    }
  }
}
