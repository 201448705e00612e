/**
 Crashes, byte for byte: whatever a process crash or a power loss leaves of a reachable state,
 `open` succeeds on it and `get` answers what was logged, synced or acknowledged.
 */
module Crashes {
  import opened Bytes
  import opened Commands
  import opened RecordReader
  import opened Logs
  import opened Engine
  import opened Invariants
  import opened ReopenSteps
  import opened DiskSteps
  import opened Theorems
  import opened PowerLoss
  import opened Recovery
  import opened Opening
  import Hints

  // ---- hint files ----

  function EncodeHints(hs: seq<HintRecord>): (s: seq<seq<byte>>)
    ensures |s| == |hs|
  {
    if hs == [] then [] else EncodeHints(hs[..|hs| - 1]) + [Hints.Encode(hs[|hs| - 1].key, hs[|hs| - 1].entry)]
  }

  /** The bytes of a hint file with these records. */
  function HintFile(hs: seq<HintRecord>): seq<byte> {
    Concat(EncodeHints(hs))
  }

  /** A hint file, whole or cut inside a record. */
  ghost predicate CutHint(hs: seq<HintRecord>, bytes: seq<byte>) {
    bytes <= HintFile(hs) && forall p :: 0 <= p < |hs| ==> |bytes| != |HintFile(hs[..p])|
  }

  lemma {:induction false} HintsForPrefix(id: nat, recs: seq<Command>, n: nat)
    requires n <= |recs|
    ensures HintsFor(id, recs)[..n] == HintsFor(id, recs[..n])
  {
    hide HintsFor;
    if n == |recs| {
      assert recs[..n] == recs;
    } else {
      var m := |recs| - 1;
      HintsForPrefix(id, recs[..m], n);
      assert recs[..m][..n] == recs[..n];
      assert recs == recs[..m] + [recs[m]];
      HintsForAppend(id, recs[..m], recs[m]);
    }
  }

  lemma EncodeHintsAppend(hs: seq<HintRecord>, h: HintRecord)
    ensures EncodeHints(hs + [h]) == EncodeHints(hs) + [Hints.Encode(h.key, h.entry)]
  {
    hide Hints.Encode;
    assert (hs + [h])[..|hs|] == hs;
  }

  /** The machine's hint records, encoded, are the hint file of the output. */
  lemma {:induction false} HintFileIs(id: nat, recs: seq<Command>)
    ensures EncodeHints(HintsFor(id, recs)) == HintRecords(id, recs)
  {
    hide EncodeHints, Hints.Encode, HintsFor, HintRecords;
    if recs == [] {
      NoHintRecords(id);
    } else {
      var n := |recs| - 1;
      HintFileIs(id, recs[..n]);
      assert recs == recs[..n] + [recs[n]];
      HintsForAppend(id, recs[..n], recs[n]);
      EncodeHintsAppend(HintsFor(id, recs[..n]), HintRecord(recs[n].key, EntryFor(id, Size(recs[..n]), recs[n])));
      HintRecordsAppend(id, recs[..n], recs[n]);
    }
  }

  lemma NoHintRecords(id: nat)
    ensures EncodeHints(HintsFor(id, [])) == HintRecords(id, [])
  {
  }

  /** A cut of the hint the machine wrote is a good hint, and the other way round. */
  lemma CutHintIsGood(id: nat, recs: seq<Command>, bytes: seq<byte>)
    requires Hintable(recs)
    ensures CutHint(HintsFor(id, recs), bytes) <==> GoodHint(id, recs, Some(bytes))
  {
    hide HintRecords, EncodeHints, HintsFor, Concat, Hintable;
    var hs := HintsFor(id, recs);
    HintFileIs(id, recs);
    forall p | 0 <= p < |recs| ensures HintFile(hs[..p]) == HintBytes(id, recs[..p]) {
      HintsForPrefix(id, recs, p);
      HintFileIs(id, recs[..p]);
    }
  }

  lemma OutputsAreHintable(cfg: Config, s: State, id: nat)
    requires Inv(cfg, s) && id in s.hints && id in s.dir && id in s.files
    ensures Hintable(s.files[id])
  {
    hide ReplayInv, DurableInv, AckInv, OffsetInv, LinkedInv, KeydirInv, MergeInv, Size;
    assert AllStorable(s.files[id]) && AllSets(s.files[id]);
  }

  // ---- what a crash leaves ----

  /** A file below the last one: cut anywhere behind what a sync has covered of it. */
  ghost predicate SealedCut(s: State, data: map<nat, seq<byte>>, id: nat) {
    && id in s.files && id in data && SafeLen(s, id) <= |s.files[id]|
    && data[id] <= EncodeLog(s.files[id])
    && Size(s.files[id][..SafeLen(s, id)]) <= |data[id]|
  }

  /** The hints of linked files: those the engine wrote, missing, whole or cut inside a record. */
  ghost predicate HintsCut(s: State, disk: Disk) {
    forall id :: id in disk.hints && id in s.dir ==>
      id in s.hints && id in s.media.hintRecs && CutHint(s.media.hintRecs[id], disk.hints[id])
  }

  /**
   A directory a crash in state `s` can leave: files below the last one cut anywhere behind
   their synced part, the last one anywhere behind its first `keep` records, hints cut inside
   a record, and any hints and outputs without a data file.
   */
  ghost predicate CrashImage(s: State, keep: nat, disk: Disk)
    requires Last(s) in s.files && keep <= |s.files[Last(s)]|
  {
    && disk.data.Keys == s.dir
    && (forall id :: id in s.dir && id != Last(s) ==> SealedCut(s, disk.data, id))
    && HintsCut(s, disk)
    && Last(s) in disk.data
    && EncodeLog(s.files[Last(s)][..keep]) <= disk.data[Last(s)]
    && TailOf(s, keep, disk.data[Last(s)][|EncodeLog(s.files[Last(s)][..keep])|..])
  }

  /** Whatever the crash may have cut, files below the last one are whole. */
  lemma SealedIsWhole(cfg: Config, s: State, data: map<nat, seq<byte>>, id: nat)
    requires Inv(cfg, s) && DiskInv(s) && id in s.dir && id != Last(s) && SealedCut(s, data, id)
    ensures data[id] == EncodeLog(s.files[id]) && AllEncodable(s.files[id])
  {
    hide Inv, EncodeLog, HintRecsInv, Size, AllEncodable;
    ActiveHasNoHint(cfg, s);
    FileEncodable(cfg, s, id);
    var recs := s.files[id];
    assert recs[..|recs|] == recs;
    EncodeLogSize(recs);
  }

  lemma FileEncodable(cfg: Config, s: State, id: nat)
    requires Inv(cfg, s) && id in s.files
    ensures AllEncodable(s.files[id])
  {
    hide ReplayInv, DurableInv, AckInv, HintsInv, OffsetInv, LinkedInv, KeydirInv, MergeInv, Size;
    assert AllStorable(s.files[id]);
  }

  lemma SealedImage(cfg: Config, s: State, disk: Disk, id: nat)
    requires Inv(cfg, s) && DiskInv(s) && id in s.dir && id != Last(s)
    requires SealedCut(s, disk.data, id) && HintsCut(s, disk)
    ensures FileImage(s.files, disk.data, disk.hints, id)
  {
    hide Inv, SafeInv, EncodeLog, AllEncodable, GoodHint, CutHint, SealedCut, HintsFor;
    SealedIsWhole(cfg, s, disk.data, id);
    SealedHasFile(s, disk.data, id);
    NoGoodHint(id, s.files, HintOf(disk.hints, id));
    if id in disk.hints {
      OutputsAreHintable(cfg, s, id);
      CutHintIsGood(id, s.files[id], disk.hints[id]);
    }
  }

  lemma SealedHasFile(s: State, data: map<nat, seq<byte>>, id: nat)
    requires SealedCut(s, data, id)
    ensures id in s.files && id in data
  {
  }

  /** What the syncs and the hint writer did makes every crash image a genuine one. */
  lemma CrashImageIsGenuine(cfg: Config, s: State, keep: nat, disk: Disk)
    requires Reachable(cfg, s) && Last(s) in s.files && keep <= |s.files[Last(s)]| && CrashImage(s, keep, disk)
    ensures GenuineImage(s, keep, disk)
  {
    hide Reachable, Inv, CleanInv, DiskInv, SealedCut, CutHint, EncodeLog, FileImage, TailOf;
    ReachableKeeps(cfg, s);
    ReachableDisk(cfg, s);
    forall id | id in s.dir && id < Last(s) ensures FileImage(s.files, disk.data, disk.hints, id) {
      SealedImage(cfg, s, disk, id);
    }
  }

  /**
   Opening what a crash left of any reachable state succeeds and arrives at exactly the state
   the step machine reopens with: same active file, keydir, offset and stale count, and a
   directory that stands for its files, with the torn tail and all leftovers gone.
   */
  lemma OpenRecovers(cfg: Config, s: State, power: bool, keep: nat, disk: Disk)
    requires Reachable(cfg, s) && CanReopen(s, power, keep) && CrashImage(s, keep, disk)
    ensures var t := Reopen(s, power, keep);
            && IsCurrent(disk.data.Keys, t.current)
            && OpenAt(disk, t.current).Ok?
            && var o := OpenAt(disk, t.current).value;
               && o.index == t.keydir && o.current == t.current && o.offset == t.offset && o.stale == t.stale
               && Represents(o.disk, t)
  {
    hide Inv, Reachable, CleanInv, Reopen, IsCurrent, OpenAt, Represents, CrashImage, GenuineImage;
    ReachableKeeps(cfg, s);
    CrashImageIsGenuine(cfg, s, keep, disk);
    GenuineOpens(cfg, s, power, keep, disk);
  }

  // ---- crashes, in bytes ----

  /** The record being written when the crash comes. */
  function InFlight(s: State): seq<Command> {
    if s.lock.Writing? then [s.lock.cmd] else []
  }

  /** The last file as it would be with the in-flight record wholly written. */
  function LastBytes(s: State): seq<byte>
    requires Last(s) in s.files
  {
    EncodeLog(s.files[Last(s)] + InFlight(s))
  }

  /** A directory whose last file was cut to `n` bytes; everything else as `CrashImage` says. */
  ghost predicate CutImage(s: State, n: nat, disk: Disk)
    requires Last(s) in s.files
  {
    && disk.data.Keys == s.dir
    && (forall id :: id in s.dir && id != Last(s) ==> SealedCut(s, disk.data, id))
    && HintsCut(s, disk)
    && Last(s) in disk.data && n <= |LastBytes(s)| && disk.data[Last(s)] == LastBytes(s)[..n]
    && (s.lock.Writing? ==> n < |LastBytes(s)|)
  }

  lemma LastEncodable(cfg: Config, s: State)
    requires Inv(cfg, s) && Last(s) in s.files
    ensures AllEncodable(s.files[Last(s)] + InFlight(s))
  {
    hide KeydirInv, ReplayInv, DurableInv, AckInv, HintsInv, LinkedInv, MergeInv, Size;
    assert AllStorable(s.files[Last(s)]);
  }

  lemma CutKeeps(recs: seq<Command>, flight: seq<Command>, n: nat) returns (keep: nat, tail: seq<byte>)
    requires AllEncodable(recs + flight) && |flight| <= 1 && n <= |EncodeLog(recs + flight)|
    requires flight != [] ==> n < |EncodeLog(recs + flight)|
    ensures keep <= |recs| && EncodeLog(recs + flight)[..n] == EncodeLog(recs[..keep]) + tail
    ensures if keep < |recs| then Torn(tail, recs[keep]) else if flight == [] then tail == [] else Torn(tail, flight[0])
    ensures forall m :: 0 <= m <= |recs| && Size(recs[..m]) <= n ==> m <= keep
  {
    hide EncodeLog, AllEncodable, Torn, Size;
    var all := recs + flight;
    keep, tail := AnyCutIsAnImage(all, n);
    assert all[..|all|] == all;
    assert keep <= |recs|;
    assert forall m :: 0 <= m <= |recs| ==> all[..m] == recs[..m];
  }

  lemma DropPrefix(a: seq<byte>, b: seq<byte>)
    ensures a <= a + b && (a + b)[|a|..] == b
  {
  }

  /** Any byte length is some number of whole records and a torn one. */
  lemma CutIsImage(cfg: Config, s: State, n: nat, disk: Disk) returns (keep: nat)
    requires Inv(cfg, s) && Last(s) in s.files && CutImage(s, n, disk)
    ensures keep <= |s.files[Last(s)]| && CrashImage(s, keep, disk)
    ensures forall m :: 0 <= m <= |s.files[Last(s)]| && Size(s.files[Last(s)][..m]) <= n ==> m <= keep
  {
    hide Inv, EncodeLog, AllEncodable, SealedCut, HintsCut, Torn, Size;
    LastEncodable(cfg, s);
    var tail: seq<byte>;
    keep, tail := CutKeeps(s.files[Last(s)], InFlight(s), n);
    DropPrefix(EncodeLog(s.files[Last(s)][..keep]), tail);
    assert TailOf(s, keep, tail);
  }

  /**
   After a process crash at any step, with the in-flight append torn at any byte, `open` and
   then `get` answer for every key exactly what was logged.
   */
  lemma CrashThenGet(cfg: Config, s: State, n: nat, disk: Disk, k: Key)
    requires Reachable(cfg, s) && Last(s) in s.files && CutImage(s, n, disk) && Size(s.files[Last(s)]) <= n
    ensures OpenAt(disk, Last(s)).Ok?
    ensures var o := OpenAt(disk, Last(s)).value;
            Answers(o.index, o.disk.data, k, Get(Logged(s), k))
  {
    hide Inv, Reachable, CleanInv, CrashImage, CutImage, OpenAt, Answers, Size, Reopen;
    ReachableKeeps(cfg, s);
    var recs := s.files[Last(s)];
    assert recs[..|recs|] == recs;
    var keep := CutIsImage(cfg, s, n, disk);
    CrashRecovers(cfg, s);
    ImageThenGet(cfg, s, false, keep, disk, k);
  }

  lemma ImageThenGet(cfg: Config, s: State, power: bool, keep: nat, disk: Disk, k: Key)
    requires Reachable(cfg, s) && CanReopen(s, power, keep) && CrashImage(s, keep, disk)
    ensures OpenAt(disk, Last(s)).Ok?
    ensures var o := OpenAt(disk, Last(s)).value;
            Answers(o.index, o.disk.data, k, Get(Reopen(s, power, keep).store, k))
  {
    hide Inv, Reachable, CleanInv, CrashImage, OpenAt, Answers, Represents, IsCurrent, Reopen;
    OpenRecovers(cfg, s, power, keep, disk);
    ReachableKeeps(cfg, s);
    ReopenKeeps(cfg, s, power, keep);
    ReopenCurrent(s, power, keep);
    StateAnswers(cfg, Reopen(s, power, keep), OpenAt(disk, Last(s)).value.disk, k);
  }

  /** A power loss: nothing is gone of the last file that a sync has covered. */
  ghost predicate PowerImage(s: State, n: nat, disk: Disk)
    requires Last(s) in s.files
  {
    && CutImage(s, n, disk) && SafeLen(s, Last(s)) <= |s.files[Last(s)]|
    && Size(s.files[Last(s)][..SafeLen(s, Last(s))]) <= n
  }

  lemma PowerImageReopens(cfg: Config, s: State, n: nat, disk: Disk) returns (keep: nat)
    requires Reachable(cfg, s) && Last(s) in s.files && PowerImage(s, n, disk)
    ensures CanReopen(s, true, keep) && CrashImage(s, keep, disk)
  {
    hide Inv, Reachable, CleanInv, CrashImage, CutImage, Size;
    ReachableKeeps(cfg, s);
    keep := CutIsImage(cfg, s, n, disk);
  }

  /** With SyncOnEveryPut any power loss leaves every acknowledged value readable. */
  lemma PowerLossThenGet(cfg: Config, s: State, n: nat, disk: Disk, k: Key)
    requires Reachable(cfg, s) && cfg.policy.SyncOnEveryPut? && !Mentions(s.hist.unacked, k)
    requires Last(s) in s.files && PowerImage(s, n, disk)
    ensures OpenAt(disk, Last(s)).Ok?
    ensures var o := OpenAt(disk, Last(s)).value;
            Answers(o.index, o.disk.data, k, Get(s.hist.ackStore, k))
  {
    hide Inv, Reachable, CleanInv, CrashImage, PowerImage, OpenAt, Answers, Reopen, Mentions;
    var keep := PowerImageReopens(cfg, s, n, disk);
    ImageThenGet(cfg, s, true, keep, disk, k);
    AcknowledgedKept(cfg, s, keep, k);
  }

  /** The length the writer's file is left with when the last file has `n` bytes. */
  function KeptLength(s: State, n: nat): nat
    requires s.current in s.files
  {
    if s.lock.Created? then Size(s.files[s.current]) else n
  }

  /** Where `flushed_offset` is exact, keeping that much of the writer's file is a power loss. */
  lemma FlushedIsPowerImage(cfg: Config, s: State, n: nat, disk: Disk)
    requires Reachable(cfg, s) && (s.hist.resynced || s.hist.durable == 0)
    requires s.current in s.files && Last(s) in s.files && CutImage(s, n, disk) && s.flushed <= KeptLength(s, n)
    ensures PowerImage(s, n, disk)
  {
    hide Inv, Reachable, CleanInv, CutImage, Size;
    ReachableKeeps(cfg, s);
    ReachableFlush(cfg, s);
    LastIsLinked(cfg, s);
    NoRecordsNoBytes();
    NotSafeYet(cfg, s);
    var f := s.files[Last(s)];
    assert f[..0] == [];
  }

  /** The file being created has nothing to lose. */
  lemma NotSafeYet(cfg: Config, s: State)
    requires Reachable(cfg, s)
    ensures s.lock.Created? ==> SafeLen(s, Last(s)) == 0
  {
    hide Reachable, Inv, CleanInv, HintRecsInv;
    ReachableKeeps(cfg, s);
    ReachableDisk(cfg, s);
    ActiveHasNoHint(cfg, s);
  }

  /**
   With SyncOnEveryPut, after a power loss at any step, even in the middle of a merge or
   between creating and installing a file, that keeps any length of the writer's file at or
   above `flushed_offset`, `open` and then `get` answer the last acknowledged value of every
   key but those of appends that had not returned. The one thing asked for is that
   `flushed_offset` is exact: the file was synced or created since the last open, or nothing
   of it is durable.
   */
  lemma SyncedPutsSurvive(cfg: Config, s: State, n: nat, disk: Disk, k: Key)
    requires Reachable(cfg, s) && cfg.policy.SyncOnEveryPut? && !Mentions(s.hist.unacked, k)
    requires s.hist.resynced || s.hist.durable == 0
    requires s.current in s.files && Last(s) in s.files && CutImage(s, n, disk) && s.flushed <= KeptLength(s, n)
    ensures OpenAt(disk, Last(s)).Ok?
    ensures var o := OpenAt(disk, Last(s)).value;
            Answers(o.index, o.disk.data, k, Get(s.hist.ackStore, k))
  {
    hide Reachable, CutImage, PowerImage, OpenAt, Answers, Mentions, KeptLength;
    FlushedIsPowerImage(cfg, s, n, disk);
    PowerLossThenGet(cfg, s, n, disk, k);
  }

  /**
   Under any policy, with no data file deleted since the last sync, a power loss reopens to
   the store after some prefix of what was written since, and everything synced before.
   */
  lemma PowerLossThenPrefix(cfg: Config, s: State, n: nat, disk: Disk) returns (kept: nat)
    requires Reachable(cfg, s) && (s.hist.deleted ==> s.lock.Created?)
    requires Last(s) in s.files && PowerImage(s, n, disk)
    ensures OpenAt(disk, Last(s)).Ok? && s.current in s.files && s.hist.durable <= kept <= |s.files[s.current]|
    ensures var o := OpenAt(disk, Last(s)).value;
            forall k :: Answers(o.index, o.disk.data, k, Get(ApplyAll(s.hist.durableStore, s.files[s.current][s.hist.durable..kept]), k))
  {
    hide Inv, Reachable, CleanInv, CrashImage, PowerImage, OpenAt, Answers, Reopen, ApplyAll;
    var keep := PowerImageReopens(cfg, s, n, disk);
    PowerLossKeepsPrefix(cfg, s, keep);
    kept := KeptOfCurrent(s, keep);
    ImageThenGet(cfg, s, true, keep, disk, []);
    forall k ensures Answers(OpenAt(disk, Last(s)).value.index, OpenAt(disk, Last(s)).value.disk.data, k,
                             Get(ApplyAll(s.hist.durableStore, s.files[s.current][s.hist.durable..kept]), k)) {
      ImageThenGet(cfg, s, true, keep, disk, k);
    }
  }

  /** The same for any length of the writer's file at or above an exact `flushed_offset`. */
  lemma SyncedPrefixSurvives(cfg: Config, s: State, n: nat, disk: Disk) returns (kept: nat)
    requires Reachable(cfg, s) && (s.hist.deleted ==> s.lock.Created?) && (s.hist.resynced || s.hist.durable == 0)
    requires s.current in s.files && Last(s) in s.files && CutImage(s, n, disk) && s.flushed <= KeptLength(s, n)
    ensures OpenAt(disk, Last(s)).Ok? && s.hist.durable <= kept <= |s.files[s.current]|
    ensures var o := OpenAt(disk, Last(s)).value;
            forall k :: Answers(o.index, o.disk.data, k, Get(ApplyAll(s.hist.durableStore, s.files[s.current][s.hist.durable..kept]), k))
  {
    hide Reachable, CutImage, PowerImage, OpenAt, Answers, ApplyAll, KeptLength;
    FlushedIsPowerImage(cfg, s, n, disk);
    kept := PowerLossThenPrefix(cfg, s, n, disk);
  }

  /** Without its hints the directory is still one the crash can leave. */
  lemma ImageWithoutHints(s: State, keep: nat, disk: Disk)
    requires Last(s) in s.files && keep <= |s.files[Last(s)]| && CrashImage(s, keep, disk)
    ensures CrashImage(s, keep, disk.(hints := map[]))
  {
    hide EncodeLog, SealedCut, CutHint, TailOf;
  }

  /**
   Replaying any directory the engine can leave through its hints, whole or cut inside a
   record, gives the same keydir, active file, offset and stale count as replaying the data
   files alone.
   */
  lemma HintsChangeNothing(cfg: Config, s: State, power: bool, keep: nat, disk: Disk)
    requires Reachable(cfg, s) && CanReopen(s, power, keep) && CrashImage(s, keep, disk)
    ensures var a, b := OpenAt(disk, Last(s)), OpenAt(disk.(hints := map[]), Last(s));
            && a.Ok? && b.Ok? && a.value.index == b.value.index && a.value.current == b.value.current
            && a.value.offset == b.value.offset && a.value.stale == b.value.stale
            && a.value.disk.data.Keys == b.value.disk.data.Keys
  {
    hide Reachable, CrashImage, OpenAt, IsCurrent, Reopen, FileImage;
    ImageWithoutHints(s, keep, disk);
    OpenRecovers(cfg, s, power, keep, disk);
    OpenRecovers(cfg, s, power, keep, disk.(hints := map[]));
    ReopenCurrent(s, power, keep);
  }
}
