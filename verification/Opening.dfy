/**
 `open` on the bytes of the engine's files: replay finds the keydir, offset and stale count
 of their log, and `get` reads the logged values.
 */
module Opening {
  import opened Bytes
  import opened Commands
  import opened Logs
  import opened Engine
  import opened Invariants
  import opened RotateSteps
  import opened ReopenSteps
  import opened Recovery

  datatype Disk = Disk(data: map<nat, seq<byte>>, hints: map<nat, seq<byte>>, compacts: set<nat>)

  datatype Opened = Opened(disk: Disk, index: Keydir, current: nat, offset: nat, stale: nat)

  /** The active file is the one with the largest id; an empty directory gets file 1. */
  ghost predicate IsCurrent(ids: set<nat>, current: nat) {
    if ids == {} then current == 1 else current in ids && forall id :: id in ids ==> id <= current
  }

  function LinkedHints(disk: Disk): map<nat, seq<byte>> {
    map id | id in disk.hints && id in disk.data :: disk.hints[id]
  }

  /** The data files once the active one exists. */
  function WithCurrent(data: map<nat, seq<byte>>, current: nat): map<nat, seq<byte>> {
    if current in data then data else data[current := []]
  }

  /** The data files after `set_len` on one of them. */
  function CutTail(data: map<nat, seq<byte>>, id: nat, torn: Option<nat>): map<nat, seq<byte>>
    requires id in data
  {
    if torn.Some? && torn.value <= |data[id]| then data[id := data[id][..torn.value]] else data
  }

  /** The hint files but the bad ones. */
  function Dropped(hints: map<nat, seq<byte>>, bad: set<nat>): map<nat, seq<byte>> {
    map id | id in hints && id !in bad :: hints[id]
  }

  /** The directory and the writer after a replay that ended in `l`. */
  function AfterReplay(data: map<nat, seq<byte>>, hints: map<nat, seq<byte>>, current: nat, l: Loaded): Opened
    requires current in data
  {
    Opened(Disk(CutTail(data, current, l.torn), Dropped(hints, l.badHints), {}),
           l.load.index, current, l.load.offset, l.load.stale)
  }

  /** `open`: drop leftovers, replay in ascending order, cut the torn tail. */
  function OpenAt(disk: Disk, current: nat): Result<Opened> {
    SortedMembers(WithCurrent(disk.data, current).Keys, current + 1);
    var data := WithCurrent(disk.data, current);
    var hints := LinkedHints(disk);
    var l :- LoadFiles(data, hints, current, Sorted(data.Keys, current + 1));
    Ok(AfterReplay(data, hints, current, l))
  }

  // ---- reading one entry ----

  /** A record's value: all but the value is cut off the front. */
  function ReadRecord(buf: seq<byte>): Result<Option<Value>> {
    var (c, n) :- Decode(buf);
    if c.Rm? then Ok(None)
    else
      assert |c.value| <= |buf| by { DecodeCanonical(buf); }
      Ok(Some(buf[|buf| - |c.value|..]))
  }

  /** The part of `get` behind the keydir: read the record's bytes and decode them. */
  function ReadEntry(bytes: seq<byte>, e: Entry): Result<Option<Value>> {
    if e.offset + e.len > |bytes| then Err(UnexpectedEof) else ReadRecord(bytes[e.offset..e.offset + e.len])
  }

  lemma RecordReads(c: Command)
    requires Encodable(c)
    ensures ReadRecord(Encode(c)) == Ok(Effect(c))
  {
    hide Encode, Decode, Encodable;
    DecodeEncode(c, []);
    assert Encode(c) + [] == Encode(c);
    if c.Set? {
      ValueIsSuffix(Encode(c));
    }
  }

  lemma SliceOf(a: seq<byte>, b: seq<byte>, c: seq<byte>, d: seq<byte>)
    ensures ((a + b + c) + d)[|a|..|a| + |b|] == b
  {
  }

  lemma LogAroundRecord(recs: seq<Command>, i: nat)
    requires i < |recs|
    ensures EncodeLog(recs) == EncodeLog(recs[..i]) + Encode(recs[i]) + EncodeLog(recs[i + 1..])
  {
    hide EncodeLog, Encode;
    EncodeLogAppend(recs[..i], recs[i]);
    EncodeLogConcat(recs[..i + 1], recs[i + 1..]);
    assert recs[..i + 1] == recs[..i] + [recs[i]];
    assert recs == recs[..i + 1] + recs[i + 1..];
  }

  /** Where a record sits in the file's bytes. */
  lemma SliceIs(recs: seq<Command>, offset: nat, c: Command, rest: seq<byte>)
    requires Holds(recs, offset, c)
    ensures offset + RecordLen(c) <= |EncodeLog(recs)|
    ensures (EncodeLog(recs) + rest)[offset..offset + RecordLen(c)] == Encode(c)
  {
    hide EncodeLog, Encode, Size, RecordLen;
    var i :| 0 <= i < |recs| && recs[i] == c && Size(recs[..i]) == offset;
    hide Holds;
    EncodeLogSize(recs[..i]);
    LogAroundRecord(recs, i);
    SliceOf(EncodeLog(recs[..i]), Encode(c), EncodeLog(recs[i + 1..]), rest);
  }

  lemma HeldEncodable(recs: seq<Command>, offset: nat, c: Command)
    requires Holds(recs, offset, c) && AllEncodable(recs)
    ensures Encodable(c)
  {
    hide Size, Encodable;
  }

  lemma ReadEntryAt(bytes: seq<byte>, e: Entry, c: Command)
    requires Encodable(c) && e.len == RecordLen(c) && e.offset + e.len <= |bytes|
    requires bytes[e.offset..e.offset + e.len] == Encode(c)
    ensures ReadEntry(bytes, e) == Ok(Effect(c))
  {
    hide Encode, Encodable, ReadRecord, RecordLen;
    RecordReads(c);
  }

  /** A sound entry reads back the value it stands for, whatever is being appended meanwhile. */
  lemma EntryReadsValue(files: Files, k: Key, e: Entry, v: Value, rest: seq<byte>)
    requires EntryOk(files, k, e, v) && AllEncodable(files[e.fileId])
    ensures ReadEntry(EncodeLog(files[e.fileId]) + rest, e) == Ok(Some(v))
  {
    hide EncodeLog, Encode, Encodable, Holds, ReadEntry, AllEncodable, RecordLen, Size;
    var c := Set(e.ts, k, v);
    var recs := files[e.fileId];
    HeldEncodable(recs, e.offset, c);
    SliceIs(recs, e.offset, c, rest);
    ReadEntryAt(EncodeLog(recs) + rest, e, c);
  }

  // ---- directories ----

  lemma {:induction false} StaleConcat(a: seq<Command>, b: seq<Command>)
    ensures ReplayStale(a + b) == ReplayStale(a) + ReplayStale(b)
  {
    if b == [] {
      assert a + b == a;
    } else {
      var n := |b| - 1;
      StaleConcat(a, b[..n]);
      assert (a + b)[..|a| + n] == a + b[..n];
    }
  }

  function Tombstones(log: seq<Command>): seq<Command> {
    if log == [] then []
    else if log[0].Rm? then [log[0]] + Tombstones(log[1..])
    else Tombstones(log[1..])
  }

  /** Replay counts as stale exactly the bytes of the tombstones, not what they or later writes replaced. */
  lemma {:induction false} TombstonesAreStale(log: seq<Command>)
    ensures ReplayStale(log) == Size(Tombstones(log))
  {
    hide RecordLen;
    if log != [] {
      TombstonesAreStale(log[1..]);
      assert log == log[..1] + log[1..] && log[..1][..0] == [];
      StaleConcat(log[..1], log[1..]);
      SizeAppend([], log[0]);
      SizeConcat([log[0]], Tombstones(log[1..]));
    }
  }

  /** The bytes of file `id` are its records, and its hint, if any, is genuine. */
  ghost predicate FileImage(files: Files, data: map<nat, seq<byte>>, hints: map<nat, seq<byte>>, id: nat) {
    && id in files && id in data && AllEncodable(files[id])
    && data[id] == EncodeLog(files[id])
    && GoodHint(id, files[id], HintOf(hints, id))
  }

  /** Loading the sealed files below `hi` gives the keydir and stale count of their log. */
  ghost predicate LoadsAs(r: Result<Loaded>, files: Files, dir: set<nat>, hi: nat) {
    && r.Ok? && r.value.torn.None?
    && r.value.load.index == ReplayDir(files, dir, hi)
    && r.value.load.stale == ReplayStale(Log(files, dir, 0, hi))
  }

  lemma LoadFilesAppend(data: map<nat, seq<byte>>, hints: map<nat, seq<byte>>, current: nat, ids: seq<nat>, id: nat)
    requires id in data && forall i :: i in ids ==> i in data
    requires LoadFiles(data, hints, current, ids).Ok? && LoadFiles(data, hints, current, ids).value.torn.None?
    ensures LoadFiles(data, hints, current, ids + [id]) ==
            LoadFile(LoadFiles(data, hints, current, ids).value, id, current, data[id], HintOf(hints, id))
  {
    hide LoadFile;
    assert (ids + [id])[..|ids|] == ids;
  }

  lemma DirLoadsStep(files: Files, data: map<nat, seq<byte>>, hints: map<nat, seq<byte>>, current: nat, below: seq<nat>, id: nat)
    requires id < current && id in data && FileImage(files, data, hints, id) && forall i :: i in below ==> i in data
    requires LoadsAs(LoadFiles(data, hints, current, below), files, data.Keys, id)
    ensures LoadsAs(LoadFiles(data, hints, current, below + [id]), files, data.Keys, id + 1)
  {
    hide LoadFile, LoadFiles, EncodeLog, GoodHint, AllEncodable, ReplayFile, ReplayStale, ReplayDir, Log;
    LoadFilesAppend(data, hints, current, below, id);
    SealedLoads(LoadFiles(data, hints, current, below).value, id, current, files[id], HintOf(hints, id));
    DirStep(files, data.Keys, id);
  }

  lemma DirSkips(files: Files, dir: set<nat>, id: nat, r: Result<Loaded>)
    requires id !in dir && LoadsAs(r, files, dir, id)
    ensures LoadsAs(r, files, dir, id + 1)
  {
    hide ReplayStale;
    var log := Log(files, dir, 0, id);
    assert log + [] == log;
  }

  lemma {:induction false} DirLoads(files: Files, data: map<nat, seq<byte>>, hints: map<nat, seq<byte>>, current: nat, hi: nat)
    requires hi <= current && forall id :: id in data && id < hi ==> FileImage(files, data, hints, id)
    ensures forall id :: id in Sorted(data.Keys, hi) ==> id in data
    ensures LoadsAs(LoadFiles(data, hints, current, Sorted(data.Keys, hi)), files, data.Keys, hi)
  {
    SortedMembers(data.Keys, hi);
    if hi > 0 {
      hide LoadsAs, LoadFiles, FileImage;
      var id := hi - 1;
      var below := Sorted(data.Keys, id);
      DirLoads(files, data, hints, current, id);
      if id in data {
        DirLoadsStep(files, data, hints, current, below, id);
      } else {
        assert below + [] == below;
        DirSkips(files, data.Keys, id, LoadFiles(data, hints, current, below));
      }
    }
  }

  // ---- what a crash leaves ----

  /** Bytes of the record behind the kept ones: lost by the power loss, or being written. */
  ghost predicate TailOf(s: State, keep: nat, tail: seq<byte>)
    requires Last(s) in s.files && keep <= |s.files[Last(s)]|
  {
    var recs := s.files[Last(s)];
    || tail == []
    || (keep < |recs| && Torn(tail, recs[keep]))
    || (keep == |recs| && s.lock.Writing? && Torn(tail, s.lock.cmd))
  }

  /**
   A directory with every file below the last one whole, the last one cut anywhere behind
   its first `keep` records, hints genuine or cut inside a record, and any hints and outputs
   without a data file.
   */
  ghost predicate GenuineImage(s: State, keep: nat, disk: Disk)
    requires Last(s) in s.files && keep <= |s.files[Last(s)]|
  {
    && disk.data.Keys == s.dir
    && (forall id :: id in s.dir && id < Last(s) ==> FileImage(s.files, disk.data, disk.hints, id))
    && (forall id :: id in disk.hints && id in s.dir ==> id in s.hints)
    && Last(s) in disk.data
    && EncodeLog(s.files[Last(s)][..keep]) <= disk.data[Last(s)]
    && TailOf(s, keep, disk.data[Last(s)][|EncodeLog(s.files[Last(s)][..keep])|..])
  }

  /** The directory stands for the engine's state exactly. */
  ghost predicate Represents(disk: Disk, t: State) {
    && disk.data.Keys == t.dir && disk.hints.Keys <= t.hints && disk.compacts == {}
    && forall id :: id in t.dir ==> FileImage(t.files, disk.data, disk.hints, id)
  }

  /** Replaying the sealed files and then the active one, cut behind `recs`. */
  lemma AllLoads(files: Files, data: map<nat, seq<byte>>, hints: map<nat, seq<byte>>, current: nat, c: Command, tail: seq<byte>)
    requires current in data && forall id :: id in data && id < current ==> FileImage(files, data, hints, id)
    requires current in files && AllEncodable(files[current]) && Torn(tail, c)
    requires data[current] == EncodeLog(files[current]) + tail
    ensures forall id :: id in Sorted(data.Keys, current + 1) ==> id in data
    ensures var r := LoadFiles(data, hints, current, Sorted(data.Keys, current + 1));
            && r.Ok? && r.value.torn == (if tail == [] then None else Some(Size(files[current])))
            && r.value.load == Load(ReplayDir(files, data.Keys, current + 1), Size(files[current]),
                                    ReplayStale(Log(files, data.Keys, 0, current + 1)))
  {
    hide LoadFiles, LoadFile, EncodeLog, FileImage, AllEncodable, ReplayDir, ReplayStale, ReplayFile, Size, Torn, Log;
    SortedMembers(data.Keys, current + 1);
    DirLoads(files, data, hints, current, current);
    var below := Sorted(data.Keys, current);
    LoadFilesAppend(data, hints, current, below, current);
    ActiveLoads(LoadFiles(data, hints, current, below).value, current, files[current], c, tail, HintOf(hints, current));
    DirStep(files, data.Keys, current);
  }

  lemma ActiveLoads(l: Loaded, current: nat, recs: seq<Command>, c: Command, tail: seq<byte>, hint: Option<seq<byte>>)
    requires AllEncodable(recs) && Torn(tail, c)
    ensures LoadFile(l, current, current, EncodeLog(recs) + tail, hint) ==
            Ok(Loaded(Replayed(l.load.(offset := 0), current, recs), if tail == [] then None else Some(Size(recs)), l.badHints))
  {
    hide LoadData, EncodeLog, Replayed, Torn, AllEncodable;
    DataLoads(l.load, current, current, recs, c, tail);
  }

  lemma DirStep(files: Files, dir: set<nat>, id: nat)
    requires id in files && id in dir
    ensures ReplayDir(files, dir, id + 1) == ReplayFile(ReplayDir(files, dir, id), id, files[id])
    ensures ReplayStale(Log(files, dir, 0, id + 1)) == ReplayStale(Log(files, dir, 0, id)) + ReplayStale(files[id])
  {
    hide ReplayFile, ReplayStale;
    StaleConcat(Log(files, dir, 0, id), files[id]);
  }

  lemma ImageFacts(cfg: Config, s: State, power: bool, keep: nat, disk: Disk)
    requires Inv(cfg, s) && CanReopen(s, power, keep) && GenuineImage(s, keep, disk)
    ensures var t := Reopen(s, power, keep);
            && t.dir == s.dir == disk.data.Keys && t.current == Last(s) && t.current in t.dir && t.current in t.files
            && IsCurrent(disk.data.Keys, t.current)
            && AllEncodable(t.files[t.current]) && t.files[t.current] == s.files[Last(s)][..keep]
            && (forall id :: id in disk.data && id < t.current ==> id in t.files && id in s.files && t.files[id] == s.files[id])
            && t.current !in s.hints
  {
    hide KeydirInv, ReplayInv, DurableInv, AckInv, MergeInv, LinkedInv, OffsetInv, Size, Log, ApplyAll, ReplayDir, ReplayStale, KeptFiles, EncodeLog, FileImage, TailOf;
    KeptFilesAre(cfg, s, power, keep);
    assert AllStorable(s.files[Last(s)]);
  }

  lemma TailIsTorn(cfg: Config, s: State, keep: nat, tail: seq<byte>) returns (c: Command)
    requires Inv(cfg, s) && Last(s) in s.files && keep <= |s.files[Last(s)]| && TailOf(s, keep, tail)
    ensures Torn(tail, c)
  {
    hide Inv;
    var recs := s.files[Last(s)];
    if keep < |recs| && Torn(tail, recs[keep]) {
      c := recs[keep];
    } else if s.lock.Writing? && Torn(tail, s.lock.cmd) {
      c := s.lock.cmd;
    } else {
      c := Rm(0, []);
      assert Encode(c)[..0] == [];
    }
  }

  lemma LinkedHintOf(disk: Disk, id: nat)
    requires id in disk.data
    ensures HintOf(LinkedHints(disk), id) == HintOf(disk.hints, id)
  {
  }

  /** The sealed files' images carry over to the kept files and the linked hints. */
  lemma ImageCarries(files: Files, kept: Files, disk: Disk, id: nat)
    requires id in disk.data && id in kept && id in files && kept[id] == files[id]
    requires FileImage(files, disk.data, disk.hints, id)
    ensures FileImage(kept, disk.data, LinkedHints(disk), id)
  {
    hide EncodeLog, GoodHint, AllEncodable;
    LinkedHintOf(disk, id);
  }

  /** The replay of `disk` ends in the writer state and keydir of `t`. */
  ghost predicate ReplaysTo(disk: Disk, t: State) {
    && t.current in disk.data && t.current in t.files
    && (forall id :: id in Sorted(disk.data.Keys, t.current + 1) ==> id in disk.data)
    && var bytes, r := EncodeLog(t.files[t.current]), LoadFiles(disk.data, LinkedHints(disk), t.current, Sorted(disk.data.Keys, t.current + 1));
       && r.Ok?
       && r.value.torn == (if disk.data[t.current] == bytes then None else Some(t.offset))
       && r.value.load == Load(t.keydir, t.offset, t.stale)
       && bytes <= disk.data[t.current] && t.offset == |bytes|
  }

  lemma StateReplays(disk: Disk, t: State, c: Command, tail: seq<byte>)
    requires t.current in disk.data && t.current in t.files && AllEncodable(t.files[t.current]) && Torn(tail, c)
    requires forall id :: id in disk.data && id < t.current ==> FileImage(t.files, disk.data, LinkedHints(disk), id)
    requires disk.data[t.current] == EncodeLog(t.files[t.current]) + tail
    requires t.keydir == ReplayDir(t.files, disk.data.Keys, t.current + 1)
    requires t.stale == ReplayStale(Log(t.files, disk.data.Keys, 0, t.current + 1))
    requires t.offset == Size(t.files[t.current])
    ensures ReplaysTo(disk, t)
  {
    hide FileImage, EncodeLog, Size, Log, ReplayDir, ReplayStale, LoadFiles, LinkedHints, AllEncodable, Torn, Sorted;
    AllLoads(t.files, disk.data, LinkedHints(disk), t.current, c, tail);
    EncodeLogSize(t.files[t.current]);
    assert tail != [] ==> disk.data[t.current] != EncodeLog(t.files[t.current]);
    assert tail == [] ==> disk.data[t.current] == EncodeLog(t.files[t.current]);
  }

  lemma ReopenFields(s: State, power: bool, keep: nat)
    requires Last(s) in s.files && keep <= |s.files[Last(s)]|
    ensures var t := Reopen(s, power, keep);
            && t.keydir == ReplayDir(t.files, t.dir, t.current + 1)
            && t.stale == ReplayStale(Log(t.files, t.dir, 0, t.current + 1))
            && t.offset == Size(s.files[Last(s)][..keep])
  {
    hide Size, KeptFiles, Log, ApplyAll, ReplayDir, ReplayStale;
  }

  /** Replaying what the crash left ends in exactly the reopened state. */
  lemma ImageReplays(cfg: Config, s: State, power: bool, keep: nat, disk: Disk)
    requires Inv(cfg, s) && CanReopen(s, power, keep) && GenuineImage(s, keep, disk)
    ensures ReplaysTo(disk, Reopen(s, power, keep))
  {
    hide Inv, Reopen, FileImage, EncodeLog, Size, Log, ReplayDir, ReplayStale, LinkedHints, AllEncodable, Torn, TailOf, IsCurrent, ReplaysTo;
    ImageFacts(cfg, s, power, keep, disk);
    ReopenFields(s, power, keep);
    var t := Reopen(s, power, keep);
    var whole := EncodeLog(t.files[t.current]);
    var tail := disk.data[t.current][|whole|..];
    var c := TailIsTorn(cfg, s, keep, tail);
    forall id | id in disk.data && id < t.current ensures FileImage(t.files, disk.data, LinkedHints(disk), id) {
      ImageCarries(s.files, t.files, disk, id);
    }
    StateReplays(disk, t, c, tail);
  }

  /** The directory behind `open` when the replay ended in `t`. */
  ghost function Cleaned(disk: Disk, t: State): Disk
    requires ReplaysTo(disk, t)
  {
    hide EncodeLog, LoadFiles;
    var l := LoadFiles(disk.data, LinkedHints(disk), t.current, Sorted(disk.data.Keys, t.current + 1)).value;
    AfterReplay(disk.data, LinkedHints(disk), t.current, l).disk
  }

  lemma OpenIs(disk: Disk, t: State)
    requires ReplaysTo(disk, t)
    ensures OpenAt(disk, t.current) == Ok(Opened(Cleaned(disk, t), t.keydir, t.current, t.offset, t.stale))
  {
    hide LoadFiles, Sorted, LinkedHints, EncodeLog;
    assert WithCurrent(disk.data, t.current) == disk.data;
  }

  lemma CleanedData(disk: Disk, t: State)
    requires ReplaysTo(disk, t)
    ensures var o := Cleaned(disk, t);
            && o.data.Keys == disk.data.Keys && o.compacts == {}
            && o.data[t.current] == EncodeLog(t.files[t.current])
            && (forall id :: id in disk.data && id != t.current ==> o.data[id] == disk.data[id])
            && (forall id :: id in o.hints ==> id in LinkedHints(disk) && o.hints[id] == LinkedHints(disk)[id])
  {
    hide LoadFiles, Sorted, LinkedHints, EncodeLog;
  }

  /** What a replay that ended in `t` leaves on disk stands for `t` again. */
  lemma ReplayedRepresents(disk: Disk, t: State)
    requires ReplaysTo(disk, t) && disk.data.Keys == t.dir && AllEncodable(t.files[t.current])
    requires forall id :: id in disk.data && id != t.current ==> FileImage(t.files, disk.data, LinkedHints(disk), id)
    requires LinkedHints(disk).Keys <= t.hints && t.current !in t.hints
    ensures Represents(Cleaned(disk, t), t)
  {
    CleanedData(disk, t);
    assert t.current in t.files;
    hide ReplaysTo, LinkedHints, EncodeLog, GoodHint, AllEncodable, Cleaned;
    var o := Cleaned(disk, t);
    forall id | id in t.dir ensures FileImage(t.files, o.data, o.hints, id) {
      NoGoodHint(id, t.files, HintOf(o.hints, id));
      if id != t.current {
        assert FileImage(t.files, disk.data, LinkedHints(disk), id);
      }
    }
  }

  lemma NoGoodHint(id: nat, files: Files, hint: Option<seq<byte>>)
    ensures id in files && hint.None? ==> GoodHint(id, files[id], hint)
  {
  }

  /** Opening a genuine image arrives at exactly the reopened state. */
  lemma GenuineOpens(cfg: Config, s: State, power: bool, keep: nat, disk: Disk)
    requires Inv(cfg, s) && CanReopen(s, power, keep) && GenuineImage(s, keep, disk)
    ensures var t := Reopen(s, power, keep);
            && IsCurrent(disk.data.Keys, t.current)
            && OpenAt(disk, t.current).Ok?
            && var o := OpenAt(disk, t.current).value;
               && o.index == t.keydir && o.current == t.current && o.offset == t.offset && o.stale == t.stale
               && Represents(o.disk, t)
  {
    hide Inv, Reopen, FileImage, EncodeLog, LinkedHints, AllEncodable, TailOf, IsCurrent, ReplaysTo, Cleaned, OpenAt, Represents;
    var t := Reopen(s, power, keep);
    ImageFacts(cfg, s, power, keep, disk);
    ImageReplays(cfg, s, power, keep, disk);
    forall id | id in disk.data && id != t.current ensures FileImage(t.files, disk.data, LinkedHints(disk), id) {
      BelowLast(disk, t.current, id);
      ImageCarries(s.files, t.files, disk, id);
    }
    ReopenHintIds(s, power, keep);
    LinkedHintIds(disk, s);
    OpenIs(disk, t);
    ReplaysCurrent(disk, t);
    ReplayedRepresents(disk, t);
  }

  lemma ReplaysCurrent(disk: Disk, t: State)
    requires ReplaysTo(disk, t)
    ensures t.current in t.files
  {
    hide LoadFiles, Sorted, LinkedHints, EncodeLog;
  }

  lemma BelowLast(disk: Disk, current: nat, id: nat)
    requires IsCurrent(disk.data.Keys, current) && id in disk.data && id != current
    ensures id < current
  {
  }

  lemma ReopenHintIds(s: State, power: bool, keep: nat)
    requires Last(s) in s.files && keep <= |s.files[Last(s)]|
    ensures Reopen(s, power, keep).hints == s.hints * s.dir
  {
  }

  lemma LinkedHintIds(disk: Disk, s: State)
    requires disk.data.Keys == s.dir && forall id :: id in disk.hints && id in s.dir ==> id in s.hints
    ensures LinkedHints(disk).Keys <= s.hints * s.dir
  {
  }

  /** What `get` answers from a keydir and the files' bytes. */
  ghost predicate Answers(index: Keydir, data: map<nat, seq<byte>>, k: Key, v: Option<Value>) {
    if k in index then
      index[k].fileId in data && v.Some? && ReadEntry(data[index[k].fileId], index[k]) == Ok(v)
    else v.None?
  }

  lemma StateAnswers(cfg: Config, t: State, disk: Disk, k: Key)
    requires Inv(cfg, t) && Represents(disk, t)
    ensures Answers(t.keydir, disk.data, k, Get(t.store, k))
  {
    hide FilesInv, ReplayInv, DurableInv, AckInv, HintsInv, OffsetInv, LinkedInv, MergeInv, ReadEntry, EncodeLog, AllEncodable, GoodHint, EntryOk;
    if k in t.keydir {
      var e := t.keydir[k];
      assert FileImage(t.files, disk.data, disk.hints, e.fileId);
      EntryReadsValue(t.files, k, e, t.store[k], []);
      assert EncodeLog(t.files[e.fileId]) + [] == EncodeLog(t.files[e.fileId]);
    }
  }

  lemma ReopenCurrent(s: State, power: bool, keep: nat)
    requires Last(s) in s.files && keep <= |s.files[Last(s)]|
    ensures Reopen(s, power, keep).current == Last(s)
  {
  }

  lemma {:induction false} EncodingsPrefix(recs: seq<Command>, n: nat)
    requires n <= |recs|
    ensures Encodings(recs)[..n] == Encodings(recs[..n])
    ensures n < |recs| ==> Encodings(recs)[n] == Encode(recs[n])
    decreases |recs|
  {
    hide Encode;
    if n < |recs| {
      var m := |recs| - 1;
      EncodingsPrefix(recs[..m], n);
      assert recs[..m][..n] == recs[..n];
    } else {
      assert recs[..n] == recs;
    }
  }

  /** Whatever length the last file is cut to, it is some whole records and a torn one. */
  lemma AnyCutIsAnImage(recs: seq<Command>, n: nat) returns (keep: nat, tail: seq<byte>)
    requires AllEncodable(recs) && n <= |EncodeLog(recs)|
    ensures keep <= |recs| && EncodeLog(recs)[..n] == EncodeLog(recs[..keep]) + tail
    ensures if keep == |recs| then tail == [] else Torn(tail, recs[keep])
    ensures forall m :: 0 <= m <= |recs| && Size(recs[..m]) <= n ==> m <= keep
  {
    hide Encode, Encodings, RecordReader.Concat, Size, RecordReader.IsRecord, AllEncodable;
    EncodingsAreRecords(recs);
    NoEmptyRecords(Encodings(recs));
    var extra: nat;
    keep, extra := RecordReader.CutAt(Encodings(recs), n);
    EncodingsPrefix(recs, keep);
    EncodeLogSize(recs[..keep]);
    tail := if keep == |recs| then [] else Encode(recs[keep])[..extra];
    if keep < |recs| {
      OneEncodable(recs, keep);
      forall m | 0 <= m <= |recs| && Size(recs[..m]) <= n ensures m <= keep {
        if keep < m {
          NextBoundary(recs, keep, m);
        }
      }
    }
  }

  lemma OneEncodable(recs: seq<Command>, i: nat)
    requires AllEncodable(recs) && i < |recs|
    ensures Encodable(recs[i])
  {
  }

  lemma NoEmptyRecords(rs: seq<seq<byte>>)
    requires forall i :: 0 <= i < |rs| ==> RecordReader.IsRecord(rs[i])
    ensures forall i :: 0 <= i < |rs| ==> rs[i] != []
  {
  }

  lemma NextBoundary(recs: seq<Command>, keep: nat, m: nat)
    requires keep < m <= |recs|
    ensures Size(recs[..keep]) + RecordLen(recs[keep]) <= Size(recs[..m])
  {
    assert recs[..keep + 1] == recs[..keep] + [recs[keep]];
    SizeAppend(recs[..keep], recs[keep]);
    if keep + 1 < m {
      OffsetsGrow(recs, keep + 1, m);
    }
  }
}
