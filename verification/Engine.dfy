/**
 The Bitcask engine as a step machine. One writer appends under the writer lock, a merge
 runs beside it holding no lock during its I/O, readers look at the keydir and the handles
 at any moment, and the process can die between any two steps.

 Data files are modelled as sequences of whole records; `Recovery` shows that the bytes on
 disk, torn tails included, are read back as exactly these records.
 */
module Engine {
  import opened Bytes
  import opened Commands
  import opened Framing
  import opened Logs

  datatype Policy = SyncOnEveryPut | SyncOnInterval | OsDecides

  datatype Config = Config(threshold: nat, compactionThreshold: nat, policy: Policy)

  ghost predicate ValidConfig(cfg: Config) {
    cfg.threshold > 0
  }

  /** Who holds the writer lock and how far that holder got. */
  datatype Lock =
    | Free
    | Writing(cmd: Command)    // an append: some prefix of its bytes may be in the file
    | Written(cmd: Command)    // write_all returned; keydir and offset not updated yet
    | Indexed                  // keydir and offset updated; post_write_ops still to come
    | Settled                  // handle_policy done; rotate_if_full still to come
    | Created(next: nat)       // rotate_to created the next file; not installed yet

  /** What a merge fixes at its start, under the writer lock. */
  datatype Job = Job(
    sources: seq<nat>,         // every reader but the active file, ascending
    prev: nat,                 // the file that was active; sealed, but not a source
    nextActive: nat,           // reserved id of the new active file
    total: nat,                // bytes in the sources
    initStale: nat,
    snapshot: Store,           // what the store held then
    clean: bool                // all sources were still linked then
  )

  datatype Output = Output(id: nat, recs: seq<Command>)

  datatype Pending = Pending(key: Key, prevFile: nat, prevOffset: nat, copy: Entry)

  datatype Phase =
    | Starting                 // snapshot taken, new active file created
    | Scan(at: nat)            // `at` records of the current source are done
    | SyncOutput | RenameOutput | InsertReader
    | Publish                  // draining the pending updates
    | Delete(i: nat, hintDue: bool)

  datatype Merge =
    | NoMerge
    | Merge(
        job: Job,
        src: nat,              // sources fully scanned
        next: nat,             // last output id handed out
        out: Option<Output>,
        pending: seq<Pending>,
        phase: Phase,
        full: nat,             // outputs finished so far
        done: nat              // bytes in them
      )

  /** What the durability statements speak about; the code does not keep these. */
  datatype History = History(
    durable: nat,              // records of the active file that a sync has covered
    durableStore: Store,       // what was logged at that sync
    deleted: bool,             // a data file was deleted since
    ackStore: Store,           // what was logged when an append last returned
    unacked: seq<Command>,     // records written since
    reopens: nat,              // process crashes since
    resynced: bool             // the active file was synced, or created, after the last open
  )

  /** A hint record: a key and where its record is. */
  datatype HintRecord = HintRecord(key: Key, entry: Entry)

  /** What the disk holds beside the records: what a sync has covered, and the hints. */
  datatype Media = Media(
    safe: map<nat, nat>,                    // records of each sealed file that a sync has covered
    outSafe: nat,                           // records of the current output that a sync has covered
    hintRecs: map<nat, seq<HintRecord>>,    // content of the `.hint` files
    outHint: seq<HintRecord>                // hint records of the current output, still buffered
  )

  datatype State = State(
    files: Files,              // content behind every open handle and every linked name
    dir: set<nat>,             // ids of the `.data` names in the directory
    hints: set<nat>,           // ids of the `.hint` names
    compacts: set<nat>,        // ids of the `.data.compact` names
    readers: set<nat>,
    keydir: Keydir,
    current: nat, offset: nat, flushed: nat, stale: nat,
    lock: Lock,
    merge: Merge,
    store: Store,              // the key/value map the keydir stands for
    hist: History,
    media: Media
  )

  /** Encoded bodies, of the record and of its hint, stay below 2^32 bytes. */
  predicate Storable(c: Command) {
    Encodable(c) && |c.key| + 28 < U32_END
  }

  /** The store once the record that is in the file but not yet in the keydir counts. */
  function Logged(s: State): Store {
    if s.lock.Written? then Apply(s.store, s.lock.cmd) else s.store
  }

  /** The largest id in the directory: the file `open` would write to. */
  function Last(s: State): nat {
    if s.lock.Created? then s.lock.next else s.current
  }

  /** One past the last id: the end of replay. */
  function Top(s: State): nat {
    Last(s) + 1
  }

  // ---- appends ----

  ghost predicate CanAppendBegin(s: State, c: Command) {
    s.lock.Free? && Storable(c) && s.offset + RecordLen(c) < U64_END
  }

  function AppendBegin(s: State, c: Command): State {
    s.(lock := Writing(c))
  }

  function AppendWrite(s: State): State
    requires s.lock.Writing? && s.current in s.files
  {
    s.(files := s.files[s.current := s.files[s.current] + [s.lock.cmd]],
       lock := Written(s.lock.cmd),
       hist := s.hist.(unacked := s.hist.unacked + [s.lock.cmd]))
  }

  /** Updates the keydir, the stale count and the offset; here the write takes effect. */
  function AppendIndex(s: State): State
    requires s.lock.Written?
  {
    var c := s.lock.cmd;
    var replaced := if c.key in s.keydir then s.keydir[c.key].len else 0;
    s.(keydir := ReplayRecord(s.keydir, s.current, s.offset, c),
       stale := s.stale + replaced,
       offset := s.offset + RecordLen(c),
       store := Apply(s.store, c),
       lock := Indexed)
  }

  function Synced(s: State): State
    requires s.current in s.files
  {
    s.(flushed := s.offset,
       hist := s.hist.(durable := |s.files[s.current]|, durableStore := Logged(s), deleted := false, resynced := true))
  }

  /** `handle_policy`: SyncOnEveryPut always syncs, the other two may leave it out. */
  function PolicySync(s: State): State
    requires s.current in s.files
  {
    Synced(s).(lock := Settled)
  }

  ghost predicate CanPolicySkip(cfg: Config, s: State) {
    s.lock.Indexed? && cfg.policy != SyncOnEveryPut
  }

  function PolicySkip(s: State): State {
    s.(lock := Settled)
  }

  function Acknowledged(s: State): State {
    s.(hist := s.hist.(ackStore := s.store, unacked := [], reopens := 0))
  }

  ghost predicate CanRelease(cfg: Config, s: State) {
    s.lock.Settled? && s.offset < cfg.threshold
  }

  function Release(s: State): State {
    Acknowledged(s.(lock := Free))
  }

  // ---- rotation ----

  /** First half of `rotate_to`: sync, then create the next file. */
  function RotateCreate(s: State, next: nat): State
    requires s.current in s.files
  {
    var t := Synced(s);
    t.(files := t.files[next := []], dir := t.dir + {next}, lock := Created(next))
  }

  ghost predicate CanRotateIfFull(cfg: Config, s: State) {
    s.lock.Settled? && s.offset >= cfg.threshold && s.current in s.files
  }

  /** Second half: switch the writer over and add the read handle. */
  function RotateInstall(s: State): State
    requires s.lock.Created?
  {
    var t := s.(current := s.lock.next, offset := 0, flushed := 0,
                readers := s.readers + {s.lock.next}, lock := Free,
                hist := s.hist.(durable := 0, resynced := true),
                media := s.media.(safe := s.media.safe[s.current := s.hist.durable]));
    if s.merge.Merge? && s.merge.phase.Starting? then t.(merge := s.merge.(phase := Scan(0)))
    else Acknowledged(t)
  }

  ghost predicate CanSyncNow(s: State) {
    s.lock.Free? && s.current in s.files
  }

  // ---- merge ----

  function TotalSize(files: Files, ids: seq<nat>): nat {
    if ids == [] then 0
    else
      var id := ids[|ids| - 1];
      TotalSize(files, ids[..|ids| - 1]) + (if id in files then Size(files[id]) else 0)
  }

  /** The sources of a merge that starts now. */
  function Sources(s: State): seq<nat> {
    Sorted(s.readers - {s.current}, s.current + 1)
  }

  function NewJob(cfg: Config, s: State): Job
    requires cfg.threshold > 0
  {
    var total := TotalSize(s.files, Sources(s));
    var reserve := total / cfg.threshold + 2;
    Job(Sources(s), s.current, s.current + reserve + 1, total, s.stale, s.store,
        forall id | id in Sources(s) :: id in s.dir)
  }

  ghost predicate CanMergeStart(cfg: Config, s: State) {
    && s.lock.Free? && s.merge.NoMerge? && s.current in s.files
    && s.stale >= cfg.compactionThreshold
    && Sources(s) != [] && TotalSize(s.files, Sources(s)) < U64_END
  }

  /** Under the writer lock: snapshot the readers and start rotating past the reserved ids. */
  function MergeStart(cfg: Config, s: State): State
    requires cfg.threshold > 0 && s.current in s.files
  {
    var job := NewJob(cfg, s);
    RotateCreate(s, job.nextActive).(merge := Merge(job, 0, job.prev, None, [], Starting, 0, 0))
  }

  ghost predicate CanOpenOutput(s: State) {
    && s.merge.Merge? && s.merge.phase == Scan(0) && s.merge.out.None?
    && s.merge.src < |s.merge.job.sources|
  }

  function OpenOutput(s: State): State
    requires s.merge.Merge?
  {
    var id := s.merge.next + 1;
    s.(merge := s.merge.(next := id, out := Some(Output(id, []))),
       compacts := s.compacts + {id}, hints := s.hints + {id},
       media := s.media.(outSafe := 0, outHint := [], hintRecs := s.media.hintRecs[id := []]))
  }

  ghost predicate Scanning(s: State) {
    && s.merge.Merge? && s.merge.phase.Scan? && s.merge.out.Some?
    && s.merge.src < |s.merge.job.sources|
    && s.merge.job.sources[s.merge.src] in s.files
    && s.merge.phase.at <= |s.files[s.merge.job.sources[s.merge.src]]|
  }

  ghost predicate CanScanRecord(s: State) {
    Scanning(s) && s.merge.phase.at < |s.files[s.merge.job.sources[s.merge.src]]|
  }

  /** The keydir still points at exactly this record. */
  predicate SitsInIndex(s: State, fileId: nat, offset: nat, c: Command) {
    c.Set? && c.key in s.keydir && s.keydir[c.key].fileId == fileId && s.keydir[c.key].offset == offset
  }

  /** Copies the record behind the cursor if it is live, and queues its keydir update. */
  function ScanRecord(s: State): State
    requires CanScanRecord(s)
  {
    var m := s.merge;
    var fileId := m.job.sources[m.src];
    var c := s.files[fileId][m.phase.at];
    var offset := Size(s.files[fileId][..m.phase.at]);
    var moved := m.(phase := Scan(m.phase.at + 1));
    if SitsInIndex(s, fileId, offset, c) then
      var out := m.out.value;
      var copy := EntryFor(out.id, Size(out.recs), c);
      s.(merge := moved.(out := Some(out.(recs := out.recs + [c])),
                         pending := m.pending + [Pending(c.key, fileId, offset, copy)]),
         media := s.media.(outHint := s.media.outHint + [HintRecord(c.key, copy)]))
    else s.(merge := moved)
  }

  ghost predicate CanFinishSource(s: State) {
    Scanning(s) && s.merge.phase.at == |s.files[s.merge.job.sources[s.merge.src]]|
  }

  /** Clean end of a source: finish the output if it is full or this was the last source. */
  function FinishSource(cfg: Config, s: State): State
    requires CanFinishSource(s)
  {
    var m := s.merge;
    var finish := Size(m.out.value.recs) >= cfg.threshold || m.src + 1 == |m.job.sources|;
    s.(merge := m.(src := m.src + 1, phase := if finish then SyncOutput else Scan(0)))
  }

  ghost predicate InPhase(s: State, phase: Phase) {
    s.merge.Merge? && s.merge.phase == phase
  }

  /** Flushes and syncs the output and its hint. */
  function SyncOutputStep(s: State): State
    requires s.merge.Merge? && s.merge.out.Some?
  {
    var out := s.merge.out.value;
    s.(merge := s.merge.(phase := RenameOutput),
       media := s.media.(outSafe := |out.recs|, hintRecs := s.media.hintRecs[out.id := s.media.outHint]))
  }

  function RenameOutputStep(s: State): State
    requires s.merge.Merge? && s.merge.out.Some?
  {
    var out := s.merge.out.value;
    s.(files := s.files[out.id := out.recs], dir := s.dir + {out.id}, compacts := s.compacts - {out.id},
       merge := s.merge.(phase := InsertReader),
       media := s.media.(safe := s.media.safe[out.id := s.media.outSafe]))
  }

  function InsertReaderStep(s: State): State
    requires s.merge.Merge? && s.merge.out.Some?
  {
    var out := s.merge.out.value;
    s.(readers := s.readers + {out.id},
       merge := s.merge.(out := None, phase := Publish,
                         full := s.merge.full + 1, done := s.merge.done + Size(out.recs)))
  }

  ghost predicate CanPublishOne(s: State) {
    InPhase(s, Publish) && s.merge.pending != []
  }

  /** Moves one key over to its copy, unless it was overwritten during the merge. */
  function PublishOne(s: State): State
    requires s.merge.Merge? && s.merge.pending != []
  {
    var p := s.merge.pending[0];
    var t := s.(merge := s.merge.(pending := s.merge.pending[1..]));
    if p.key in s.keydir && s.keydir[p.key].fileId == p.prevFile && s.keydir[p.key].offset == p.prevOffset
    then t.(keydir := s.keydir[p.key := p.copy])
    else t
  }

  ghost predicate CanPublishDone(s: State) {
    InPhase(s, Publish) && s.merge.pending == []
  }

  function PublishDone(s: State): State
    requires s.merge.Merge?
  {
    s.(merge := s.merge.(phase := if s.merge.src < |s.merge.job.sources| then Scan(0) else Delete(0, false)))
  }

  ghost predicate Deleting(s: State, hintDue: bool) {
    s.merge.Merge? && s.merge.phase.Delete? && s.merge.phase.hintDue == hintDue && s.merge.phase.i < |s.merge.job.sources|
  }

  /** Removes a source's data file; a missing one is an error that ends the merge early. */
  function DeleteData(s: State): State
    requires Deleting(s, false)
  {
    var id := s.merge.job.sources[s.merge.phase.i];
    if id in s.dir then
      s.(dir := s.dir - {id}, hist := s.hist.(deleted := true),
         merge := s.merge.(phase := Delete(s.merge.phase.i, true)))
    else s.(merge := NoMerge)
  }

  function DeleteHint(s: State): State
    requires Deleting(s, true)
  {
    s.(hints := s.hints - {s.merge.job.sources[s.merge.phase.i]},
       merge := s.merge.(phase := Delete(s.merge.phase.i + 1, false)))
  }

  ghost predicate CanMergeEnd(s: State) {
    && s.merge.Merge? && s.merge.phase == Delete(|s.merge.job.sources|, false)
    && s.lock.Free?
  }

  /** Subtraction of `u64` values, wrapping around where it underflows. */
  function WrappingSub(a: nat, b: nat): nat {
    if b <= a then a - b else (a - b) % U64_END
  }

  function MergeEnd(s: State): State
    requires s.merge.Merge?
  {
    s.(stale := WrappingSub(s.stale, s.merge.job.initStale), merge := NoMerge)
  }

  // ---- crash and open ----

  /**
   How many records of the last file survive: all of them when only the process dies; after
   a power loss any number that includes the durable ones.
   */
  ghost predicate CanReopen(s: State, power: bool, keep: nat) {
    && Last(s) in s.files
    && keep <= |s.files[Last(s)]|
    && (if power then (s.lock.Created? || s.hist.durable <= keep) else keep == |s.files[Last(s)]|)
  }

  function KeptFiles(s: State, keep: nat): Files
    requires Last(s) in s.files && keep <= |s.files[Last(s)]|
  {
    map id | id in s.files && id in s.dir :: if id == Last(s) then s.files[id][..keep] else s.files[id]
  }

  /** The engine after `open` replayed what the crash left. */
  function Reopen(s: State, power: bool, keep: nat): State
    requires Last(s) in s.files && keep <= |s.files[Last(s)]|
  {
    var files := KeptFiles(s, keep);
    var log := Log(files, s.dir, 0, Top(s));
    var store := ApplyAll(map[], log);
    var offset := Size(s.files[Last(s)][..keep]);
    State(files, s.dir, s.hints * s.dir, {}, s.dir,
          ReplayDir(files, s.dir, Top(s)),
          Last(s), offset, 0, ReplayStale(log), Free, NoMerge, store,
          if power then History(keep, store, false, store, [], 0, false)
          else s.hist.(durable := if s.lock.Created? then 0 else s.hist.durable, reopens := s.hist.reopens + 1, resynced := false),
          s.media.(safe := if s.lock.Created? then s.media.safe[s.current := s.hist.durable] else s.media.safe, outHint := []))
  }

  /** `open` on an empty directory creates file 1. */
  function Fresh(): State {
    State(map[1 := []], {1}, {}, {}, {1}, map[], 1, 0, 0, 0, Free, NoMerge, map[],
          History(0, map[], false, map[], [], 0, true), Media(map[], 0, map[], []))
  }

  // ---- runs ----

  datatype Step =
    | DoAppendBegin(c: Command) | DoAppendWrite | DoAppendIndex
    | DoPolicySync | DoPolicySkip | DoRelease
    | DoRotateIfFull | DoRotateInstall | DoSyncNow
    | DoMergeStart | DoOpenOutput | DoScanRecord | DoFinishSource
    | DoSyncOutput | DoRenameOutput | DoInsertReader
    | DoPublishOne | DoPublishDone
    | DoDeleteData | DoDeleteHint | DoMergeEnd
    | DoReopen(power: bool, keep: nat)

  ghost predicate Next(cfg: Config, s: State, step: Step, t: State) {
    match step
    case DoAppendBegin(c) => CanAppendBegin(s, c) && t == AppendBegin(s, c)
    case DoAppendWrite => s.lock.Writing? && s.current in s.files && t == AppendWrite(s)
    case DoAppendIndex => s.lock.Written? && t == AppendIndex(s)
    case DoPolicySync => s.lock.Indexed? && s.current in s.files && t == PolicySync(s)
    case DoPolicySkip => CanPolicySkip(cfg, s) && t == PolicySkip(s)
    case DoRelease => CanRelease(cfg, s) && t == Release(s)
    case DoRotateIfFull => CanRotateIfFull(cfg, s) && t == RotateCreate(s, s.current + 1)
    case DoRotateInstall => s.lock.Created? && t == RotateInstall(s)
    case DoSyncNow => CanSyncNow(s) && t == Synced(s)
    case DoMergeStart => ValidConfig(cfg) && CanMergeStart(cfg, s) && t == MergeStart(cfg, s)
    case DoOpenOutput => CanOpenOutput(s) && t == OpenOutput(s)
    case DoScanRecord => CanScanRecord(s) && t == ScanRecord(s)
    case DoFinishSource => CanFinishSource(s) && t == FinishSource(cfg, s)
    case DoSyncOutput => InPhase(s, SyncOutput) && s.merge.out.Some? && t == SyncOutputStep(s)
    case DoRenameOutput => InPhase(s, RenameOutput) && s.merge.out.Some? && t == RenameOutputStep(s)
    case DoInsertReader => InPhase(s, InsertReader) && s.merge.out.Some? && t == InsertReaderStep(s)
    case DoPublishOne => CanPublishOne(s) && t == PublishOne(s)
    case DoPublishDone => CanPublishDone(s) && t == PublishDone(s)
    case DoDeleteData => Deleting(s, false) && t == DeleteData(s)
    case DoDeleteHint => Deleting(s, true) && t == DeleteHint(s)
    case DoMergeEnd => CanMergeEnd(s) && t == MergeEnd(s)
    case DoReopen(power, keep) => CanReopen(s, power, keep) && t == Reopen(s, power, keep)
  }

  /** A run: consecutive states are joined by the listed steps. */
  ghost predicate IsRun(cfg: Config, states: seq<State>, steps: seq<Step>) {
    && |states| == |steps| + 1
    && forall i :: 0 <= i < |steps| ==> Next(cfg, states[i], steps[i], states[i + 1])
  }
}
