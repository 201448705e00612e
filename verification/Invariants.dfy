/**
 What every reachable state of the engine keeps. Each part names the components it speaks
 about, so that a step which leaves them alone keeps the part for free.
 */
module Invariants {
  import opened Bytes
  import opened Commands
  import opened Framing
  import opened Logs
  import opened Engine

  ghost predicate AllStorable(recs: seq<Command>) {
    forall i :: 0 <= i < |recs| ==> Storable(recs[i])
  }

  ghost predicate AllSets(recs: seq<Command>) {
    forall i :: 0 <= i < |recs| ==> recs[i].Set?
  }

  /**
   Ids: the active file has the largest one, a file being created is above it, and files
   that were deleted while their handle is still open lie below everything linked.
   */
  ghost predicate FilesInv(files: Files, dir: set<nat>, readers: set<nat>, current: nat, lock: Lock) {
    && dir <= files.Keys && readers <= files.Keys
    && current in dir && current in readers
    && (forall id :: id in files ==> id <= current || (lock.Created? && id == lock.next))
    && (lock.Created? ==> current < lock.next && lock.next in dir && lock.next !in readers && files[lock.next] == [])
    && (forall id :: id in files ==> AllStorable(files[id]) && Size(files[id]) < U64_END)
    && (forall u, d :: u in readers && d in dir && u !in dir ==> u < d)
  }

  /** The writer's offset is the active file's length, less a record not yet indexed. */
  ghost predicate OffsetInv(files: Files, current: nat, offset: nat, lock: Lock) {
    && current in files
    && (if lock.Written? then
          files[current] != [] && files[current][|files[current]| - 1] == lock.cmd
          && offset == Size(files[current][..|files[current]| - 1])
        else offset == Size(files[current]))
    && (lock.Writing? || lock.Written? ==> Storable(lock.cmd))
    && (lock.Writing? ==> offset + RecordLen(lock.cmd) < U64_END)
  }

  /** Every linked file has a read handle, except the one just being installed. */
  ghost predicate LinkedInv(dir: set<nat>, readers: set<nat>, lock: Lock, m: Merge) {
    forall id :: id in dir ==>
      || id in readers
      || (lock.Created? && id == lock.next)
      || (m.Merge? && m.phase.InsertReader? && id == m.next)
  }

  /** Hint files lie below the active file, and a linked file that has one holds only sets. */
  ghost predicate HintsInv(files: Files, dir: set<nat>, hints: set<nat>, current: nat) {
    && (forall h :: h in hints ==> h < current)
    && (forall h :: h in hints && h in dir && h in files ==> AllSets(files[h]))
  }

  /** The keydir has exactly the store's keys and names, for each, a record with its value. */
  ghost predicate KeydirInv(files: Files, dir: set<nat>, readers: set<nat>, keydir: Keydir, store: Store) {
    && keydir.Keys == store.Keys
    && (forall k :: k in keydir ==>
          keydir[k].fileId in dir && keydir[k].fileId in readers && EntryOk(files, k, keydir[k], store[k]))
  }

  /** Replaying the directory gives exactly the logged map. */
  ghost predicate ReplayInv(files: Files, dir: set<nat>, top: nat, logged: Store) {
    forall k :: Lookup(Log(files, dir, 0, top), k, None) == Get(logged, k)
  }

  // ---- merge ----

  ghost predicate Ascending(ids: seq<nat>) {
    forall i, j :: 0 <= i < j < |ids| ==> ids[i] < ids[j]
  }

  /** The last output id that is a `.data` file already. */
  function Renamed(m: Merge): int
    requires m.Merge?
  {
    if m.out.Some? && !m.phase.InsertReader? then m.next - 1 else m.next
  }

  /** Sources not deleted yet. */
  function Remaining(m: Merge): seq<nat>
    requires m.Merge?
  {
    if m.phase.Delete? then
      var i := m.phase.i + (if m.phase.hintDue then 1 else 0);
      if i <= |m.job.sources| then m.job.sources[i..] else []
    else m.job.sources
  }

  /** How the merge's ids sit: sources, the old active file, outputs, the new active files. */
  ghost predicate JobInv(cfg: Config, files: Files, dir: set<nat>, current: nat, lock: Lock, stale: nat, m: Merge) {
    m.Merge? ==>
      var j := m.job;
      && cfg.threshold > 0
      && Ascending(j.sources) && |j.sources| > 0
      && (forall id :: id in j.sources ==> id < j.prev && id in files)
      && j.prev in dir && j.prev in files
      && j.nextActive == j.prev + j.total / cfg.threshold + 3
      && j.total == TotalSize(files, j.sources) < U64_END
      && (if m.phase.Starting? then lock == Created(j.nextActive) && current == j.prev else j.nextActive <= current)
      && j.prev <= m.next <= j.prev + j.total / cfg.threshold + 1
      && j.initStale <= stale
      && (forall id :: id in files ==> id <= j.prev || id <= Renamed(m) || j.nextActive <= id)
      && (forall id :: id in dir && id < j.prev ==> id in Remaining(m))
      && (m.phase.InsertReader? || m.phase.Publish? ==> m.next in dir)
  }

  /**
   A merge deletes all of its sources or none: the first deletion succeeds exactly when no
   source was unlinked before the merge began, and then so do all others.
   */
  ghost predicate CleanInv(dir: set<nat>, readers: set<nat>, m: Merge) {
    m.Merge? ==>
      && (forall id :: id in m.job.sources ==> id in readers)
      && (if m.phase.Delete? && (m.phase.i > 0 || m.phase.hintDue)
          then m.job.clean && forall id :: id in Remaining(m) ==> id in dir
          else m.job.clean <==> forall id :: id in m.job.sources ==> id in dir)
  }

  /** The phases and the shape of the merge's local state. */
  ghost predicate PhaseInv(files: Files, m: Merge) {
    m.Merge? ==>
      && m.src <= |m.job.sources|
      && (m.out.Some? ==> m.out.value.id == m.next && m.job.prev < m.next)
      && (match m.phase
          case Starting => m.out.None? && m.pending == [] && m.src == 0 && m.next == m.job.prev
          case Scan(at) =>
            && m.src < |m.job.sources|
            && m.job.sources[m.src] in files && at <= |files[m.job.sources[m.src]]|
            && (m.out.None? ==> at == 0 && m.pending == [])
          case SyncOutput => m.out.Some?
          case RenameOutput => m.out.Some?
          case InsertReader => m.out.Some? && m.next in files && files[m.next] == m.out.value.recs
          case Publish => m.out.None? && m.next in files
          case Delete(i, hintDue) =>
            && m.out.None? && m.pending == [] && m.src == |m.job.sources|
            && i <= |m.job.sources| && (hintDue ==> i < |m.job.sources|))
  }

  /** The records of the last output, wherever they are now. */
  function Copies(files: Files, m: Merge): seq<Command>
    requires m.Merge?
  {
    if m.out.Some? then m.out.value.recs else if m.next in files then files[m.next] else []
  }

  /** Everything copied is a set with the value the key had at the snapshot. */
  ghost predicate CopiesInv(m: Merge) {
    m.Merge? && m.out.Some? ==>
      && AllStorable(m.out.value.recs)
      && forall i :: 0 <= i < |m.out.value.recs| ==>
           var c := m.out.value.recs[i];
           c.Set? && Get(m.job.snapshot, c.key) == Some(c.value)
  }

  /** Every queued update leads from a source to a copy with the snapshot's value. */
  ghost predicate PendingInv(files: Files, m: Merge) {
    m.Merge? ==> forall i :: 0 <= i < |m.pending| ==>
      var p := m.pending[i];
      && p.prevFile < m.job.prev
      && p.key in m.job.snapshot
      && p.copy.fileId == m.next
      && Holds(Copies(files, m), p.copy.offset, Set(p.copy.ts, p.key, m.job.snapshot[p.key]))
      && p.copy.len == RecordLen(Set(p.copy.ts, p.key, m.job.snapshot[p.key]))
  }

  /** The merge has already passed the record at this place. */
  ghost predicate Passed(files: Files, m: Merge, fileId: nat, offset: nat)
    requires m.Merge?
  {
    || (m.src <= |m.job.sources| && fileId in m.job.sources[..m.src])
    || (m.phase.Scan? && m.src < |m.job.sources| && fileId == m.job.sources[m.src] && fileId in files
        && m.phase.at <= |files[fileId]| && offset < Size(files[fileId][..m.phase.at]))
  }

  ghost predicate Queued(m: Merge, k: Key, e: Entry)
    requires m.Merge?
  {
    exists i :: 0 <= i < |m.pending| && m.pending[i].key == k
                && m.pending[i].prevFile == e.fileId && m.pending[i].prevOffset == e.offset
  }

  /** A keydir entry the merge has passed and that still points into a source is queued. */
  ghost predicate CoverInv(files: Files, keydir: Keydir, m: Merge) {
    m.Merge? ==> forall k :: k in keydir && Passed(files, m, keydir[k].fileId, keydir[k].offset) ==> Queued(m, k, keydir[k])
  }

  /** Keys whose entry lies below the new active file have not been written since the snapshot. */
  ghost predicate SnapshotInv(keydir: Keydir, store: Store, m: Merge) {
    m.Merge? ==> forall k :: k in keydir && k in store && keydir[k].fileId < m.job.nextActive ==>
      Get(m.job.snapshot, k) == Some(store[k])
  }

  /**
   The files below the new active one replay to the snapshot. Once deletion has begun this
   is claimed for the keys not written since, and no keydir entry points into a source.
   */
  ghost predicate BaseInv(files: Files, dir: set<nat>, keydir: Keydir, top: nat, m: Merge) {
    m.Merge? ==>
      var j := m.job;
      if m.phase.Delete? then
        && (forall k :: k in keydir ==> keydir[k].fileId >= j.prev)
        && (forall k :: !Mentions(Log(files, dir, j.nextActive, top), k) ==>
              Lookup(Log(files, dir, 0, j.nextActive), k, None) == Get(j.snapshot, k))
      else
        forall k :: Lookup(Log(files, dir, 0, j.nextActive), k, None) == Get(j.snapshot, k)
  }

  /** Source bytes the merge has read. */
  function BytesPassed(files: Files, m: Merge): nat
    requires m.Merge? && m.src <= |m.job.sources|
  {
    TotalSize(files, m.job.sources[..m.src])
    + (if m.phase.Scan? && m.src < |m.job.sources| && m.job.sources[m.src] in files
          && m.phase.at <= |files[m.job.sources[m.src]]|
       then Size(files[m.job.sources[m.src]][..m.phase.at]) else 0)
  }

  /** Outputs are counted: all finished ones are full while sources remain. */
  ghost predicate CountInv(cfg: Config, files: Files, m: Merge) {
    m.Merge? && m.src <= |m.job.sources| ==>
      && m.next == m.job.prev + m.full + (if m.out.Some? then 1 else 0)
      && m.done + (if m.out.Some? then Size(m.out.value.recs) else 0) <= BytesPassed(files, m)
      && (m.src < |m.job.sources| ==> cfg.threshold * m.full <= m.done)
      && (m.src < |m.job.sources| && m.out.Some? && !m.phase.Scan? ==> cfg.threshold <= Size(m.out.value.recs))
  }

  // ---- durability ----

  /** Records of the active file that no sync has covered. */
  function Unsynced(files: Files, current: nat, hist: History): seq<Command> {
    if current in files && hist.durable <= |files[current]| then files[current][hist.durable..] else []
  }

  /** The files as they were at the last sync of the active one. */
  function SyncedFiles(files: Files, current: nat, hist: History): Files {
    if current in files && hist.durable <= |files[current]| then files[current := files[current][..hist.durable]] else files
  }

  ghost predicate DurableInv(files: Files, dir: set<nat>, top: nat, current: nat, lock: Lock, logged: Store, flushed: nat, hist: History) {
    && current in files && hist.durable <= |files[current]|
    && flushed <= Size(files[current][..hist.durable])
    && (forall k :: Get(logged, k) == Lookup(Unsynced(files, current, hist), k, Get(hist.durableStore, k)))
    && (!hist.deleted ==>
          forall k :: Lookup(Log(SyncedFiles(files, current, hist), dir, 0, top), k, None) == Get(hist.durableStore, k))
    && (lock.Created? ==> hist.durable == |files[current]|)
  }

  ghost predicate IsSuffix(a: seq<Command>, b: seq<Command>) {
    |a| <= |b| && a == b[|b| - |a|..]
  }

  /** An append that has written its record holds the lock. */
  predicate AppendHoldsLock(lock: Lock, m: Merge) {
    lock.Written? || lock.Indexed? || lock.Settled? || (lock.Created? && !(m.Merge? && m.phase.Starting?))
  }

  ghost predicate AckInv(cfg: Config, files: Files, current: nat, lock: Lock, m: Merge, logged: Store, hist: History) {
    && (forall k :: Get(logged, k) == Lookup(hist.unacked, k, Get(hist.ackStore, k)))
    && |hist.unacked| <= hist.reopens + (if AppendHoldsLock(lock, m) then 1 else 0)
    && (cfg.policy.SyncOnEveryPut? ==>
          && IsSuffix(Unsynced(files, current, hist), hist.unacked)
          && (lock.Settled? || lock.Created? ==> Unsynced(files, current, hist) == []))
  }

  ghost predicate Inv(cfg: Config, s: State) {
    && FilesInv(s.files, s.dir, s.readers, s.current, s.lock)
    && OffsetInv(s.files, s.current, s.offset, s.lock)
    && LinkedInv(s.dir, s.readers, s.lock, s.merge)
    && HintsInv(s.files, s.dir, s.hints, s.current)
    && KeydirInv(s.files, s.dir, s.readers, s.keydir, s.store)
    && ReplayInv(s.files, s.dir, Top(s), Logged(s))
    && MergeInv(cfg, s)
    && DurableInv(s.files, s.dir, Top(s), s.current, s.lock, Logged(s), s.flushed, s.hist)
    && AckInv(cfg, s.files, s.current, s.lock, s.merge, Logged(s), s.hist)
  }

  ghost predicate MergeInv(cfg: Config, s: State) {
    && JobInv(cfg, s.files, s.dir, s.current, s.lock, s.stale, s.merge)
    && PhaseInv(s.files, s.merge)
    && CopiesInv(s.merge)
    && PendingInv(s.files, s.merge)
    && CoverInv(s.files, s.keydir, s.merge)
    && SnapshotInv(s.keydir, s.store, s.merge)
    && BaseInv(s.files, s.dir, s.keydir, Top(s), s.merge)
    && CountInv(cfg, s.files, s.merge)
  }

  // ---- the disk ----

  /** The hint records of an output that holds `recs`. */
  function HintsFor(fileId: nat, recs: seq<Command>): (hs: seq<HintRecord>)
    ensures |hs| == |recs|
  {
    if recs == [] then []
    else
      var n := |recs| - 1;
      HintsFor(fileId, recs[..n]) + [HintRecord(recs[n].key, EntryFor(fileId, Size(recs[..n]), recs[n]))]
  }

  /** How many records of a linked file a power loss cannot take. */
  function SafeLen(s: State, id: nat): nat {
    if id == s.current then s.hist.durable else if id in s.media.safe then s.media.safe[id] else 0
  }

  /** Every sealed file, and an output about to get its name, is wholly covered by syncs. */
  ghost predicate SafeInv(s: State) {
    && (forall id :: id in s.dir && id in s.files && id != s.current && !(s.lock.Created? && id == s.lock.next) ==>
          id in s.media.safe && s.media.safe[id] == |s.files[id]|)
    && (forall id :: id in s.media.safe ==> id <= s.current)
    && (InPhase(s, RenameOutput) && s.merge.out.Some? ==> s.media.outSafe == |s.merge.out.value.recs|)
  }

  /** The hint of a linked file describes exactly its records. */
  ghost predicate HintRecsInv(s: State) {
    && (forall h :: h in s.hints && h in s.dir && h in s.files ==>
          h in s.media.hintRecs && s.media.hintRecs[h] == HintsFor(h, s.files[h]))
    && (s.merge.Merge? && s.merge.out.Some? ==>
          var out := s.merge.out.value;
          && s.media.outHint == HintsFor(out.id, out.recs)
          && (s.merge.phase.RenameOutput? ==> out.id in s.media.hintRecs && s.media.hintRecs[out.id] == s.media.outHint))
  }
}
