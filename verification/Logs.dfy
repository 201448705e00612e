/**
 Logs of commands and what they mean: the value of a key after a log, the log of a
 directory of data files in replay order, and the keydir that replay builds from it.
 */
module Logs {
  import opened Bytes
  import opened Commands
  import Hints

  type Key = seq<byte>
  type Value = seq<byte>
  type Store = map<Key, Value>
  type Entry = Hints.IndexValue
  type Keydir = map<Key, Entry>
  type Files = map<nat, seq<Command>>

  // ---- sizes and offsets ----

  /** Bytes a run of records takes in a file. */
  function Size(recs: seq<Command>): nat {
    if recs == [] then 0 else Size(recs[..|recs| - 1]) + RecordLen(recs[|recs| - 1])
  }

  lemma SizeAppend(recs: seq<Command>, c: Command)
    ensures Size(recs + [c]) == Size(recs) + RecordLen(c)
  {
    assert (recs + [c])[..|recs|] == recs;
  }

  lemma {:induction false} SizeConcat(a: seq<Command>, b: seq<Command>)
    ensures Size(a + b) == Size(a) + Size(b)
  {
    if b == [] {
      assert a + b == a;
    } else {
      var n := |b| - 1;
      SizeConcat(a, b[..n]);
      assert (a + b)[..|a| + n] == a + b[..n];
    }
  }

  /** Offsets grow strictly along a file, so an offset names at most one record. */
  lemma {:induction false} OffsetsGrow(recs: seq<Command>, i: nat, j: nat)
    requires i < j <= |recs|
    ensures Size(recs[..i]) < Size(recs[..j])
  {
    assert recs[..j][..j - 1] == recs[..j - 1];
    if i < j - 1 {
      OffsetsGrow(recs, i, j - 1);
    }
  }

  /** The file holds record `c` at byte `offset`. */
  ghost predicate Holds(recs: seq<Command>, offset: nat, c: Command) {
    exists i :: 0 <= i < |recs| && recs[i] == c && Size(recs[..i]) == offset
  }

  lemma HoldsAppend(recs: seq<Command>, more: seq<Command>, offset: nat, c: Command)
    requires Holds(recs, offset, c)
    ensures Holds(recs + more, offset, c)
  {
    var i :| 0 <= i < |recs| && recs[i] == c && Size(recs[..i]) == offset;
    assert (recs + more)[i] == c && (recs + more)[..i] == recs[..i];
  }

  lemma HoldsLast(recs: seq<Command>, c: Command)
    ensures Holds(recs + [c], Size(recs), c)
  {
    var all := recs + [c];
    assert all[|recs|] == c && all[..|recs|] == recs;
  }

  // ---- what a log means ----

  function Get(m: Store, k: Key): Option<Value> {
    if k in m then Some(m[k]) else None
  }

  function Effect(c: Command): Option<Value> {
    if c.Set? then Some(c.value) else None
  }

  /** The value of `k` after `log`, given its value before. */
  function Lookup(log: seq<Command>, k: Key, init: Option<Value>): Option<Value> {
    if log == [] then init
    else
      var last := log[|log| - 1];
      if last.key == k then Effect(last) else Lookup(log[..|log| - 1], k, init)
  }

  ghost predicate Mentions(log: seq<Command>, k: Key) {
    exists i :: 0 <= i < |log| && log[i].key == k
  }

  lemma LookupAppend(log: seq<Command>, c: Command, k: Key, init: Option<Value>)
    ensures Lookup(log + [c], k, init) == if c.key == k then Effect(c) else Lookup(log, k, init)
  {
    assert (log + [c])[..|log|] == log;
  }

  lemma {:induction false} LookupConcat(a: seq<Command>, b: seq<Command>, k: Key, init: Option<Value>)
    ensures Lookup(a + b, k, init) == Lookup(b, k, Lookup(a, k, init))
  {
    if b == [] {
      assert a + b == a;
    } else {
      var n := |b| - 1;
      LookupConcat(a, b[..n], k, init);
      assert (a + b)[..|a| + n] == a + b[..n];
      assert (a + b)[|a| + n] == b[n];
    }
  }

  lemma {:induction false} LookupUnmentioned(log: seq<Command>, k: Key, init: Option<Value>)
    requires !Mentions(log, k)
    ensures Lookup(log, k, init) == init
  {
    if log != [] {
      var n := |log| - 1;
      assert log[n].key != k;
      assert forall i :: 0 <= i < n ==> log[..n][i] == log[i];
      LookupUnmentioned(log[..n], k, init);
    }
  }

  /** Once a key is mentioned, what it was before no longer matters. */
  lemma {:induction false} LookupMentioned(log: seq<Command>, k: Key, a: Option<Value>, b: Option<Value>)
    requires Mentions(log, k)
    ensures Lookup(log, k, a) == Lookup(log, k, b)
  {
    var n := |log| - 1;
    if log[n].key != k {
      var i :| 0 <= i < |log| && log[i].key == k;
      assert log[..n][i].key == k;
      LookupMentioned(log[..n], k, a, b);
    }
  }

  lemma MentionsConcat(a: seq<Command>, b: seq<Command>, k: Key)
    ensures Mentions(a + b, k) <==> Mentions(a, k) || Mentions(b, k)
  {
    var ab := a + b;
    if Mentions(a, k) {
      var i :| 0 <= i < |a| && a[i].key == k;
      assert ab[i].key == k;
    }
    if Mentions(b, k) {
      var i :| 0 <= i < |b| && b[i].key == k;
      assert ab[|a| + i].key == k;
    }
    if Mentions(ab, k) {
      var i :| 0 <= i < |ab| && ab[i].key == k;
      assert if i < |a| then a[i].key == k else b[i - |a|].key == k;
    }
  }

  /** A log that only sets `k` to the value it already has does not change `k`. */
  lemma {:induction false} LookupSame(log: seq<Command>, k: Key, v: Option<Value>)
    requires forall i :: 0 <= i < |log| && log[i].key == k ==> Effect(log[i]) == v
    ensures Lookup(log, k, v) == v
  {
    if log != [] {
      var n := |log| - 1;
      assert forall i :: 0 <= i < n ==> log[..n][i] == log[i];
      LookupSame(log[..n], k, v);
    }
  }

  /** One command applied to the key/value map. */
  function Apply(m: Store, c: Command): (m': Store)
    ensures forall k :: Get(m', k) == if c.key == k then Effect(c) else Get(m, k)
  {
    match c
    case Set(_, key, value) => m[key := value]
    case Rm(_, key) => map k | k in m && k != key :: m[k]
  }

  /** A whole log applied to the map. */
  function ApplyAll(m: Store, log: seq<Command>): Store {
    if log == [] then m else Apply(ApplyAll(m, log[..|log| - 1]), log[|log| - 1])
  }

  lemma {:induction false} ApplyAllMeans(m: Store, log: seq<Command>, k: Key)
    ensures Get(ApplyAll(m, log), k) == Lookup(log, k, Get(m, k))
  {
    if log != [] {
      ApplyAllMeans(m, log[..|log| - 1], k);
    }
  }

  lemma SameMap(a: Store, b: Store)
    requires forall k :: Get(a, k) == Get(b, k)
    ensures a == b
  {
    forall k ensures (k in a <==> k in b) && (k in a ==> a[k] == b[k]) {
      assert Get(a, k) == Get(b, k);
    }
    assert a.Keys == b.Keys;
  }

  // ---- the log of a directory ----

  /** The ids of `ids` below `hi`, ascending. */
  function Sorted(ids: set<nat>, hi: nat): seq<nat> {
    if hi == 0 then [] else Sorted(ids, hi - 1) + (if hi - 1 in ids then [hi - 1] else [])
  }

  function FileOf(files: Files, dir: set<nat>, id: nat): seq<Command> {
    if id in dir && id in files then files[id] else []
  }

  /** The records of all linked files with ids in `[lo, hi)`, in replay order. */
  function Log(files: Files, dir: set<nat>, lo: nat, hi: nat): seq<Command>
    decreases hi
  {
    if hi <= lo then [] else Log(files, dir, lo, hi - 1) + FileOf(files, dir, hi - 1)
  }

  lemma {:induction false} LogSplit(files: Files, dir: set<nat>, lo: nat, mid: nat, hi: nat)
    requires lo <= mid <= hi
    ensures Log(files, dir, lo, hi) == Log(files, dir, lo, mid) + Log(files, dir, mid, hi)
    decreases hi
  {
    if mid < hi {
      LogSplit(files, dir, lo, mid, hi - 1);
    }
  }

  lemma {:induction false} LogFrame(files: Files, dir: set<nat>, files': Files, dir': set<nat>, lo: nat, hi: nat)
    requires forall id: nat :: lo <= id < hi ==> FileOf(files, dir, id) == FileOf(files', dir', id)
    ensures Log(files, dir, lo, hi) == Log(files', dir', lo, hi)
    decreases hi
  {
    if lo < hi {
      LogFrame(files, dir, files', dir', lo, hi - 1);
      assert FileOf(files, dir, hi - 1) == FileOf(files', dir', hi - 1);
    }
  }

  lemma {:induction false} LogEmpty(files: Files, dir: set<nat>, lo: nat, hi: nat)
    requires forall id: nat :: lo <= id < hi ==> FileOf(files, dir, id) == []
    ensures Log(files, dir, lo, hi) == []
    decreases hi
  {
    if lo < hi {
      LogEmpty(files, dir, lo, hi - 1);
      assert FileOf(files, dir, hi - 1) == [];
    }
  }

  lemma LogOne(files: Files, dir: set<nat>, id: nat)
    ensures Log(files, dir, id, id + 1) == FileOf(files, dir, id)
  {
    assert Log(files, dir, id, id) == [];
  }

  /** A record of a linked file is in the directory's log. */
  lemma MentionedInLog(files: Files, dir: set<nat>, lo: nat, hi: nat, id: nat, k: Key)
    requires lo <= id < hi && Mentions(FileOf(files, dir, id), k)
    ensures Mentions(Log(files, dir, lo, hi), k)
  {
    LogSplit(files, dir, lo, id, hi);
    LogSplit(files, dir, id, id + 1, hi);
    LogOne(files, dir, id);
    MentionsConcat(Log(files, dir, lo, id), Log(files, dir, id, hi), k);
    MentionsConcat(FileOf(files, dir, id), Log(files, dir, id + 1, hi), k);
  }

  /**
   The three parts of the log around file `id`: whatever is below, the file, whatever is
   above.
   */
  lemma LogAround(files: Files, dir: set<nat>, lo: nat, id: nat, hi: nat)
    requires lo <= id < hi
    ensures Log(files, dir, lo, hi) ==
            Log(files, dir, lo, id) + (FileOf(files, dir, id) + Log(files, dir, id + 1, hi))
  {
    LogSplit(files, dir, lo, id, hi);
    LogSplit(files, dir, id, id + 1, hi);
    LogOne(files, dir, id);
  }

  // ---- the keydir that replay builds ----

  function EntryFor(fileId: nat, offset: nat, c: Command): Entry {
    Hints.IndexValue(fileId, c.ts, offset, RecordLen(c))
  }

  function Without(index: Keydir, key: Key): Keydir {
    map k | k in index && k != key :: index[k]
  }

  /** One replayed record: `Set` records its place, `Rm` forgets the key. */
  function ReplayRecord(index: Keydir, fileId: nat, offset: nat, c: Command): Keydir {
    match c
    case Set(_, key, _) => index[key := EntryFor(fileId, offset, c)]
    case Rm(_, key) => Without(index, key)
  }

  function ReplayFile(index: Keydir, fileId: nat, recs: seq<Command>): Keydir {
    if recs == [] then index
    else
      var before := recs[..|recs| - 1];
      ReplayRecord(ReplayFile(index, fileId, before), fileId, Size(before), recs[|recs| - 1])
  }

  /** All linked files with ids below `hi`, in ascending order. */
  function ReplayDir(files: Files, dir: set<nat>, hi: nat): Keydir {
    if hi == 0 then map[]
    else if hi - 1 in dir && hi - 1 in files then
      ReplayFile(ReplayDir(files, dir, hi - 1), hi - 1, files[hi - 1])
    else ReplayDir(files, dir, hi - 1)
  }

  /** Stale bytes counted by replay: the tombstones themselves. */
  function ReplayStale(log: seq<Command>): nat {
    if log == [] then 0
    else
      ReplayStale(log[..|log| - 1]) + (if log[|log| - 1].Rm? then RecordLen(log[|log| - 1]) else 0)
  }

  /** Entry `e` names a record that sets `k` to `v`. */
  ghost predicate EntryOk(files: Files, k: Key, e: Entry, v: Value) {
    && e.fileId in files
    && Holds(files[e.fileId], e.offset, Set(e.ts, k, v))
    && e.len == RecordLen(Set(e.ts, k, v))
  }

  /** The index after replaying `recs` of file `fileId` on top of an index for `before`. */
  ghost predicate IndexMeans(index: Keydir, files: Files, dir: set<nat>, hi: nat, k: Key) {
    var found := Lookup(Log(files, dir, 0, hi), k, None);
    && (k in index <==> found.Some?)
    && (k in index ==> index[k].fileId in dir && index[k].fileId < hi && EntryOk(files, k, index[k], found.value))
  }

  lemma {:induction false} ReplayFileMeans(index: Keydir, fileId: nat, recs: seq<Command>, k: Key)
    ensures Lookup(recs, k, None).Some? && Mentions(recs, k) ==>
              && k in ReplayFile(index, fileId, recs)
              && var e := ReplayFile(index, fileId, recs)[k];
                 && e.fileId == fileId
                 && Holds(recs, e.offset, Set(e.ts, k, Lookup(recs, k, None).value))
                 && e.len == RecordLen(Set(e.ts, k, Lookup(recs, k, None).value))
    ensures Lookup(recs, k, None).None? && Mentions(recs, k) ==> k !in ReplayFile(index, fileId, recs)
    ensures !Mentions(recs, k) ==>
              && (k in ReplayFile(index, fileId, recs) <==> k in index)
              && (k in index ==> ReplayFile(index, fileId, recs)[k] == index[k])
    decreases |recs|
  {
    if recs != [] {
      var n := |recs| - 1;
      var before, last := recs[..n], recs[n];
      ReplayFileMeans(index, fileId, before, k);
      assert recs == before + [last];
      MentionsConcat(before, [last], k);
      assert Mentions([last], k) <==> last.key == k by {
        assert [last][0] == last;
      }
      if last.key == k {
        HoldsLast(before, last);
      } else if Mentions(before, k) && Lookup(before, k, None).Some? {
        var e := ReplayFile(index, fileId, before)[k];
        HoldsAppend(before, [last], e.offset, Set(e.ts, k, Lookup(before, k, None).value));
      }
    }
  }

  /** Replay finds, for every key, the place of its last value, and nothing for deleted keys. */
  lemma {:induction false} ReplayDirMeans(files: Files, dir: set<nat>, hi: nat, k: Key)
    ensures IndexMeans(ReplayDir(files, dir, hi), files, dir, hi, k)
  {
    if hi > 0 {
      ReplayDirMeans(files, dir, hi - 1, k);
      var recs := FileOf(files, dir, hi - 1);
      var before := Log(files, dir, 0, hi - 1);
      LookupConcat(before, recs, k, None);
      if hi - 1 in dir && hi - 1 in files {
        ReplayFileMeans(ReplayDir(files, dir, hi - 1), hi - 1, recs, k);
        if Mentions(recs, k) {
          LookupMentioned(recs, k, None, Lookup(before, k, None));
        } else {
          LookupUnmentioned(recs, k, Lookup(before, k, None));
        }
      }
    }
  }
}
