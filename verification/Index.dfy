/**
 The keydir in memory: sixteen hash maps, a key living in the one its FNV-1a hash names.
 */
module Index {
  import opened Bytes
  import opened Logs

  const BUCKETS: nat := 16

  const FNV_OFFSET: bv64 := 0xcbf2_9ce4_8422_2325
  const FNV_PRIME: bv64 := 0x0000_0100_0000_01b3

  /** One byte of FNV-1a; the multiplication wraps at 64 bits. */
  function FnvStep(hash: bv64, b: byte): bv64 {
    (hash ^ (b as bv64)) * FNV_PRIME
  }

  function Fnv(key: Key): bv64 {
    if key == [] then FNV_OFFSET else FnvStep(Fnv(key[..|key| - 1]), key[|key| - 1])
  }

  /** The published FNV-1a value of the one-byte string "a". */
  lemma FnvCheckValue()
    ensures Fnv([97]) == 0xaf63_dc4c_8601_ec8c
  {
    var a: seq<byte> := [97];
    assert a[..0] == [];
    assert Fnv(a) == FnvStep(FNV_OFFSET, 97);
  }

  /** The low four bits of a hash as a number. */
  function Low4(h: bv64): (n: nat)
    ensures n < BUCKETS
  {
    var low: bv8 := (h % 16) as bv8;
    assert low < 16;
    low as nat
  }

  function BucketOf(key: Key): (b: nat)
    ensures b < BUCKETS
  {
    Folded(Fnv(key))
  }

  /** The hash folded to a bucket number. */
  function Folded(hash: bv64): (b: nat)
    ensures b < BUCKETS
  {
    Low4((hash >> 32) ^ hash)
  }

  /** `get_bucket`: the hash is updated in place, byte by byte. */
  method GetBucket(key: Key) returns (b: nat)
    ensures b == BucketOf(key)
  {
    hide FnvStep, Folded;
    var hash := FNV_OFFSET;
    for i := 0 to |key|
      invariant hash == Fnv(key[..i])
    {
      assert key[..i + 1][..i] == key[..i];
      hash := FnvStep(hash, key[i]);
    }
    assert key[..|key|] == key;
    b := Folded(hash);
  }

  /** The buckets of the empty key and of "a", from their published hashes. */
  lemma BucketCheckValues()
    ensures BucketOf([]) == 1 && BucketOf([97]) == 0
  {
    FnvCheckValue();
    hide Fnv;
    EmptyHash();
  }

  lemma EmptyHash()
    ensures Fnv([]) == 0xcbf2_9ce4_8422_2325
  {
  }

  // ---- sixteen buckets are one map ----

  type Buckets = s: seq<Keydir> | |s| == BUCKETS witness seq(BUCKETS, _ => map[])

  /** Every key sits in its own bucket and nowhere else, with the entry `m` has for it. */
  ghost predicate Shards(buckets: Buckets, m: Keydir) {
    && (forall i, k :: 0 <= i < BUCKETS && k in buckets[i] ==> BucketOf(k) == i)
    && (forall k :: k in m <==> k in buckets[BucketOf(k)])
    && (forall k :: k in m ==> m[k] == buckets[BucketOf(k)][k])
  }

  /** The buckets determine the map: two maps they both stand for are the same. */
  lemma ShardsUnique(buckets: Buckets, a: Keydir, b: Keydir)
    requires Shards(buckets, a) && Shards(buckets, b)
    ensures a == b
  {
    hide BucketOf;
    forall k ensures (k in a <==> k in b) && (k in a ==> a[k] == b[k]) {
    }
    assert a.Keys == b.Keys;
  }

  // ---- any sequence of keydir updates ----

  datatype Update =
    | Insert(key: Key, e: Entry)                                        // a replayed or appended set
    | Remove(key: Key)                                                  // a replayed or appended rm
    | Publish(key: Key, prevFile: nat, prevOffset: nat, copy: Entry)    // one pending merge update

  /** One update of one hash map; a publish looks at the entry again first. */
  function Updated(m: Keydir, u: Update): Keydir {
    match u
    case Insert(key, e) => m[key := e]
    case Remove(key) => Without(m, key)
    case Publish(key, prevFile, prevOffset, copy) =>
      if key in m && m[key].fileId == prevFile && m[key].offset == prevOffset then m[key := copy] else m
  }

  /** The same update under the key's bucket lock. */
  function UpdatedBucket(buckets: Buckets, u: Update): Buckets {
    var b := BucketOf(u.key);
    buckets[b := Updated(buckets[b], u)]
  }

  function UpdatedAll(m: Keydir, us: seq<Update>): Keydir {
    if us == [] then m else Updated(UpdatedAll(m, us[..|us| - 1]), us[|us| - 1])
  }

  function UpdatedBuckets(buckets: Buckets, us: seq<Update>): Buckets {
    if us == [] then buckets else UpdatedBucket(UpdatedBuckets(buckets, us[..|us| - 1]), us[|us| - 1])
  }

  lemma UpdateShards(buckets: Buckets, m: Keydir, u: Update)
    requires Shards(buckets, m)
    ensures Shards(UpdatedBucket(buckets, u), Updated(m, u))
  {
    hide BucketOf;
  }

  /** After any sequence of updates the buckets still stand for the one unsharded map. */
  lemma {:induction false} UpdatesShard(buckets: Buckets, m: Keydir, us: seq<Update>)
    requires Shards(buckets, m)
    ensures Shards(UpdatedBuckets(buckets, us), UpdatedAll(m, us))
  {
    hide Shards, Updated, UpdatedBucket;
    if us != [] {
      UpdatesShard(buckets, m, us[..|us| - 1]);
      UpdateShards(UpdatedBuckets(buckets, us[..|us| - 1]), UpdatedAll(m, us[..|us| - 1]), us[|us| - 1]);
    }
  }

  class Index {
    var buckets: Buckets
    ghost var contents: Keydir

    ghost predicate Valid()
      reads this
    {
      Shards(buckets, contents)
    }

    constructor ()
      ensures Valid() && contents == map[]
    {
      buckets := seq(BUCKETS, _ => map[]);
      contents := map[];
    }

    /** `read_access(key).get(key)`. */
    method Find(key: Key) returns (e: Option<Entry>)
      requires Valid()
      ensures e == if key in contents then Some(contents[key]) else None
    {
      hide BucketOf;
      var b := GetBucket(key);
      e := if key in buckets[b] then Some(buckets[b][key]) else None;
    }

    /** `write_access(key)`, then an insert that replaces an entry already there. */
    method Insert(key: Key, e: Entry)
      requires Valid()
      modifies this
      ensures Valid() && contents == old(contents)[key := e]
    {
      hide BucketOf;
      var b := GetBucket(key);
      buckets := buckets[b := buckets[b][key := e]];
      contents := contents[key := e];
    }

    /** Removes the key and hands back the entry it had. */
    method Remove(key: Key) returns (gone: Option<Entry>)
      requires Valid()
      modifies this
      ensures Valid() && contents == Without(old(contents), key)
      ensures gone == if key in old(contents) then Some(old(contents)[key]) else None
    {
      hide BucketOf;
      var b := GetBucket(key);
      gone := if key in buckets[b] then Some(buckets[b][key]) else None;
      buckets := buckets[b := Without(buckets[b], key)];
      contents := Without(contents, key);
    }
  }
}
