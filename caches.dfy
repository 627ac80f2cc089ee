// The two containers the processor reaches only through get/add calls: the
// per-mount-namespace PID buckets and the bounded hash cache. Only the
// behaviour the processor relies on is promised; each body is one policy
// that keeps those promises.

module Caches {
  import opened Events

  /** The bucket of a namespace in a bucket table; a namespace without one has none. */
  function BucketIn(buckets: map<uint32, seq<uint32>>, mnt: uint32): seq<uint32>
  {
    if mnt in buckets then buckets[mnt] else []
  }

  /** The PIDs force-inserted into a namespace's bucket so far. */
  function PinnedIn(pinned: map<uint32, set<uint32>>, mnt: uint32): set<uint32>
  {
    if mnt in pinned then pinned[mnt] else {}
  }

  /** What the processor relies on from one insertion of pid into mnt's bucket.
      The container's code is not part of this model, so this is an assumption
      about it, stated in full: other namespaces keep their buckets; the bucket
      gains no PID but pid; a force-inserted PID in the bucket stays in it. A
      forced insertion always leaves pid in the bucket and records it as
      force-inserted. A conditional insertion appends pid to a bucket below its
      limit; into a full bucket it may evict PIDs that were not force-inserted,
      and the bucket does not grow. */
  ghost predicate InsertedInto(buckets: map<uint32, seq<uint32>>, buckets': map<uint32, seq<uint32>>,
                               pinned: map<uint32, set<uint32>>, pinned': map<uint32, set<uint32>>,
                               bucketLimit: nat, mnt: uint32, pid: uint32, forced: bool)
  {
    var before, after := BucketIn(buckets, mnt), BucketIn(buckets', mnt);
    && (forall m :: m != mnt ==> BucketIn(buckets', m) == BucketIn(buckets, m))
    && (forall p :: p in after ==> p in before || p == pid)
    && (forall p :: p in before && p in PinnedIn(pinned, mnt) ==> p in after)
    && if forced then pid in after && pinned' == pinned[mnt := PinnedIn(pinned, mnt) + {pid}]
       else pinned' == pinned && if |before| < bucketLimit then after == before + [pid] else |after| <= |before|
  }

  /** PIDs seen executing in each mount namespace, at most bucketLimit each for
      conditional insertions, and the force-inserted PIDs of each, which are
      never evicted. */
  class PidBuckets {
    const bucketLimit: nat
    var buckets: map<uint32, seq<uint32>>
    var pinned: map<uint32, set<uint32>>

    constructor (bucketLimit: nat)
      ensures this.bucketLimit == bucketLimit && buckets == map[] && pinned == map[]
    {
      this.bucketLimit := bucketLimit;
      buckets := map[];
      pinned := map[];
    }

    /** Insertion subject to the bucket's capacity. A full bucket makes room by
        evicting its oldest PID that was not force-inserted; when every PID in it
        was force-inserted, it takes no new PID. */
    method AddBucketItem(mnt: uint32, pid: uint32)
      modifies this
      ensures InsertedInto(old(buckets), buckets, old(pinned), pinned, bucketLimit, mnt, pid, false)
    {
      var bucket := BucketIn(buckets, mnt);
      if |bucket| < bucketLimit {
        buckets := buckets[mnt := bucket + [pid]];
        return;
      }
      var keep := PinnedIn(pinned, mnt);
      var i := 0;
      while i < |bucket| && bucket[i] in keep
        invariant 0 <= i <= |bucket|
      {
        i := i + 1;
      }
      if i < |bucket| {
        var rest := bucket[..i] + bucket[i + 1..];
        assert bucket == bucket[..i] + [bucket[i]] + bucket[i + 1..];
        assert forall p :: p in bucket && p != bucket[i] ==> p in rest;
        buckets := buckets[mnt := rest + [pid]];
      }
    }

    /** Insertion that always succeeds; the PID is never evicted afterwards. */
    method ForceAddBucketItem(mnt: uint32, pid: uint32)
      modifies this
      ensures InsertedInto(old(buckets), buckets, old(pinned), pinned, bucketLimit, mnt, pid, true)
    {
      var bucket := BucketIn(buckets, mnt);
      buckets := buckets[mnt := bucket + [pid]];
      pinned := pinned[mnt := PinnedIn(pinned, mnt) + {pid}];
    }
  }

  /** After adding k with value v to a cache: k maps to v, and every other entry
      kept is unchanged (some may have been evicted). */
  predicate StoredIn<K(==), V(==)>(before: map<K, V>, after: map<K, V>, k: K, v: V)
  {
    && k in after && after[k] == v
    && forall k' :: k' in after && k' != k ==> k' in before && after[k'] == before[k']
  }

  /** A cache of at most capacity entries. Adding may evict other entries; it never
      changes the value of an entry it keeps. */
  class HashCache<K(==), V> {
    const capacity: nat
    var entries: map<K, V>

    ghost predicate Valid()
      reads this
    {
      0 < capacity && |entries| <= capacity
    }

    constructor (capacity: nat)
      requires 0 < capacity
      ensures Valid() && this.capacity == capacity && entries == map[]
    {
      this.capacity := capacity;
      entries := map[];
    }

    method Get(k: K) returns (r: Option<V>)
      ensures r.Some? <==> k in entries
      ensures r.Some? ==> r.value == entries[k]
    {
      r := if k in entries then Some(entries[k]) else None;
    }

    method Add(k: K, v: V)
      requires Valid()
      modifies this
      ensures Valid()
      ensures StoredIn(old(entries), entries, k, v)
    {
      if k !in entries && |entries| == capacity {
        var victim :| victim in entries;
        var kept := entries - {victim};
        assert kept.Keys == entries.Keys - {victim};
        entries := kept;
      }
      entries := entries[k := v];
    }
  }

  /** A PID force-inserted into a namespace's bucket is still there after any
      number of later insertions, conditional or forced, into any buckets,
      whatever insertions built the table before it. */
  method InitPidSurvivesChurn(bucketLimit: nat, earlier: seq<(uint32, uint32, bool)>, mnt: uint32, initPid: uint32,
                              later: seq<(uint32, uint32, bool)>) returns (bucket: seq<uint32>)
    ensures initPid in bucket
  {
    var pids := new PidBuckets(bucketLimit);
    for i := 0 to |earlier| {
      var (m, pid, forced) := earlier[i];
      if forced {
        pids.ForceAddBucketItem(m, pid);
      } else {
        pids.AddBucketItem(m, pid);
      }
    }
    pids.ForceAddBucketItem(mnt, initPid);
    for i := 0 to |later|
      invariant initPid in BucketIn(pids.buckets, mnt) && initPid in PinnedIn(pids.pinned, mnt)
    {
      var (m, pid, forced) := later[i];
      if forced {
        pids.ForceAddBucketItem(m, pid);
      } else {
        pids.AddBucketItem(m, pid);
      }
    }
    bucket := BucketIn(pids.buckets, mnt);
  }
}
