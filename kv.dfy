/**
 * The expiring key-value store `Kv` of app/kv.py. Every public operation is one
 * atomic step (the read/write lock of the source only serialises them) and
 * takes the clock reading `now` as a parameter.
 */
module KvStore {
  import opened Common
  import opened Values
  import opened HeapOrder
  import opened PrefixIndex
  import opened KvSpec

  /** Default number of keys one reaper run may delete. */
  const DEFAULT_MAX_CLEANUP_BATCH: int := 1000

  /** Result of `add`: stored, or the ValueError raised for a ttl below -1 before any change. */
  datatype AddOutcome = Added | TtlRejected

  class Kv {
    /** `_data`: key to (value, expiry). */
    var data: Data
    /** `_expiry_heap`, as its entries in pop order; it may hold stale entries. */
    var heap: seq<HeapEntry>
    /** `_prefix_index`: prefix of length 1 to 4 to the keys filed under it. */
    var index: Index
    /** `_max_cleanup_batch`. */
    const maxCleanupBatch: int

    /** The three structures agree: the heap is ordered and covers every expiring entry, the index is exact. */
    ghost predicate Valid()
      reads this
    {
      && Sorted(heap)
      && HeapCovers(heap, data)
      && Indexes(index, data.Keys)
    }

    constructor (maxCleanupBatch: int := DEFAULT_MAX_CLEANUP_BATCH)
      ensures Valid()
      ensures data == map[] && heap == [] && index == map[]
      ensures this.maxCleanupBatch == maxCleanupBatch
    {
      data := map[];
      heap := [];
      index := map[];
      this.maxCleanupBatch := maxCleanupBatch;
      EmptyIndexes();
    }

    /** `_add_to_prefix_index`: file key under each of its prefixes of length 1 to min(len(key), 4). */
    method AddToPrefixIndex(key: string, ghost keys: set<string>)
      requires Indexes(index, keys)
      modifies this`index
      ensures Indexes(index, keys + {key})
    {
      var stop := if |key| + 1 < MAX_PREFIX + 1 then |key| + 1 else MAX_PREFIX + 1;
      for i := 1 to stop
        invariant forall p :: p in index ==> index[p] != {}
        invariant forall p :: Bucket(index, p) == Filed(keys, p) + (if IndexedUnder(p, key) && |p| < i then {key} else {})
      {
        var prefix := key[..i];
        index := index[prefix := Bucket(index, prefix) + {key}];
      }
      forall p
        ensures Bucket(index, p) == Filed(keys + {key}, p)
      {
        FiledWith(keys, key, p);
      }
    }

    /**
     * `_remove_from_prefix_index`: discard key from every bucket that holds it,
     * then delete the buckets this left empty.
     */
    method RemoveFromPrefixIndex(key: string, ghost keys: set<string>)
      requires Indexes(index, keys)
      modifies this`index
      ensures Indexes(index, keys - {key})
    {
      DiscardedIndexes(index, keys, key);
      DiscardFromBuckets(key);
    }

    /** The two loops of `_remove_from_prefix_index`. */
    method DiscardFromBuckets(key: string)
      modifies this`index
      ensures index == Discarded(old(index), key)
    {
      var toRemove := EmptiedBuckets(key);
      DropBuckets(toRemove);
      assert index.Keys == Discarded(old(index), key).Keys;
    }

    /**
     * The first loop of `_remove_from_prefix_index`: discard key from every
     * bucket and list the prefixes whose bucket this emptied.
     */
    method EmptiedBuckets(key: string) returns (toRemove: seq<string>)
      modifies this`index
      ensures index.Keys == old(index).Keys
      ensures forall p :: p in index ==> index[p] == old(index)[p] - {key}
      ensures forall p :: p in toRemove <==> p in old(index) && key in old(index)[p] && old(index)[p] - {key} == {}
    {
      ghost var before := index;
      var buckets := index;
      var todo := buckets.Keys;
      toRemove := [];
      while todo != {}
        invariant todo <= before.Keys && buckets.Keys == before.Keys
        invariant forall p :: p in buckets ==> buckets[p] == if p in todo then before[p] else before[p] - {key}
        invariant forall p :: p in toRemove <==> p in before && p !in todo && key in before[p] && before[p] - {key} == {}
        decreases |todo|
      {
        var prefix :| prefix in todo;
        if key in buckets[prefix] {
          buckets := buckets[prefix := buckets[prefix] - {key}];
          if buckets[prefix] == {} {
            toRemove := toRemove + [prefix];
          }
        }
        todo := todo - {prefix};
      }
      index := buckets;
    }

    /** The second loop of `_remove_from_prefix_index`: delete the buckets it emptied. */
    method DropBuckets(toRemove: seq<string>)
      requires forall p :: p in toRemove ==> p in index
      modifies this`index
      ensures forall p :: p in index <==> p in old(index) && p !in toRemove
      ensures forall p :: p in index ==> index[p] == old(index)[p]
    {
      for j := 0 to |toRemove|
        invariant forall p :: p in index <==> p in old(index) && p !in toRemove[..j]
        invariant forall p :: p in index ==> index[p] == old(index)[p]
      {
        assert toRemove[..j + 1] == toRemove[..j] + [toRemove[j]];
        index := index - {toRemove[j]};
      }
      assert toRemove[..|toRemove|] == toRemove;
    }

    /**
     * `add(key, value, ttl)`: a ttl below -1 is rejected before any change;
     * otherwise the key is (re)stored with expiry now + ttl, or never for -1,
     * and an expiring entry gets a heap entry.
     */
    method Add(key: string, value: Value, ttl: int := -1, now: nat) returns (r: AddOutcome)
      requires Valid()
      modifies this`data, this`heap, this`index
      ensures Valid()
      ensures r == TtlRejected <==> ttl < -1
      ensures ttl < -1 ==> data == old(data) && heap == old(heap) && index == old(index)
      ensures ttl >= -1 ==> data == Stored(old(data), key, value, ttl, now)
      ensures ttl >= -1 ==> heap == if ttl == -1 then old(heap) else Push(old(heap), HeapEntry(now + ttl, key))
    {
      if ttl < -1 {
        return TtlRejected;
      }
      if key in data {
        RemoveFromPrefixIndex(key, data.Keys);
      }
      var expiry;
      if ttl == -1 {
        expiry := NEVER;
      } else {
        expiry := now + ttl;
        heap := Push(heap, HeapEntry(expiry, key));
      }
      data := data[key := Entry(value, expiry)];
      AddToPrefixIndex(key, data.Keys - {key});
      assert data.Keys - {key} + {key} == data.Keys;
      CoverAfterStore(old(heap), old(data), key, Entry(value, expiry));
      r := Added;
    }

    /**
     * `get(key, default)`: the value of a live key; an expired key is removed
     * from `_data` and the index and the default returned; an absent key gives
     * the default and changes nothing.
     */
    method Get(key: string, default: Value := Null, now: nat) returns (r: Value)
      requires Valid()
      modifies this`data, this`index
      ensures Valid() && heap == old(heap)
      ensures data == Expire(old(data), key, now)
      ensures r == if Lookup(old(data), key, now).Some? then Lookup(old(data), key, now).value else default
    {
      if key in data {
        var entry := data[key];
        if entry.expiry != NEVER && now > entry.expiry {
          ghost var keys := data.Keys;
          data := data - {key};
          RemoveFromPrefixIndex(key, keys);
          return default;
        }
        return entry.value;
      }
      return default;
    }

    /** `delete(key)`: removes the key and its index entries; no-op when absent. */
    method Delete(key: string)
      requires Valid()
      modifies this`data, this`index
      ensures Valid() && heap == old(heap)
      ensures data == old(data) - {key}
    {
      if key in data {
        ghost var keys := data.Keys;
        data := data - {key};
        RemoveFromPrefixIndex(key, keys);
      }
    }

    /** `exists(key)`: whether the key is live, with the same lazy expiry as `get`. */
    method Exists(key: string, now: nat) returns (r: bool)
      requires Valid()
      modifies this`data, this`index
      ensures Valid() && heap == old(heap)
      ensures data == Expire(old(data), key, now)
      ensures r <==> Lookup(old(data), key, now).Some?
    {
      if key in data {
        var entry := data[key];
        if entry.expiry != NEVER && now > entry.expiry {
          ghost var keys := data.Keys;
          data := data - {key};
          RemoveFromPrefixIndex(key, keys);
          return false;
        }
        return true;
      }
      return false;
    }

    /** `keys()`: every live key once; expired entries are skipped, not removed. */
    method Keys(now: nat) returns (ks: seq<string>)
      ensures Distinct(ks) && (set k | k in ks) == LiveKeys(data, now)
    {
      ks := [];
      var rest := data.Keys;
      while rest != {}
        invariant rest <= data.Keys
        invariant Distinct(ks)
        invariant forall k :: k in ks <==> k in data && k !in rest && Live(data[k].expiry, now)
        decreases |rest|
      {
        var key :| key in rest;
        if data[key].expiry == NEVER || now <= data[key].expiry {
          ks := ks + [key];
        }
        rest := rest - {key};
      }
    }

    /**
     * `values()`: one value per live key, each the live value of a key; the
     * ghost ks names the key of each value, every live key exactly once.
     */
    method Values(now: nat) returns (vs: seq<Value>, ghost ks: seq<string>)
      ensures |vs| == |LiveKeys(data, now)|
      ensures forall i :: 0 <= i < |vs| ==> vs[i] in LiveView(data, now).Values
      ensures Distinct(ks) && (set k | k in ks) == LiveKeys(data, now)
      ensures |vs| == |ks| && forall i :: 0 <= i < |ks| ==> ks[i] in data && vs[i] == data[ks[i]].value
    {
      vs, ks := [], [];
      ghost var listed: set<string> := {};
      var rest := data.Keys;
      while rest != {}
        invariant rest <= data.Keys
        invariant Distinct(ks) && |vs| == |ks| && |vs| == |listed|
        invariant listed == set k | k in data && k !in rest && Live(data[k].expiry, now)
        invariant forall k :: k in ks <==> k in listed
        invariant forall i :: 0 <= i < |ks| ==> ks[i] in data && vs[i] == data[ks[i]].value
        decreases |rest|
      {
        var key :| key in rest;
        if data[key].expiry == NEVER || now <= data[key].expiry {
          vs, ks := vs + [data[key].value], ks + [key];
          listed := listed + {key};
        }
        rest := rest - {key};
      }
      assert listed == LiveKeys(data, now);
      forall i | 0 <= i < |vs|
        ensures vs[i] in LiveView(data, now).Values
      {
        assert ks[i] in listed;
        assert LiveView(data, now)[ks[i]] == vs[i];
      }
    }

    /** `count_ka()`: the number of live keys. */
    method CountAll(now: nat) returns (n: nat)
      ensures n == |LiveKeys(data, now)|
    {
      n := 0;
      ghost var counted: set<string> := {};
      var rest := data.Keys;
      while rest != {}
        invariant rest <= data.Keys
        invariant counted == set k | k in data && k !in rest && Live(data[k].expiry, now)
        invariant n == |counted|
        decreases |rest|
      {
        var key :| key in rest;
        if data[key].expiry == NEVER || now <= data[key].expiry {
          n := n + 1;
          counted := counted + {key};
        }
        rest := rest - {key};
      }
      assert counted == LiveKeys(data, now);
    }

    /**
     * The candidates `count_kh` and `keys_kh` scan: the index bucket for head
     * when there is one, otherwise every stored key starting with head.
     * Either way they are the stored keys starting with head.
     */
    method PrefixCandidates(head: string) returns (candidates: set<string>)
      requires Valid()
      ensures candidates == set k | k in data && StartsWith(k, head)
    {
      BucketIsPrefixScan(index, data.Keys, head);
      if head in index {
        candidates := index[head];
      } else {
        candidates := set k | k in data && StartsWith(k, head);
      }
    }

    /** `count_kh(head)`: the number of live keys starting with head, via the index or the fallback scan. */
    method CountWithPrefix(head: string, now: nat) returns (n: nat)
      requires Valid()
      ensures n == |LiveKeysWith(data, now, head)|
    {
      var candidates := PrefixCandidates(head);
      n := 0;
      ghost var counted: set<string> := {};
      var rest := candidates;
      while rest != {}
        invariant rest <= candidates
        invariant counted == set k | k in candidates && k !in rest && k in data && Live(data[k].expiry, now)
        invariant n == |counted|
        decreases |rest|
      {
        var key :| key in rest;
        if key in data && (data[key].expiry == NEVER || now <= data[key].expiry) {
          n := n + 1;
          counted := counted + {key};
        }
        rest := rest - {key};
      }
      assert counted == LiveKeysWith(data, now, head);
    }

    /** `keys_kh(head)`: every live key starting with head once, via the index or the fallback scan. */
    method KeysWithPrefix(head: string, now: nat) returns (ks: seq<string>)
      requires Valid()
      ensures Distinct(ks) && (set k | k in ks) == LiveKeysWith(data, now, head)
    {
      var candidates := PrefixCandidates(head);
      ks := [];
      var rest := candidates;
      while rest != {}
        invariant rest <= candidates
        invariant Distinct(ks)
        invariant forall k :: k in ks <==> k in candidates && k !in rest && k in data && Live(data[k].expiry, now)
        decreases |rest|
      {
        var key :| key in rest;
        if key in data && (data[key].expiry == NEVER || now <= data[key].expiry) {
          ks := ks + [key];
        }
        rest := rest - {key};
      }
    }

    /** `value_is_true(key)`: the key is live and holds the boolean True (not 1, not any truthy value). */
    method ValueIsTrue(key: string, now: nat) returns (r: bool)
      ensures r == IsTrue(data, key, now)
    {
      if key in data {
        var entry := data[key];
        if (entry.expiry == NEVER || now <= entry.expiry) && entry.value.Bool? && entry.value.b {
          return true;
        }
      }
      return false;
    }

    /** `get_ttl(key)`: None when absent or due, -1 when never expiring, else the remaining seconds. */
    method GetTtl(key: string, now: nat) returns (r: Option<int>)
      ensures r == RemainingTtl(data, key, now)
    {
      if key !in data {
        return None;
      }
      var entry := data[key];
      if entry.expiry == NEVER {
        return Some(NEVER);
      }
      var remaining := entry.expiry - now;
      if remaining <= 0 {
        return None;
      }
      return Some(remaining);
    }

    /**
     * `extend_ttl(key, seconds)`: false for an absent key, false and removal
     * for an expired one, true and no change for a never-expiring one,
     * otherwise true with expiry moved by seconds and a new heap entry.
     */
    method ExtendTtl(key: string, seconds: int, now: nat) returns (ok: bool)
      requires Valid()
      modifies this`data, this`heap, this`index
      ensures Valid()
      ensures (ok, data) == Extended(old(data), key, seconds, now)
      ensures heap == if ok && old(data)[key].expiry != NEVER
        then Push(old(heap), HeapEntry(old(data)[key].expiry + seconds, key)) else old(heap)
    {
      if key !in data {
        return false;
      }
      var entry := data[key];
      if entry.expiry != NEVER && now > entry.expiry {
        ghost var keys := data.Keys;
        data := data - {key};
        RemoveFromPrefixIndex(key, keys);
        return false;
      }
      if entry.expiry == NEVER {
        return true;
      }
      var newExpiry := entry.expiry + seconds;
      data := data[key := Entry(entry.value, newExpiry)];
      heap := Push(heap, HeapEntry(newExpiry, key));
      assert data.Keys == old(data).Keys;
      CoverAfterStore(old(heap), old(data), key, Entry(entry.value, newExpiry));
      return true;
    }

    /** `clear()`: drops every entry, every heap entry and the whole index. */
    method Clear()
      modifies this`data, this`heap, this`index
      ensures Valid()
      ensures data == map[] && heap == [] && index == map[]
    {
      data := map[];
      heap := [];
      index := map[];
      EmptyIndexes();
    }

    /**
     * `_cleanup_expired_batch()`: pop due heap entries (see KvSpec.Scan), then
     * delete the marked keys from `_data` and the index.
     */
    method CleanupExpiredBatch(now: nat)
      requires Valid()
      modifies this`data, this`heap, this`index
      ensures Valid()
      ensures var s := Scan(old(heap), old(data), now, maxCleanupBatch);
        heap == old(heap)[s.popped..] && data == Reaped(old(data), s.victims)
      ensures heap == [] || heap[0].expiry > now ==>
        forall k :: k in data ==> data[k].expiry == NEVER || data[k].expiry > now
    {
      ghost var h0, d0 := heap, data;
      var expiredKeys := PopDue(now);
      DeleteMarked(expiredKeys);
      ghost var s := Scan(h0, d0, now, maxCleanupBatch);
      assert Sorted(heap) by {
        assert forall i :: 0 <= i < |heap| ==> heap[i] == h0[s.popped + i];
      }
      ReapKeepsCover(h0, d0, now, maxCleanupBatch);
      if heap == [] || heap[0].expiry > now {
        assert s.popped == |h0| || h0[s.popped] == heap[0];
        ReapComplete(h0, d0, now, maxCleanupBatch);
      }
    }

    /** The pop loop of `_cleanup_expired_batch`: it changes only the heap and returns the marked keys. */
    method PopDue(now: nat) returns (expiredKeys: seq<string>)
      modifies this`heap
      ensures var s := Scan(old(heap), data, now, maxCleanupBatch);
        heap == old(heap)[s.popped..] && expiredKeys == s.victims
    {
      ghost var h0 := heap;
      ghost var goal := Scan(h0, data, now, maxCleanupBatch);
      ghost var popped := 0;
      expiredKeys := [];
      var count := 0;
      assert expiredKeys + goal.victims == goal.victims;
      while heap != [] && heap[0].expiry != NEVER && heap[0].expiry <= now && count < maxCleanupBatch
        invariant 0 <= popped <= |h0| && heap == h0[popped..]
        invariant count == |expiredKeys|
        invariant Completes(goal, heap, data, now, maxCleanupBatch - count, popped, expiredKeys)
        decreases |heap|
      {
        ScanStep(goal, heap, data, now, maxCleanupBatch - count, popped, expiredKeys);
        var top := heap[0];
        heap := heap[1..];
        popped := popped + 1;
        if top.key in data && data[top.key].expiry == top.expiry {
          expiredKeys := expiredKeys + [top.key];
          count := count + 1;
        }
      }
      ScanDone(goal, heap, data, now, maxCleanupBatch - count, popped, expiredKeys);
    }

    /** The delete loop of `_cleanup_expired_batch`: drop each marked key that is still stored. */
    method DeleteMarked(expiredKeys: seq<string>)
      requires Indexes(index, data.Keys)
      modifies this`data, this`index
      ensures Indexes(index, data.Keys)
      ensures data == Reaped(old(data), expiredKeys)
    {
      for i := 0 to |expiredKeys|
        invariant forall k :: k in data <==> k in old(data) && k !in expiredKeys[..i]
        invariant forall k :: k in data ==> data[k] == old(data)[k]
        invariant Indexes(index, data.Keys)
      {
        var key := expiredKeys[i];
        assert expiredKeys[..i + 1] == expiredKeys[..i] + [key];
        if key in data {
          ghost var keys := data.Keys;
          data := data - {key};
          RemoveFromPrefixIndex(key, keys);
        }
      }
      assert expiredKeys[..|expiredKeys|] == expiredKeys;
    }
  }
}
