/**
 * The prefix index of app/kv.py: every prefix of length 1 to 4 of every stored
 * key maps to the set of stored keys that start with it; empty buckets are pruned.
 */
module PrefixIndex {
  import opened Common

  /** Only prefixes of length 1 to this many characters are indexed. */
  const MAX_PREFIX: nat := 4

  type Index = map<string, set<string>>

  /** `_add_to_prefix_index` files key k under p: p == k[:i] for some 1 <= i <= min(len(k), 4). */
  predicate IndexedUnder(p: string, k: string)
  {
    1 <= |p| <= MAX_PREFIX && StartsWith(k, p)
  }

  /** The bucket for p, read the way a defaultdict reads it. */
  function Bucket(index: Index, p: string): set<string>
  {
    if p in index then index[p] else {}
  }

  /** Reference definition of a bucket: the keys filed under p. */
  ghost function Filed(keys: set<string>, p: string): set<string>
  {
    set k | k in keys && IndexedUnder(p, k)
  }

  /** index is exactly the prefix index of the key set `keys`, with no empty bucket. */
  ghost predicate Indexes(index: Index, keys: set<string>)
  {
    && (forall p :: p in index ==> index[p] != {})
    && (forall p :: Bucket(index, p) == Filed(keys, p))
  }

  lemma EmptyIndexes()
    ensures Indexes(map[], {})
  {
  }

  /** The index is determined by the stored keys: two indexes of the same keys are equal. */
  lemma IndexDetermined(a: Index, b: Index, keys: set<string>)
    requires Indexes(a, keys) && Indexes(b, keys)
    ensures a == b
  {
    forall p
      ensures p in a <==> p in b
    {
      assert Bucket(a, p) == Bucket(b, p);
    }
    forall p | p in a
      ensures a[p] == b[p]
    {
      assert Bucket(a, p) == Bucket(b, p);
    }
  }

  /**
   * A bucket that exists holds exactly the keys starting with its prefix, and a
   * prefix has a bucket iff it is 1 to 4 characters long and some key starts with it.
   */
  lemma {:induction false} BucketIsPrefixScan(index: Index, keys: set<string>, h: string)
    requires Indexes(index, keys)
    ensures h in index <==> 1 <= |h| <= MAX_PREFIX && exists k :: k in keys && StartsWith(k, h)
    ensures h in index ==> index[h] == set k | k in keys && StartsWith(k, h)
  {
    assert Bucket(index, h) == Filed(keys, h);
    if 1 <= |h| <= MAX_PREFIX && exists k :: k in keys && StartsWith(k, h) {
      var k :| k in keys && StartsWith(k, h);
      assert k in Filed(keys, h);
    }
  }

  /** Filing one more key adds it to exactly the buckets of its own prefixes. */
  lemma FiledWith(keys: set<string>, key: string, p: string)
    ensures Filed(keys + {key}, p) == Filed(keys, p) + (if IndexedUnder(p, key) then {key} else {})
  {
  }

  /** Dropping a key removes it from every bucket and changes nothing else. */
  lemma FiledWithout(keys: set<string>, key: string, p: string)
    ensures Filed(keys - {key}, p) == Filed(keys, p) - {key}
  {
  }

  /** `_remove_from_prefix_index`'s result: key discarded from every bucket, emptied buckets deleted. */
  ghost function Discarded(index: Index, key: string): Index
  {
    map p | p in index && (key !in index[p] || index[p] - {key} != {}) :: index[p] - {key}
  }

  /** Discarding a key from the index of some keys gives the index of the keys without it. */
  lemma DiscardedIndexes(index: Index, keys: set<string>, key: string)
    requires Indexes(index, keys)
    ensures Indexes(Discarded(index, key), keys - {key})
  {
    forall p
      ensures Bucket(Discarded(index, key), p) == Filed(keys - {key}, p)
    {
      FiledWithout(keys, key, p);
      assert Bucket(index, p) == Filed(keys, p);
    }
  }
}
