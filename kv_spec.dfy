/**
 * Pure specification of the store in app/kv.py: what each operation does to
 * the `_data` dict, as functions of the old dict, the arguments and the clock
 * reading `now`, and the properties these transitions have.
 */
module KvSpec {
  import opened Common
  import opened Values
  import opened HeapOrder

  /** The `_data` dict: key to (value, expiry). */
  type Data = map<string, Entry>

  /** The store as callers observe it at time now: the live keys and their values. */
  ghost function LiveView(d: Data, now: int): map<string, Value>
  {
    map k | k in d && Live(d[k].expiry, now) :: d[k].value
  }

  /** The keys callers see at time now. */
  ghost function LiveKeys(d: Data, now: int): set<string>
  {
    set k | k in d && Live(d[k].expiry, now)
  }

  /** The live keys that start with head. */
  ghost function LiveKeysWith(d: Data, now: int, head: string): set<string>
  {
    set k | k in d && Live(d[k].expiry, now) && StartsWith(k, head)
  }

  /** The value `get` reports for key at time now, or None when it reports the default. */
  function Lookup(d: Data, key: string, now: int): (r: Option<Value>)
    ensures r.Some? <==> key in LiveView(d, now)
    ensures r.Some? ==> r.value == LiveView(d, now)[key]
  {
    if key in d && Live(d[key].expiry, now) then Some(d[key].value) else None
  }

  /** The expiry `add` stores for an accepted ttl (-1 means never). */
  function ExpiryFor(ttl: int, now: int): int
  {
    if ttl == -1 then NEVER else now + ttl
  }

  /** `_data` after `add(key, value, ttl)` at time now, for an accepted ttl. */
  function Stored(d: Data, key: string, value: Value, ttl: int, now: int): Data
  {
    d[key := Entry(value, ExpiryFor(ttl, now))]
  }

  /** The lazy-expiry side effect of get, exists and extend_ttl: an expired key is dropped. */
  function Expire(d: Data, key: string, now: int): (r: Data)
    ensures r.Keys == if key in d && !Live(d[key].expiry, now) then d.Keys - {key} else d.Keys
    ensures forall k :: k in r ==> r[k] == d[k]
  {
    if key in d && !Live(d[key].expiry, now) then d - {key} else d
  }

  /** `_data` after `extend_ttl(key, seconds)` at time now, with the result it returns. */
  function Extended(d: Data, key: string, seconds: int, now: int): (r: (bool, Data))
    ensures r.0 <==> Lookup(d, key, now).Some?
    ensures r.0 ==> key in r.1 && r.1[key].value == d[key].value
    ensures r.0 && d[key].expiry == NEVER ==> r.1 == d
    ensures r.0 && d[key].expiry != NEVER ==> r.1[key].expiry == d[key].expiry + seconds
    ensures !r.0 ==> r.1 == Expire(d, key, now) && key !in r.1
    ensures forall k :: k != key ==> (k in r.1 <==> k in d) && (k in r.1 ==> r.1[k] == d[k])
  {
    if key !in d then (false, d)
    else if d[key].expiry != NEVER && now > d[key].expiry then (false, d - {key})
    else if d[key].expiry == NEVER then (true, d)
    else (true, d[key := Entry(d[key].value, d[key].expiry + seconds)])
  }

  /**
   * `get_ttl(key)` at time now: None for an absent or expired key, -1 for a
   * never-expiring one, otherwise the whole seconds the key stays live.
   */
  function RemainingTtl(d: Data, key: string, now: int): (r: Option<int>)
    ensures r == None <==> key !in d || (d[key].expiry != NEVER && d[key].expiry <= now)
    ensures r == Some(NEVER) <==> key in d && d[key].expiry == NEVER
    ensures r.Some? && r.value != NEVER ==>
      r.value > 0 && key in d && Live(d[key].expiry, now + r.value) && !Live(d[key].expiry, now + r.value + 1)
  {
    if key !in d then None
    else if d[key].expiry == NEVER then Some(NEVER)
    else
      var remaining := d[key].expiry - now;
      if remaining <= 0 then None else Some(remaining)
  }

  /** `value_is_true(key)` at time now: the key is live and holds the boolean True itself. */
  function IsTrue(d: Data, key: string, now: int): (r: bool)
    ensures r <==> Lookup(d, key, now) == Some(Bool(true))
  {
    key in d && Live(d[key].expiry, now) && d[key].value.Bool? && d[key].value.b
  }

  /** Every entry with a finite expiry has a heap entry carrying exactly that expiry. */
  ghost predicate HeapCovers(h: seq<HeapEntry>, d: Data)
  {
    forall k :: k in d && d[k].expiry != NEVER ==> HeapEntry(d[k].expiry, k) in h
  }

  /** Outcome of the reaper's pop loop: how many heap entries it popped, and the keys it marked. */
  datatype Sweep = Sweep(popped: nat, victims: seq<string>)

  /**
   * The pop loop of `_cleanup_expired_batch`: pop while the least entry is not
   * the never sentinel, is due (expiry <= now) and fewer than `budget` keys are
   * marked; a popped entry marks its key only when the key is stored with
   * exactly the popped expiry, and only marked keys use up the budget.
   */
  function Scan(h: seq<HeapEntry>, d: Data, now: int, budget: int): (r: Sweep)
    ensures r.popped <= |h| && |r.victims| <= r.popped
    decreases |h|
  {
    if !Due(h, now) || budget <= 0 then
      Sweep(0, [])
    else
      var rest := Scan(h[1..], d, now, if Fresh(h[0], d) then budget - 1 else budget);
      Sweep(rest.popped + 1, if Fresh(h[0], d) then [h[0].key] + rest.victims else rest.victims)
  }

  /** The least heap entry exists, is not the never sentinel and is due at now. */
  predicate Due(h: seq<HeapEntry>, now: int)
  {
    h != [] && h[0].expiry != NEVER && h[0].expiry <= now
  }

  /** The staleness guard: the entry's key is stored with exactly the entry's expiry. */
  predicate Fresh(e: HeapEntry, d: Data)
  {
    e.key in d && d[e.key].expiry == e.expiry
  }

  /**
   * A run marks at most `budget` keys (none for a budget of 0 or less), and
   * it stops only at the end of the heap, at the never sentinel, at an entry
   * not yet due, or with the budget used up.
   */
  lemma {:induction false} ScanCap(h: seq<HeapEntry>, d: Data, now: int, budget: int)
    ensures var r := Scan(h, d, now, budget);
      && |r.victims| <= (if budget < 0 then 0 else budget)
      && (r.popped == |h| || !Due(h[r.popped..], now) || |r.victims| >= budget)
    decreases |h|
  {
    if Due(h, now) && budget > 0 {
      var b' := if Fresh(h[0], d) then budget - 1 else budget;
      ScanCap(h[1..], d, now, b');
      var rest := Scan(h[1..], d, now, b');
      assert h[1..][rest.popped..] == h[rest.popped + 1..];
    }
  }

  /**
   * Loop invariant of the reaper: having popped `popped` entries and marked
   * `marked`, a run over the remaining heap with the remaining budget
   * completes the run `goal` over the whole heap.
   */
  ghost predicate Completes(goal: Sweep, h: seq<HeapEntry>, d: Data, now: int, budget: int, popped: nat, marked: seq<string>)
  {
    var rest := Scan(h, d, now, budget);
    goal == Sweep(popped + rest.popped, marked + rest.victims)
  }

  /** One pop of the reaper loop keeps `Completes`. */
  lemma ScanStep(goal: Sweep, h: seq<HeapEntry>, d: Data, now: int, budget: int, popped: nat, marked: seq<string>)
    requires Completes(goal, h, d, now, budget, popped, marked)
    requires Due(h, now) && budget > 0
    ensures Completes(goal, h[1..], d, now, if Fresh(h[0], d) then budget - 1 else budget,
      popped + 1, if Fresh(h[0], d) then marked + [h[0].key] else marked)
  {
    var rest := Scan(h[1..], d, now, if Fresh(h[0], d) then budget - 1 else budget);
    if Fresh(h[0], d) {
      assert marked + ([h[0].key] + rest.victims) == (marked + [h[0].key]) + rest.victims;
    }
  }

  /** When the reaper loop stops, `Completes` says the run is over. */
  lemma ScanDone(goal: Sweep, h: seq<HeapEntry>, d: Data, now: int, budget: int, popped: nat, marked: seq<string>)
    requires Completes(goal, h, d, now, budget, popped, marked)
    requires !Due(h, now) || budget <= 0
    ensures goal == Sweep(popped, marked)
  {
    assert marked + [] == marked;
  }

  /** The keys of the entries of `s` that are not stale, in pop order, one per entry. */
  function FreshKeys(s: seq<HeapEntry>, d: Data): (r: seq<string>)
    ensures |r| <= |s|
  {
    if s == [] then []
    else (if Fresh(s[0], d) then [s[0].key] else []) + FreshKeys(s[1..], d)
  }

  /**
   * The reaper pops only due entries; it marks a key only for a popped heap
   * entry that is due and not stale; and it marks exactly one key per popped
   * entry that is not stale, in pop order, so stale pops neither mark nor
   * use up the budget.
   */
  lemma {:induction false} ScanSound(h: seq<HeapEntry>, d: Data, now: int, budget: int)
    ensures var r := Scan(h, d, now, budget);
      && (forall j :: 0 <= j < r.popped ==> h[j].expiry != NEVER && h[j].expiry <= now)
      && (forall k :: k in r.victims ==>
            k in d && d[k].expiry != NEVER && d[k].expiry <= now && HeapEntry(d[k].expiry, k) in h[..r.popped])
      && (forall j :: 0 <= j < r.popped && Fresh(h[j], d) ==> h[j].key in r.victims)
      && r.victims == FreshKeys(h[..r.popped], d)
    decreases |h|
  {
    var r := Scan(h, d, now, budget);
    if Due(h, now) && budget > 0 {
      var b' := if Fresh(h[0], d) then budget - 1 else budget;
      var rest := Scan(h[1..], d, now, b');
      ScanSound(h[1..], d, now, b');
      assert forall j :: 1 <= j < r.popped ==> h[j] == h[1..][j - 1];
      var popped := [h[0]] + h[1..][..rest.popped];
      assert h[..r.popped] == popped;
      assert popped[1..] == h[1..][..rest.popped];
    } else {
      assert h[..r.popped] == [];
    }
  }

  /** `_data` after the reaper deletes the marked keys. */
  function Reaped(d: Data, victims: seq<string>): (r: Data)
    ensures r.Keys == d.Keys - set k | k in victims
    ensures forall k :: k in r ==> r[k] == d[k]
  {
    d - set k | k in victims
  }

  /** Storing an entry keeps every expiring entry covered once its own heap entry is pushed. */
  lemma CoverAfterStore(h: seq<HeapEntry>, d: Data, key: string, e: Entry)
    requires HeapCovers(h, d)
    ensures e.expiry == NEVER ==> HeapCovers(h, d[key := e])
    ensures HeapCovers(Push(h, HeapEntry(e.expiry, key)), d[key := e])
  {
    var h' := Push(h, HeapEntry(e.expiry, key));
    var d' := d[key := e];
    forall k | k in d' && d'[k].expiry != NEVER
      ensures HeapEntry(d'[k].expiry, k) in h'
    {
      if k != key {
        assert multiset(h')[HeapEntry(d[k].expiry, k)] > 0;
      } else {
        assert multiset(h')[HeapEntry(e.expiry, key)] > 0;
      }
    }
  }

  // ---------------------------------------------------------------- properties

  /** After add, the key reads back as value exactly while its ttl has not run out; no other key changes. */
  lemma StoredThenLookup(d: Data, key: string, value: Value, ttl: int, now: nat, t: int)
    requires ttl >= -1
    ensures Lookup(Stored(d, key, value, ttl, now), key, t) ==
      if ttl == -1 || t <= now + ttl then Some(value) else None
    ensures forall k :: k != key ==> Lookup(Stored(d, key, value, ttl, now), k, t) == Lookup(d, k, t)
  {
  }

  /** What add does to the observable store at any later time t. */
  lemma StoredView(d: Data, key: string, value: Value, ttl: int, now: nat, t: int)
    requires ttl >= -1
    ensures LiveView(Stored(d, key, value, ttl, now), t) ==
      if ttl == -1 || t <= now + ttl then LiveView(d, t)[key := value] else LiveView(d, t) - {key}
  {
    var d' := Stored(d, key, value, ttl, now);
    var expected := if ttl == -1 || t <= now + ttl then LiveView(d, t)[key := value] else LiveView(d, t) - {key};
    assert LiveView(d', t).Keys == expected.Keys;
  }

  /** Lazy expiry is invisible: dropping an expired key does not change what callers observe. */
  lemma ExpireKeepsView(d: Data, key: string, now: int, t: int)
    requires t >= now
    ensures LiveView(Expire(d, key, now), t) == LiveView(d, t)
  {
    assert LiveView(Expire(d, key, now), t).Keys == LiveView(d, t).Keys;
  }

  /** delete removes the key from the observable store and nothing else. */
  lemma DeleteView(d: Data, key: string, t: int)
    ensures LiveView(d - {key}, t) == LiveView(d, t) - {key}
  {
    assert LiveView(d - {key}, t).Keys == (LiveView(d, t) - {key}).Keys;
  }

  /**
   * extend_ttl on a live, expiring key adds exactly `seconds` to what get_ttl
   * reports, unless the new expiry lands on the never sentinel itself.
   */
  lemma ExtendShiftsTtl(d: Data, key: string, seconds: int, now: int)
    requires RemainingTtl(d, key, now).Some? && RemainingTtl(d, key, now) != Some(NEVER)
    requires d[key].expiry + seconds != NEVER
    ensures var n := RemainingTtl(d, key, now).value;
      RemainingTtl(Extended(d, key, seconds, now).1, key, now) == if n + seconds > 0 then Some(n + seconds) else None
  {
  }

  /** The reaper only removes keys that are not live at any time after now. */
  lemma {:induction false} ReapInvisibleLater(h: seq<HeapEntry>, d: Data, now: int, budget: int, t: int)
    requires t > now
    ensures LiveView(Reaped(d, Scan(h, d, now, budget).victims), t) == LiveView(d, t)
  {
    var victims := Scan(h, d, now, budget).victims;
    var r := Reaped(d, victims);
    ScanSound(h, d, now, budget);
    forall k | k in d && Live(d[k].expiry, t)
      ensures k !in victims
    {
    }
    assert LiveView(r, t).Keys == LiveView(d, t).Keys;
  }

  /** After a reaper run, every entry with a finite expiry still has its heap entry. */
  lemma {:induction false} ReapKeepsCover(h: seq<HeapEntry>, d: Data, now: int, budget: int)
    requires HeapCovers(h, d)
    ensures var s := Scan(h, d, now, budget); HeapCovers(h[s.popped..], Reaped(d, s.victims))
  {
    var s := Scan(h, d, now, budget);
    var r := Reaped(d, s.victims);
    ScanSound(h, d, now, budget);
    forall k | k in r && r[k].expiry != NEVER
      ensures HeapEntry(r[k].expiry, k) in h[s.popped..]
    {
      var j :| 0 <= j < |h| && h[j] == HeapEntry(d[k].expiry, k);
      assert j >= s.popped;
      assert h[s.popped..][j - s.popped] == h[j];
    }
  }

  /**
   * A reaper run that stops because the heap is exhausted or its least entry is
   * not yet due leaves no expired entry behind (an entry due exactly at now
   * included).
   */
  lemma {:induction false} ReapComplete(h: seq<HeapEntry>, d: Data, now: int, budget: int)
    requires Sorted(h) && HeapCovers(h, d)
    requires var s := Scan(h, d, now, budget); s.popped == |h| || h[s.popped].expiry > now
    ensures forall k :: k in Reaped(d, Scan(h, d, now, budget).victims) ==>
      d[k].expiry == NEVER || d[k].expiry > now
  {
    var s := Scan(h, d, now, budget);
    ScanSound(h, d, now, budget);
    SortedExpiries(h);
    forall k | k in Reaped(d, s.victims) && d[k].expiry != NEVER
      ensures d[k].expiry > now
    {
      var j :| 0 <= j < |h| && h[j] == HeapEntry(d[k].expiry, k);
      assert j >= s.popped;
      assert h[s.popped].expiry <= h[j].expiry;
    }
  }
}
