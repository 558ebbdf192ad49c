/**
 * The expiry heap of app/kv.py. heapq keeps a list in heap order and always
 * pops its least `(expiry_time, key)` tuple; the model keeps the same entries
 * as a sequence sorted by that tuple order, so the head is what heappop returns.
 */
module HeapOrder {

  /** A heap entry: Python's `(expiry_time, key)` tuple. */
  datatype HeapEntry = HeapEntry(expiry: int, key: string)

  /** Python's `<=` on strings: lexicographic by code point, a proper prefix first. */
  predicate StrLe(a: string, b: string)
    decreases |a|
  {
    a == [] || (b != [] && (a[0] < b[0] || (a[0] == b[0] && StrLe(a[1..], b[1..]))))
  }

  /** Python's `<=` on `(expiry_time, key)` tuples, the order heapq maintains. */
  predicate EntryLe(x: HeapEntry, y: HeapEntry)
  {
    x.expiry < y.expiry || (x.expiry == y.expiry && StrLe(x.key, y.key))
  }

  lemma {:induction false} StrLeTotal(a: string, b: string)
    ensures StrLe(a, b) || StrLe(b, a)
    decreases |a|
  {
    if a != [] && b != [] && a[0] == b[0] {
      StrLeTotal(a[1..], b[1..]);
    }
  }

  /** Tuple order is total, so any two heap entries are comparable. */
  lemma EntryLeTotal(x: HeapEntry, y: HeapEntry)
    ensures EntryLe(x, y) || EntryLe(y, x)
  {
    StrLeTotal(x.key, y.key);
  }

  /** The heap's content in pop order. */
  ghost predicate Sorted(h: seq<HeapEntry>)
  {
    forall i, j :: 0 <= i < |h| && j == i + 1 && j < |h| ==> EntryLe(h[i], h[j])
  }

  /**
   * heapq.heappush on the abstract content: the new entry joins the others and
   * the heap stays ordered, so later pops still come out least first.
   */
  function Push(h: seq<HeapEntry>, x: HeapEntry): (r: seq<HeapEntry>)
    ensures |r| == |h| + 1
    ensures multiset(r) == multiset(h) + multiset{x}
    ensures r[0] == x || (h != [] && r[0] == h[0])
    ensures Sorted(h) ==> Sorted(r)
    decreases |h|
  {
    if h == [] || EntryLe(x, h[0]) then
      [x] + h
    else
      EntryLeTotal(x, h[0]);
      assert h == [h[0]] + h[1..];
      [h[0]] + Push(h[1..], x)
  }

  /** Along a sorted heap the expiry times never decrease. */
  lemma {:induction false} SortedExpiries(h: seq<HeapEntry>)
    requires Sorted(h)
    ensures forall i, j :: 0 <= i <= j < |h| ==> h[i].expiry <= h[j].expiry
  {
    if |h| > 1 {
      SortedExpiries(h[1..]);
      forall i, j | 0 <= i <= j < |h|
        ensures h[i].expiry <= h[j].expiry
      {
        if 0 < i {
          assert h[i] == h[1..][i - 1] && h[j] == h[1..][j - 1];
        } else if 0 < j {
          assert h[1] == h[1..][0] && h[j] == h[1..][j - 1];
        }
      }
    }
  }
}
