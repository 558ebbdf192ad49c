/** Small shared helpers: an optional value, Python's string slicing and sequence facts. */
module Common {

  datatype Option<+T> = None | Some(value: T)

  /** Python's `s[:n]` for a non-negative n: the first n characters, or all of s when it is shorter. */
  function Take(s: string, n: nat): (r: string)
    ensures |r| == if |s| <= n then |s| else n
    ensures r <= s
  {
    if |s| <= n then s else s[..n]
  }

  /** Python's `s[n:]` for a non-negative n: what follows the first n characters. */
  function Drop(s: string, n: nat): (r: string)
    ensures |r| == if |s| <= n then 0 else |s| - n
    ensures Take(s, n) + r == s
  {
    if |s| <= n then [] else s[n..]
  }

  /** Python's `s.startswith(head)`. */
  predicate StartsWith(s: string, head: string)
  {
    |head| <= |s| && s[..|head|] == head
  }

  /** No string occurs twice in s (a list built from the keys of a dict or a set). */
  predicate Distinct(s: seq<string>)
  {
    forall i, j :: 0 <= i < j < |s| ==> s[i] != s[j]
  }

  /** Number of bytes the UTF-8 encoding of c takes. */
  function Utf8Width(c: char): nat
  {
    var n := c as int;
    if n < 0x80 then 1 else if n < 0x800 then 2 else if n < 0x10000 then 3 else 4
  }

  /** Length of `s.encode('utf-8')`. */
  function Utf8Length(s: string): nat
  {
    if s == [] then 0 else Utf8Width(s[0]) + Utf8Length(s[1..])
  }
}
