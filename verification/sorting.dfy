/** A stable insertion sort by an integer key. SQL `ORDER BY timestamp`
    leaves the order of equal timestamps to the database; the model fixes it
    to arrival order, which is one of the orders the database may return. */
module Sorting {

  /** `s` is in non-decreasing order of `key`. */
  predicate SortedBy<T>(s: seq<T>, key: T -> int) {
    forall i, j :: 0 <= i < j < |s| ==> key(s[i]) <= key(s[j])
  }

  /** Every element of `s` has a key of at least `k`. */
  predicate KeysAtLeast<T>(s: seq<T>, k: int, key: T -> int) {
    forall i :: 0 <= i < |s| ==> k <= key(s[i])
  }

  /** A lower bound on the keys survives any rearrangement. */
  lemma KeysAtLeastPermutation<T>(a: seq<T>, b: seq<T>, k: int, key: T -> int)
    requires multiset(a) == multiset(b) && KeysAtLeast(b, k, key)
    ensures KeysAtLeast(a, k, key)
  {
    forall i | 0 <= i < |a|
      ensures k <= key(a[i])
    {
      assert a[i] in multiset(b);
      var j :| 0 <= j < |b| && b[j] == a[i];
    }
  }

  /** Inserts `x` into `s` in front of the first element whose key is not
      smaller, so that `x` precedes the elements it ties with. */
  function Insert<T>(x: T, s: seq<T>, key: T -> int): (r: seq<T>)
    ensures multiset(r) == multiset(s) + multiset{x}
    ensures |r| == |s| + 1
  {
    if |s| == 0 then [x]
    else if key(x) <= key(s[0]) then [x] + s
    else
      assert s == [s[0]] + s[1..];
      [s[0]] + Insert(x, s[1..], key)
  }

  /** Inserting into a sorted sequence keeps it sorted. */
  lemma {:induction false} InsertSorted<T>(x: T, s: seq<T>, key: T -> int)
    requires SortedBy(s, key)
    ensures SortedBy(Insert(x, s, key), key)
  {
    if |s| > 0 && key(x) > key(s[0]) {
      var tail := s[1..];
      var rest := Insert(x, tail, key);
      assert SortedBy(tail, key);
      InsertSorted(x, tail, key);
      assert KeysAtLeast(tail + [x], key(s[0]), key);
      assert multiset(rest) == multiset(tail + [x]);
      KeysAtLeastPermutation(rest, tail + [x], key(s[0]), key);
      assert Insert(x, s, key) == [s[0]] + rest;
    }
  }

  /** The elements of `s` rearranged into non-decreasing order of `key`. */
  function Sort<T>(s: seq<T>, key: T -> int): (r: seq<T>)
    ensures SortedBy(r, key)
    ensures multiset(r) == multiset(s)
    ensures |r| == |s|
  {
    if |s| == 0 then []
    else
      assert s == [s[0]] + s[1..];
      InsertSorted(s[0], Sort(s[1..], key), key);
      Insert(s[0], Sort(s[1..], key), key)
  }

  /** The first element of a non-empty sorted sequence has the least key of
      all elements, and the last one the greatest. */
  lemma Extremes<T>(s: seq<T>, key: T -> int)
    requires SortedBy(s, key) && |s| > 0
    ensures forall k :: 0 <= k < |s| ==> key(s[0]) <= key(s[k]) <= key(s[|s| - 1])
  {
  }

  /** After sorting a non-empty sequence, the first element is one of least
      key and the last one of greatest key, both taken from the input. */
  lemma SortExtremes<T>(s: seq<T>, key: T -> int)
    requires |s| > 0
    ensures var r := Sort(s, key);
      && r[0] in s && r[|r| - 1] in s
      && forall i :: 0 <= i < |s| ==> key(r[0]) <= key(s[i]) <= key(r[|r| - 1])
  {
    var r := Sort(s, key);
    assert r[0] in multiset(s) && r[|r| - 1] in multiset(s);
    Extremes(r, key);
    forall i | 0 <= i < |s|
      ensures key(r[0]) <= key(s[i]) <= key(r[|r| - 1])
    {
      assert s[i] in multiset(r);
      var k :| 0 <= k < |r| && r[k] == s[i];
    }
  }

}
