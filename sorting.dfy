/**
 * The in-place `Array.prototype.sort` calls of the application, with their
 * comparators expressed as a lexicographic (primary, secondary) key: the
 * free/busy list is sorted by start (secondary key 0), a day's events by top
 * ascending and then height descending (secondary key -height).
 */
module Sorting {
  type Key = (int, int)

  predicate KeyLe(p: Key, q: Key) {
    p.0 < q.0 || (p.0 == q.0 && p.1 <= q.1)
  }

  predicate SortedBy<T>(s: seq<T>, key: T -> Key) {
    forall i, j :: 0 <= i < j < |s| ==> KeyLe(key(s[i]), key(s[j]))
  }

  method Swap<T>(a: array<T>, i: int, j: int)
    requires 0 <= i < a.Length && 0 <= j < a.Length
    modifies a
    ensures a[..] == old(a[..])[i := old(a[j])][j := old(a[i])]
    ensures multiset(a[..]) == old(multiset(a[..]))
  {
    a[i], a[j] := a[j], a[i];
  }

  /** Insertion sort in place: the result is ordered by `key` and is a permutation of the input. */
  method SortInPlace<T>(a: array<T>, key: T -> Key)
    modifies a
    ensures SortedBy(a[..], key)
    ensures multiset(a[..]) == old(multiset(a[..]))
  {
    var i := 0;
    while i < a.Length
      invariant 0 <= i <= a.Length
      invariant SortedBy(a[..i], key)
      invariant multiset(a[..]) == old(multiset(a[..]))
    {
      var j := i;
      while j > 0 && !KeyLe(key(a[j - 1]), key(a[j]))
        invariant 0 <= j <= i
        invariant forall p, q :: 0 <= p < q <= i && q != j && p != j ==> KeyLe(key(a[p]), key(a[q]))
        invariant forall q :: j < q <= i ==> KeyLe(key(a[j]), key(a[q]))
        invariant multiset(a[..]) == old(multiset(a[..]))
      {
        Swap(a, j - 1, j);
        j := j - 1;
      }
      i := i + 1;
    }
  }
}
