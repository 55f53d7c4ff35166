/**
 * Sorting a sequence by a real-valued key. The pipeline sorts the ledger by
 * timestamp, each wallet's gaps and each feature column by value, and the
 * scored table by descending score; all four are this one insertion sort.
 */
module Sorting {

  /** Keys never decrease from left to right. */
  predicate SortedBy<T>(s: seq<T>, key: T -> real) {
    forall i, j :: 0 <= i < j < |s| ==> key(s[i]) <= key(s[j])
  }

  /** Places `x` in front of the first element whose key is at least `x`'s. */
  function Insert<T>(x: T, s: seq<T>, key: T -> real): (r: seq<T>)
    requires SortedBy(s, key)
    ensures SortedBy(r, key)
    ensures multiset(r) == multiset(s) + multiset{x}
  {
    if |s| == 0 then [x]
    else if key(x) <= key(s[0]) then [x] + s
    else
      var rest := Insert(x, s[1..], key);
      assert s == [s[0]] + s[1..];
      InsertBehind(s[0], x, s[1..], rest, key);
      [s[0]] + rest
  }

  /**
   * The head of a sorted sequence stays in front when an element no smaller
   * than it is inserted into the tail.
   */
  lemma InsertBehind<T>(y: T, x: T, tail: seq<T>, rest: seq<T>, key: T -> real)
    requires SortedBy([y] + tail, key) && key(y) <= key(x)
    requires SortedBy(rest, key) && multiset(rest) == multiset(tail) + multiset{x}
    ensures SortedBy([y] + rest, key)
  {
    forall z | z in multiset(rest)
      ensures key(y) <= key(z)
    {
      if z != x {
        assert z in multiset(tail);
        var j :| 0 <= j < |tail| && tail[j] == z;
        assert ([y] + tail)[0] == y && ([y] + tail)[j + 1] == z;
      }
    }
    PrependSorted(y, rest, key);
  }

  /** An element no larger than anything in a sorted sequence can go in front of it. */
  lemma PrependSorted<T>(y: T, rest: seq<T>, key: T -> real)
    requires SortedBy(rest, key)
    requires forall z | z in multiset(rest) :: key(y) <= key(z)
    ensures SortedBy([y] + rest, key)
  {
    forall k | 0 <= k < |rest|
      ensures key(y) <= key(rest[k])
    {
      assert rest[k] in multiset(rest);
    }
  }

  /** A rearrangement of `s` whose keys are in ascending order. */
  function SortBy<T>(s: seq<T>, key: T -> real): (r: seq<T>)
    ensures SortedBy(r, key)
    ensures multiset(r) == multiset(s)
    ensures |r| == |s|
  {
    if |s| == 0 then []
    else
      assert s == [s[0]] + s[1..];
      Insert(s[0], SortBy(s[1..], key), key)
  }

  /** Every element of a sorted rearrangement is an element of the original and vice versa. */
  lemma SameElements<T>(s: seq<T>, key: T -> real)
    ensures forall x :: x in SortBy(s, key) <==> x in s
  {
    var r := SortBy(s, key);
    forall x
      ensures x in r <==> x in s
    {
      assert x in r <==> x in multiset(r);
      assert x in s <==> x in multiset(s);
    }
  }
}
