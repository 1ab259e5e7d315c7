/**
  `Array.prototype.sort` with a numeric comparator `(a, b) => key(a) - key(b)`.
  The sort is stable, as the language has required since 2019; it is
  modelled as an insertion sort that places a new element before every
  element with an equal or larger key.
*/
module Sorting {

  /** Ascending by `key`. */
  ghost predicate SortedBy<T>(s: seq<T>, key: T -> int) {
    forall i, j :: 0 <= i < j < |s| ==> key(s[i]) <= key(s[j])
  }

  /** Inserts `x` before the first element whose key is not smaller. */
  function Insert<T>(x: T, s: seq<T>, key: T -> int): (r: seq<T>)
    requires SortedBy(s, key)
    ensures SortedBy(r, key)
    ensures multiset(r) == multiset(s) + multiset{x}
    ensures |r| == |s| + 1
    ensures forall k :: 0 <= k < |r| ==> key(r[k]) >= key(x) || (|s| > 0 && key(r[k]) >= key(s[0]))
    decreases |s|
  {
    if |s| == 0 then [x]
    else if key(x) <= key(s[0]) then [x] + s
    else
      var rest := Insert(x, s[1..], key);
      assert s == [s[0]] + s[1..];
      [s[0]] + rest
  }

  /** The elements of `s` in ascending key order. */
  function SortBy<T>(s: seq<T>, key: T -> int): (r: seq<T>)
    ensures SortedBy(r, key)
    ensures multiset(r) == multiset(s)
    ensures |r| == |s|
    decreases |s|
  {
    if |s| == 0 then []
    else
      assert s == [s[0]] + s[1..];
      Insert(s[0], SortBy(s[1..], key), key)
  }

  /** A sorted list's prefixes are sorted. */
  lemma PrefixSorted<T>(s: seq<T>, n: nat, key: T -> int)
    requires SortedBy(s, key)
    requires n <= |s|
    ensures SortedBy(s[..n], key)
  {
  }

  /**
    The first `n` elements of a sorted list are taken from it, and none of
    them has a larger key than an occurrence left behind.
  */
  lemma SortedPrefixFirst<T>(s: seq<T>, n: nat, key: T -> int)
    requires SortedBy(s, key) && n <= |s|
    ensures multiset(s[..n]) <= multiset(s)
    ensures forall x :: multiset(s[..n])[x] < multiset(s)[x] ==> forall i :: 0 <= i < n ==> key(s[i]) <= key(x)
  {
    assert s == s[..n] + s[n..];
    assert multiset(s) == multiset(s[..n]) + multiset(s[n..]);
    forall x | multiset(s[..n])[x] < multiset(s)[x]
      ensures forall i :: 0 <= i < n ==> key(s[i]) <= key(x)
    {
      assert x in multiset(s[n..]);
      var j :| 0 <= j < |s[n..]| && s[n..][j] == x;
      assert s[n + j] == x;
    }
  }

  /** Sorting a list moves its elements without adding or losing any. */
  lemma SortedMembers<T>(s: seq<T>, key: T -> int, x: T)
    ensures x in SortBy(s, key) <==> x in s
  {
    var r := SortBy(s, key);
    assert x in r <==> x in multiset(r);
    assert x in s <==> x in multiset(s);
  }
}
