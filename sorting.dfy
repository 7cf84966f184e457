/**
 * `Array.prototype.sort` with a comparator of the form `key(a) - key(b)` on integer keys:
 * a stable insertion sort by ascending key. A descending comparator `key(b) - key(a)` is
 * the ascending sort on the negated key.
 */
module Sorting {
  /** Keys never decrease from left to right. */
  predicate SortedBy<T>(s: seq<T>, key: T -> int) {
    forall i, j :: 0 <= i < j < |s| ==> key(s[i]) <= key(s[j])
  }

  /** Puts `x` in front of the first element whose key is not smaller. */
  function Insert<T>(x: T, s: seq<T>, key: T -> int): (r: seq<T>)
    requires SortedBy(s, key)
    ensures |r| == |s| + 1
    ensures r[0] == x || (s != [] && r[0] == s[0])
    ensures SortedBy(r, key)
    ensures multiset(r) == multiset(s) + multiset{x}
    decreases |s|
  {
    if s == [] then [x]
    else if key(x) <= key(s[0]) then
      SortedCons(x, s, key);
      [x] + s
    else
      var rest := s[1..];
      assert SortedBy(rest, key);
      var t := Insert(x, rest, key);
      assert rest != [] ==> key(s[0]) <= key(rest[0]);
      SortedCons(s[0], t, key);
      assert s == [s[0]] + rest;
      [s[0]] + t
  }

  /** A head no greater than the first key of a sorted list keeps it sorted. */
  lemma SortedCons<T>(h: T, t: seq<T>, key: T -> int)
    requires SortedBy(t, key)
    requires t != [] ==> key(h) <= key(t[0])
    ensures SortedBy([h] + t, key)
  {
    forall i, j | 0 <= i < j < |[h] + t| ensures key(([h] + t)[i]) <= key(([h] + t)[j]) {
      if i == 0 {
        assert ([h] + t)[j] == t[j - 1];
      }
    }
  }

  /** The sorted copy: each element is inserted into the sorted rest. */
  function SortByKey<T>(s: seq<T>, key: T -> int): (r: seq<T>)
    ensures SortedBy(r, key)
    ensures multiset(r) == multiset(s)
    ensures |r| == |s|
    decreases |s|
  {
    if s == [] then []
    else
      assert s == [s[0]] + s[1..];
      Insert(s[0], SortByKey(s[1..], key), key)
  }

  /**
   * A key that gives every element the same value leaves the order as it was. This is
   * also the sort by a comparator that yields NaN on every pair, which `sort` reads as 0.
   */
  lemma {:induction false} ConstantKeyKeepsOrder<T>(s: seq<T>, key: T -> int, c: int)
    requires forall x :: key(x) == c
    ensures SortByKey(s, key) == s
    decreases |s|
  {
    if s != [] {
      ConstantKeyKeepsOrder(s[1..], key, c);
      assert s == [s[0]] + s[1..];
    }
  }

  /** A sorted copy has the same elements, and the original is left as it was. */
  lemma SortedCopyHasSameElements<T>(s: seq<T>, key: T -> int)
    ensures forall x :: x in SortByKey(s, key) <==> x in s
  {
    var r := SortByKey(s, key);
    forall x ensures x in r <==> x in s {
      assert x in r <==> x in multiset(r);
      assert x in s <==> x in multiset(s);
    }
  }
}
