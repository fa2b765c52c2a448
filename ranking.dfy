/**
 * Ordering used by the scorers and the repositories: `sorted(comparing(key).reversed())`
 * on a stream is a stable sort, descending by key, and `limit(k)` keeps the first k
 * elements. The insertion sort below is stable: elements with equal keys keep their
 * relative order.
 */
module Ranking {

  /** Keys never increase along `s`. */
  predicate SortedDesc<T>(s: seq<T>, key: T -> int) {
    forall i, j :: 0 <= i < j < |s| ==> key(s[i]) >= key(s[j])
  }

  /** Insert `x` before the first element whose key does not exceed its own. */
  function Insert<T>(x: T, s: seq<T>, key: T -> int): seq<T> {
    if s == [] then [x]
    else if key(s[0]) <= key(x) then [x] + s
    else [s[0]] + Insert(x, s[1..], key)
  }

  /** Insertion adds exactly `x`. */
  lemma {:induction false} InsertElements<T>(x: T, s: seq<T>, key: T -> int)
    ensures multiset(Insert(x, s, key)) == multiset(s) + multiset{x}
    ensures |Insert(x, s, key)| == |s| + 1
    ensures forall y :: y in Insert(x, s, key) <==> y == x || y in s
  {
    if s != [] && key(s[0]) > key(x) {
      InsertElements(x, s[1..], key);
      assert s == [s[0]] + s[1..];
    }
  }

  /** A head no smaller than every element of a descending tail makes a descending sequence. */
  lemma ConsSorted<T>(h: T, rest: seq<T>, key: T -> int)
    requires SortedDesc(rest, key)
    requires forall j :: 0 <= j < |rest| ==> key(h) >= key(rest[j])
    ensures SortedDesc([h] + rest, key)
  {
    var r := [h] + rest;
    forall i, j | 0 <= i < j < |r|
      ensures key(r[i]) >= key(r[j])
    {
      assert r[j] == rest[j - 1];
      if i > 0 {
        assert r[i] == rest[i - 1];
      }
    }
  }

  /** Insertion into a descending sequence keeps it descending. */
  lemma {:induction false} InsertSorted<T>(x: T, s: seq<T>, key: T -> int)
    requires SortedDesc(s, key)
    ensures SortedDesc(Insert(x, s, key), key)
  {
    if s == [] {
    } else if key(s[0]) <= key(x) {
      ConsSorted(x, s, key);
    } else {
      var tail := s[1..];
      var rest := Insert(x, tail, key);
      InsertSorted(x, tail, key);
      InsertElements(x, tail, key);
      forall j | 0 <= j < |rest|
        ensures key(s[0]) >= key(rest[j])
      {
        assert rest[j] in multiset(rest);
        if rest[j] != x {
          assert rest[j] in multiset(tail);
          var m :| 0 <= m < |tail| && tail[m] == rest[j];
          assert s[m + 1] == rest[j];
        }
      }
      ConsSorted(s[0], rest, key);
    }
  }

  /**
   * Stable sort, descending by key: the result is a permutation of the input and
   * its keys never increase.
   */
  function SortDesc<T>(s: seq<T>, key: T -> int): (r: seq<T>)
    ensures multiset(r) == multiset(s)
    ensures |r| == |s|
    ensures SortedDesc(r, key)
  {
    if s == [] then []
    else
      var rest := SortDesc(s[1..], key);
      InsertElements(s[0], rest, key);
      InsertSorted(s[0], rest, key);
      assert multiset(s) == multiset{s[0]} + multiset(s[1..]) by {
        assert s == [s[0]] + s[1..];
      }
      Insert(s[0], rest, key)
  }

  /** `limit(k)`: the first k elements, or all of them when there are fewer. */
  function Take<T>(s: seq<T>, k: nat): (r: seq<T>)
    ensures |r| == if |s| < k then |s| else k
    ensures r <= s
  {
    if |s| <= k then s else s[..k]
  }

  /**
   * The first k of a descending sort are the k largest: every element left out
   * has a key no larger than every element kept.
   */
  lemma TopKDominates<T>(s: seq<T>, key: T -> int, k: nat, kept: T, dropped: T)
    requires kept in Take(SortDesc(s, key), k)
    requires dropped in SortDesc(s, key)[|Take(SortDesc(s, key), k)|..]
    ensures key(kept) >= key(dropped)
  {
    var r := SortDesc(s, key);
    var t := Take(r, k);
    var i :| 0 <= i < |t| && t[i] == kept;
    var j :| 0 <= j < |r| - |t| && r[|t|..][j] == dropped;
    assert r[i] == kept && r[|t| + j] == dropped;
  }

  /** Sorting keeps exactly the elements of the input. */
  lemma SortDescMembers<T>(s: seq<T>, key: T -> int, x: T)
    ensures x in SortDesc(s, key) <==> x in s
  {
    var r := SortDesc(s, key);
    assert x in r <==> x in multiset(r);
    assert x in s <==> x in multiset(s);
  }

  /**
   * `sorted(…reversed()).limit(k)` keeps elements of the input only, and no
   * element left out has a larger key than any element kept.
   */
  lemma TopKSpec<T>(s: seq<T>, key: T -> int, k: nat)
    ensures forall x :: x in Take(SortDesc(s, key), k) ==> x in s
    ensures forall x, y :: x in Take(SortDesc(s, key), k) && y in s && y !in Take(SortDesc(s, key), k) ==>
      key(y) <= key(x)
  {
    var r := SortDesc(s, key);
    var t := Take(r, k);
    forall x | x in t
      ensures x in s
    {
      SortDescMembers(s, key, x);
    }
    forall x, y | x in t && y in s && y !in t
      ensures key(y) <= key(x)
    {
      SortDescMembers(s, key, y);
      var i :| 0 <= i < |t| && t[i] == x;
      var n :| 0 <= n < |r| && r[n] == y;
      assert n >= |t| by {
        assert forall j :: 0 <= j < |t| ==> r[j] == t[j] && t[j] in t;
      }
      assert r[i] == x;
    }
  }
}
