/** Enumerable.OrderBy on a numeric key: a stable sort, so that elements with
    equal keys keep their original relative order. */
module Sorting {

  predicate SortedBy<T>(s: seq<T>, key: T -> real) {
    forall i, j | 0 <= i < j < |s| :: key(s[i]) <= key(s[j])
  }

  /** The elements of s whose key is k, in their order in s. */
  function WithKey<T>(s: seq<T>, key: T -> real, k: real): seq<T> {
    if s == [] then []
    else (if key(s[0]) == k then [s[0]] else []) + WithKey(s[1..], key, k)
  }

  /** Puts x in front of the first element whose key is not smaller. */
  function Insert<T>(x: T, s: seq<T>, key: T -> real): (r: seq<T>)
    ensures multiset(r) == multiset{x} + multiset(s)
    ensures |r| == |s| + 1
  {
    if s == [] || key(x) <= key(s[0]) then [x] + s
    else
      assert s == [s[0]] + s[1..];
      [s[0]] + Insert(x, s[1..], key)
  }

  /** OrderBy(key): insertion sort, each element inserted into the sorted rest. */
  function OrderBy<T>(s: seq<T>, key: T -> real): seq<T> {
    if s == [] then [] else Insert(s[0], OrderBy(s[1..], key), key)
  }

  lemma {:induction false} InsertSorted<T>(x: T, s: seq<T>, key: T -> real)
    requires SortedBy(s, key)
    ensures SortedBy(Insert(x, s, key), key)
  {
    if s != [] && key(x) > key(s[0]) {
      InsertSorted(x, s[1..], key);
      var r := Insert(x, s[1..], key);
      assert forall i | 0 <= i < |r| :: key(s[0]) <= key(r[i]) by {
        forall i | 0 <= i < |r|
          ensures key(s[0]) <= key(r[i])
        {
          assert r[i] in multiset(r);
          assert r[i] == x || r[i] in multiset(s[1..]);
          if r[i] != x {
            var j :| 0 <= j < |s[1..]| && s[1..][j] == r[i];
            assert s[j + 1] == r[i];
          }
        }
      }
    }
  }

  lemma {:induction false} InsertWithKey<T>(x: T, s: seq<T>, key: T -> real, k: real)
    requires SortedBy(s, key)
    ensures WithKey(Insert(x, s, key), key, k) == (if key(x) == k then [x] else []) + WithKey(s, key, k)
  {
    if s == [] || key(x) <= key(s[0]) {
      assert ([x] + s)[1..] == s;
    } else {
      SortedTail(s, key);
      InsertWithKey(x, s[1..], key, k);
      var r := Insert(x, s[1..], key);
      assert ([s[0]] + r)[1..] == r;
      assert WithKey([s[0]] + r, key, k) == (if key(s[0]) == k then [s[0]] else []) + WithKey(r, key, k);
      assert WithKey(s, key, k) == (if key(s[0]) == k then [s[0]] else []) + WithKey(s[1..], key, k);
      if key(x) == k {
        assert key(s[0]) != k;
      }
    }
  }

  lemma SortedTail<T>(s: seq<T>, key: T -> real)
    requires s != [] && SortedBy(s, key)
    ensures SortedBy(s[1..], key)
  {
    forall i, j | 0 <= i < j < |s[1..]|
      ensures key(s[1..][i]) <= key(s[1..][j])
    {
      assert s[1..][i] == s[i + 1] && s[1..][j] == s[j + 1];
    }
  }

  /** The result is sorted by the key. */
  lemma {:induction false} OrderBySorted<T>(s: seq<T>, key: T -> real)
    ensures SortedBy(OrderBy(s, key), key)
  {
    if s != [] {
      OrderBySorted(s[1..], key);
      InsertSorted(s[0], OrderBy(s[1..], key), key);
    }
  }

  /** The result is a permutation of the input. */
  lemma {:induction false} OrderByPermutation<T>(s: seq<T>, key: T -> real)
    ensures multiset(OrderBy(s, key)) == multiset(s)
    ensures |OrderBy(s, key)| == |s|
  {
    if s != [] {
      OrderByPermutation(s[1..], key);
      assert s == [s[0]] + s[1..];
    }
  }

  /** Stability: for every key, the elements carrying it appear in their input order. */
  lemma {:induction false} OrderByStable<T>(s: seq<T>, key: T -> real, k: real)
    ensures WithKey(OrderBy(s, key), key, k) == WithKey(s, key, k)
  {
    if s != [] {
      OrderByStable(s[1..], key, k);
      OrderBySorted(s[1..], key);
      InsertWithKey(s[0], OrderBy(s[1..], key), key, k);
    }
  }

  /** A list that is already sorted comes back unchanged. */
  lemma {:induction false} OrderBySortedUnchanged<T>(s: seq<T>, key: T -> real)
    requires SortedBy(s, key)
    ensures OrderBy(s, key) == s
  {
    if s != [] {
      SortedTail(s, key);
      OrderBySortedUnchanged(s[1..], key);
    }
  }
}
