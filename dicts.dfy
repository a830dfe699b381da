/** Dictionary<string, string> as the settings engine uses it: a sequence of
    entries in enumeration (insertion) order whose keys are distinct. */
module Dicts {
  import opened Wrappers
  import opened Strings

  type Entry = (string, string)
  type Dict = seq<Entry>

  function Keys(d: Dict): (ks: seq<string>)
    ensures |ks| == |d|
    ensures forall i | 0 <= i < |d| :: ks[i] == d[i].0
  {
    if d == [] then [] else [d[0].0] + Keys(d[1..])
  }

  predicate DistinctKeys(d: Dict) {
    forall i, j | 0 <= i < j < |d| :: d[i].0 != d[j].0
  }

  predicate HasKey(d: Dict, k: string) {
    exists i | 0 <= i < |d| :: d[i].0 == k
  }

  /** Dictionary.Add: appends a new entry; a key already present is an ArgumentException. */
  function Add(d: Dict, k: string, v: string): (r: Result<Dict>)
    ensures r.Err? <==> HasKey(d, k)
    ensures r.Err? ==> r.error == DuplicateKey(k)
    ensures r.Ok? ==> r.value == d + [(k, v)]
    ensures r.Ok? && DistinctKeys(d) ==> DistinctKeys(r.value)
  {
    if k in Keys(d) then Err(DuplicateKey(k)) else Ok(d + [(k, v)])
  }

  /** The dictionary's contents as a map; meaningful when keys are distinct. */
  function ToMap(d: Dict): map<string, string> {
    if d == [] then map[] else ToMap(d[..|d| - 1])[d[|d| - 1].0 := d[|d| - 1].1]
  }

  lemma {:induction false} ToMapHas(d: Dict, i: nat)
    requires DistinctKeys(d) && i < |d|
    ensures d[i].0 in ToMap(d) && ToMap(d)[d[i].0] == d[i].1
  {
    if i < |d| - 1 {
      ToMapHas(d[..|d| - 1], i);
    }
  }

  lemma {:induction false} ToMapKeys(d: Dict)
    ensures forall k :: k in ToMap(d) <==> HasKey(d, k)
  {
    if d != [] {
      var p := d[..|d| - 1];
      ToMapKeys(p);
      forall k
        ensures k in ToMap(d) <==> HasKey(d, k)
      {
        if HasKey(d, k) && k != d[|d| - 1].0 {
          var i :| 0 <= i < |d| && d[i].0 == k;
          assert p[i] == d[i];
        }
        if HasKey(p, k) {
          var i :| 0 <= i < |p| && p[i].0 == k;
          assert d[i] == p[i];
        }
      }
    }
  }

  // ---------------------------------------------------------------------------
  // OrderBy(entry => entry.Key) followed by ToDictionary.
  // ---------------------------------------------------------------------------

  predicate SortedKeys(d: Dict) {
    forall i, j | 0 <= i < j < |d| :: Less(d[i].0, d[j].0)
  }

  function InsertEntry(e: Entry, d: Dict): (r: Dict)
    ensures multiset(r) == multiset{e} + multiset(d)
    ensures |r| == |d| + 1
  {
    if d == [] || !Less(d[0].0, e.0) then [e] + d
    else
      assert d == [d[0]] + d[1..];
      [d[0]] + InsertEntry(e, d[1..])
  }

  /** The entries ordered by key (ordinal string order). */
  function SortByKey(d: Dict): (r: Dict)
    ensures multiset(r) == multiset(d) && |r| == |d|
  {
    if d == [] then []
    else
      assert d == [d[0]] + d[1..];
      InsertEntry(d[0], SortByKey(d[1..]))
  }

  lemma {:induction false} SortedKeysTail(d: Dict)
    requires d != [] && SortedKeys(d)
    ensures SortedKeys(d[1..])
  {
    forall i, j | 0 <= i < j < |d[1..]|
      ensures Less(d[1..][i].0, d[1..][j].0)
    {
      assert d[1..][i] == d[i + 1] && d[1..][j] == d[j + 1];
    }
  }

  lemma {:induction false} InsertEntrySorted(e: Entry, d: Dict)
    requires SortedKeys(d)
    requires forall i | 0 <= i < |d| :: d[i].0 != e.0
    ensures SortedKeys(InsertEntry(e, d))
  {
    if d == [] {
    } else if !Less(d[0].0, e.0) {
      LessTotal(d[0].0, e.0);
      forall j | 0 < j < |d| + 1
        ensures Less(e.0, ([e] + d)[j].0)
      {
        if j > 1 { LessTransitive(e.0, d[0].0, d[j - 1].0); }
      }
    } else {
      SortedKeysTail(d);
      InsertEntrySorted(e, d[1..]);
      var r := InsertEntry(e, d[1..]);
      forall i | 0 <= i < |r|
        ensures Less(d[0].0, r[i].0)
      {
        assert r[i] in multiset(r);
        if r[i] != e {
          assert r[i] in multiset(d[1..]);
          var j :| 0 <= j < |d[1..]| && d[1..][j] == r[i];
          assert d[j + 1] == r[i];
        }
      }
    }
  }

  lemma {:induction false} DistinctKeysTail(d: Dict)
    requires d != [] && DistinctKeys(d)
    ensures DistinctKeys(d[1..])
    ensures forall i | 0 <= i < |d[1..]| :: d[1..][i].0 != d[0].0
  {
    forall i, j | 0 <= i < j < |d[1..]|
      ensures d[1..][i].0 != d[1..][j].0
    {
      assert d[1..][i] == d[i + 1] && d[1..][j] == d[j + 1];
    }
    forall i | 0 <= i < |d[1..]|
      ensures d[1..][i].0 != d[0].0
    {
      assert d[1..][i] == d[i + 1];
    }
  }

  /** With distinct keys, the sorted dictionary is strictly increasing in its keys. */
  lemma {:induction false} SortByKeySorted(d: Dict)
    requires DistinctKeys(d)
    ensures SortedKeys(SortByKey(d))
  {
    if d != [] {
      DistinctKeysTail(d);
      SortByKeySorted(d[1..]);
      var t := SortByKey(d[1..]);
      forall i | 0 <= i < |t|
        ensures t[i].0 != d[0].0
      {
        assert t[i] in multiset(d[1..]);
        var j :| 0 <= j < |d[1..]| && d[1..][j] == t[i];
      }
      InsertEntrySorted(d[0], t);
    }
  }

  /** Sorted keys are distinct. */
  lemma SortedDistinct(d: Dict)
    requires SortedKeys(d)
    ensures DistinctKeys(d)
  {
    forall i, j | 0 <= i < j < |d|
      ensures d[i].0 != d[j].0
    {
      if d[i].0 == d[j].0 { LessIrreflexive(d[i].0); }
    }
  }

  /** The same entries in another order give the same map, when keys are distinct. */
  lemma PermutationSameMap(d: Dict, e: Dict)
    requires DistinctKeys(d) && DistinctKeys(e) && multiset(d) == multiset(e)
    ensures ToMap(d) == ToMap(e)
  {
    ToMapKeys(d);
    ToMapKeys(e);
    forall x | HasKey(d, x)
      ensures HasKey(e, x)
    {
      var i :| 0 <= i < |d| && d[i].0 == x;
      assert d[i] in multiset(e);
      var j :| 0 <= j < |e| && e[j] == d[i];
    }
    forall x | HasKey(e, x)
      ensures HasKey(d, x)
    {
      var i :| 0 <= i < |e| && e[i].0 == x;
      assert e[i] in multiset(d);
      var j :| 0 <= j < |d| && d[j] == e[i];
    }
    forall x | x in ToMap(d).Keys
      ensures ToMap(d)[x] == ToMap(e)[x]
    {
      var i :| 0 <= i < |d| && d[i].0 == x;
      assert d[i] in multiset(e);
      var j :| 0 <= j < |e| && e[j] == d[i];
      ToMapHas(d, i);
      ToMapHas(e, j);
    }
  }

  /** Sorting keeps the dictionary's contents. */
  lemma SortByKeySameMap(d: Dict)
    requires DistinctKeys(d)
    ensures ToMap(SortByKey(d)) == ToMap(d)
  {
    SortByKeySorted(d);
    SortedDistinct(SortByKey(d));
    PermutationSameMap(SortByKey(d), d);
  }
}
