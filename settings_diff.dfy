/** What the diff of Alkami.Utilities BaseSettings computes: the descriptor
    tree is flattened into its plain properties (leaves), each with the key it
    is saved under, and the diff is shown to be exactly the list of leaves whose
    value differs from the captured default, under ascending keys. */
module SettingsDiff {
  import opened Wrappers
  import opened Strings
  import opened Values
  import opened Dicts
  import opened Descriptor
  import opened Settings

  /** A plain property reached through the descriptor tree: the names of the
      descriptors on the way (the segments of its key), the object it belongs
      to, its property and its descriptor. */
  datatype LeafRef = LeafRef(names: seq<string>, instance: Path, property: PropertyInfo, descriptor: SettingDescriptor)

  function LeafPath(l: LeafRef): Path {
    l.instance + [l.property.id]
  }

  /** The key a leaf is saved under, relative to the list it was found from. */
  function Key(l: LeafRef): string {
    Join(l.names, HierarchySeparator)
  }

  /** Every descriptor of the tree has its property attached. */
  predicate AllAttached(ds: seq<SettingDescriptor>)
    decreases ds, 1
  {
    forall i | 0 <= i < |ds| :: Attached1(ds[i])
  }

  predicate Attached1(d: SettingDescriptor)
    decreases d, 0
  {
    d.property.Some? && (d.nested.Collection? ==> AllAttached(d.nested.items))
  }

  function Prepend(n: string, ls: seq<LeafRef>): (r: seq<LeafRef>)
    ensures |r| == |ls|
    ensures forall i | 0 <= i < |ls| :: r[i] == ls[i].(names := [n] + ls[i].names)
  {
    seq(|ls|, i requires 0 <= i < |ls| => ls[i].(names := [n] + ls[i].names))
  }

  /** The leaves below one descriptor: itself when it has no nested list,
      otherwise the leaves of the nested list, their keys prefixed with its name. */
  function LeavesOf(d: SettingDescriptor, instance: Path): (r: seq<LeafRef>)
    ensures forall i | 0 <= i < |r| :: |r[i].names| >= 1 && r[i].descriptor.property == Some(r[i].property)
    ensures forall i | 0 <= i < |r| :: !r[i].descriptor.HasNestedSettingDescriptors()
    decreases d, 0
  {
    if d.property.None? then []
    else
      var here := instance + [d.property.value.id];
      if d.HasNestedSettingDescriptors() then Prepend(d.name.GetOr(""), LeavesAll(d.nested.items, here))
      else [LeafRef([d.name.GetOr("")], instance, d.property.value, d)]
  }

  function LeavesAll(ds: seq<SettingDescriptor>, instance: Path): (r: seq<LeafRef>)
    ensures forall i | 0 <= i < |r| :: |r[i].names| >= 1 && r[i].descriptor.property == Some(r[i].property)
    ensures forall i | 0 <= i < |r| :: !r[i].descriptor.HasNestedSettingDescriptors()
    decreases ds, 1
  {
    if ds == [] then [] else LeavesOf(ds[0], instance) + LeavesAll(ds[1..], instance)
  }

  // ---------------------------------------------------------------------------
  // The diff over the flattened leaves
  // ---------------------------------------------------------------------------

  /** The diff, leaf by leaf. */
  function DiffLeaves(acc: Dict, s: State, ls: seq<LeafRef>, prefix: string): Result<Dict>
    decreases |ls|
  {
    if ls == [] then Ok(acc)
    else
      var l := ls[0];
      var v := ValueAt(s, LeafPath(l));
      if v.Null? then Err(NullReference)
      else
        var acc' :- if v != l.descriptor.defaultValue then Add(acc, prefix + Key(l), Format(v)) else Ok(acc);
        DiffLeaves(acc', s, ls[1..], prefix)
  }

  /** The entries of the leaves whose value differs from their default, in leaf order. */
  function ChangedLeaves(s: State, ls: seq<LeafRef>, prefix: string): Dict
    decreases |ls|
  {
    if ls == [] then []
    else
      var l := ls[0];
      var v := ValueAt(s, LeafPath(l));
      (if Changed(s, l) then [EntryOf(s, l, prefix)] else []) + ChangedLeaves(s, ls[1..], prefix)
  }

  /** The leaf holds a value other than its default. */
  predicate Changed(s: State, l: LeafRef) {
    var v := ValueAt(s, LeafPath(l));
    !v.Null? && v != l.descriptor.defaultValue
  }

  /** The entry a changed leaf is saved as. */
  function EntryOf(s: State, l: LeafRef, prefix: string): Entry
    requires !ValueAt(s, LeafPath(l)).Null?
  {
    (prefix + Key(l), Format(ValueAt(s, LeafPath(l))))
  }

  /** Continuing after a result that may have failed. */
  function AndThen(r: Result<Dict>, s: State, ls: seq<LeafRef>, prefix: string): Result<Dict> {
    if r.Err? then r else DiffLeaves(r.value, s, ls, prefix)
  }

  lemma {:induction false} DiffLeavesAppend(acc: Dict, s: State, a: seq<LeafRef>, b: seq<LeafRef>, prefix: string)
    ensures DiffLeaves(acc, s, a + b, prefix) == AndThen(DiffLeaves(acc, s, a, prefix), s, b, prefix)
    decreases |a|
  {
    if a == [] {
      assert a + b == b;
    } else {
      assert (a + b)[1..] == a[1..] + b;
      assert (a + b)[0] == a[0];
      var l := a[0];
      var v := ValueAt(s, LeafPath(l));
      if !v.Null? {
        var step := if v != l.descriptor.defaultValue then Add(acc, prefix + Key(l), Format(v)) else Ok(acc);
        if step.Ok? {
          DiffLeavesAppend(step.value, s, a[1..], b, prefix);
        }
      }
    }
  }

  /** Prefixing the names of the leaves is the same as prefixing their keys. */
  lemma {:induction false} DiffLeavesPrepend(acc: Dict, s: State, ls: seq<LeafRef>, n: string, prefix: string)
    requires forall i | 0 <= i < |ls| :: |ls[i].names| >= 1
    ensures DiffLeaves(acc, s, Prepend(n, ls), prefix) == DiffLeaves(acc, s, ls, prefix + n + [HierarchySeparator])
    decreases |ls|
  {
    if ls != [] {
      var m := Prepend(n, ls);
      assert m[1..] == Prepend(n, ls[1..]);
      assert LeafPath(m[0]) == LeafPath(ls[0]);
      assert ([n] + ls[0].names)[1..] == ls[0].names;
      assert prefix + Key(m[0]) == prefix + n + [HierarchySeparator] + Key(ls[0]);
      var l := ls[0];
      var v := ValueAt(s, LeafPath(l));
      if !v.Null? {
        var step := if v != l.descriptor.defaultValue then Add(acc, prefix + Key(m[0]), Format(v)) else Ok(acc);
        if step.Ok? {
          DiffLeavesPrepend(step.value, s, ls[1..], n, prefix);
        }
      }
    }
  }

  /** The recursive diff of a tree is the diff of its leaves. */
  lemma {:induction false} ChangesOfLeaves(acc: Dict, s: State, d: SettingDescriptor, instance: Path, prefix: string)
    requires Attached1(d)
    ensures ChangesOf(acc, s, d, instance, prefix) == DiffLeaves(acc, s, LeavesOf(d, instance), prefix)
    decreases d, 0
  {
    var here := instance + [d.property.value.id];
    if d.HasNestedSettingDescriptors() {
      var n := d.name.GetOr("");
      ChangesAllLeaves(acc, s, d.nested.items, here, prefix + n + [HierarchySeparator]);
      DiffLeavesPrepend(acc, s, LeavesAll(d.nested.items, here), n, prefix);
    } else {
      var ls := LeavesOf(d, instance);
      assert Key(ls[0]) == d.name.GetOr("");
      assert ls[1..] == [];
    }
  }

  lemma {:induction false} ChangesAllLeaves(acc: Dict, s: State, ds: seq<SettingDescriptor>, instance: Path, prefix: string)
    requires AllAttached(ds)
    ensures ChangesAll(acc, s, ds, instance, prefix) == DiffLeaves(acc, s, LeavesAll(ds, instance), prefix)
    decreases ds, 1
  {
    if ds != [] {
      ChangesOfLeaves(acc, s, ds[0], instance, prefix);
      DiffLeavesAppend(acc, s, LeavesOf(ds[0], instance), LeavesAll(ds[1..], instance), prefix);
      var r := ChangesOf(acc, s, ds[0], instance, prefix);
      if r.Ok? {
        assert AllAttached(ds[1..]) by {
          assert forall i | 0 <= i < |ds[1..]| :: ds[1..][i] == ds[i + 1];
        }
        ChangesAllLeaves(r.value, s, ds[1..], instance, prefix);
      }
    }
  }

  // ---------------------------------------------------------------------------
  // What the diff of the leaves is
  // ---------------------------------------------------------------------------

  /** A successful diff holds exactly the changed leaves, and it succeeds only
      when no leaf is null. */
  lemma {:induction false} DiffLeavesResult(acc: Dict, s: State, ls: seq<LeafRef>, prefix: string)
    requires DiffLeaves(acc, s, ls, prefix).Ok?
    ensures DiffLeaves(acc, s, ls, prefix).value == acc + ChangedLeaves(s, ls, prefix)
    ensures DistinctKeys(acc) ==> DistinctKeys(DiffLeaves(acc, s, ls, prefix).value)
    ensures forall i | 0 <= i < |ls| :: !ValueAt(s, LeafPath(ls[i])).Null?
    decreases |ls|
  {
    if ls == [] {
      assert acc + [] == acc;
    } else {
      var l := ls[0];
      var v := ValueAt(s, LeafPath(l));
      var step := if v != l.descriptor.defaultValue then Add(acc, prefix + Key(l), Format(v)) else Ok(acc);
      DiffLeavesResult(step.value, s, ls[1..], prefix);
      assert forall i | 1 <= i < |ls| :: ls[i] == ls[1..][i - 1];
      if v != l.descriptor.defaultValue {
        assert acc + [EntryOf(s, l, prefix)] + ChangedLeaves(s, ls[1..], prefix) ==
               acc + ([EntryOf(s, l, prefix)] + ChangedLeaves(s, ls[1..], prefix));
      } else {
        assert [] + ChangedLeaves(s, ls[1..], prefix) == ChangedLeaves(s, ls[1..], prefix);
      }
    }
  }

  /** With no null leaf and no key met twice, the diff succeeds. */
  lemma {:induction false} DiffLeavesSucceeds(acc: Dict, s: State, ls: seq<LeafRef>, prefix: string)
    requires forall i | 0 <= i < |ls| :: !ValueAt(s, LeafPath(ls[i])).Null?
    requires DistinctKeys(acc + ChangedLeaves(s, ls, prefix))
    ensures DiffLeaves(acc, s, ls, prefix) == Ok(acc + ChangedLeaves(s, ls, prefix))
    decreases |ls|
  {
    if ls == [] {
      assert acc + [] == acc;
    } else {
      var l := ls[0];
      var v := ValueAt(s, LeafPath(l));
      var rest := ChangedLeaves(s, ls[1..], prefix);
      assert forall i | 1 <= i < |ls| :: ls[i] == ls[1..][i - 1];
      if v != l.descriptor.defaultValue {
        var e := EntryOf(s, l, prefix);
        assert acc + [e] + rest == acc + ([e] + rest);
        assert !HasKey(acc, e.0) by {
          forall i | 0 <= i < |acc|
            ensures acc[i].0 != e.0
          {
            assert (acc + ([e] + rest))[i] == acc[i] && (acc + ([e] + rest))[|acc|] == e;
          }
        }
        DistinctPrefix(acc + [e], rest);
        DiffLeavesSucceeds(acc + [e], s, ls[1..], prefix);
      } else {
        assert [] + rest == rest;
        DiffLeavesSucceeds(acc, s, ls[1..], prefix);
      }
    }
  }

  lemma DistinctPrefix(a: Dict, b: Dict)
    requires DistinctKeys(a + b)
    ensures DistinctKeys(a)
  {
    forall i, j | 0 <= i < j < |a|
      ensures a[i].0 != a[j].0
    {
      assert (a + b)[i] == a[i] && (a + b)[j] == a[j];
    }
  }

  /** When every leaf holds its default, nothing has changed. */
  lemma {:induction false} NothingChanged(s: State, ls: seq<LeafRef>, prefix: string)
    requires forall i | 0 <= i < |ls| :: ValueAt(s, LeafPath(ls[i])) == ls[i].descriptor.defaultValue
    ensures ChangedLeaves(s, ls, prefix) == []
    decreases |ls|
  {
    if ls != [] {
      assert forall i | 1 <= i < |ls| :: ls[i] == ls[1..][i - 1];
      NothingChanged(s, ls[1..], prefix);
    }
  }

  /** An entry of the changes belongs to a changed leaf, and every changed leaf has one. */
  lemma {:induction false} ChangedLeavesHas(s: State, ls: seq<LeafRef>, prefix: string, e: Entry)
    ensures e in ChangedLeaves(s, ls, prefix) <==>
            exists i | 0 <= i < |ls| :: Changed(s, ls[i]) && e == EntryOf(s, ls[i], prefix)
    decreases |ls|
  {
    if ls != [] {
      ChangedLeavesHas(s, ls[1..], prefix, e);
      assert forall i | 1 <= i < |ls| :: ls[i] == ls[1..][i - 1];
      if exists i | 1 <= i < |ls| :: Changed(s, ls[i]) && e == EntryOf(s, ls[i], prefix) {
        var i :| 1 <= i < |ls| && Changed(s, ls[i]) && e == EntryOf(s, ls[i], prefix);
        assert ls[1..][i - 1] == ls[i];
      }
    }
  }

  // ---------------------------------------------------------------------------
  // GetChangedProperties
  // ---------------------------------------------------------------------------

  /** The leaves of the root list. */
  function Leaves(ds: seq<SettingDescriptor>): seq<LeafRef> {
    LeavesAll(ds, [])
  }

  /** A successful GetChangedProperties is the changed leaves sorted by key,
      and it succeeds only when no leaf is null. */
  lemma ChangedPropertiesLeaves(s: State, ds: seq<SettingDescriptor>)
    requires AllAttached(ds) && ChangedProperties(s, ds).Ok?
    ensures ChangedProperties(s, ds).value == SortByKey(ChangedLeaves(s, Leaves(ds), ""))
    ensures DistinctKeys(ChangedLeaves(s, Leaves(ds), ""))
    ensures forall i | 0 <= i < |Leaves(ds)| :: !ValueAt(s, LeafPath(Leaves(ds)[i])).Null?
  {
    var ls := Leaves(ds);
    ChangesAllLeaves([], s, ds, [], "");
    var r := DiffLeaves([], s, ls, "");
    assert r == ChangesAll([], s, ds, [], "");
    DiffLeavesResult([], s, ls, "");
    var c := ChangedLeaves(s, ls, "");
    assert r.value == c by {
      assert [] + c == c;
    }
    assert DistinctKeys(c) by {
      assert DistinctKeys([]);
    }
  }

  /** A successful GetChangedProperties holds, under strictly ascending keys,
      exactly one entry per changed leaf: its key and its value's string. */
  lemma ChangedPropertiesMeaning(s: State, ds: seq<SettingDescriptor>, e: Entry)
    requires AllAttached(ds) && ChangedProperties(s, ds).Ok?
    ensures SortedKeys(ChangedProperties(s, ds).value)
    ensures e in ChangedProperties(s, ds).value <==>
            exists i | 0 <= i < |Leaves(ds)| :: Changed(s, Leaves(ds)[i]) && e == EntryOf(s, Leaves(ds)[i], "")
  {
    ChangedPropertiesLeaves(s, ds);
    var c := ChangedLeaves(s, Leaves(ds), "");
    SortByKeySorted(c);
    assert e in SortByKey(c) <==> e in c by {
      assert e in SortByKey(c) <==> e in multiset(SortByKey(c));
    }
    ChangedLeavesHas(s, Leaves(ds), "", e);
  }

  /** An object whose leaves all hold their (non-null) defaults has no changes. */
  lemma UntouchedNoChanges(s: State, ds: seq<SettingDescriptor>)
    requires AllAttached(ds)
    requires forall i | 0 <= i < |Leaves(ds)| ::
               ValueAt(s, LeafPath(Leaves(ds)[i])) == Leaves(ds)[i].descriptor.defaultValue &&
               !Leaves(ds)[i].descriptor.defaultValue.Null?
    ensures ChangedProperties(s, ds) == Ok([])
  {
    var ls := Leaves(ds);
    ChangesAllLeaves([], s, ds, [], "");
    NothingChanged(s, ls, "");
    assert [] + ChangedLeaves(s, ls, "") == [];
    DiffLeavesSucceeds([], s, ls, "");
  }

  /** A null leaf makes GetChangedProperties fail. */
  lemma NullLeafFails(s: State, ds: seq<SettingDescriptor>, i: nat)
    requires AllAttached(ds) && i < |Leaves(ds)| && ValueAt(s, LeafPath(Leaves(ds)[i])).Null?
    ensures ChangedProperties(s, ds).Err?
  {
    if ChangedProperties(s, ds).Ok? {
      ChangedPropertiesLeaves(s, ds);
    }
  }
}
