/** Resolving the keys of a diff back to properties, and the round trip of
    Alkami.Utilities BaseSettings: the changes of an object, applied to a
    freshly constructed object of the same class, give back every leaf. */
module SettingsRoundTrip {
  import opened Wrappers
  import opened Strings
  import opened Values
  import opened Dicts
  import opened Descriptor
  import opened Settings
  import opened SettingsDiff
  import opened SettingsBuild

  /** Sibling descriptors have distinct Names. */
  predicate DistinctNames(ds: seq<SettingDescriptor>) {
    forall i, j | 0 <= i < j < |ds| :: ds[i].name != ds[j].name
  }

  /** Every descriptor of the tree has its property and a Name, and siblings
      have distinct Names. */
  predicate Addressable(ds: seq<SettingDescriptor>)
    decreases ds, 1
  {
    DistinctNames(ds) && forall i | 0 <= i < |ds| :: Addressable1(ds[i])
  }

  predicate Addressable1(d: SettingDescriptor)
    decreases d, 0
  {
    d.property.Some? && d.name.Some? && (d.nested.Collection? ==> Addressable(d.nested.items))
  }

  /** The segments of the leaf's key hold no separator and none repeats. */
  predicate KeyAddressable(l: LeafRef) {
    && (forall k | 0 <= k < |l.names| :: HierarchySeparator !in l.names[k])
    && (forall j, k | 0 <= j < k < |l.names| :: l.names[j] != l.names[k])
  }

  /** FirstOrDefault by Name finds a descriptor whose Name no sibling shares. */
  lemma {:induction false} FirstNamedFinds(ds: seq<SettingDescriptor>, i: nat)
    requires DistinctNames(ds) && i < |ds| && ds[i].name.Some?
    ensures FirstNamed(ds, ds[i].name.value) == Some(ds[i])
  {
    if i > 0 {
      assert ds[0].name != ds[i].name;
      assert DistinctNames(ds[1..]) by {
        assert forall j | 0 <= j < |ds[1..]| :: ds[1..][j] == ds[j + 1];
      }
      assert ds[1..][i - 1] == ds[i];
      FirstNamedFinds(ds[1..], i - 1);
    }
  }

  lemma {:induction false} WithoutAbsent(parts: seq<string>, head: string)
    requires head !in parts
    ensures Without(parts, head) == parts
  {
    if parts != [] {
      assert parts == [parts[0]] + parts[1..];
      WithoutAbsent(parts[1..], head);
    }
  }

  /** Dropping the segments equal to the first drops only the first, when none repeats it. */
  lemma WithoutHead(parts: seq<string>)
    requires |parts| >= 1 && parts[0] !in parts[1..]
    ensures Without(parts, parts[0]) == parts[1..]
  {
    assert Without(parts, parts[0]) == [] + Without(parts[1..], parts[0]);
    WithoutAbsent(parts[1..], parts[0]);
  }

  /** A key that repeats its first segment loses every repetition before the
      rest of it is resolved: "Outer.Inner.Outer" is looked up below Outer as "Inner". */
  lemma RepeatedSegmentDropped()
    ensures Without(["Outer", "Inner", "Outer"], "Outer") == ["Inner"]
  {
    assert Without(["Outer"], "Outer") == [] + Without([], "Outer");
    assert Without(["Inner", "Outer"], "Outer") == ["Inner"] + Without(["Outer"], "Outer");
    assert Without(["Outer", "Inner", "Outer"], "Outer") == [] + Without(["Inner", "Outer"], "Outer");
  }

  /** A key of several segments whose first names a descriptor is resolved
      below that descriptor, with the segments equal to the first dropped. */
  lemma LocateDescend(instance: Path, ds: seq<SettingDescriptor>, key: string, d: SettingDescriptor)
    requires |Split(key, HierarchySeparator)| > 1
    requires FirstNamed(ds, Split(key, HierarchySeparator)[0]) == Some(d) && d.property.Some?
    ensures var parts := Split(key, HierarchySeparator);
            Locate(instance, Collection(ds), key) ==
            Locate(instance + [d.property.value.id], d.nested, Join(Without(parts, parts[0]), HierarchySeparator))
  {
  }

  /** A key of one segment is the descriptor of that name in the list, if any. */
  lemma LocateSingle(instance: Path, ds: seq<SettingDescriptor>, key: string)
    requires |Split(key, HierarchySeparator)| == 1
    ensures Locate(instance, Collection(ds), key) == Ok((instance, FirstNamed(ds, Split(key, HierarchySeparator)[0])))
  {
  }

  /** A leaf below a nested object is a leaf of the nested list, under the
      object's name. */
  lemma NestedLeaf(d: SettingDescriptor, instance: Path, l: LeafRef) returns (k: nat, m: LeafRef)
    requires d.property.Some? && d.HasNestedSettingDescriptors() && l in LeavesOf(d, instance)
    ensures k < |d.nested.items| && m in LeavesOf(d.nested.items[k], instance + [d.property.value.id])
    ensures l == m.(names := [d.name.GetOr("")] + m.names)
  {
    var here := instance + [d.property.value.id];
    var ms := LeavesAll(d.nested.items, here);
    var j :| 0 <= j < |ms| && Prepend(d.name.GetOr(""), ms)[j] == l;
    m := ms[j];
    LeavesAllHas(d.nested.items, here, m);
    k :| 0 <= k < |d.nested.items| && m in LeavesOf(d.nested.items[k], here);
  }

  /** The key of a leaf below a nested object, with the object's name as its
      first segment: the rest of the key is the nested leaf's key. */
  lemma NestedKey(l: LeafRef, m: LeafRef, n: string)
    requires l.names == [n] + m.names && |m.names| >= 1 && KeyAddressable(l)
    ensures KeyAddressable(m)
    ensures var parts := Split(Key(l), HierarchySeparator);
            |parts| > 1 && parts[0] == n && Join(Without(parts, parts[0]), HierarchySeparator) == Key(m)
  {
    SplitJoin(l.names, HierarchySeparator);
    var parts := Split(Key(l), HierarchySeparator);
    assert parts == [n] + m.names;
    WithoutHead(parts);
    assert Without(parts, parts[0]) == m.names;
    assert forall x | 0 <= x < |m.names| :: m.names[x] == l.names[x + 1];
  }

  /** LocateSettingDescriptor finds each leaf under its key: the object it belongs to and its descriptor. */
  lemma {:induction false} LocateLeaf(instance: Path, ds: seq<SettingDescriptor>, i: nat, l: LeafRef)
    requires Addressable(ds) && i < |ds| && l in LeavesOf(ds[i], instance) && KeyAddressable(l)
    ensures Locate(instance, Collection(ds), Key(l)) == Ok((l.instance, Some(l.descriptor)))
    decreases ds[i]
  {
    var d := ds[i];
    assert Addressable1(d);
    FirstNamedFinds(ds, i);
    if d.HasNestedSettingDescriptors() {
      var k, m := NestedLeaf(d, instance, l);
      NestedKey(l, m, d.name.value);
      LocateDescend(instance, ds, Key(l), d);
      LocateLeaf(instance + [d.property.value.id], d.nested.items, k, m);
    } else {
      assert l == LeafRef([d.name.value], instance, d.property.value, d);
      SplitJoin(l.names, HierarchySeparator);
      LocateSingle(instance, ds, Key(l));
    }
  }

  // ---------------------------------------------------------------------------
  // Applying settings that resolve
  // ---------------------------------------------------------------------------

  /** Where a setting is written, and what: the located property and the
      converted value; None when it names no property or does not convert. */
  function Target(ds: seq<SettingDescriptor>, key: string, value: string): Option<(Path, Value)> {
    match Locate([], Collection(ds), key)
    case Ok((instance, Some(d))) =>
      if d.property.Some? && Parse(d.property.value.kind, value).Ok? then
        Some((instance + [d.property.value.id], Parse(d.property.value.kind, value).value))
      else None
    case _ => None
  }

  /** A setting with a target assigns exactly that property, whatever the state. */
  lemma ApplyTarget(st: State, ds: seq<SettingDescriptor>, key: string, value: string)
    requires Target(ds, key, value).Some?
    ensures ApplySetting(st, ds, key, value) == Ok(st[Target(ds, key, value).value.0 := Target(ds, key, value).value.1])
  {
  }

  function TargetPath(ds: seq<SettingDescriptor>, e: Entry): Path {
    match Target(ds, e.0, e.1)
    case Some(t) => t.0
    case None => []
  }

  function TargetPaths(ds: seq<SettingDescriptor>, settings: Dict): (r: seq<Path>)
    ensures |r| == |settings|
    ensures forall i | 0 <= i < |settings| :: r[i] == TargetPath(ds, settings[i])
  {
    seq(|settings|, i requires 0 <= i < |settings| => TargetPath(ds, settings[i]))
  }

  /** The setting resolves, and what it writes is the value s holds there. */
  predicate Restores(ds: seq<SettingDescriptor>, e: Entry, s: State) {
    Target(ds, e.0, e.1).Some? && Target(ds, e.0, e.1).value.1 == ValueAt(s, Target(ds, e.0, e.1).value.0)
  }

  /** Applying a dictionary whose first setting resolves is applying the rest
      to the state with that setting written. */
  lemma AppliedHead(st: State, ds: seq<SettingDescriptor>, settings: Dict)
    requires settings != [] && Target(ds, settings[0].0, settings[0].1).Some?
    ensures var t := Target(ds, settings[0].0, settings[0].1).value;
            Applied(st, ds, settings) == Applied(st[t.0 := t.1], ds, settings[1..])
  {
    ApplyTarget(st, ds, settings[0].0, settings[0].1);
  }

  lemma TargetPathsTail(ds: seq<SettingDescriptor>, settings: Dict)
    requires settings != []
    ensures TargetPaths(ds, settings) == [TargetPath(ds, settings[0])] + TargetPaths(ds, settings[1..])
  {
    assert forall i | 0 <= i < |settings[1..]| :: settings[1..][i] == settings[i + 1];
  }

  /** Settings that all resolve, to values read from s, write s's value at each
      target and leave every other property as it was. */
  lemma {:induction false} AppliedTargets(st: State, ds: seq<SettingDescriptor>, settings: Dict, s: State)
    requires forall i | 0 <= i < |settings| ::
               Restores(ds, settings[i], s)
    ensures Applied(st, ds, settings).1 == Pass
    ensures forall p :: ValueAt(Applied(st, ds, settings).0, p) ==
                        if p in TargetPaths(ds, settings) then ValueAt(s, p) else ValueAt(st, p)
    decreases |settings|
  {
    if settings != [] {
      var e := settings[0];
      assert Restores(ds, e, s);
      var t := Target(ds, e.0, e.1).value;
      AppliedHead(st, ds, settings);
      var st' := st[t.0 := t.1];
      assert forall i | 0 <= i < |settings[1..]| :: settings[1..][i] == settings[i + 1];
      AppliedTargets(st', ds, settings[1..], s);
      TargetPathsTail(ds, settings);
      assert TargetPath(ds, e) == t.0;
      var later := TargetPaths(ds, settings[1..]);
      forall p
        ensures p in TargetPaths(ds, settings) <==> p == t.0 || p in later
      {
      }
    }
  }

  /** A changed leaf's entry converts back to its value and is written to it. */
  lemma ChangedLeafTarget(ds: seq<SettingDescriptor>, s: State, l: LeafRef)
    requires Addressable(ds) && l in Leaves(ds) && KeyAddressable(l) && Changed(s, l)
    requires HasKind(ValueAt(s, LeafPath(l)), l.property.kind) && !l.property.kind.ObjectK?
    ensures Target(ds, Key(l), Format(ValueAt(s, LeafPath(l)))) == Some((LeafPath(l), ValueAt(s, LeafPath(l))))
  {
    LeavesAllHas(ds, [], l);
    var i :| 0 <= i < |ds| && l in LeavesOf(ds[i], []);
    LocateLeaf([], ds, i, l);
    var k :| 0 <= k < |Leaves(ds)| && Leaves(ds)[k] == l;
    assert l.descriptor.property == Some(l.property);
    ParseFormat(ValueAt(s, LeafPath(l)), l.property.kind);
  }

  /** The value of the leaf converts back from its string; a class-typed leaf
      cannot be converted, so it must not have changed. */
  predicate Restorable(s: State, l: LeafRef) {
    HasKind(ValueAt(s, LeafPath(l)), l.property.kind) && (l.property.kind.ObjectK? ==> !Changed(s, l))
  }

  /** Every entry of a successful diff resolves to a changed leaf and converts
      back to that leaf's value. */
  lemma EntriesResolve(ds: seq<SettingDescriptor>, s: State)
    requires AllAttached(ds) && Addressable(ds)
    requires forall l | l in Leaves(ds) :: KeyAddressable(l) && Restorable(s, l)
    requires ChangedProperties(s, ds).Ok?
    ensures var c := ChangedProperties(s, ds).value;
            forall i | 0 <= i < |c| :: Restores(ds, c[i], s)
  {
    var c := ChangedProperties(s, ds).value;
    var ls := Leaves(ds);
    ChangedPropertiesLeaves(s, ds);
    var cl := ChangedLeaves(s, ls, "");
    forall i | 0 <= i < |c|
      ensures Restores(ds, c[i], s)
    {
      assert c[i] in multiset(cl);
      ChangedLeavesHas(s, ls, "", c[i]);
      var k :| 0 <= k < |ls| && Changed(s, ls[k]) && c[i] == EntryOf(s, ls[k], "");
      assert "" + Key(ls[k]) == Key(ls[k]);
      ChangedLeafTarget(ds, s, ls[k]);
    }
  }

  /** A setting of a dictionary that resolves names one of its target paths. */
  lemma InTargets(ds: seq<SettingDescriptor>, c: Dict, e: Entry)
    requires e in c && Target(ds, e.0, e.1).Some?
    ensures Target(ds, e.0, e.1).value.0 in TargetPaths(ds, c)
  {
    var i :| 0 <= i < |c| && c[i] == e;
    assert TargetPaths(ds, c)[i] == TargetPath(ds, e);
  }

  /** A changed leaf has its entry in a successful diff. */
  lemma ChangedLeafInDiff(ds: seq<SettingDescriptor>, s: State, l: LeafRef)
    requires AllAttached(ds) && l in Leaves(ds) && Changed(s, l)
    requires ChangedProperties(s, ds).Ok?
    ensures !ValueAt(s, LeafPath(l)).Null? && EntryOf(s, l, "") in ChangedProperties(s, ds).value
  {
    ChangedPropertiesLeaves(s, ds);
    var k :| 0 <= k < |Leaves(ds)| && Leaves(ds)[k] == l;
    var e := EntryOf(s, l, "");
    ChangedLeavesHas(s, Leaves(ds), "", e);
    assert e in multiset(ChangedProperties(s, ds).value);
  }

  /** Every changed leaf is among the targets of a successful diff. */
  lemma ChangedLeafWritten(ds: seq<SettingDescriptor>, s: State, l: LeafRef)
    requires AllAttached(ds) && Addressable(ds) && l in Leaves(ds)
    requires KeyAddressable(l) && Restorable(s, l) && Changed(s, l)
    requires ChangedProperties(s, ds).Ok?
    ensures LeafPath(l) in TargetPaths(ds, ChangedProperties(s, ds).value)
  {
    ChangedLeafInDiff(ds, s, l);
    ChangedLeafTarget(ds, s, l);
    var e := EntryOf(s, l, "");
    assert "" + Key(l) == Key(l);
    InTargets(ds, ChangedProperties(s, ds).value, e);
  }

  /** The diff of s, applied to an object whose state s0 is the one the
      defaults were captured from, restores every leaf of s. */
  lemma RoundTripTree(s0: State, ds: seq<SettingDescriptor>, s: State)
    requires CapturedFrom(s0, ds, []) && Addressable(ds)
    requires forall l | l in Leaves(ds) :: KeyAddressable(l) && Restorable(s, l)
    requires ChangedProperties(s, ds).Ok?
    ensures Applied(s0, ds, ChangedProperties(s, ds).value).1 == Pass
    ensures forall l | l in Leaves(ds) ::
              ValueAt(Applied(s0, ds, ChangedProperties(s, ds).value).0, LeafPath(l)) == ValueAt(s, LeafPath(l))
  {
    var c := ChangedProperties(s, ds).value;
    EntriesResolve(ds, s);
    AppliedTargets(s0, ds, c, s);
    ChangedPropertiesLeaves(s, ds);
    var r := Applied(s0, ds, c).0;
    forall l | l in Leaves(ds)
      ensures ValueAt(r, LeafPath(l)) == ValueAt(s, LeafPath(l))
    {
      var k :| 0 <= k < |Leaves(ds)| && Leaves(ds)[k] == l;
      if Changed(s, l) {
        ChangedLeafWritten(ds, s, l);
      }
    }
  }

  /** Saving the changes of a settings object and applying them to a freshly
      constructed object of the same class gives back every leaf, nested ones
      included, when no attribute supplies a default, Names resolve, and every
      changed value converts back from its string. */
  lemma RoundTrip(schema: seq<Property>, s: State)
    requires PlainAttributes(schema)
    requires var ds := Descriptors(InitialState(schema, []), schema);
             Addressable(ds) && forall l | l in Leaves(ds) :: KeyAddressable(l) && Restorable(s, l)
    requires ChangedProperties(s, Descriptors(InitialState(schema, []), schema)).Ok?
    ensures var s0 := InitialState(schema, []);
            var ds := Descriptors(s0, schema);
            var restored := Applied(s0, ds, ChangedProperties(s, ds).value);
            restored.1 == Pass && forall l | l in Leaves(ds) :: ValueAt(restored.0, LeafPath(l)) == ValueAt(s, LeafPath(l))
  {
    FreshCaptured(schema);
    RoundTripTree(InitialState(schema, []), Descriptors(InitialState(schema, []), schema), s);
  }

  // ---------------------------------------------------------------------------
  // SetProperties on keys that do not resolve
  // ---------------------------------------------------------------------------

  /** A key whose first segment names no descriptor is skipped. */
  lemma UnknownKeySkipped(s: State, ds: seq<SettingDescriptor>, key: string, value: string)
    requires forall i | 0 <= i < |ds| :: ds[i].name != Some(Split(key, HierarchySeparator)[0])
    ensures ApplySetting(s, ds, key, value) == Ok(s)
  {
  }

  /** A key that goes on below a plain property fails: the plain property has no nested list. */
  lemma KeyBelowLeafFails(s: State, ds: seq<SettingDescriptor>, i: nat, rest: string, value: string)
    requires DistinctNames(ds) && i < |ds| && ds[i].name.Some? && ds[i].property.Some? && ds[i].nested.NoCollection?
    requires HierarchySeparator !in ds[i].name.value
    ensures ApplySetting(s, ds, ds[i].name.value + [HierarchySeparator] + rest, value) == Err(ArgumentNull("source"))
  {
    var n := ds[i].name.value;
    var key := n + [HierarchySeparator] + rest;
    IndexOfAfter(n, rest, HierarchySeparator);
    assert Split(key, HierarchySeparator) == [n] + Split(rest, HierarchySeparator);
    FirstNamedFinds(ds, i);
    assert Locate([], Collection(ds), key) == Err(ArgumentNull("source"));
  }
}
