/** What BuildSettingDescriptors of Alkami.Utilities BaseSettings builds: the
    defaults it fills in, the order it leaves the lists in, and the defaults it
    captures from a freshly constructed object. */
module SettingsBuild {
  import opened Wrappers
  import opened Strings
  import opened Values
  import opened Sorting
  import opened Descriptor
  import DisplayName
  import opened Settings
  import opened SettingsDiff

  /** The descriptor of a property is its attribute (or a blank one) with the
      property attached, an empty Name replaced by the property's identifier,
      an empty DisplayName by the display form of Name, an empty Description by
      "", and a null DefaultValue by the property's current value. */
  lemma DefaultedFields(s: State, p: Property, path: Path)
    ensures var a := p.attribute.GetOr(Blank);
            var d := Defaulted(s, p, path);
            && d.property == Some(PropertyInfo(p.id, KindOf(p)))
            && d.name == (if IsNullOrEmpty(a.name) then Some(p.id) else a.name)
            && d.displayName == (if IsNullOrEmpty(a.displayName) then Some(DisplayName.DisplayNameOf(d.name.value)) else a.displayName)
            && d.description == (if IsNullOrEmpty(a.description) then Some("") else a.description)
            && d.defaultValue == (if a.defaultValue.Null? then CurrentValue(s, p, path) else a.defaultValue)
  {
  }

  /** The fields of the attribute that are not defaulted. */
  predicate SameRest(x: SettingDescriptor, y: SettingDescriptor) {
    && x.order == y.order && x.helpId == y.helpId && x.isRequired == y.isRequired
    && x.isSecure == y.isSecure && x.isEnvironmental == y.isEnvironmental
    && x.isMultiline == y.isMultiline && x.isHtml == y.isHtml && x.nested == y.nested
  }

  /** Nothing else of the attribute changes. */
  lemma DefaultedKeeps(s: State, p: Property, path: Path)
    ensures SameRest(Defaulted(s, p, path), p.attribute.GetOr(Blank))
  {
    var a := p.attribute.GetOr(Blank);
    var attached := Attached(p);
    assert SameRest(attached, a);
    var named := NameDefaulted(attached, p.id);
    assert SameRest(named, a);
    var displayed := DisplayNameDefaulted(named);
    assert SameRest(displayed, a);
    var described := DescriptionDefaulted(displayed);
    assert SameRest(described, a);
  }

  /** A nested object's descriptor carries the descriptors built from that
      object, sorted when ordered; any other keeps the attribute's list. */
  lemma DescribeNested(s: State, p: Property, path: Path)
    ensures Describe(s, p, path).nested ==
            if IsPropertyCustomClass(p) then Collection(SortIfOrdered(DescribeAll(s, p.properties, path + [p.id])))
            else p.attribute.GetOr(Blank).nested
    ensures Describe(s, p, path).(nested := Defaulted(s, p, path).nested) == Defaulted(s, p, path)
  {
    DefaultedKeeps(s, p, path);
  }

  /** Every built Name is the attribute's non-empty Name or the property's identifier. */
  lemma DescribeName(s: State, p: Property, path: Path)
    ensures Describe(s, p, path).name.Some?
    ensures p.id != "" ==> Describe(s, p, path).name.value != ""
  {
    DefaultedFields(s, p, path);
    DescribeNested(s, p, path);
  }

  /** One descriptor per declared property, in declaration order. */
  lemma {:induction false} DescribeAllShape(s: State, props: seq<Property>, path: Path)
    ensures |DescribeAll(s, props, path)| == |props|
    ensures forall i | 0 <= i < |props| :: DescribeAll(s, props, path)[i] == Describe(s, props[i], path)
    decreases props
  {
    if props != [] {
      DescribeAllShape(s, props[1..], path);
      assert forall i | 1 <= i < |props| :: props[1..][i - 1] == props[i];
    }
  }

  /** The list is reordered only when some order is set, and then it is a
      stable sort by Order: a permutation, ascending, with the descriptors of
      equal order kept in their declaration order. */
  lemma SortIfOrderedMeaning(ds: seq<SettingDescriptor>, k: real)
    ensures multiset(SortIfOrdered(ds)) == multiset(ds) && |SortIfOrdered(ds)| == |ds|
    ensures HasOrder(ds) ==> SortedBy(SortIfOrdered(ds), OrderOf)
    ensures WithKey(SortIfOrdered(ds), OrderOf, k) == WithKey(ds, OrderOf, k)
    ensures !HasOrder(ds) ==> SortIfOrdered(ds) == ds
  {
    if HasOrder(ds) {
      OrderByPermutation(ds, OrderOf);
      OrderBySorted(ds, OrderOf);
      OrderByStable(ds, OrderOf, k);
    }
  }

  // ---------------------------------------------------------------------------
  // Leaves of a reordered list
  // ---------------------------------------------------------------------------

  lemma {:induction false} LeavesAllHas(ds: seq<SettingDescriptor>, instance: Path, l: LeafRef)
    ensures l in LeavesAll(ds, instance) <==> exists i | 0 <= i < |ds| :: l in LeavesOf(ds[i], instance)
    decreases ds
  {
    if ds != [] {
      LeavesAllHas(ds[1..], instance, l);
      assert forall i | 1 <= i < |ds| :: ds[1..][i - 1] == ds[i];
      if exists i | 1 <= i < |ds| :: l in LeavesOf(ds[i], instance) {
        var i :| 1 <= i < |ds| && l in LeavesOf(ds[i], instance);
        assert l in LeavesOf(ds[1..][i - 1], instance);
      }
    }
  }

  /** Reordering a list keeps its leaves and their being attached. */
  lemma LeavesPermutation(ds: seq<SettingDescriptor>, ds': seq<SettingDescriptor>, instance: Path)
    requires multiset(ds) == multiset(ds')
    ensures forall l :: l in LeavesAll(ds, instance) <==> l in LeavesAll(ds', instance)
    ensures AllAttached(ds) <==> AllAttached(ds')
  {
    forall l
      ensures l in LeavesAll(ds, instance) <==> l in LeavesAll(ds', instance)
    {
      LeavesAllHas(ds, instance, l);
      LeavesAllHas(ds', instance, l);
      if exists i | 0 <= i < |ds| :: l in LeavesOf(ds[i], instance) {
        var i :| 0 <= i < |ds| && l in LeavesOf(ds[i], instance);
        assert ds[i] in multiset(ds');
        var j :| 0 <= j < |ds'| && ds'[j] == ds[i];
      }
      if exists j | 0 <= j < |ds'| :: l in LeavesOf(ds'[j], instance) {
        var j :| 0 <= j < |ds'| && l in LeavesOf(ds'[j], instance);
        assert ds'[j] in multiset(ds);
        var i :| 0 <= i < |ds| && ds[i] == ds'[j];
      }
    }
    if AllAttached(ds) {
      forall j | 0 <= j < |ds'|
        ensures Attached1(ds'[j])
      {
        assert ds'[j] in multiset(ds);
        var i :| 0 <= i < |ds| && ds[i] == ds'[j];
      }
    }
    if AllAttached(ds') {
      forall i | 0 <= i < |ds|
        ensures Attached1(ds[i])
      {
        assert ds[i] in multiset(ds');
        var j :| 0 <= j < |ds'| && ds'[j] == ds[i];
      }
    }
  }

  // ---------------------------------------------------------------------------
  // Defaults captured from a fresh object
  // ---------------------------------------------------------------------------

  /** No attribute gives a DefaultValue or a nested list of its own. */
  predicate PlainAttributes(props: seq<Property>)
    decreases props, 1
  {
    forall i | 0 <= i < |props| :: PlainAttribute(props[i])
  }

  predicate PlainAttribute(p: Property)
    decreases p, 0
  {
    (p.attribute.Some? ==> p.attribute.value.defaultValue.Null? && !p.attribute.value.HasNestedSettingDescriptors())
    && (p.Composite? ==> PlainAttributes(p.properties))
  }

  /** The leaves of the tree are attached and each has as default the value it held in s. */
  predicate CapturedFrom(s: State, ds: seq<SettingDescriptor>, instance: Path) {
    AllAttached(ds) && forall l | l in LeavesAll(ds, instance) :: l.descriptor.defaultValue == ValueAt(s, LeafPath(l))
  }

  /** When no attribute supplies a default, every leaf's default is the value
      the object held when its descriptors were built. */
  lemma {:induction false} DescribeCaptured(s: State, p: Property, path: Path)
    requires PlainAttribute(p)
    ensures CapturedFrom(s, [Describe(s, p, path)], path)
    decreases p, 1
  {
    var d := Describe(s, p, path);
    DefaultedFields(s, p, path);
    DescribeNested(s, p, path);
    assert LeavesAll([d], path) == LeavesOf(d, path) by {
      assert [d][1..] == [];
      assert LeavesOf(d, path) + [] == LeavesOf(d, path);
    }
    assert d.property == Some(PropertyInfo(p.id, KindOf(p)));
    if IsPropertyCustomClass(p) {
      DescribeClassCaptured(s, p, path);
    }
    assert AllAttached([d]) by {
      assert [d][0] == d;
    }
  }

  /** A nested object's descriptor carries its members' descriptors, which
      capture the values the object held. */
  lemma {:induction false} DescribeClassCaptured(s: State, p: Property, path: Path)
    requires PlainAttribute(p) && IsPropertyCustomClass(p)
    ensures var d := Describe(s, p, path);
            Attached1(d) &&
            forall l | l in LeavesOf(d, path) :: l.descriptor.defaultValue == ValueAt(s, LeafPath(l))
    decreases p, 0
  {
    var d := Describe(s, p, path);
    DefaultedFields(s, p, path);
    DescribeNested(s, p, path);
    var here := path + [p.id];
    assert d.property == Some(PropertyInfo(p.id, KindOf(p)));
    var built := DescribeAll(s, p.properties, here);
    DescribeAllCaptured(s, p.properties, here);
    SortIfOrderedMeaning(built, 0.0);
    LeavesPermutation(built, SortIfOrdered(built), here);
    DescribeAllShape(s, p.properties, here);
    assert d.nested == Collection(SortIfOrdered(built));
    assert d.HasNestedSettingDescriptors();
    assert Attached1(d);
    var ms := LeavesAll(d.nested.items, here);
    forall l | l in LeavesOf(d, path)
      ensures l.descriptor.defaultValue == ValueAt(s, LeafPath(l))
    {
      var j :| 0 <= j < |ms| && Prepend(d.name.GetOr(""), ms)[j] == l;
      assert ms[j] in LeavesAll(built, here);
      assert LeafPath(l) == LeafPath(ms[j]);
    }
  }

  lemma {:induction false} DescribeAllCaptured(s: State, props: seq<Property>, path: Path)
    requires PlainAttributes(props)
    ensures CapturedFrom(s, DescribeAll(s, props, path), path)
    decreases props, 2
  {
    if props != [] {
      var head := Describe(s, props[0], path);
      var rest := DescribeAll(s, props[1..], path);
      assert PlainAttribute(props[0]);
      DescribeCaptured(s, props[0], path);
      assert PlainAttributes(props[1..]) by {
        assert forall i | 0 <= i < |props[1..]| :: props[1..][i] == props[i + 1];
      }
      DescribeAllCaptured(s, props[1..], path);
      assert LeavesAll([head], path) == LeavesOf(head, path) by {
        assert [head][1..] == [];
        assert LeavesOf(head, path) + [] == LeavesOf(head, path);
      }
      assert ([head] + rest)[1..] == rest;
      assert Attached1(([head] + rest)[0]);
      assert forall i | 1 <= i < |[head] + rest| :: ([head] + rest)[i] == rest[i - 1];
    }
  }

  /** The descriptors of a freshly constructed object capture its initial values. */
  lemma FreshCaptured(schema: seq<Property>)
    requires PlainAttributes(schema)
    ensures var s0 := InitialState(schema, []);
            CapturedFrom(s0, Descriptors(s0, schema), [])
  {
    var s0 := InitialState(schema, []);
    var built := DescribeAll(s0, schema, []);
    DescribeAllCaptured(s0, schema, []);
    SortIfOrderedMeaning(built, 0.0);
    LeavesPermutation(built, Descriptors(s0, schema), []);
  }

  /** A fresh object has no changes when every property starts non-null, ... */
  lemma FreshNoChanges(schema: seq<Property>)
    requires PlainAttributes(schema)
    requires var s0 := InitialState(schema, []);
             forall l | l in Leaves(Descriptors(s0, schema)) :: !ValueAt(s0, LeafPath(l)).Null?
    ensures var s0 := InitialState(schema, []);
            ChangedProperties(s0, Descriptors(s0, schema)) == Ok([])
  {
    var s0 := InitialState(schema, []);
    var ds := Descriptors(s0, schema);
    FreshCaptured(schema);
    UntouchedNoChanges(s0, ds);
  }

  /** ... and cannot be diffed at all when some property starts null. */
  lemma FreshNullFails(schema: seq<Property>, l: LeafRef)
    requires PlainAttributes(schema)
    requires var s0 := InitialState(schema, []);
             l in Leaves(Descriptors(s0, schema)) && ValueAt(s0, LeafPath(l)).Null?
    ensures var s0 := InitialState(schema, []);
            ChangedProperties(s0, Descriptors(s0, schema)).Err?
  {
    var s0 := InitialState(schema, []);
    var ds := Descriptors(s0, schema);
    FreshCaptured(schema);
    var i :| 0 <= i < |Leaves(ds)| && Leaves(ds)[i] == l;
    NullLeafFails(s0, ds, i);
  }
}
