/** Properties of Alkami.Framework BaseSettings: the descriptors it builds,
    what its diff holds and when it succeeds, when SetProperties succeeds, and
    the round trip of an object's changes into a fresh object. */
module FrameworkSettingsFacts {
  import opened Wrappers
  import opened Strings
  import opened Values
  import opened Sorting
  import opened Dicts
  import opened FrameworkDescriptor
  import DisplayName
  import Descriptor
  import opened FrameworkSettings

  // ---------------------------------------------------------------------------
  // The descriptors
  // ---------------------------------------------------------------------------

  /** The descriptor of an attributed property is its attribute with the
      property attached, an empty Name replaced by the property's identifier,
      an empty DisplayName by the display form of Name, an empty Description
      by "", and a null DefaultValue by the property's current value. */
  lemma DefaultedFields(s: State, p: Property, a: SettingDescriptor)
    ensures var d := Defaulted(s, p, a);
            && d.property == Some(Descriptor.PropertyInfo(p.id, p.kind))
            && d.name == (if IsNullOrEmpty(a.name) then Some(p.id) else a.name)
            && d.displayName == (if IsNullOrEmpty(a.displayName) then Some(DisplayName.DisplayNameOf(d.name.value)) else a.displayName)
            && d.description == (if IsNullOrEmpty(a.description) then Some("") else a.description)
            && d.defaultValue == (if a.defaultValue.Null? then ValueOf(s, p.id) else a.defaultValue)
  {
  }

  /** The fields of the attribute that are not defaulted. */
  predicate SameRest(x: SettingDescriptor, y: SettingDescriptor) {
    && x.order == y.order && x.helpId == y.helpId && x.isRequired == y.isRequired
    && x.isSecure == y.isSecure && x.isEnvironmental == y.isEnvironmental
  }

  /** Nothing else of the attribute changes. */
  lemma DefaultedKeeps(s: State, p: Property, a: SettingDescriptor)
    ensures SameRest(Defaulted(s, p, a), a)
  {
    var attached := Attached(p, a);
    assert SameRest(attached, a);
    var named := NameDefaulted(attached, p.id);
    assert SameRest(named, a);
    var displayed := DisplayNameDefaulted(named);
    assert SameRest(displayed, a);
    var described := DescriptionDefaulted(displayed);
    assert SameRest(described, a);
  }

  /** Exactly the properties that carry the attribute are described; a
      property without one is skipped. */
  lemma {:induction false} DescribeAllHas(s: State, props: seq<Property>, d: SettingDescriptor)
    ensures d in DescribeAll(s, props) <==>
            exists i | 0 <= i < |props| :: props[i].attribute.Some? && d == Defaulted(s, props[i], props[i].attribute.value)
    decreases |props|
  {
    if props != [] {
      DescribeAllHas(s, props[1..], d);
      assert forall i | 1 <= i < |props| :: props[1..][i - 1] == props[i];
      if exists i | 1 <= i < |props| :: props[i].attribute.Some? && d == Defaulted(s, props[i], props[i].attribute.value) {
        var i :| 1 <= i < |props| && props[i].attribute.Some? && d == Defaulted(s, props[i], props[i].attribute.value);
        assert props[1..][i - 1] == props[i];
      }
    }
  }

  /** One descriptor per attributed property, in declaration order. */
  lemma {:induction false} DescribeAllLength(s: State, props: seq<Property>)
    ensures |DescribeAll(s, props)| <= |props|
    ensures (forall i | 0 <= i < |props| :: props[i].attribute.Some?) ==> |DescribeAll(s, props)| == |props|
    decreases |props|
  {
    if props != [] {
      DescribeAllLength(s, props[1..]);
      assert forall i | 1 <= i < |props| :: props[1..][i - 1] == props[i];
    }
  }

  /** The list is reordered only when some order is set, and then it is a
      stable sort by Order: a permutation, ascending, with the descriptors of
      equal order kept in their declaration order. */
  lemma SortIfOrderedMeaning(ds: seq<SettingDescriptor>, k: real)
    ensures multiset(SortIfOrdered(ds)) == multiset(ds) && |SortIfOrdered(ds)| == |ds|
    ensures HasOrder(ds) ==> SortedBy(SortIfOrdered(ds), OrderOf)
    ensures WithKey(SortIfOrdered(ds), OrderOf, k) == WithKey(ds, OrderOf, k)
    ensures !HasOrder(ds) ==> SortIfOrdered(ds) == ds
  {
    if HasOrder(ds) {
      OrderByPermutation(ds, OrderOf);
      OrderBySorted(ds, OrderOf);
      OrderByStable(ds, OrderOf, k);
    }
  }

  /** The built (and possibly sorted) descriptors are those of the attributed properties. */
  lemma DescriptorsHas(s: State, props: seq<Property>, d: SettingDescriptor)
    ensures d in Descriptors(s, props) <==>
            exists i | 0 <= i < |props| :: props[i].attribute.Some? && d == Defaulted(s, props[i], props[i].attribute.value)
  {
    var built := DescribeAll(s, props);
    SortIfOrderedMeaning(built, 0.0);
    DescribeAllHas(s, props, d);
    assert d in built <==> d in multiset(built);
    assert d in SortIfOrdered(built) <==> d in multiset(SortIfOrdered(built));
  }

  // ---------------------------------------------------------------------------
  // The diff
  // ---------------------------------------------------------------------------

  /** The descriptor's property holds a value, other than its default. */
  predicate Changed(s: State, d: SettingDescriptor) {
    d.property.Some? && !ValueOf(s, d.property.value.id).Null? && ValueOf(s, d.property.value.id) != d.defaultValue
  }

  /** The entry a changed descriptor contributes: Name and the value's string. */
  function EntryOf(s: State, d: SettingDescriptor): Entry
    requires Changed(s, d)
  {
    (d.name.GetOr(""), Format(ValueOf(s, d.property.value.id)))
  }

  /** The entries of the changed descriptors, in order. */
  function ChangedEntries(s: State, ds: seq<SettingDescriptor>): Dict
    decreases |ds|
  {
    if ds == [] then []
    else (if Changed(s, ds[0]) then [EntryOf(s, ds[0])] else []) + ChangedEntries(s, ds[1..])
  }

  /** What the diff needs: every descriptor has its property and a non-null
      value, every changed one a Name, and no Name is met twice. */
  predicate Diffable(acc: Dict, s: State, ds: seq<SettingDescriptor>) {
    && (forall i | 0 <= i < |ds| :: ds[i].property.Some? && !ValueOf(s, ds[i].property.value.id).Null?)
    && (forall i | 0 <= i < |ds| :: Changed(s, ds[i]) ==> ds[i].name.Some?)
    && DistinctKeys(acc + ChangedEntries(s, ds))
  }

  /** A successful diff holds exactly the changed entries, without a repeated key. */
  lemma {:induction false} ChangesAllResult(acc: Dict, s: State, ds: seq<SettingDescriptor>)
    requires ChangesAll(acc, s, ds).Ok?
    ensures ChangesAll(acc, s, ds).value == acc + ChangedEntries(s, ds)
    ensures DistinctKeys(acc) ==> Diffable(acc, s, ds)
    decreases |ds|
  {
    if ds == [] {
      assert acc + [] == acc;
    } else {
      var d := ds[0];
      var v := ValueOf(s, d.property.value.id);
      var rest := ChangedEntries(s, ds[1..]);
      assert forall i | 1 <= i < |ds| :: ds[i] == ds[1..][i - 1];
      if v != d.defaultValue {
        var e := EntryOf(s, d);
        assert ChangesAll(acc, s, ds) == ChangesAll(acc + [e], s, ds[1..]);
        ChangesAllResult(acc + [e], s, ds[1..]);
        assert ChangedEntries(s, ds) == [e] + rest;
        assert acc + [e] + rest == acc + ([e] + rest);
      } else {
        assert ChangesAll(acc, s, ds) == ChangesAll(acc, s, ds[1..]);
        ChangesAllResult(acc, s, ds[1..]);
        assert ChangedEntries(s, ds) == [] + rest == rest;
      }
    }
  }

  /** When the diff has what it needs, it succeeds. */
  lemma {:induction false} ChangesAllSucceeds(acc: Dict, s: State, ds: seq<SettingDescriptor>)
    requires Diffable(acc, s, ds)
    ensures ChangesAll(acc, s, ds) == Ok(acc + ChangedEntries(s, ds))
    decreases |ds|
  {
    if ds == [] {
      assert acc + [] == acc;
    } else {
      var d := ds[0];
      var rest := ChangedEntries(s, ds[1..]);
      assert forall i | 1 <= i < |ds| :: ds[i] == ds[1..][i - 1];
      if Changed(s, d) {
        var e := EntryOf(s, d);
        assert acc + [e] + rest == acc + ([e] + rest);
        assert !HasKey(acc, e.0) by {
          forall i | 0 <= i < |acc|
            ensures acc[i].0 != e.0
          {
            assert (acc + ([e] + rest))[i] == acc[i] && (acc + ([e] + rest))[|acc|] == e;
          }
        }
        ChangesAllSucceeds(acc + [e], s, ds[1..]);
      } else {
        assert [] + rest == rest;
        ChangesAllSucceeds(acc, s, ds[1..]);
      }
    }
  }

  /** GetChangedProperties succeeds exactly when every descriptor has its
      property and a non-null value, every changed one has a Name, and no two
      changed ones share a Name. */
  lemma ChangedPropertiesSucceeds(s: State, ds: seq<SettingDescriptor>)
    ensures ChangedProperties(s, ds).Ok? <==> Diffable([], s, ds)
  {
    assert [] + ChangedEntries(s, ds) == ChangedEntries(s, ds);
    assert DistinctKeys([]);
    if ChangedProperties(s, ds).Ok? {
      ChangesAllResult([], s, ds);
    }
    if Diffable([], s, ds) {
      ChangesAllSucceeds([], s, ds);
    }
  }

  lemma {:induction false} ChangedEntriesHas(s: State, ds: seq<SettingDescriptor>, e: Entry)
    ensures e in ChangedEntries(s, ds) <==> exists i | 0 <= i < |ds| :: Changed(s, ds[i]) && e == EntryOf(s, ds[i])
    decreases |ds|
  {
    if ds != [] {
      ChangedEntriesHas(s, ds[1..], e);
      assert forall i | 1 <= i < |ds| :: ds[1..][i - 1] == ds[i];
      if exists i | 1 <= i < |ds| :: Changed(s, ds[i]) && e == EntryOf(s, ds[i]) {
        var i :| 1 <= i < |ds| && Changed(s, ds[i]) && e == EntryOf(s, ds[i]);
        assert ds[1..][i - 1] == ds[i];
      }
    }
  }

  /** A successful GetChangedProperties holds, under strictly ascending keys,
      exactly one entry per changed descriptor: its Name and its value's string. */
  lemma ChangedPropertiesMeaning(s: State, ds: seq<SettingDescriptor>, e: Entry)
    requires ChangedProperties(s, ds).Ok?
    ensures SortedKeys(ChangedProperties(s, ds).value)
    ensures e in ChangedProperties(s, ds).value <==>
            exists i | 0 <= i < |ds| :: Changed(s, ds[i]) && e == EntryOf(s, ds[i])
  {
    ChangedPropertiesSucceeds(s, ds);
    ChangesAllSucceeds([], s, ds);
    var c := ChangedEntries(s, ds);
    assert [] + c == c;
    SortByKeySorted(c);
    assert e in SortByKey(c) <==> e in c by {
      assert e in SortByKey(c) <==> e in multiset(SortByKey(c));
    }
    ChangedEntriesHas(s, ds, e);
  }

  // ---------------------------------------------------------------------------
  // SetProperties
  // ---------------------------------------------------------------------------

  /** A setting that SetProperties can assign: some descriptor has the key as
      Name, the first one has its property, and the string converts to its type. */
  predicate Applicable(ds: seq<SettingDescriptor>, e: Entry) {
    var found := FirstNamed(ds, e.0);
    found.Some? && found.value.property.Some? && Parse(found.value.property.value.kind, e.1).Ok?
  }

  /** Whether a setting can be assigned does not depend on the state. */
  lemma ApplySettingOk(s: State, ds: seq<SettingDescriptor>, e: Entry)
    ensures ApplySetting(s, ds, e.0, e.1).Ok? <==> Applicable(ds, e)
  {
  }

  /** SetProperties succeeds exactly when every setting can be assigned. */
  lemma {:induction false} AppliedPasses(s: State, ds: seq<SettingDescriptor>, settings: Dict)
    ensures Applied(s, ds, settings).1 == Pass <==> forall i | 0 <= i < |settings| :: Applicable(ds, settings[i])
    decreases |settings|
  {
    if settings != [] {
      ApplySettingOk(s, ds, settings[0]);
      var r := ApplySetting(s, ds, settings[0].0, settings[0].1);
      assert forall i | 1 <= i < |settings| :: settings[1..][i - 1] == settings[i];
      if r.Ok? {
        AppliedPasses(r.value, ds, settings[1..]);
      }
    }
  }

  /** A key that no descriptor has as Name makes SetProperties fail with an
      InvalidOperationException; the settings before it are assigned. */
  lemma UnknownKeyFails(s: State, ds: seq<SettingDescriptor>, key: string, value: string)
    requires forall i | 0 <= i < |ds| :: ds[i].name != Some(key)
    ensures ApplySetting(s, ds, key, value) == Err(InvalidOperation)
    ensures forall settings: Dict | (key, value) in settings :: Applied(s, ds, settings).1 != Pass
  {
    forall settings: Dict | (key, value) in settings
      ensures Applied(s, ds, settings).1 != Pass
    {
      AppliedPasses(s, ds, settings);
      var i :| 0 <= i < |settings| && settings[i] == (key, value);
      assert !Applicable(ds, settings[i]);
    }
  }

  // ---------------------------------------------------------------------------
  // The round trip
  // ---------------------------------------------------------------------------

  predicate DistinctNames(ds: seq<SettingDescriptor>) {
    forall i, j | 0 <= i < j < |ds| :: ds[i].name != ds[j].name
  }

  /** First() by Name finds a descriptor whose Name no other descriptor has. */
  lemma {:induction false} FirstNamedFinds(ds: seq<SettingDescriptor>, i: nat)
    requires DistinctNames(ds) && i < |ds| && ds[i].name.Some?
    ensures FirstNamed(ds, ds[i].name.value) == Some(ds[i])
  {
    if i > 0 {
      assert ds[0].name != ds[i].name;
      assert DistinctNames(ds[1..]) by {
        assert forall j | 0 <= j < |ds[1..]| :: ds[1..][j] == ds[j + 1];
      }
      assert ds[1..][i - 1] == ds[i];
      FirstNamedFinds(ds[1..], i - 1);
    }
  }

  /** Where a setting is written, and what: the property of the first
      descriptor with that Name and the converted value. */
  function Target(ds: seq<SettingDescriptor>, e: Entry): Option<(string, Value)> {
    if Applicable(ds, e) then
      var p := FirstNamed(ds, e.0).value.property.value;
      Some((p.id, Parse(p.kind, e.1).value))
    else None
  }

  function TargetId(ds: seq<SettingDescriptor>, e: Entry): string {
    match Target(ds, e)
    case Some(t) => t.0
    case None => ""
  }

  function TargetIds(ds: seq<SettingDescriptor>, settings: Dict): (r: seq<string>)
    ensures |r| == |settings|
    ensures forall i | 0 <= i < |settings| :: r[i] == TargetId(ds, settings[i])
  {
    seq(|settings|, i requires 0 <= i < |settings| => TargetId(ds, settings[i]))
  }

  /** The setting resolves, and what it writes is the value s holds there. */
  predicate Restores(ds: seq<SettingDescriptor>, e: Entry, s: State) {
    Target(ds, e).Some? && Target(ds, e).value.1 == ValueOf(s, Target(ds, e).value.0)
  }

  /** Settings that all resolve, to values read from s, write s's value to
      each target and leave every other property as it was. */
  lemma {:induction false} AppliedTargets(st: State, ds: seq<SettingDescriptor>, settings: Dict, s: State)
    requires forall i | 0 <= i < |settings| :: Restores(ds, settings[i], s)
    ensures Applied(st, ds, settings).1 == Pass
    ensures forall id :: ValueOf(Applied(st, ds, settings).0, id) ==
                         if id in TargetIds(ds, settings) then ValueOf(s, id) else ValueOf(st, id)
    decreases |settings|
  {
    if settings != [] {
      assert Restores(ds, settings[0], s);
      var st' := AppliedStep(st, ds, settings, s);
      assert forall i | 0 <= i < |settings[1..]| :: settings[1..][i] == settings[i + 1];
      AppliedTargets(st', ds, settings[1..], s);
    }
  }

  /** The first setting writes s's value to its target; the rest are applied
      to the result. */
  lemma AppliedStep(st: State, ds: seq<SettingDescriptor>, settings: Dict, s: State) returns (st': State)
    requires settings != [] && Restores(ds, settings[0], s)
    ensures Applied(st, ds, settings) == Applied(st', ds, settings[1..])
    ensures TargetIds(ds, settings) == [TargetId(ds, settings[0])] + TargetIds(ds, settings[1..])
    ensures forall id :: ValueOf(st', id) ==
                         if id == TargetId(ds, settings[0]) then ValueOf(s, id) else ValueOf(st, id)
  {
    var e := settings[0];
    var t := Target(ds, e).value;
    st' := st[t.0 := t.1];
    ApplyTarget(st, ds, e);
  }

  /** A setting that resolves writes its parsed value to its target. */
  lemma ApplyTarget(st: State, ds: seq<SettingDescriptor>, e: Entry)
    requires Target(ds, e).Some?
    ensures var t := Target(ds, e).value;
            ApplySetting(st, ds, e.0, e.1) == Ok(st[t.0 := t.1])
  {
  }

  /** Every descriptor has its property and a Name, and no two share a Name. */
  predicate Addressable(ds: seq<SettingDescriptor>) {
    DistinctNames(ds) && forall i | 0 <= i < |ds| :: ds[i].property.Some? && ds[i].name.Some?
  }

  /** The value converts back from its string; a class-typed value cannot be
      converted, so it must not have changed. */
  predicate Restorable(s: State, d: SettingDescriptor)
    requires d.property.Some?
  {
    HasKind(ValueOf(s, d.property.value.id), d.property.value.kind) &&
    (d.property.value.kind.ObjectK? ==> !Changed(s, d))
  }

  /** A changed descriptor's entry converts back to its value and is written to its property. */
  lemma ChangedTarget(ds: seq<SettingDescriptor>, s: State, i: nat)
    requires Addressable(ds) && i < |ds| && Changed(s, ds[i]) && Restorable(s, ds[i])
    ensures var p := ds[i].property.value;
            Target(ds, EntryOf(s, ds[i])) == Some((p.id, ValueOf(s, p.id)))
  {
    var p := ds[i].property.value;
    FirstNamedFinds(ds, i);
    ParseFormat(ValueOf(s, p.id), p.kind);
  }

  /** Every entry of a successful diff resolves and converts back to the value s holds. */
  lemma EntriesResolve(ds: seq<SettingDescriptor>, s: State)
    requires Addressable(ds)
    requires forall i | 0 <= i < |ds| :: Restorable(s, ds[i])
    requires ChangedProperties(s, ds).Ok?
    ensures var c := ChangedProperties(s, ds).value;
            forall i | 0 <= i < |c| :: Restores(ds, c[i], s)
  {
    var c := ChangedProperties(s, ds).value;
    forall i | 0 <= i < |c|
      ensures Restores(ds, c[i], s)
    {
      ChangedPropertiesMeaning(s, ds, c[i]);
      var k :| 0 <= k < |ds| && Changed(s, ds[k]) && c[i] == EntryOf(s, ds[k]);
      ChangedTarget(ds, s, k);
    }
  }

  /** Every changed property is among the targets of a successful diff. */
  lemma ChangedWritten(ds: seq<SettingDescriptor>, s: State, k: nat)
    requires Addressable(ds) && k < |ds| && Restorable(s, ds[k]) && Changed(s, ds[k])
    requires ChangedProperties(s, ds).Ok?
    ensures ds[k].property.value.id in TargetIds(ds, ChangedProperties(s, ds).value)
  {
    var c := ChangedProperties(s, ds).value;
    var e := EntryOf(s, ds[k]);
    ChangedPropertiesMeaning(s, ds, e);
    var i :| 0 <= i < |c| && c[i] == e;
    ChangedTarget(ds, s, k);
    assert TargetIds(ds, c)[i] == ds[k].property.value.id;
  }

  /** The defaults are the values of s0. */
  predicate CapturedFrom(s0: State, ds: seq<SettingDescriptor>) {
    forall i | 0 <= i < |ds| :: ds[i].property.Some? && ds[i].defaultValue == ValueOf(s0, ds[i].property.value.id)
  }

  /** The diff of s, applied to an object in the state s0 the defaults were
      captured from, restores the property of every descriptor. */
  lemma RoundTripFlat(s0: State, ds: seq<SettingDescriptor>, s: State)
    requires CapturedFrom(s0, ds) && Addressable(ds)
    requires forall i | 0 <= i < |ds| :: Restorable(s, ds[i])
    requires ChangedProperties(s, ds).Ok?
    ensures Applied(s0, ds, ChangedProperties(s, ds).value).1 == Pass
    ensures forall i | 0 <= i < |ds| ::
              ValueOf(Applied(s0, ds, ChangedProperties(s, ds).value).0, ds[i].property.value.id) ==
              ValueOf(s, ds[i].property.value.id)
  {
    var c := ChangedProperties(s, ds).value;
    EntriesResolve(ds, s);
    AppliedTargets(s0, ds, c, s);
    forall k | 0 <= k < |ds|
      ensures ValueOf(Applied(s0, ds, c).0, ds[k].property.value.id) == ValueOf(s, ds[k].property.value.id)
    {
      if Changed(s, ds[k]) {
        ChangedWritten(ds, s, k);
      } else {
        ChangedPropertiesSucceeds(s, ds);
      }
    }
  }

  /** No attribute gives a DefaultValue of its own. */
  predicate PlainAttributes(props: seq<Property>) {
    forall i | 0 <= i < |props| :: props[i].attribute.Some? ==> props[i].attribute.value.defaultValue.Null?
  }

  /** When no attribute gives a default, each built default is the value the
      property held when the descriptors were built. */
  lemma FreshCaptured(s0: State, props: seq<Property>)
    requires PlainAttributes(props)
    ensures CapturedFrom(s0, Descriptors(s0, props))
  {
    var ds := Descriptors(s0, props);
    forall k | 0 <= k < |ds|
      ensures ds[k].property.Some? && ds[k].defaultValue == ValueOf(s0, ds[k].property.value.id)
    {
      DescriptorsHas(s0, props, ds[k]);
      var i :| 0 <= i < |props| && props[i].attribute.Some? && ds[k] == Defaulted(s0, props[i], props[i].attribute.value);
      DefaultedFields(s0, props[i], props[i].attribute.value);
    }
  }

  /** A property of the schema whose value in s converts back from its
      string; a class-typed one must still hold its initial value. */
  predicate RestorableProperty(schema: seq<Property>, s: State, p: Property) {
    HasKind(ValueOf(s, p.id), p.kind) && (p.kind.ObjectK? ==> ValueOf(s, p.id) == ValueOf(InitialState(schema), p.id))
  }

  /** The built descriptors have their property and a Name, and each is
      restorable when its property is. */
  lemma DescriptorsAddressable(schema: seq<Property>, s: State)
    requires PlainAttributes(schema)
    requires DistinctNames(Descriptors(InitialState(schema), schema))
    requires forall i | 0 <= i < |schema| :: schema[i].attribute.Some? ==> RestorableProperty(schema, s, schema[i])
    ensures var ds := Descriptors(InitialState(schema), schema);
            Addressable(ds) && CapturedFrom(InitialState(schema), ds) && forall k | 0 <= k < |ds| :: Restorable(s, ds[k])
  {
    var s0 := InitialState(schema);
    var ds := Descriptors(s0, schema);
    FreshCaptured(s0, schema);
    forall k | 0 <= k < |ds|
      ensures ds[k].property.Some? && ds[k].name.Some? && Restorable(s, ds[k])
    {
      DescriptorsHas(s0, schema, ds[k]);
      var i :| 0 <= i < |schema| && schema[i].attribute.Some? && ds[k] == Defaulted(s0, schema[i], schema[i].attribute.value);
      DefaultedFields(s0, schema[i], schema[i].attribute.value);
      assert RestorableProperty(schema, s, schema[i]);
    }
  }

  /** Saving the changes of a settings object and applying them to a freshly
      constructed object of the same class gives back every attributed
      property, when no attribute gives a default, Names are distinct and
      every value converts back from its string. */
  lemma RoundTrip(schema: seq<Property>, s: State)
    requires PlainAttributes(schema)
    requires DistinctNames(Descriptors(InitialState(schema), schema))
    requires forall i | 0 <= i < |schema| :: schema[i].attribute.Some? ==> RestorableProperty(schema, s, schema[i])
    requires ChangedProperties(s, Descriptors(InitialState(schema), schema)).Ok?
    ensures var s0 := InitialState(schema);
            var ds := Descriptors(s0, schema);
            var restored := Applied(s0, ds, ChangedProperties(s, ds).value);
            restored.1 == Pass &&
            forall i | 0 <= i < |schema| :: schema[i].attribute.Some? ==> ValueOf(restored.0, schema[i].id) == ValueOf(s, schema[i].id)
  {
    var s0 := InitialState(schema);
    var ds := Descriptors(s0, schema);
    DescriptorsAddressable(schema, s);
    RoundTripFlat(s0, ds, s);
    forall i | 0 <= i < |schema| && schema[i].attribute.Some?
      ensures ValueOf(Applied(s0, ds, ChangedProperties(s, ds).value).0, schema[i].id) == ValueOf(s, schema[i].id)
    {
      var d := Defaulted(s0, schema[i], schema[i].attribute.value);
      DescriptorsHas(s0, schema, d);
      DefaultedFields(s0, schema[i], schema[i].attribute.value);
      var k :| 0 <= k < |ds| && ds[k] == d;
    }
  }

  /** The properties of the class have distinct identifiers. */
  predicate DistinctIds(props: seq<Property>) {
    forall i, j | 0 <= i < j < |props| :: props[i].id != props[j].id
  }

  /** A new object holds each property's initial value. */
  lemma {:induction false} InitialStateValue(props: seq<Property>, i: nat)
    requires DistinctIds(props) && i < |props|
    ensures ValueOf(InitialState(props), props[i].id) == props[i].initial
    decreases |props|
  {
    if i > 0 {
      assert props[1..][i - 1] == props[i];
      assert DistinctIds(props[1..]) by {
        assert forall j | 0 <= j < |props[1..]| :: props[1..][j] == props[j + 1];
      }
      InitialStateValue(props[1..], i - 1);
      assert props[0].id != props[i].id;
    }
  }

  /** A property that the base constructor sees as null, because a derived
      constructor body assigns it only afterwards, and whose attribute gives
      no default, is described with a null default. */
  lemma DerivedConstructorNullDefault(schema: seq<Property>, i: nat)
    requires DistinctIds(schema) && i < |schema| && schema[i].initial.Null?
    requires schema[i].attribute.Some? && schema[i].attribute.value.defaultValue.Null?
    ensures var s0 := InitialState(schema);
            var d := Defaulted(s0, schema[i], schema[i].attribute.value);
            d in Descriptors(s0, schema) && d.defaultValue.Null?
  {
    var s0 := InitialState(schema);
    InitialStateValue(schema, i);
    DefaultedFields(s0, schema[i], schema[i].attribute.value);
    DescriptorsHas(s0, schema, Defaulted(s0, schema[i], schema[i].attribute.value));
  }

  /** A class-typed property whose descriptor defaults to null (one assigned
      only after the descriptors are built) and that then holds an object is
      saved, but the saved settings can never be loaded: the object's type
      name does not convert back. */
  lemma ObjectNullDefaultNeverLoads(st: State, ds: seq<SettingDescriptor>, s: State, k: nat, t: string)
    requires DistinctNames(ds) && k < |ds| && ds[k].property.Some? && ds[k].name.Some?
    requires ds[k].property.value.kind == ObjectK(t) && ds[k].defaultValue.Null?
    requires ValueOf(s, ds[k].property.value.id) == Obj(t)
    requires ChangedProperties(s, ds).Ok?
    ensures Applied(st, ds, ChangedProperties(s, ds).value).1 != Pass
  {
    var c := ChangedProperties(s, ds).value;
    var e := EntryOf(s, ds[k]);
    ChangedPropertiesMeaning(s, ds, e);
    var i :| 0 <= i < |c| && c[i] == e;
    FirstNamedFinds(ds, k);
    assert !Applicable(ds, c[i]);
    AppliedPasses(st, ds, c);
  }
}
