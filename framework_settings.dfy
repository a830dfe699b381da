/** BaseSettings of Alkami.Framework.Settings: the older, flat generation.
    Only the properties the class declares with a SettingDescriptor attribute
    are described; the diff is keyed by Name alone, and SetProperties fails on
    a key that names no descriptor. */
module FrameworkSettings {
  import opened Wrappers
  import opened Strings
  import opened Values
  import opened Sorting
  import opened Dicts
  import opened FrameworkDescriptor
  import DisplayName
  import FrameworkDisplayName
  import Descriptor

  /** A property the settings class declares: its identifier and type, the
      attribute on it, if any, and its value when the base constructor runs. */
  datatype Property = Property(id: string, kind: Kind, attribute: Option<SettingDescriptor>, initial: Value)

  /** The values of the object's properties, by identifier. */
  type State = map<string, Value>

  function ValueOf(s: State, id: string): Value {
    if id in s then s[id] else Null
  }

  /** The state of a freshly constructed object. */
  function InitialState(props: seq<Property>): State
    decreases |props|
  {
    if props == [] then map[] else InitialState(props[1..])[props[0].id := props[0].initial]
  }

  // ---------------------------------------------------------------------------
  // Building the descriptors
  // ---------------------------------------------------------------------------

  /** Some descriptor has an order other than zero. */
  predicate HasOrder(ds: seq<SettingDescriptor>) {
    exists i | 0 <= i < |ds| :: ds[i].order != 0.0
  }

  function OrderOf(d: SettingDescriptor): real {
    d.order
  }

  /** The list ordered by Order (stably) when some order is set, as it is otherwise. */
  function SortIfOrdered(ds: seq<SettingDescriptor>): seq<SettingDescriptor> {
    if HasOrder(ds) then OrderBy(ds, OrderOf) else ds
  }

  /** The attribute with the property attached. */
  function Attached(p: Property, a: SettingDescriptor): SettingDescriptor {
    SetPropertyInfo(a, Some(Descriptor.PropertyInfo(p.id, p.kind))).value
  }

  function NameDefaulted(d: SettingDescriptor, id: string): SettingDescriptor {
    if IsNullOrEmpty(d.name) then d.(name := Some(id)) else d
  }

  function DisplayNameDefaulted(d: SettingDescriptor): SettingDescriptor
    requires d.name.Some?
  {
    if IsNullOrEmpty(d.displayName) then d.(displayName := Some(DisplayName.DisplayNameOf(d.name.value))) else d
  }

  function DescriptionDefaulted(d: SettingDescriptor): SettingDescriptor {
    if IsNullOrEmpty(d.description) then d.(description := Some("")) else d
  }

  function DefaultCaptured(d: SettingDescriptor, current: Value): SettingDescriptor {
    if d.defaultValue.Null? then d.(defaultValue := current) else d
  }

  /** The descriptor of an attributed property: the attribute with the property
      attached and Name, DisplayName, Description and DefaultValue defaulted. */
  function Defaulted(s: State, p: Property, a: SettingDescriptor): SettingDescriptor {
    DefaultCaptured(DescriptionDefaulted(DisplayNameDefaulted(NameDefaulted(Attached(p, a), p.id))), ValueOf(s, p.id))
  }

  /** One descriptor per attributed property, in declaration order. */
  function DescribeAll(s: State, props: seq<Property>): seq<SettingDescriptor>
    decreases |props|
  {
    if props == [] then []
    else
      (if props[0].attribute.Some? then [Defaulted(s, props[0], props[0].attribute.value)] else []) +
      DescribeAll(s, props[1..])
  }

  /** BuildSettingDescriptors: the descriptors, sorted when ordered. */
  function Descriptors(s: State, props: seq<Property>): seq<SettingDescriptor> {
    SortIfOrdered(DescribeAll(s, props))
  }

  // ---------------------------------------------------------------------------
  // The diff
  // ---------------------------------------------------------------------------

  /** The diff over the descriptors in order: a descriptor without a property
      or a null value is a NullReferenceException; a changed value is added
      under Name, which must not be null and must not have been added before. */
  function ChangesAll(acc: Dict, s: State, ds: seq<SettingDescriptor>): (r: Result<Dict>)
    ensures r.Ok? ==> |acc| <= |r.value| && r.value[..|acc|] == acc
    ensures r.Ok? && DistinctKeys(acc) ==> DistinctKeys(r.value)
    decreases |ds|
  {
    if ds == [] then Ok(acc)
    else
      var d := ds[0];
      if d.property.None? then Err(NullReference)
      else
        var value := ValueOf(s, d.property.value.id);
        if value.Null? then Err(NullReference)
        else
          var acc' :- if value == d.defaultValue then Ok(acc)
                      else if d.name.None? then Err(ArgumentNull("key"))
                      else Add(acc, d.name.value, Format(value));
          var r := ChangesAll(acc', s, ds[1..]);
          assert r.Ok? ==> r.value[..|acc|] == r.value[..|acc'|][..|acc|];
          r
  }

  /** GetChangedProperties: the changes, ordered by key. */
  function ChangedProperties(s: State, ds: seq<SettingDescriptor>): (r: Result<Dict>)
    ensures r.Ok? ==> SortedKeys(r.value) && DistinctKeys(r.value)
    ensures r.Ok? <==> ChangesAll([], s, ds).Ok?
    ensures r.Ok? ==> multiset(r.value) == multiset(ChangesAll([], s, ds).value)
  {
    var changes :- ChangesAll([], s, ds);
    SortByKeySorted(changes);
    SortedDistinct(SortByKey(changes));
    Ok(SortByKey(changes))
  }

  // ---------------------------------------------------------------------------
  // SetProperties
  // ---------------------------------------------------------------------------

  /** Where(x => x.Name == key), first match. */
  function FirstNamed(ds: seq<SettingDescriptor>, key: string): (r: Option<SettingDescriptor>)
    ensures r.Some? ==> r.value in ds && r.value.name == Some(key)
    ensures r.None? <==> forall i | 0 <= i < |ds| :: ds[i].name != Some(key)
    ensures r.Some? ==> exists i | 0 <= i < |ds| :: ds[i] == r.value && forall j | 0 <= j < i :: ds[j].name != Some(key)
  {
    if ds == [] then None
    else if ds[0].name == Some(key) then Some(ds[0])
    else FirstNamed(ds[1..], key)
  }

  /** One setting: First() fails with InvalidOperationException when no
      descriptor has the key as Name; otherwise the string is converted to the
      property's type and assigned. */
  function ApplySetting(s: State, ds: seq<SettingDescriptor>, key: string, value: string): Result<State> {
    match FirstNamed(ds, key)
    case None => Err(InvalidOperation)
    case Some(d) =>
      if d.property.None? then Err(NullReference)
      else
        var v :- Parse(d.property.value.kind, value);
        Ok(s[d.property.value.id := v])
  }

  /** SetProperties over a dictionary, in its order, stopping at the first failure. */
  function Applied(s: State, ds: seq<SettingDescriptor>, settings: Dict): (State, Outcome)
    decreases |settings|
  {
    if settings == [] then (s, Pass)
    else
      match ApplySetting(s, ds, settings[0].0, settings[0].1)
      case Err(e) => (s, Fail(e))
      case Ok(s') => Applied(s', ds, settings[1..])
  }

  lemma HasOrderSnoc(ds: seq<SettingDescriptor>, d: SettingDescriptor)
    ensures HasOrder(ds + [d]) <==> HasOrder(ds) || d.order != 0.0
  {
    if HasOrder(ds) {
      var i :| 0 <= i < |ds| && ds[i].order != 0.0;
      assert (ds + [d])[i] == ds[i];
    }
    if d.order != 0.0 {
      assert (ds + [d])[|ds|] == d;
    }
    if HasOrder(ds + [d]) {
      var i :| 0 <= i < |ds + [d]| && (ds + [d])[i].order != 0.0;
      if i < |ds| {
        assert ds[i] == (ds + [d])[i];
      }
    }
  }

  // ---------------------------------------------------------------------------
  // The settings object
  // ---------------------------------------------------------------------------

  class BaseSettings {
    const schema: seq<Property>
    var state: State
    var settingDescriptors: seq<SettingDescriptor>

    /** The descriptors are built before anything else touches the object. */
    constructor(schema: seq<Property>)
      ensures this.schema == schema && state == InitialState(schema)
      ensures settingDescriptors == Descriptors(state, schema)
    {
      this.schema := schema;
      state := InitialState(schema);
      new;
      settingDescriptors := BuildSettingDescriptors();
    }

    method BuildSettingDescriptors() returns (settingDescriptors: seq<SettingDescriptor>)
      ensures settingDescriptors == Descriptors(state, schema)
    {
      settingDescriptors := [];
      var descriptorsHaveOrder := false;
      for i := 0 to |schema|
        invariant DescribeAll(state, schema) == settingDescriptors + DescribeAll(state, schema[i..])
        invariant descriptorsHaveOrder <==> HasOrder(settingDescriptors)
      {
        assert schema[i..][1..] == schema[i + 1..];
        var property := schema[i];
        if property.attribute.Some? {
          var settingDescriptor := DescribeProperty(property);
          if settingDescriptor.order != 0.0 {
            descriptorsHaveOrder := true;
          }
          HasOrderSnoc(settingDescriptors, settingDescriptor);
          assert DescribeAll(state, schema[i..]) == [settingDescriptor] + DescribeAll(state, schema[i + 1..]);
          settingDescriptors := settingDescriptors + [settingDescriptor];
        } else {
          assert DescribeAll(state, schema[i..]) == DescribeAll(state, schema[i + 1..]);
        }
      }
      assert schema[|schema|..] == [];
      assert settingDescriptors == DescribeAll(state, schema);
      if descriptorsHaveOrder {
        settingDescriptors := OrderBy(settingDescriptors, OrderOf);
      }
    }

    /** The body of the loop of BuildSettingDescriptors for an attributed property. */
    method DescribeProperty(property: Property) returns (settingDescriptor: SettingDescriptor)
      requires property.attribute.Some?
      ensures settingDescriptor == Defaulted(state, property, property.attribute.value)
    {
      settingDescriptor := property.attribute.value;
      var withProperty := SetPropertyInfo(settingDescriptor, Some(Descriptor.PropertyInfo(property.id, property.kind)));
      settingDescriptor := withProperty.value;
      ghost var attached := settingDescriptor;
      assert attached == Attached(property, property.attribute.value);
      if IsNullOrEmpty(settingDescriptor.name) {
        settingDescriptor := settingDescriptor.(name := Some(property.id));
      }
      ghost var named := settingDescriptor;
      assert named == NameDefaulted(attached, property.id);
      if IsNullOrEmpty(settingDescriptor.displayName) {
        var displayName := FrameworkDisplayName.ToDisplayName(settingDescriptor.name);
        settingDescriptor := settingDescriptor.(displayName := Some(displayName.value));
      }
      ghost var displayed := settingDescriptor;
      assert displayed == DisplayNameDefaulted(named);
      if IsNullOrEmpty(settingDescriptor.description) {
        settingDescriptor := settingDescriptor.(description := Some(""));
      }
      ghost var described := settingDescriptor;
      assert described == DescriptionDefaulted(displayed);
      if settingDescriptor.defaultValue.Null? {
        settingDescriptor := settingDescriptor.(defaultValue := ValueOf(state, property.id));
      }
      assert settingDescriptor == DefaultCaptured(described, ValueOf(state, property.id));
    }

    /** A property setter: client code assigning a value. */
    method SetValue(id: string, value: Value)
      modifies this
      ensures state == old(state)[id := value]
      ensures settingDescriptors == old(settingDescriptors)
    {
      state := state[id := value];
    }

    method GetChangedProperties() returns (r: Result<Dict>)
      ensures r == ChangedProperties(state, settingDescriptors)
    {
      var result := [];
      for i := 0 to |settingDescriptors|
        invariant ChangesAll([], state, settingDescriptors) == ChangesAll(result, state, settingDescriptors[i..])
      {
        assert settingDescriptors[i..][1..] == settingDescriptors[i + 1..];
        var settingDescriptor := settingDescriptors[i];
        if settingDescriptor.property.None? {
          return Err(NullReference);
        }
        var value := ValueOf(state, settingDescriptor.property.value.id);
        if value.Null? {
          return Err(NullReference);
        }
        if value != settingDescriptor.defaultValue {
          if settingDescriptor.name.None? {
            return Err(ArgumentNull("key"));
          }
          var added := Add(result, settingDescriptor.name.value, Format(value));
          if added.Err? {
            return Err(added.error);
          }
          result := added.value;
        }
      }
      return Ok(SortByKey(result));
    }

    /** Assigns the persisted settings to the properties they name; a null
        dictionary is an ArgumentNullException. */
    method SetProperties(settings: Option<Dict>) returns (r: Outcome)
      modifies this
      ensures settingDescriptors == old(settingDescriptors)
      ensures settings.None? ==> r == Fail(ArgumentNull("settings")) && state == old(state)
      ensures settings.Some? ==> (state, r) == Applied(old(state), settingDescriptors, settings.value)
    {
      if settings.None? {
        return Fail(ArgumentNull("settings"));
      }
      var d := settings.value;
      for i := 0 to |d|
        invariant settingDescriptors == old(settingDescriptors)
        invariant Applied(old(state), settingDescriptors, d) == Applied(state, settingDescriptors, d[i..])
      {
        assert d[i..][1..] == d[i + 1..];
        var (key, value) := d[i];
        var found := FirstNamed(settingDescriptors, key);
        if found.None? {
          return Fail(InvalidOperation);
        }
        var settingDescriptor := found.value;
        if settingDescriptor.property.None? {
          return Fail(NullReference);
        }
        var property := settingDescriptor.property.value;
        var parsed := Parse(property.kind, value);
        if parsed.Err? {
          return Fail(parsed.error);
        }
        state := state[property.id := parsed.value];
      }
      return Pass;
    }
  }
}
