/** BaseSettings of Alkami.Utilities: a settings object whose properties may
    themselves be settings objects. The descriptor tree is built once, when the
    object is constructed, capturing every property's value at that moment as
    its default; the diff against those defaults is what gets persisted, under
    dotted keys, and SetProperties resolves such keys back to properties. */
module Settings {
  import opened Wrappers
  import opened Strings
  import opened Values
  import opened Sorting
  import opened Dicts
  import opened Descriptor
  import DisplayName

  const HierarchySeparator: char := '.'

  // ---------------------------------------------------------------------------
  // The declared shape of a settings class, in place of reflection
  // ---------------------------------------------------------------------------

  /** A declared property: a plain value, or an object of another class that
      declares properties of its own. attribute is the SettingDescriptor
      attribute on the property, if any; initial is the value the property
      has when the base constructor runs. */
  datatype Property =
    | Leaf(id: string, kind: Kind, attribute: Option<SettingDescriptor>, initial: Value)
    | Composite(id: string, typeName: string, attribute: Option<SettingDescriptor>, properties: seq<Property>)

  /** IsPropertyCustomClass: a class (outside the base library) that declares
      at least one property. */
  predicate IsPropertyCustomClass(p: Property) {
    p.Composite? && |p.properties| > 0
  }

  function KindOf(p: Property): Kind {
    if p.Leaf? then p.kind else ObjectK(p.typeName)
  }

  /** A property is addressed by the identifiers from the root object down. */
  type Path = seq<string>

  /** The values of an object's plain properties, nested ones included. */
  type State = map<Path, Value>

  function ValueAt(s: State, path: Path): Value {
    if path in s then s[path] else Null
  }

  /** The state of a freshly constructed object. */
  function InitialState(props: seq<Property>, path: Path): State
    decreases props
  {
    if props == [] then map[] else OwnState(props[0], path) + InitialState(props[1..], path)
  }

  function OwnState(p: Property, path: Path): State
    decreases p
  {
    if IsPropertyCustomClass(p) then InitialState(p.properties, path + [p.id])
    else map[path + [p.id] := if p.Leaf? then p.initial else Obj(p.typeName)]
  }

  /** property.GetValue(instance). */
  function CurrentValue(s: State, p: Property, path: Path): Value {
    if IsPropertyCustomClass(p) then Obj(p.typeName) else ValueAt(s, path + [p.id])
  }

  // ---------------------------------------------------------------------------
  // Building the descriptor tree
  // ---------------------------------------------------------------------------

  function Abs(x: real): real {
    if x < 0.0 then -x else x
  }

  /** Some descriptor of the list has an order away from zero. */
  predicate HasOrder(ds: seq<SettingDescriptor>) {
    exists i | 0 <= i < |ds| :: Abs(ds[i].order) > 0.001
  }

  function OrderOf(d: SettingDescriptor): real {
    d.order
  }

  /** The list ordered by Order (stably) when some order is set, as it is otherwise. */
  function SortIfOrdered(ds: seq<SettingDescriptor>): seq<SettingDescriptor> {
    if HasOrder(ds) then OrderBy(ds, OrderOf) else ds
  }

  /** The attribute of the property, or a blank descriptor, with the property attached. */
  function Attached(p: Property): SettingDescriptor {
    SetPropertyInfo(p.attribute.GetOr(Blank), Some(PropertyInfo(p.id, KindOf(p)))).value
  }

  /** An empty Name becomes the property's identifier. */
  function NameDefaulted(d: SettingDescriptor, id: string): SettingDescriptor {
    if IsNullOrEmpty(d.name) then d.(name := Some(id)) else d
  }

  /** An empty DisplayName becomes the display form of Name. */
  function DisplayNameDefaulted(d: SettingDescriptor): SettingDescriptor
    requires d.name.Some?
  {
    if IsNullOrEmpty(d.displayName) then d.(displayName := Some(DisplayName.DisplayNameOf(d.name.value))) else d
  }

  /** An empty Description becomes "". */
  function DescriptionDefaulted(d: SettingDescriptor): SettingDescriptor {
    if IsNullOrEmpty(d.description) then d.(description := Some("")) else d
  }

  /** A null DefaultValue becomes the property's current value. */
  function DefaultCaptured(d: SettingDescriptor, current: Value): SettingDescriptor {
    if d.defaultValue.Null? then d.(defaultValue := current) else d
  }

  /** The attribute with the property attached and its defaults filled in. */
  function Defaulted(s: State, p: Property, path: Path): SettingDescriptor {
    DefaultCaptured(DescriptionDefaulted(DisplayNameDefaulted(NameDefaulted(Attached(p), p.id))), CurrentValue(s, p, path))
  }

  /** The descriptor built for one property: the attribute (or a blank
      descriptor) with the property attached, Name, DisplayName and
      Description defaulted, the default value captured from the current
      value when the attribute gives none, and, for a nested object, the
      nested descriptors built from that object. */
  function Describe(s: State, p: Property, path: Path): SettingDescriptor
    decreases p
  {
    var d := Defaulted(s, p, path);
    if IsPropertyCustomClass(p) then
      d.(nested := Collection(SortIfOrdered(DescribeAll(s, p.properties, path + [p.id]))))
    else d
  }

  /** BuildSettingDescriptorsForType: one descriptor per declared property, in declaration order. */
  function DescribeAll(s: State, props: seq<Property>, path: Path): seq<SettingDescriptor>
    decreases props
  {
    if props == [] then [] else [Describe(s, props[0], path)] + DescribeAll(s, props[1..], path)
  }

  /** BuildSettingDescriptors: the root list, sorted when ordered. */
  function Descriptors(s: State, schema: seq<Property>): seq<SettingDescriptor> {
    SortIfOrdered(DescribeAll(s, schema, []))
  }

  // ---------------------------------------------------------------------------
  // The diff against the captured defaults
  // ---------------------------------------------------------------------------

  /** GetChangedPropertiesInternal for one descriptor: recurse into a nested
      object under the prefix "Name."; add "prefix+Name" with the value's
      string when a plain value differs from its default. A null value, or a
      descriptor without a property, is a NullReferenceException; a key met
      twice the dictionary's ArgumentException. */
  function ChangesOf(acc: Dict, s: State, d: SettingDescriptor, path: Path, prefix: string): (r: Result<Dict>)
    ensures r.Ok? ==> |acc| <= |r.value| && r.value[..|acc|] == acc
    ensures r.Ok? && DistinctKeys(acc) ==> DistinctKeys(r.value)
    decreases d
  {
    if d.property.None? then Err(NullReference)
    else
      var here := path + [d.property.value.id];
      if d.HasNestedSettingDescriptors() then
        ChangesAll(acc, s, d.nested.items, here, prefix + d.name.GetOr("") + [HierarchySeparator])
      else
        var value := ValueAt(s, here);
        if value.Null? then Err(NullReference)
        else if value != d.defaultValue then Add(acc, prefix + d.name.GetOr(""), Format(value))
        else Ok(acc)
  }

  /** GetChangedPropertiesInternal over a list of descriptors, in order. */
  function ChangesAll(acc: Dict, s: State, ds: seq<SettingDescriptor>, path: Path, prefix: string): (r: Result<Dict>)
    ensures r.Ok? ==> |acc| <= |r.value| && r.value[..|acc|] == acc
    ensures r.Ok? && DistinctKeys(acc) ==> DistinctKeys(r.value)
    decreases ds
  {
    if ds == [] then Ok(acc)
    else
      var acc' :- ChangesOf(acc, s, ds[0], path, prefix);
      var r := ChangesAll(acc', s, ds[1..], path, prefix);
      assert r.Ok? ==> r.value[..|acc|] == r.value[..|acc'|][..|acc|];
      r
  }

  /** GetChangedProperties: the changes, ordered by key. */
  function ChangedProperties(s: State, ds: seq<SettingDescriptor>): (r: Result<Dict>)
    ensures r.Ok? ==> SortedKeys(r.value) && DistinctKeys(r.value)
    ensures r.Ok? <==> ChangesAll([], s, ds, [], "").Ok?
    ensures r.Ok? ==> multiset(r.value) == multiset(ChangesAll([], s, ds, [], "").value)
  {
    var changes :- ChangesAll([], s, ds, [], "");
    SortByKeySorted(changes);
    SortedDistinct(SortByKey(changes));
    Ok(SortByKey(changes))
  }

  // ---------------------------------------------------------------------------
  // Resolving a key and setting properties
  // ---------------------------------------------------------------------------

  /** FirstOrDefault(x => x.Name == name). */
  function FirstNamed(ds: seq<SettingDescriptor>, name: string): (r: Option<SettingDescriptor>)
    ensures r.Some? ==> r.value in ds && r.value.name == Some(name)
    ensures r.None? <==> forall i | 0 <= i < |ds| :: ds[i].name != Some(name)
    ensures r.Some? ==> exists i | 0 <= i < |ds| :: ds[i] == r.value && forall j | 0 <= j < i :: ds[j].name != Some(name)
  {
    if ds == [] then None
    else if ds[0].name == Some(name) then Some(ds[0])
    else FirstNamed(ds[1..], name)
  }

  /** parts.Where(x => x != head). */
  function Without(parts: seq<string>, head: string): (r: seq<string>)
    ensures |r| <= |parts|
    ensures forall i | 0 <= i < |r| :: r[i] != head && r[i] in parts
  {
    if parts == [] then []
    else (if parts[0] == head then [] else [parts[0]]) + Without(parts[1..], head)
  }

  /** The key passed down is made of fewer segments. */
  lemma FewerSegments(parts: seq<string>)
    requires |parts| > 1 && forall i | 0 <= i < |parts| :: HierarchySeparator !in parts[i]
    ensures |Split(Join(Without(parts, parts[0]), HierarchySeparator), HierarchySeparator)| < |parts|
  {
    var rest := Without(parts, parts[0]);
    assert rest == Without(parts[1..], parts[0]);
    if |rest| > 0 {
      SplitJoin(rest, HierarchySeparator);
    }
  }

  /** LocateSettingDescriptor: the object path and the descriptor a dotted key
      names, found segment by segment. Every segment equal to the first is
      dropped before descending, and a key that goes on below a plain
      property descends into a null list, which FirstOrDefault rejects. */
  function Locate(instance: Path, c: SettingDescriptorCollection, key: string): Result<(Path, Option<SettingDescriptor>)>
    decreases |Split(key, HierarchySeparator)|
  {
    if c.NoCollection? then Err(ArgumentNull("source"))
    else
      var parts := Split(key, HierarchySeparator);
      var found := FirstNamed(c.items, parts[0]);
      if |parts| > 1 && found.Some? then
        if found.value.property.None? then Err(NullReference)
        else
          FewerSegments(parts);
          Locate(instance + [found.value.property.value.id], found.value.nested,
                 Join(Without(parts, parts[0]), HierarchySeparator))
      else Ok((instance, found))
  }

  /** One setting of SetProperties: a key that names no descriptor is ignored;
      otherwise the string is converted to the property's type and assigned. */
  function ApplySetting(s: State, ds: seq<SettingDescriptor>, key: string, value: string): Result<State> {
    var located :- Locate([], Collection(ds), key);
    var (instance, found) := located;
    if found.None? then Ok(s)
    else if found.value.property.None? then Err(NullReference)
    else
      var property := found.value.property.value;
      var v :- Parse(property.kind, value);
      Ok(s[instance + [property.id] := v])
  }

  /** SetProperties over a dictionary, in its order: the first failing setting
      stops it, with the earlier ones already assigned. */
  function Applied(s: State, ds: seq<SettingDescriptor>, settings: Dict): (State, Outcome)
    decreases |settings|
  {
    if settings == [] then (s, Pass)
    else
      match ApplySetting(s, ds, settings[0].0, settings[0].1)
      case Err(e) => (s, Fail(e))
      case Ok(s') => Applied(s', ds, settings[1..])
  }

  // ---------------------------------------------------------------------------
  // The settings object
  // ---------------------------------------------------------------------------

  class BaseSettings {
    const schema: seq<Property>
    var state: State
    var settingDescriptors: seq<SettingDescriptor>

    /** The descriptors are built before anything else touches the object. */
    constructor(schema: seq<Property>)
      ensures this.schema == schema && state == InitialState(schema, [])
      ensures settingDescriptors == Descriptors(state, schema)
    {
      this.schema := schema;
      state := InitialState(schema, []);
      new;
      BuildSettingDescriptors();
    }

    method BuildSettingDescriptors()
      modifies this
      ensures state == old(state)
      ensures settingDescriptors == Descriptors(state, schema)
    {
      var built := BuildSettingDescriptorsForType([], schema);
      if HasOrder(built) {
        built := OrderBy(built, OrderOf);
      }
      settingDescriptors := built;
    }

    /** The descriptors of the properties an object declares. */
    method BuildSettingDescriptorsForType(instance: Path, properties: seq<Property>)
      returns (settingDescriptors: seq<SettingDescriptor>)
      ensures settingDescriptors == DescribeAll(state, properties, instance)
      decreases properties, 1
    {
      settingDescriptors := [];
      for i := 0 to |properties|
        invariant DescribeAll(state, properties, instance) ==
                  settingDescriptors + DescribeAll(state, properties[i..], instance)
      {
        assert properties[i..][1..] == properties[i + 1..];
        var settingDescriptor := BuildSettingDescriptor(instance, properties[i]);
        settingDescriptors := settingDescriptors + [settingDescriptor];
      }
    }

    /** The body of the loop of BuildSettingDescriptorsForType for one property. */
    method BuildSettingDescriptor(instance: Path, property: Property) returns (settingDescriptor: SettingDescriptor)
      ensures settingDescriptor == Describe(state, property, instance)
      decreases property, 0
    {
      settingDescriptor := DefaultedDescriptor(instance, property);
      if IsPropertyCustomClass(property) {
        var nested := BuildSettingDescriptorsForType(instance + [property.id], property.properties);
        if HasOrder(nested) {
          nested := OrderBy(nested, OrderOf);
        }
        settingDescriptor := settingDescriptor.(nested := Collection(nested));
      }
    }

    /** The attribute of a property with the property attached and Name,
        DisplayName, Description and DefaultValue defaulted. */
    method DefaultedDescriptor(instance: Path, property: Property) returns (settingDescriptor: SettingDescriptor)
      ensures settingDescriptor == Defaulted(state, property, instance)
    {
      settingDescriptor := if property.attribute.Some? then property.attribute.value else Blank;
      var withProperty := SetPropertyInfo(settingDescriptor, Some(PropertyInfo(property.id, KindOf(property))));
      settingDescriptor := withProperty.value;
      ghost var attached := settingDescriptor;
      assert attached == Attached(property);
      if IsNullOrEmpty(settingDescriptor.name) {
        settingDescriptor := settingDescriptor.(name := Some(property.id));
      }
      ghost var named := settingDescriptor;
      assert named == NameDefaulted(attached, property.id);
      if IsNullOrEmpty(settingDescriptor.displayName) {
        var displayName := DisplayName.ToDisplayName(settingDescriptor.name);
        settingDescriptor := settingDescriptor.(displayName := Some(displayName.value));
      }
      ghost var displayed := settingDescriptor;
      assert displayed == DisplayNameDefaulted(named);
      if IsNullOrEmpty(settingDescriptor.description) {
        settingDescriptor := settingDescriptor.(description := Some(""));
      }
      ghost var described := settingDescriptor;
      assert described == DescriptionDefaulted(displayed);
      if settingDescriptor.defaultValue.Null? {
        settingDescriptor := settingDescriptor.(defaultValue := CurrentValue(state, property, instance));
      }
      assert settingDescriptor == DefaultCaptured(described, CurrentValue(state, property, instance));
    }

    /** A property setter: client code assigning a value. */
    method SetValue(path: Path, value: Value)
      modifies this
      ensures state == old(state)[path := value]
      ensures settingDescriptors == old(settingDescriptors)
    {
      state := state[path := value];
    }

    method GetChangedProperties() returns (r: Result<Dict>)
      ensures r == ChangedProperties(state, settingDescriptors)
    {
      var result := GetChangedPropertiesInternal([], settingDescriptors, [], "");
      if result.Err? {
        return Err(result.error);
      }
      return Ok(SortByKey(result.value));
    }

    method GetChangedPropertiesInternal(instance: Path, settingDescriptors: seq<SettingDescriptor>,
                                        changedProperties: Dict, prefix: string)
      returns (r: Result<Dict>)
      ensures r == ChangesAll(changedProperties, state, settingDescriptors, instance, prefix)
      decreases settingDescriptors, 1
    {
      var changed := changedProperties;
      for i := 0 to |settingDescriptors|
        invariant ChangesAll(changedProperties, state, settingDescriptors, instance, prefix) ==
                  ChangesAll(changed, state, settingDescriptors[i..], instance, prefix)
      {
        assert settingDescriptors[i..][1..] == settingDescriptors[i + 1..];
        var step := GetChangedPropertiesOf(instance, settingDescriptors[i], changed, prefix);
        if step.Err? {
          return Err(step.error);
        }
        changed := step.value;
      }
      return Ok(changed);
    }

    /** The body of the loop of GetChangedPropertiesInternal for one descriptor. */
    method GetChangedPropertiesOf(instance: Path, settingDescriptor: SettingDescriptor,
                                  changedProperties: Dict, prefix: string)
      returns (r: Result<Dict>)
      ensures r == ChangesOf(changedProperties, state, settingDescriptor, instance, prefix)
      decreases settingDescriptor, 0
    {
      if settingDescriptor.property.None? {
        return Err(NullReference);
      }
      var here := instance + [settingDescriptor.property.value.id];
      if settingDescriptor.HasNestedSettingDescriptors() {
        var name := settingDescriptor.name.GetOr("");
        r := GetChangedPropertiesInternal(here, settingDescriptor.nested.items, changedProperties,
                                          prefix + name + [HierarchySeparator]);
        return;
      }
      var value := ValueAt(state, here);
      if value.Null? {
        return Err(NullReference);
      }
      if value != settingDescriptor.defaultValue {
        r := Add(changedProperties, prefix + settingDescriptor.name.GetOr(""), Format(value));
        return;
      }
      return Ok(changedProperties);
    }

    /** Assigns the persisted settings to the properties they name; a null
        dictionary changes nothing. */
    method SetProperties(settings: Option<Dict>) returns (r: Outcome)
      modifies this
      ensures settingDescriptors == old(settingDescriptors)
      ensures settings.None? ==> r == Pass && state == old(state)
      ensures settings.Some? ==> (state, r) == Applied(old(state), settingDescriptors, settings.value)
    {
      if settings.None? {
        return Pass;
      }
      var d := settings.value;
      for i := 0 to |d|
        invariant settingDescriptors == old(settingDescriptors)
        invariant Applied(old(state), settingDescriptors, d) == Applied(state, settingDescriptors, d[i..])
      {
        assert d[i..][1..] == d[i + 1..];
        var (key, value) := d[i];
        var located := Locate([], Collection(settingDescriptors), key);
        if located.Err? {
          return Fail(located.error);
        }
        var (instance, found) := located.value;
        if found.Some? {
          if found.value.property.None? {
            return Fail(NullReference);
          }
          var property := found.value.property.value;
          var parsed := Parse(property.kind, value);
          if parsed.Err? {
            return Fail(parsed.error);
          }
          state := state[instance + [property.id] := parsed.value];
        }
      }
      return Pass;
    }
  }
}
