/** InMemorySettingProvider of Alkami.Framework.Settings: the changes of each
    saved settings object, kept by namespace, and a fresh object with them applied. */
module FrameworkInMemory {
  import opened Wrappers
  import opened Values
  import opened Dicts
  import opened FrameworkDescriptor
  import opened FrameworkSettings
  import opened FrameworkSettingsFacts

  /** The saved changes, by namespace identifier. */
  type Saved = map<string, Dict>

  /** SaveSettings on values: the object's changes replace what the namespace
      held; a failing diff leaves everything as it was. */
  function Save(saved: Saved, ns: string, s: State, ds: seq<SettingDescriptor>): Result<Saved> {
    var changes :- ChangedProperties(s, ds);
    Ok(saved[ns := changes])
  }

  /** GetSettings on values: the state of a new object of the class, with the
      namespace's changes applied when some were saved. */
  function Load(saved: Saved, ns: string, schema: seq<Property>): (State, Outcome) {
    var s0 := InitialState(schema);
    if ns in saved then Applied(s0, Descriptors(s0, schema), saved[ns]) else (s0, Pass)
  }

  /** A namespace nothing was saved under gives a new object. */
  lemma LoadUnsaved(saved: Saved, ns: string, schema: seq<Property>)
    requires ns !in saved
    ensures Load(saved, ns, schema) == (InitialState(schema), Pass)
  {
  }

  /** Saving under one namespace does not change what another one loads. */
  lemma SaveKeepsOthers(saved: Saved, ns: string, other: string, s: State, ds: seq<SettingDescriptor>, schema: seq<Property>)
    requires ns != other && Save(saved, ns, s, ds).Ok?
    ensures Save(saved, ns, s, ds).value.Keys == saved.Keys + {ns}
    ensures Load(Save(saved, ns, s, ds).value, other, schema) == Load(saved, other, schema)
  {
  }

  /** An object saved and loaded again under the same namespace comes back
      with every attributed property it held, under the hypotheses of the round trip. */
  lemma SaveThenLoad(saved: Saved, ns: string, schema: seq<Property>, s: State)
    requires PlainAttributes(schema)
    requires DistinctNames(Descriptors(InitialState(schema), schema))
    requires forall i | 0 <= i < |schema| :: schema[i].attribute.Some? ==> RestorableProperty(schema, s, schema[i])
    requires Save(saved, ns, s, Descriptors(InitialState(schema), schema)).Ok?
    ensures var loaded := Load(Save(saved, ns, s, Descriptors(InitialState(schema), schema)).value, ns, schema);
            loaded.1 == Pass &&
            forall i | 0 <= i < |schema| :: schema[i].attribute.Some? ==> ValueOf(loaded.0, schema[i].id) == ValueOf(s, schema[i].id)
  {
    RoundTrip(schema, s);
  }

  /** A class-typed property whose descriptor defaults to null and that holds
      an object when saved makes every later load of the namespace fail. */
  lemma SavedObjectNeverLoads(saved: Saved, ns: string, schema: seq<Property>, s: State, k: nat, t: string)
    requires var ds := Descriptors(InitialState(schema), schema);
             && DistinctNames(ds) && k < |ds| && ds[k].property.Some? && ds[k].name.Some?
             && ds[k].property.value.kind == ObjectK(t) && ds[k].defaultValue.Null?
             && ValueOf(s, ds[k].property.value.id) == Obj(t)
    requires Save(saved, ns, s, Descriptors(InitialState(schema), schema)).Ok?
    ensures Load(Save(saved, ns, s, Descriptors(InitialState(schema), schema)).value, ns, schema).1 != Pass
  {
    var s0 := InitialState(schema);
    ObjectNullDefaultNeverLoads(s0, Descriptors(s0, schema), s, k, t);
  }

  class InMemorySettingProvider {
    var savedSettings: Saved

    constructor()
      ensures savedSettings == map[]
    {
      savedSettings := map[];
    }

    /** A new object of the class, with the namespace's saved changes applied;
        a null namespace identifier is rejected, and a failing SetProperties
        is passed on. */
    method GetSettings(namespaceIdentifier: Option<string>, schema: seq<Property>) returns (r: Result<BaseSettings>)
      ensures namespaceIdentifier.None? ==> r == Err(ArgumentNull("namespaceIdentifier"))
      ensures namespaceIdentifier.Some? ==>
                var loaded := Load(savedSettings, namespaceIdentifier.value, schema);
                && (loaded.1.Fail? ==> r == Err(loaded.1.error))
                && (loaded.1 == Pass ==> r.Ok? && fresh(r.value) && r.value.schema == schema && r.value.state == loaded.0)
      ensures r.Ok? ==> r.value.settingDescriptors == Descriptors(InitialState(schema), schema)
    {
      if namespaceIdentifier.None? {
        return Err(ArgumentNull("namespaceIdentifier"));
      }
      var settings := new BaseSettings(schema);
      if namespaceIdentifier.value in savedSettings {
        var foundSettings := savedSettings[namespaceIdentifier.value];
        var outcome := settings.SetProperties(Some(foundSettings));
        if outcome.Fail? {
          return Err(outcome.error);
        }
      }
      return Ok(settings);
    }

    /** Keeps the object's changes under the namespace; a null argument is
        rejected and a failing diff is passed on, both leaving the saved
        settings as they were. */
    method SaveSettings(namespaceIdentifier: Option<string>, settings: BaseSettings?) returns (r: Outcome)
      modifies this
      ensures namespaceIdentifier.None? ==> r == Fail(ArgumentNull("namespaceIdentifier")) && savedSettings == old(savedSettings)
      ensures namespaceIdentifier.Some? && settings == null ==> r == Fail(ArgumentNull("settings")) && savedSettings == old(savedSettings)
      ensures namespaceIdentifier.Some? && settings != null ==>
                match Save(old(savedSettings), namespaceIdentifier.value, settings.state, settings.settingDescriptors)
                case Ok(saved) => r == Pass && savedSettings == saved
                case Err(e) => r == Fail(e) && savedSettings == old(savedSettings)
    {
      if namespaceIdentifier.None? {
        return Fail(ArgumentNull("namespaceIdentifier"));
      }
      if settings == null {
        return Fail(ArgumentNull("settings"));
      }
      var changedSettings := settings.GetChangedProperties();
      if changedSettings.Err? {
        return Fail(changedSettings.error);
      }
      savedSettings := savedSettings[namespaceIdentifier.value := changedSettings.value];
      return Pass;
    }
  }
}
