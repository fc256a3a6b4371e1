/** The zustand store of the concentrations form: one number per
  * substance, starting from fixed defaults. */
module ConcentrationsStore {
  import opened Common

  /** `DEFAULTS`, in ppm, in the order written. */
  const Defaults: Dict<string, real> :=
    Dict(["O2", "H2O", "H2S", "SO2", "NO2"], map["O2" := 30.0, "H2O" := 30.0, "H2S" := 0.0, "SO2" := 10.0, "NO2" := 20.0])

  lemma DefaultsValid()
    ensures Defaults.Valid()
  {
  }

  class Store {
    var concentrations: Dict<string, real>

    ghost predicate Valid()
      reads this
    {
      concentrations.Valid()
    }

    /** `concentrations: { ...DEFAULTS }` */
    constructor()
      ensures Valid() && concentrations == Defaults
    {
      DefaultsValid();
      concentrations := Defaults;
    }

    /** `setConcentration(substance, value)`: that substance gets the
      * value; every other substance keeps its own. */
    method SetConcentration(substance: string, value: real)
      requires Valid()
      modifies this
      ensures Valid()
      ensures concentrations == old(concentrations).Put(substance, value)
      ensures substance in concentrations.vals && concentrations.vals[substance] == value
      ensures forall k :: k != substance ==> (k in concentrations.vals <==> k in old(concentrations.vals))
      ensures forall k :: k != substance && k in concentrations.vals ==> concentrations.vals[k] == old(concentrations.vals)[k]
    {
      concentrations := concentrations.Put(substance, value);
    }

    /** `reset(concentrations)`: exactly the given ones, or a fresh copy of
      * the defaults when none are given. */
    method Reset(given: Option<Dict<string, real>>)
      requires Valid()
      requires given.Some? ==> given.value.Valid()
      modifies this
      ensures Valid()
      ensures concentrations == if given.Some? then given.value else Defaults
    {
      DefaultsValid();
      concentrations := if given.Some? then given.value else Defaults;
    }
  }
}

/** The per-model input stores: concentrations and parameters of one model,
  * created once per model id and kept in a module-wide map. */
module ModelInputStore {
  import opened Common
  import ConcentrationsStore
  import opened Panels

  /** The part of a model's configuration the store reads: its id, the
    * substances it accepts, and each parameter's default value. */
  datatype FormModel = FormModel(modelId: string, validSubstances: seq<string>, parameters: Dict<string, ParameterSpec>)

  /** A parameter's default is any JSON value (`Record<string, any>`). */
  datatype ParameterSpec = ParameterSpec(default: Json)

  /** `([name]) => model.validSubstances.includes(name)` */
  function AcceptedBy(model: FormModel): (string, real) -> bool
  {
    (name: string, value: real) => name in model.validSubstances
  }

  /** `Object.entries(DEFAULTS).filter(([name]) => model.validSubstances.includes(name))`
    * walked entry by entry: the entries among `keys` whose name the model
    * accepts, in the order of `keys`. */
  function Accepted(model: FormModel, keys: seq<string>, vals: map<string, real>): (r: Dict<string, real>)
    ensures forall k :: k in r.vals <==> k in keys && k in vals && k in model.validSubstances
    ensures forall k :: k in r.vals ==> r.vals[k] == vals[k]
    ensures forall k :: k in r.keys <==> k in r.vals
    ensures Distinct(keys) ==> r.Valid()
    decreases |keys|
  {
    if keys == [] then Dict([], map[])
    else
      var rest := Accepted(model, keys[1..], vals);
      if keys[0] in model.validSubstances && keys[0] in vals then
        assert Distinct(keys) ==> keys[0] !in keys[1..];
        Dict([keys[0]] + rest.keys, rest.vals[keys[0] := vals[keys[0]]])
      else rest
  }

  /** `getConcentrationDefaults(model)`: the defaults of the substances the
    * model accepts, in the defaults' order. */
  function ConcentrationDefaults(model: FormModel): (r: Dict<string, real>)
    ensures r.Valid()
    ensures forall k :: k in r.vals <==> k in ConcentrationsStore.Defaults.vals && k in model.validSubstances
    ensures forall k :: k in r.vals ==> r.vals[k] == ConcentrationsStore.Defaults.vals[k]
  {
    ConcentrationsStore.DefaultsValid();
    Accepted(model, ConcentrationsStore.Defaults.keys, ConcentrationsStore.Defaults.vals)
  }

  /** The walk keeps the keys `filter` keeps. */
  lemma {:induction false} AcceptedKeys(model: FormModel, keys: seq<string>, d: Dict<string, real>)
    ensures Accepted(model, keys, d.vals).keys == Filter(keys, d.EntryTest(AcceptedBy(model)))
    decreases |keys|
  {
    if keys != [] {
      AcceptedKeys(model, keys[1..], d);
    }
  }

  /** Walking a dictionary's entries is `Object.fromEntries` of the
    * filtered entries. */
  lemma AcceptedIsSelect(model: FormModel, d: Dict<string, real>)
    requires d.Valid()
    ensures Accepted(model, d.keys, d.vals) == d.Select(AcceptedBy(model))
  {
    var r := Accepted(model, d.keys, d.vals);
    var s := d.Select(AcceptedBy(model));
    AcceptedKeys(model, d.keys, d);
    assert r.vals == s.vals;
  }

  /** Hence the defaults of a model are the defaults filtered by it. */
  lemma ConcentrationDefaultsIsSelect(model: FormModel)
    ensures ConcentrationsStore.Defaults.Valid() && ConcentrationDefaults(model) == ConcentrationsStore.Defaults.Select(AcceptedBy(model))
  {
    ConcentrationsStore.DefaultsValid();
    AcceptedIsSelect(model, ConcentrationsStore.Defaults);
  }

  function DefaultOf(name: string, spec: ParameterSpec): Json
  {
    spec.default
  }

  /** `getParameterDefaults(model)`: every parameter, in order, with its
    * default. */
  function ParameterDefaults(model: FormModel): (r: Dict<string, Json>)
    requires model.parameters.Valid()
    ensures r.Valid() && r.keys == model.parameters.keys
    ensures forall k :: k in model.parameters.vals ==> k in r.vals && r.vals[k] == model.parameters.vals[k].default
  {
    model.parameters.Map(DefaultOf)
  }

  /** Walking keys that are all accepted keeps all of them. */
  lemma {:induction false} AcceptedAll(model: FormModel, keys: seq<string>, vals: map<string, real>)
    requires forall k :: k in keys ==> k in vals && k in model.validSubstances
    ensures Accepted(model, keys, vals).keys == keys
    decreases |keys|
  {
    if keys != [] {
      AcceptedAll(model, keys[1..], vals);
    }
  }

  /** A model accepting every default substance starts from all the
    * defaults. */
  lemma AllAcceptedKeepsDefaults(model: FormModel)
    requires forall k :: k in ConcentrationsStore.Defaults.keys ==> k in model.validSubstances
    ensures ConcentrationDefaults(model) == ConcentrationsStore.Defaults
  {
    var d := ConcentrationsStore.Defaults;
    ConcentrationsStore.DefaultsValid();
    AcceptedAll(model, d.keys, d.vals);
    assert ConcentrationDefaults(model).vals == d.vals;
  }

  /** The two parts `reset(state)` sets. */
  datatype InputState = InputState(concentrations: Dict<string, real>, parameters: Dict<string, Json>)

  /** One model's store. */
  class Store {
    var concentrations: Dict<string, real>
    var parameters: Dict<string, Json>
    const model: FormModel

    ghost predicate Valid()
      reads this
    {
      concentrations.Valid() && parameters.Valid() && model.parameters.Valid()
    }

    /** Both parts hold the model's defaults. */
    ghost predicate AtDefaults()
      reads this
      requires model.parameters.Valid()
    {
      concentrations == ConcentrationDefaults(model) && parameters == ParameterDefaults(model)
    }

    /** `createModelInputStore(modelConfig)`: starts from the model's
      * defaults. */
    constructor(model: FormModel)
      requires model.parameters.Valid()
      ensures Valid() && this.model == model && AtDefaults()
    {
      this.model := model;
      concentrations := ConcentrationDefaults(model);
      parameters := ParameterDefaults(model);
    }

    /** `setConcentration(substance, value)`: only that substance changes. */
    method SetConcentration(substance: string, value: real)
      requires Valid()
      modifies this
      ensures Valid()
      ensures concentrations == old(concentrations).Put(substance, value) && parameters == old(parameters)
      ensures forall k :: k != substance && k in old(concentrations.vals) ==>
                k in concentrations.vals && concentrations.vals[k] == old(concentrations.vals)[k]
    {
      concentrations := concentrations.Put(substance, value);
    }

    /** `setParameter(name, value)`: only that parameter changes. */
    method SetParameter(name: string, value: Json)
      requires Valid()
      modifies this
      ensures Valid()
      ensures parameters == old(parameters).Put(name, value) && concentrations == old(concentrations)
      ensures forall k :: k != name && k in old(parameters.vals) ==>
                k in parameters.vals && parameters.vals[k] == old(parameters.vals)[k]
    {
      parameters := parameters.Put(name, value);
    }

    /** `reset(state)`: exactly the given state, or the model's defaults
      * again when none is given. */
    method Reset(state: Option<InputState>)
      requires Valid()
      requires state.Some? ==> state.value.concentrations.Valid() && state.value.parameters.Valid()
      modifies this
      ensures Valid()
      ensures state.Some? ==> concentrations == state.value.concentrations && parameters == state.value.parameters
      ensures state.None? ==> AtDefaults()
    {
      match state
      case Some(s) =>
        concentrations := s.concentrations;
        parameters := s.parameters;
      case None =>
        concentrations := ConcentrationDefaults(model);
        parameters := ParameterDefaults(model);
    }
  }

  /** The module-wide `modelStores` map. */
  class StoreCache {
    var stores: map<string, Store>

    ghost predicate Valid()
      reads this
    {
      forall id :: id in stores ==> stores[id].model.modelId == id
    }

    constructor()
      ensures Valid() && stores == map[]
    {
      stores := map[];
    }

    /** `getModelInputStore(model)`: the store already made for the model's
      * id, or a new one for this configuration. */
    method GetModelInputStore(model: FormModel) returns (s: Store)
      requires Valid() && model.parameters.Valid()
      modifies this
      ensures Valid()
      ensures s.model.modelId == model.modelId
      ensures model.modelId in old(stores) ==> s == old(stores)[model.modelId] && stores == old(stores)
      ensures model.modelId !in old(stores) ==>
                fresh(s) && s.Valid() && s.model == model && stores == old(stores)[model.modelId := s] &&
                s.AtDefaults()
    {
      if model.modelId in stores {
        return stores[model.modelId];
      }
      s := new Store(model);
      stores := stores[model.modelId := s];
    }

    /** Two models with the same id share one store, made from the first
      * configuration. */
    method SameIdSameStore(first: FormModel, second: FormModel) returns (s1: Store, s2: Store)
      requires Valid() && first.parameters.Valid() && second.parameters.Valid()
      requires first.modelId == second.modelId && first.modelId !in stores
      modifies this
      ensures Valid()
      ensures s1 == s2 && s1.model == first
    {
      s1 := GetModelInputStore(first);
      s2 := GetModelInputStore(second);
    }
  }
}

/** The breadcrumb store: the names of the project and simulation being
  * looked at. */
module BreadcrumbStore {
  import opened Common

  class Store {
    var projectName: Option<string>
    var simulationName: Option<string>

    /** Both names start as `null`. */
    constructor()
      ensures projectName == None && simulationName == None
    {
      projectName := None;
      simulationName := None;
    }

    /** `setProject(name)`: only the project name changes. */
    method SetProject(name: Option<string>)
      modifies this
      ensures projectName == name && simulationName == old(simulationName)
    {
      projectName := name;
    }

    /** `setSimulation(name)`: only the simulation name changes. */
    method SetSimulation(name: Option<string>)
      modifies this
      ensures simulationName == name && projectName == old(projectName)
    {
      simulationName := name;
    }

    /** `clearAll()`: both back to `null`. */
    method ClearAll()
      modifies this
      ensures projectName == None && simulationName == None
    {
      projectName := None;
      simulationName := None;
    }
  }
}

/** The hook holding the chosen model of each category. */
module ModelSelection {
  import opened Common
  import Filtering

  /** One entry per category; `None` is a category set to `undefined`. */
  type Selection = Dict<string, Option<Filtering.ModelConfig>>

  /** `.filter((m) => m !== undefined)` over the values, in order. */
  function Defined(values: seq<Option<Filtering.ModelConfig>>): (r: seq<Filtering.ModelConfig>)
    ensures |r| <= |values|
    ensures forall m :: m in r <==> Some(m) in values
    decreases |values|
  {
    if values == [] then []
    else
      var rest := Defined(values[1..]);
      assert values == [values[0]] + values[1..];
      match values[0]
      case None => rest
      case Some(m) => [m] + rest
  }

  /** `getSelectedModelsArray()`: exactly the models set, in category
    * order. */
  function SelectedModels(selection: Selection): (r: seq<Filtering.ModelConfig>)
    requires selection.Valid()
    ensures forall m :: m in r <==> exists k :: k in selection.vals && selection.vals[k] == Some(m)
  {
    var values := selection.Values();
    forall m
      ensures Some(m) in values <==> exists k :: k in selection.vals && selection.vals[k] == Some(m)
    {
      if exists k :: k in selection.vals && selection.vals[k] == Some(m) {
        var k :| k in selection.vals && selection.vals[k] == Some(m);
        var i :| 0 <= i < |selection.keys| && selection.keys[i] == k;
        assert values[i] == Some(m);
      }
    }
    Defined(values)
  }

  class Hook {
    var selectedModels: Selection

    ghost predicate Valid()
      reads this
    {
      selectedModels.Valid()
    }

    /** `useState<ModelsByCategory>({})` */
    constructor()
      ensures Valid() && selectedModels == Dict.Empty()
    {
      selectedModels := Dict.Empty();
    }

    /** `setModelForCategory(category, model)`: only that category's entry
      * changes. */
    method SetModelForCategory(category: string, model: Option<Filtering.ModelConfig>)
      requires Valid()
      modifies this
      ensures Valid()
      ensures selectedModels == old(selectedModels).Put(category, model)
      ensures selectedModels.vals[category] == model
      ensures forall k :: k != category ==> (k in selectedModels.vals <==> k in old(selectedModels.vals))
      ensures forall k :: k != category && k in old(selectedModels.vals) ==> selectedModels.vals[k] == old(selectedModels.vals)[k]
    {
      selectedModels := selectedModels.Put(category, model);
    }

    /** `clearSelection()`: nothing chosen. */
    method ClearSelection()
      modifies this
      ensures Valid() && selectedModels == Dict.Empty()
    {
      selectedModels := Dict.Empty();
    }
  }

  /** Choosing a model for a category makes it one of the selected models;
    * clearing leaves none. */
  lemma SetThenSelected(selection: Selection, category: string, model: Filtering.ModelConfig)
    requires selection.Valid()
    ensures model in SelectedModels(selection.Put(category, Some(model)))
    ensures SelectedModels(Dict.Empty()) == []
  {
    var after := selection.Put(category, Some(model));
    assert category in after.vals && after.vals[category] == Some(model);
    var empty: Selection := Dict.Empty();
    assert |SelectedModels(empty)| <= |empty.Values()| == 0;
  }
}
