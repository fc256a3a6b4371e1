/** The legacy response shapes: the old form configuration built from the
  * model list, and the old simulation results built from a run. */
module Legacy {
  import opened Common
  import opened Text
  import opened Panels
  import opened Adapters

  /** `DEFAULTS`: the substances the old form enabled, with their defaults. */
  const Defaults: map<string, int> := map["O2" := 30, "H2O" := 30, "H2S" := 0, "SO2" := 10, "NO2" := 20]

  /** The part of a `ModelInfo` the old form uses. `parameters` is the
    * parameters' JSON schema: property name to the property's object. */
  datatype LegacyModel = LegacyModel(accessError: Option<string>, modelId: string,
                                     validSubstances: seq<string>,
                                     parameters: Dict<string, map<string, Json>>)

  /** One `inputConcentrations` entry. */
  datatype SubstanceInput = SubstanceInput(defaultValue: int, enabled: bool, meta: string,
                                           max: int, valueType: string, inputType: string)

  /** One `settings` entry; `min` and `max` are `null` when the schema has none. */
  datatype SettingInput = SettingInput(defaultValue: Json, meta: string, valueType: string,
                                       inputType: string, enabled: bool, min: Json, max: Json)

  /** One model's `formconfig`. */
  datatype FormConfig = FormConfig(inputConcentrations: Dict<string, SubstanceInput>,
                                   settings: Dict<string, SettingInput>, unavailable: Option<string>)

  /** The `KeyError` of a property without a `"default"`. */
  datatype MissingDefault = MissingDefault(modelId: string, parameter: string)

  function SubstanceInputOf(subst: string): SubstanceInput
  {
    SubstanceInput(GetOr(Defaults, subst, 0), subst in Defaults, "ppm", 1000000, "float", "textbox")
  }

  /** An old-form substance is enabled exactly when it has a default; the
    * others, and H2S among the enabled ones, start at 0. */
  lemma SubstanceInputRules(subst: string)
    ensures SubstanceInputOf(subst).enabled <==> subst in Defaults
    ensures subst !in Defaults ==> SubstanceInputOf(subst).defaultValue == 0
    ensures SubstanceInputOf("H2S") == SubstanceInput(0, true, "ppm", 1000000, "float", "textbox")
    ensures SubstanceInputOf("CO2").enabled == false
  {
  }

  /** Python's `str()` of a JSON value; `strOther` spells numbers, lists and
    * dictionaries, whose float and container formatting is not modelled. */
  function PyStr(j: Json, strOther: Json -> string): (s: string)
  {
    match j
    case JNull => "None"
    case JBool(b) => if b then "True" else "False"
    case JString(s) => s
    case _ => strOther(j)
  }

  /** `str(param.get("unit", param.get("custom_unit", "")))` */
  function Meta(param: map<string, Json>, strOther: Json -> string): (s: string)
  {
    PyStr(GetOr(param, "unit", GetOr(param, "custom_unit", JString(""))), strOther)
  }

  /** The unit's text when the property has one; "None" when its `unit` is
    * `null`, which is how a parameter declared without a unit, or with a
    * convertible unit, appears in the schema; the custom unit only when
    * there is no `unit` key at all. */
  lemma MetaRules(param: map<string, Json>, strOther: Json -> string, u: string)
    ensures "unit" in param && param["unit"] == JString(u) ==> Meta(param, strOther) == u
    ensures "unit" in param && param["unit"] == JNull ==> Meta(param, strOther) == "None"
    ensures "unit" !in param && "custom_unit" !in param ==> Meta(param, strOther) == ""
    ensures "unit" !in param && "custom_unit" in param && param["custom_unit"] == JString(u) ==>
              Meta(param, strOther) == u
  {
  }

  /** One `settings` entry, for a property that has a `"default"`. */
  function SettingOf(param: map<string, Json>, strOther: Json -> string): SettingInput
  {
    SettingInput(GetOr(param, "default", JNull), Meta(param, strOther), "float", "slider", true,
                 GetOr(param, "minimum", JNull), GetOr(param, "maximum", JNull))
  }

  /** The position of the first property without a default, or `|keys|`. */
  function FirstMissing(keys: seq<string>, vals: map<string, map<string, Json>>): (i: nat)
    requires forall k :: k in keys ==> k in vals
    ensures i <= |keys|
    ensures i < |keys| ==> "default" !in vals[keys[i]]
    ensures forall j :: 0 <= j < i ==> "default" in vals[keys[j]]
  {
    if keys == [] then 0
    else if "default" !in vals[keys[0]] then 0
    else 1 + FirstMissing(keys[1..], vals)
  }

  /** Every property of the model's schema has a default. */
  predicate HasDefaults(m: LegacyModel)
  {
    forall k :: k in m.parameters.vals ==> "default" in m.parameters.vals[k]
  }

  /** One model's form configuration, or the `KeyError` of the first
    * property (in schema order) without a default. */
  function FormConfigOf(m: LegacyModel, strOther: Json -> string): (r: Result<FormConfig, MissingDefault>)
    requires m.parameters.Valid()
    ensures r.Success? <==> HasDefaults(m)
    ensures r.Failure? ==> var i := FirstMissing(m.parameters.keys, m.parameters.vals);
              i < |m.parameters.keys| && r.error == MissingDefault(m.modelId, m.parameters.keys[i])
  {
    var ks := m.parameters.keys;
    var i := FirstMissing(ks, m.parameters.vals);
    if i < |ks| then Failure(MissingDefault(m.modelId, ks[i]))
    else
      assert HasDefaults(m) by {
        forall k | k in m.parameters.vals
          ensures "default" in m.parameters.vals[k]
        {
          var j :| 0 <= j < |ks| && ks[j] == k;
        }
      }
      Success(FormConfig(Comprehend(m.validSubstances, (s: string) => s, SubstanceInputOf),
                         m.parameters.Map((name: string, param: map<string, Json>) => SettingOf(param, strOther)),
                         m.accessError))
  }

  /** A built form lists exactly the model's valid substances, each with its
    * old-form input, one setting per property in schema order carrying the
    * property's default, unit text and bounds, and the access error as
    * `unavailable`; a form that cannot be built names the first property
    * without a default. */
  lemma FormConfigContents(m: LegacyModel, strOther: Json -> string, subst: string, name: string)
    requires m.parameters.Valid()
    ensures FormConfigOf(m, strOther).Success? ==>
              var c := FormConfigOf(m, strOther).value;
              && (subst in c.inputConcentrations.vals <==> subst in m.validSubstances)
              && (subst in c.inputConcentrations.vals ==> c.inputConcentrations.vals[subst] == SubstanceInputOf(subst))
              && c.settings.keys == m.parameters.keys
              && (name in m.parameters.vals ==>
                    && name in c.settings.vals
                    && c.settings.vals[name].defaultValue == m.parameters.vals[name]["default"]
                    && c.settings.vals[name].meta == Meta(m.parameters.vals[name], strOther)
                    && c.settings.vals[name].min == GetOr(m.parameters.vals[name], "minimum", JNull)
                    && c.settings.vals[name].max == GetOr(m.parameters.vals[name], "maximum", JNull))
              && c.unavailable == m.accessError
    ensures FormConfigOf(m, strOther).Failure? ==>
              exists i :: (0 <= i < |m.parameters.keys| && "default" !in m.parameters.vals[m.parameters.keys[i]]
                           && (forall j :: 0 <= j < i ==> "default" in m.parameters.vals[m.parameters.keys[j]])
                           && FormConfigOf(m, strOther).error == MissingDefault(m.modelId, m.parameters.keys[i]))
  {
    InputsContents(m.validSubstances, subst);
    if FormConfigOf(m, strOther).Success? {
      SettingsContents(m, strOther, name);
    } else {
      MissingContents(m, strOther);
    }
  }

  /** The old-form inputs hold each valid substance once, with its input. */
  lemma InputsContents(validSubstances: seq<string>, subst: string)
    ensures var concs := Comprehend(validSubstances, (s: string) => s, SubstanceInputOf);
            && (subst in concs.vals <==> subst in validSubstances)
            && (subst in concs.vals ==> concs.vals[subst] == SubstanceInputOf(subst))
  {
    var concs := Comprehend(validSubstances, (s: string) => s, SubstanceInputOf);
    ComprehendKeys(validSubstances, (s: string) => s, SubstanceInputOf, subst);
    if subst in concs.vals {
      var i :| 0 <= i < |validSubstances| && validSubstances[i] == subst;
      LastOccurrence(validSubstances, i);
      var last :| i <= last < |validSubstances| && validSubstances[last] == subst
                  && forall j :: last < j < |validSubstances| ==> validSubstances[j] != subst;
      ComprehendLastWins(validSubstances, (s: string) => s, SubstanceInputOf, last);
    }
  }

  /** A built form's settings follow the schema, one per property. */
  lemma SettingsContents(m: LegacyModel, strOther: Json -> string, name: string)
    requires m.parameters.Valid() && FormConfigOf(m, strOther).Success?
    ensures var c := FormConfigOf(m, strOther).value;
            && c.inputConcentrations == Comprehend(m.validSubstances, (s: string) => s, SubstanceInputOf)
            && c.settings.keys == m.parameters.keys
            && (name in m.parameters.vals ==>
                  && name in c.settings.vals
                  && c.settings.vals[name].defaultValue == m.parameters.vals[name]["default"]
                  && c.settings.vals[name].meta == Meta(m.parameters.vals[name], strOther)
                  && c.settings.vals[name].min == GetOr(m.parameters.vals[name], "minimum", JNull)
                  && c.settings.vals[name].max == GetOr(m.parameters.vals[name], "maximum", JNull))
            && c.unavailable == m.accessError
  {
  }

  /** A form that cannot be built names the first property without a
    * default. */
  lemma MissingContents(m: LegacyModel, strOther: Json -> string)
    requires m.parameters.Valid() && FormConfigOf(m, strOther).Failure?
    ensures exists i :: (0 <= i < |m.parameters.keys| && "default" !in m.parameters.vals[m.parameters.keys[i]]
                         && (forall j :: 0 <= j < i ==> "default" in m.parameters.vals[m.parameters.keys[j]])
                         && FormConfigOf(m, strOther).error == MissingDefault(m.modelId, m.parameters.keys[i]))
  {
    var i := FirstMissing(m.parameters.keys, m.parameters.vals);
    assert 0 <= i < |m.parameters.keys| && "default" !in m.parameters.vals[m.parameters.keys[i]];
  }

  /** A position has a last position holding the same element. */
  lemma LastOccurrence<T>(s: seq<T>, i: nat)
    requires i < |s|
    ensures exists last :: (i <= last < |s| && s[last] == s[i]
                            && forall j :: last < j < |s| ==> s[j] != s[i])
    decreases |s| - i
  {
    if exists j :: i < j < |s| && s[j] == s[i] {
      var j :| i < j < |s| && s[j] == s[i];
      LastOccurrence(s, j);
    } else {
      assert i <= i < |s| && s[i] == s[i] && forall j :: i < j < |s| ==> s[j] != s[i];
    }
  }

  /** The dict comprehension over the models, evaluated in order: the first
    * form that cannot be built raises; otherwise the forms are keyed by model
    * id, a later model with the same id replacing the earlier one. */
  function Gather(ids: seq<string>, forms: seq<Result<FormConfig, MissingDefault>>): (r: Result<Dict<string, FormConfig>, MissingDefault>)
    requires |ids| == |forms|
    ensures r.Success? ==> r.value.Valid()
  {
    if ids == [] then Success(Dict.Empty())
    else
      var n := |ids| - 1;
      match Gather(ids[..n], forms[..n])
      case Failure(e) => Failure(e)
      case Success(d) =>
        match forms[n]
        case Failure(e) => Failure(e)
        case Success(c) => Success(d.Put(ids[n], c))
  }

  /** `model_infos_to_formconfig` */
  function ModelInfosToFormConfig(models: seq<LegacyModel>, strOther: Json -> string): (r: Result<Dict<string, FormConfig>, MissingDefault>)
    requires forall i :: 0 <= i < |models| ==> models[i].parameters.Valid()
  {
    Gather(Ids(models), Forms(models, strOther))
  }

  /** Gathering succeeds exactly when every form was built, and then fails
    * with the first failure. */
  lemma GatherSucceeds(ids: seq<string>, forms: seq<Result<FormConfig, MissingDefault>>)
    requires |ids| == |forms|
    ensures Gather(ids, forms).Success? <==> forall i :: 0 <= i < |forms| ==> forms[i].Success?
    ensures Gather(ids, forms).Failure? ==>
              exists i :: (0 <= i < |forms| && forms[i] == Failure(Gather(ids, forms).error)
                           && forall j :: 0 <= j < i ==> forms[j].Success?)
  {
    GatherSuccessIff(ids, forms);
    GatherFirstFailure(ids, forms);
  }

  lemma {:induction false} GatherSuccessIff(ids: seq<string>, forms: seq<Result<FormConfig, MissingDefault>>)
    requires |ids| == |forms|
    ensures Gather(ids, forms).Success? <==> forall i :: 0 <= i < |forms| ==> forms[i].Success?
  {
    if ids != [] {
      var n := |ids| - 1;
      GatherSuccessIff(ids[..n], forms[..n]);
      assert forall i :: 0 <= i < n ==> forms[..n][i] == forms[i];
    }
  }

  lemma {:induction false} GatherFirstFailure(ids: seq<string>, forms: seq<Result<FormConfig, MissingDefault>>)
    requires |ids| == |forms|
    ensures Gather(ids, forms).Failure? ==>
              exists i :: (0 <= i < |forms| && forms[i] == Failure(Gather(ids, forms).error)
                           && forall j :: 0 <= j < i ==> forms[j].Success?)
  {
    if ids != [] {
      var n := |ids| - 1;
      GatherFirstFailure(ids[..n], forms[..n]);
      GatherSuccessIff(ids[..n], forms[..n]);
      if Gather(ids[..n], forms[..n]).Failure? {
        var i :| 0 <= i < n && forms[..n][i] == Failure(Gather(ids[..n], forms[..n]).error)
                 && forall j :: 0 <= j < i ==> forms[..n][j].Success?;
        assert forms[i] == Failure(Gather(ids, forms).error);
        assert forall j :: 0 <= j < i ==> forms[..n][j] == forms[j];
      } else if forms[n].Failure? {
        assert forall j :: 0 <= j < n ==> forms[..n][j] == forms[j];
        assert forms[n] == Failure(Gather(ids, forms).error);
      }
    }
  }

  /** The keys of a successful gathering are exactly the ids. */
  lemma {:induction false} GatherKeys(ids: seq<string>, forms: seq<Result<FormConfig, MissingDefault>>, id: string)
    requires |ids| == |forms| && Gather(ids, forms).Success?
    ensures id in Gather(ids, forms).value.vals <==> id in ids
  {
    if ids != [] {
      var n := |ids| - 1;
      GatherKeys(ids[..n], forms[..n], id);
      assert ids == ids[..n] + [ids[n]];
    }
  }

  /** An id's entry is the form of its last model. */
  lemma {:induction false} GatherLastWins(ids: seq<string>, forms: seq<Result<FormConfig, MissingDefault>>, i: nat)
    requires |ids| == |forms| && Gather(ids, forms).Success?
    requires i < |ids| && forall j :: i < j < |ids| ==> ids[j] != ids[i]
    ensures ids[i] in Gather(ids, forms).value.vals
    ensures Success(Gather(ids, forms).value.vals[ids[i]]) == forms[i]
  {
    var n := |ids| - 1;
    GatherLast(ids, forms);
    if i < n {
      assert ids[..n][i] == ids[i];
      forall j | i < j < n
        ensures ids[..n][j] != ids[..n][i]
      {
        assert ids[..n][j] == ids[j];
      }
      GatherLastWins(ids[..n], forms[..n], i);
      assert ids[n] != ids[i];
    }
  }

  /** A successful gathering is the earlier one with the last form put in. */
  lemma GatherLast(ids: seq<string>, forms: seq<Result<FormConfig, MissingDefault>>)
    requires |ids| == |forms| && ids != [] && Gather(ids, forms).Success?
    ensures var n := |ids| - 1;
            Gather(ids[..n], forms[..n]).Success? && forms[n].Success? &&
            Gather(ids, forms).value == Gather(ids[..n], forms[..n]).value.Put(ids[n], forms[n].value)
  {
  }

  function Ids(models: seq<LegacyModel>): (ids: seq<string>)
    ensures |ids| == |models| && forall i :: 0 <= i < |models| ==> ids[i] == models[i].modelId
  {
    seq(|models|, i requires 0 <= i < |models| => models[i].modelId)
  }

  function Forms(models: seq<LegacyModel>, strOther: Json -> string): (forms: seq<Result<FormConfig, MissingDefault>>)
    requires forall i :: 0 <= i < |models| ==> models[i].parameters.Valid()
    ensures |forms| == |models| && forall i :: 0 <= i < |models| ==> forms[i] == FormConfigOf(models[i], strOther)
  {
    seq(|models|, i requires 0 <= i < |models| => FormConfigOf(models[i], strOther))
  }

  /** The old form configuration can be built exactly when every model's
    * schema gives each property a default, and otherwise fails at the first
    * model whose schema does not. */
  lemma FormConfigsSucceed(models: seq<LegacyModel>, strOther: Json -> string)
    requires forall i :: 0 <= i < |models| ==> models[i].parameters.Valid()
    ensures ModelInfosToFormConfig(models, strOther).Success? <==> forall i :: 0 <= i < |models| ==> HasDefaults(models[i])
    ensures ModelInfosToFormConfig(models, strOther).Failure? ==>
              exists k :: (0 <= k < |models| && FormConfigOf(models[k], strOther) == Failure(ModelInfosToFormConfig(models, strOther).error)
                           && forall j :: 0 <= j < k ==> HasDefaults(models[j]))
  {
    GatherSucceeds(Ids(models), Forms(models, strOther));
  }

  /** It has one entry per model id, holding the form of the last model with
    * that id. */
  lemma FormConfigsEntries(models: seq<LegacyModel>, strOther: Json -> string, i: nat, id: string)
    requires forall i :: 0 <= i < |models| ==> models[i].parameters.Valid()
    requires ModelInfosToFormConfig(models, strOther).Success?
    ensures id in ModelInfosToFormConfig(models, strOther).value.vals <==> exists k :: 0 <= k < |models| && models[k].modelId == id
    ensures i < |models| && (forall j :: i < j < |models| ==> models[j].modelId != models[i].modelId) ==>
              && models[i].modelId in ModelInfosToFormConfig(models, strOther).value.vals
              && Success(ModelInfosToFormConfig(models, strOther).value.vals[models[i].modelId]) == FormConfigOf(models[i], strOther)
  {
    FormConfigsKeys(models, strOther, id);
    if i < |models| && forall j :: i < j < |models| ==> models[j].modelId != models[i].modelId {
      FormConfigsLast(models, strOther, i);
    }
  }

  lemma FormConfigsKeys(models: seq<LegacyModel>, strOther: Json -> string, id: string)
    requires forall i :: 0 <= i < |models| ==> models[i].parameters.Valid()
    requires ModelInfosToFormConfig(models, strOther).Success?
    ensures id in ModelInfosToFormConfig(models, strOther).value.vals <==> exists k :: 0 <= k < |models| && models[k].modelId == id
  {
    var ids := Ids(models);
    GatherKeys(ids, Forms(models, strOther), id);
    if id in ids {
      var k :| 0 <= k < |ids| && ids[k] == id;
    }
  }

  lemma FormConfigsLast(models: seq<LegacyModel>, strOther: Json -> string, i: nat)
    requires forall i :: 0 <= i < |models| ==> models[i].parameters.Valid()
    requires ModelInfosToFormConfig(models, strOther).Success?
    requires i < |models| && forall j :: i < j < |models| ==> models[j].modelId != models[i].modelId
    ensures models[i].modelId in ModelInfosToFormConfig(models, strOther).value.vals
    ensures Success(ModelInfosToFormConfig(models, strOther).value.vals[models[i].modelId]) == FormConfigOf(models[i], strOther)
  {
    GatherLastWins(Ids(models), Forms(models, strOther), i);
  }

  /** `to_ppm` */
  function ToPpm(d: Dict<string, real>): (r: Dict<string, real>)
    requires d.Valid()
    ensures r.Valid() && r.keys == d.keys
  {
    d.Map((k: string, v: real) => v * 1000000.0)
  }

  /** Scaling keeps every key and multiplies every value by a million, so a
    * value is zero after scaling exactly when it was before. */
  lemma ToPpmValues(d: Dict<string, real>, k: string)
    requires d.Valid()
    ensures k in ToPpm(d).vals <==> k in d.vals
    ensures k in d.vals ==> ToPpm(d).vals[k] == d.vals[k] * 1000000.0
    ensures k in d.vals ==> (ToPpm(d).vals[k] == 0.0 <==> d.vals[k] == 0.0)
  {
  }

  /** `{name: value - initial.get(name, 0) for name, value in final.items()}` */
  function Change(initial: Dict<string, real>, final: Dict<string, real>): (r: Dict<string, real>)
    requires final.Valid()
    ensures r.Valid() && r.keys == final.keys
  {
    final.Map((k: string, v: real) => v - GetOr(initial.vals, k, 0.0))
  }

  /** `initial.get(name) == 0 and final.get(name) == 0` on the scaled maps. */
  predicate Vanishes(initialPpm: Dict<string, real>, finalPpm: Dict<string, real>, name: string)
  {
    name in initialPpm.vals && initialPpm.vals[name] == 0.0 && name in finalPpm.vals && finalPpm.vals[name] == 0.0
  }

  /** The names among the first `n` of `names` that vanish. */
  function VanishedIn(initialPpm: Dict<string, real>, finalPpm: Dict<string, real>, names: seq<string>, n: nat): set<string>
    requires n <= |names|
  {
    set i | 0 <= i < n && Vanishes(initialPpm, finalPpm, names[i]) :: names[i]
  }

  /** The old simulation results. The constant parts, `analysis: None` and the
    * empty variance maps, are left implicit. */
  datatype SimulationResults = SimulationResults(
    initial: Dict<string, real>,
    final: Dict<string, real>,
    change: Dict<string, real>,
    /** `chart_data["comps"]`: entry "i" is `comps[i]` */
    comps: seq<string>,
    /** `chart_data["values"]`: entry "i" is `values[i]` */
    values: seq<real>,
    tableData: Option<Json>)

  /** The table the scan over the panels stops at: the value under "table"
    * of the first panel whose JSON is a dictionary holding that key. */
  function FirstTable(panels: seq<Panel>): (r: Option<Json>)
  {
    if panels == [] then None
    else if panels[0].JsonPanel? && panels[0].json.JObject? && "table" in panels[0].json.fields then Some(panels[0].json.fields["table"])
    else FirstTable(panels[1..])
  }

  /** A table that is `null` is no table. */
  function TableData(panels: seq<Panel>): (r: Option<Json>)
  {
    match FirstTable(panels)
    case Some(t) => if t == JNull then None else Some(t)
    case None => None
  }

  /** The scan stops at the first panel holding a table. */
  lemma {:induction false} FirstTableIsFirst(panels: seq<Panel>, i: nat)
    requires i < |panels| && panels[i].JsonPanel? && panels[i].json.JObject? && "table" in panels[i].json.fields
    requires forall j :: 0 <= j < i ==> !(panels[j].JsonPanel? && panels[j].json.JObject? && "table" in panels[j].json.fields)
    ensures FirstTable(panels) == Some(panels[i].json.fields["table"])
  {
    if i > 0 {
      FirstTableIsFirst(panels[1..], i - 1);
    }
  }

  /** The deletion loop of `result_to_simulation_results`: every name of
    * `names` whose scaled initial value is present and zero and whose scaled
    * final value is zero leaves all three dictionaries. */
  method DropVanished(names: seq<string>, initial0: Dict<string, real>, final0: Dict<string, real>, change0: Dict<string, real>)
    returns (initialPpm: Dict<string, real>, finalPpm: Dict<string, real>, change: Dict<string, real>)
    requires Distinct(names) && initial0.Valid() && final0.Valid() && change0.Valid()
    ensures initialPpm == initial0.Without(VanishedIn(initial0, final0, names, |names|))
    ensures finalPpm == final0.Without(VanishedIn(initial0, final0, names, |names|))
    ensures change == change0.Without(VanishedIn(initial0, final0, names, |names|))
  {
    WithoutNothing(initial0);
    WithoutNothing(final0);
    WithoutNothing(change0);
    assert VanishedIn(initial0, final0, names, 0) == {};
    initialPpm, finalPpm, change := initial0, final0, change0;
    var i := 0;
    while i < |names|
      invariant 0 <= i <= |names|
      invariant initialPpm == initial0.Without(VanishedIn(initial0, final0, names, i))
      invariant finalPpm == final0.Without(VanishedIn(initial0, final0, names, i))
      invariant change == change0.Without(VanishedIn(initial0, final0, names, i))
    {
      var name := names[i];
      ghost var gone := VanishedIn(initial0, final0, names, i);
      assert name !in gone;
      VanishStep(initial0, initial0, final0, names, i);
      VanishStep(final0, initial0, final0, names, i);
      VanishStep(change0, initial0, final0, names, i);
      if name in initialPpm.vals && initialPpm.vals[name] == 0.0 && name in finalPpm.vals && finalPpm.vals[name] == 0.0 {
        initialPpm := initialPpm.Delete(name);
        finalPpm := finalPpm.Delete(name);
        change := change.Delete(name);
      }
      i := i + 1;
    }
  }

  /** One step of the deletion loop, on one dictionary. */
  lemma VanishStep(d: Dict<string, real>, initial0: Dict<string, real>, final0: Dict<string, real>, names: seq<string>, i: nat)
    requires d.Valid() && Distinct(names) && i < |names|
    ensures Vanishes(initial0, final0, names[i]) ==>
              d.Without(VanishedIn(initial0, final0, names, i)).Delete(names[i]) == d.Without(VanishedIn(initial0, final0, names, i + 1))
    ensures !Vanishes(initial0, final0, names[i]) ==>
              d.Without(VanishedIn(initial0, final0, names, i)) == d.Without(VanishedIn(initial0, final0, names, i + 1))
  {
    var gone := VanishedIn(initial0, final0, names, i);
    if Vanishes(initial0, final0, names[i]) {
      WithoutDelete(d, gone, names[i]);
      assert VanishedIn(initial0, final0, names, i + 1) == gone + {names[i]};
    } else {
      assert VanishedIn(initial0, final0, names, i + 1) == gone;
    }
  }

  /** The scan over the panels, which breaks at the first table. */
  method ScanForTable(panels: seq<Panel>) returns (table: Option<Json>)
    ensures table == FirstTable(panels)
  {
    table := None;
    var j := 0;
    while j < |panels|
      invariant 0 <= j <= |panels|
      invariant FirstTable(panels) == FirstTable(panels[j..])
    {
      var p := panels[j];
      if p.JsonPanel? && p.json.JObject? && "table" in p.json.fields {
        table := Some(p.json.fields["table"]);
        return;
      }
      assert panels[j..][1..] == panels[j + 1..];
      j := j + 1;
    }
  }

  /** `result_to_simulation_results` */
  method ResultToSimulationResults(initialConcs: Dict<string, real>, result: RunResult) returns (r: SimulationResults)
    requires initialConcs.Valid() && GetConcs(result).Valid()
    ensures var finalPpm := ToPpm(GetConcs(result));
            var initialPpm := ToPpm(initialConcs);
            var gone := VanishedIn(initialPpm, finalPpm, GetConcs(result).keys, |GetConcs(result).keys|);
            && r.initial == initialPpm.Without(gone)
            && r.final == finalPpm.Without(gone)
            && r.change == ToPpm(Change(initialConcs, GetConcs(result))).Without(gone)
    ensures |r.comps| == |r.change.keys| && forall i :: 0 <= i < |r.comps| ==> r.comps[i] == Upper(r.change.keys[i])
    ensures r.values == r.change.Values()
    ensures r.tableData == TableData(GetMetas(result))
  {
    var final := GetConcs(result);
    var change := ToPpm(Change(initialConcs, final));
    var finalPpm := ToPpm(final);
    var initialPpm := ToPpm(initialConcs);
    initialPpm, finalPpm, change := DropVanished(final.keys, initialPpm, finalPpm, change);
    var table := ScanForTable(GetMetas(result));
    var comps := seq(|change.keys|, k requires 0 <= k < |change.keys| => Upper(change.keys[k]));
    var tableData := if table.Some? && table.value != JNull then table else None;
    r := SimulationResults(initialPpm, finalPpm, change, comps, change.Values(), tableData);
  }

  /** Which names vanish: exactly the final names whose initial value is
    * present and zero and whose final value is zero, judged before or after
    * scaling alike; only they leave the three maps. */
  lemma VanishedMeaning(initialConcs: Dict<string, real>, final: Dict<string, real>, name: string)
    requires initialConcs.Valid() && final.Valid()
    ensures name in VanishedIn(ToPpm(initialConcs), ToPpm(final), final.keys, |final.keys|) <==>
              (name in final.vals && final.vals[name] == 0.0 && name in initialConcs.vals && initialConcs.vals[name] == 0.0)
  {
    ToPpmValues(initialConcs, name);
    ToPpmValues(final, name);
    if name in final.vals {
      var i :| 0 <= i < |final.keys| && final.keys[i] == name;
    }
  }

  /** The change of a surviving name is its scaled final value minus its
    * scaled initial value, a missing initial value counting as zero. */
  lemma ChangeMeaning(initialConcs: Dict<string, real>, final: Dict<string, real>, name: string)
    requires initialConcs.Valid() && final.Valid()
    requires name in final.vals
    ensures ToPpm(Change(initialConcs, final)).vals[name] ==
              ToPpm(final).vals[name] - (if name in initialConcs.vals then ToPpm(initialConcs).vals[name] else 0.0)
  {
  }
}
