/** The frontend's filters: which models an experiment can be run with,
  * and which inputs a secondary model is given. */
module Filtering {
  import opened Common

  /** The fields of a model configuration the filters look at. */
  datatype ModelConfig = ModelConfig(modelId: string, category: string, validSubstances: seq<string>)

  const Primary := "Primary"

  /** The substances an experiment starts with: its initial
    * concentrations other than 0. */
  function StartingSubstances(initial: Dict<string, real>): (r: Dict<string, real>)
    requires initial.Valid()
    ensures r.Valid()
  {
    initial.Select((k: string, v: real) => v != 0.0)
  }

  /** A model can take the experiment when it accepts every substance the
    * experiment starts with. */
  predicate Covers(m: ModelConfig, substances: Dict<string, real>)
  {
    forall i :: 0 <= i < |substances.keys| ==> substances.keys[i] in m.validSubstances
  }

  predicate IsPrimary(m: ModelConfig)
  {
    m.category == Primary
  }

  function CoversAll(substances: Dict<string, real>): ModelConfig -> bool
  {
    (m: ModelConfig) => Covers(m, substances)
  }

  /** `filterValidModels(experiment, models)`: the primary models, then of
    * those the ones that accept the experiment's substances. */
  function FilterValidModels(initial: Dict<string, real>, models: seq<ModelConfig>): (r: seq<ModelConfig>)
    requires initial.Valid()
    ensures forall m :: m in r ==> m in models && m.category == Primary
  {
    Filter(Filter(models, IsPrimary), CoversAll(StartingSubstances(initial)))
  }

  /** The model a filter keeps, said directly: a primary model that accepts
    * every substance with a non-zero initial concentration. */
  predicate CanRun(m: ModelConfig, initial: Dict<string, real>)
  {
    m.category == Primary && forall k :: k in initial.vals && initial.vals[k] != 0.0 ==> k in m.validSubstances
  }

  function CanRunIn(initial: Dict<string, real>): ModelConfig -> bool
  {
    (m: ModelConfig) => CanRun(m, initial)
  }

  /** Both conditions at once. */
  function Both<T>(p: T -> bool, q: T -> bool): T -> bool
  {
    (x: T) => p(x) && q(x)
  }

  /** Two filters in a row keep what one filter on both conditions keeps. */
  lemma {:induction false} FilterTwice<T(!new)>(s: seq<T>, p: T -> bool, q: T -> bool)
    ensures Filter(Filter(s, p), q) == Filter(s, Both(p, q))
    decreases |s|
  {
    if s != [] {
      FilterTwice(s[1..], p, q);
      if p(s[0]) {
        assert Filter(s, p) == [s[0]] + Filter(s[1..], p);
        assert Filter(s, p)[1..] == Filter(s[1..], p);
      }
    }
  }

  lemma CoversMeaning(m: ModelConfig, initial: Dict<string, real>)
    requires initial.Valid()
    ensures Covers(m, StartingSubstances(initial)) <==>
              forall k :: k in initial.vals && initial.vals[k] != 0.0 ==> k in m.validSubstances
  {
    var substances := StartingSubstances(initial);
    if Covers(m, substances) {
      forall k | k in initial.vals && initial.vals[k] != 0.0
        ensures k in m.validSubstances
      {
        assert k in substances.vals;
        var i :| 0 <= i < |substances.keys| && substances.keys[i] == k;
      }
    }
  }

  /** The models kept are exactly the input's models that can run the
    * experiment, in the input's order. */
  lemma FilterValidModelsMeaning(initial: Dict<string, real>, models: seq<ModelConfig>)
    requires initial.Valid()
    ensures FilterValidModels(initial, models) == Filter(models, CanRunIn(initial))
    ensures forall m :: m in FilterValidModels(initial, models) <==> m in models && CanRun(m, initial)
  {
    var q := CoversAll(StartingSubstances(initial));
    FilterTwice(models, IsPrimary, q);
    forall i | 0 <= i < |models|
      ensures Both(IsPrimary, q)(models[i]) == CanRunIn(initial)(models[i])
    {
      CoversMeaning(models[i], initial);
    }
    FilterSame(models, Both(IsPrimary, q), CanRunIn(initial));
  }

  /** Filters on conditions that agree everywhere keep the same elements. */
  lemma {:induction false} FilterSame<T(!new)>(s: seq<T>, p: T -> bool, q: T -> bool)
    requires forall i :: 0 <= i < |s| ==> p(s[i]) == q(s[i])
    ensures Filter(s, p) == Filter(s, q)
    decreases |s|
  {
    if s != [] {
      assert forall i :: 0 <= i < |s[1..]| ==> s[1..][i] == s[i + 1];
      FilterSame(s[1..], p, q);
    }
  }

  /** An experiment that starts with nothing can be run by every primary
    * model. */
  lemma AllZeroKeepsPrimary(initial: Dict<string, real>, models: seq<ModelConfig>)
    requires initial.Valid()
    requires forall k :: k in initial.vals ==> initial.vals[k] == 0.0
    ensures FilterValidModels(initial, models) == Filter(models, IsPrimary)
  {
    FilterValidModelsMeaning(initial, models);
    FilterSame(models, CanRunIn(initial), IsPrimary);
  }

  function NameIn<V>(names: seq<string>): (string, V) -> bool
  {
    (k: string, v: V) => k in names
  }

  function In(names: seq<string>): string -> bool
  {
    (k: string) => k in names
  }

  /** `getValidParametersForSecondaryModel(parameters, validParams)`: no
    * parameters, or no list of valid ones, gives `{}`; otherwise the
    * parameters whose name is in the list, in order. */
  function ValidParametersForSecondaryModel<V>(parameters: Option<Dict<string, V>>, validParams: Option<seq<string>>): (r: Dict<string, V>)
    requires parameters.Some? ==> parameters.value.Valid()
    ensures r.Valid()
    ensures parameters.None? || validParams.None? ==> r == Dict.Empty()
    ensures parameters.Some? && validParams.Some? ==>
              (forall k :: k in r.vals <==> k in parameters.value.vals && k in validParams.value) &&
              (forall k :: k in r.vals ==> r.vals[k] == parameters.value.vals[k]) &&
              r.keys == Filter(parameters.value.keys, In(validParams.value))
  {
    if parameters.None? || validParams.None? then Dict.Empty()
    else
      var params, valid := parameters.value, validParams.value;
      assert forall i :: 0 <= i < |params.keys| ==> params.EntryTest(NameIn(valid))(params.keys[i]) == In(valid)(params.keys[i]);
      FilterSame(params.keys, params.EntryTest(NameIn(valid)), In(valid));
      params.Select(NameIn(valid))
  }

  /** A concentration the secondary model is given: a substance it knows,
    * with a defined value above 0. */
  predicate Usable(subst: string, conc: Option<real>, validSubstances: Option<seq<string>>)
  {
    validSubstances.Some? && subst in validSubstances.value && conc.Some? && conc.value > 0.0
  }

  /** The `reduce` of `filterInValidAndUndefinedSubstances`: each kept
    * entry is spread into the accumulator in turn. */
  function SpreadUsable(acc: Dict<string, real>, keys: seq<string>, concs: map<string, Option<real>>,
                        validSubstances: Option<seq<string>>): (r: Dict<string, real>)
    requires acc.Valid()
    ensures r.Valid()
    decreases |keys|
  {
    if keys == [] then acc
    else
      var k := keys[0];
      var c := GetOr(concs, k, None);
      SpreadUsable(if Usable(k, c, validSubstances) then acc.Put(k, c.value) else acc, keys[1..], concs, validSubstances)
  }

  /** `filterInValidAndUndefinedSubstances(concentrations, validSubstances)` */
  function FilterInvalidAndUndefinedSubstances(concs: Dict<string, Option<real>>, validSubstances: Option<seq<string>>): (r: Dict<string, real>)
    ensures r.Valid()
  {
    SpreadUsable(Dict.Empty(), concs.keys, concs.vals, validSubstances)
  }

  /** The `filter` of `filterInValidAndUndefinedSubstances`, on keys. */
  function UsableKeys(keys: seq<string>, concs: map<string, Option<real>>, validSubstances: Option<seq<string>>): (r: seq<string>)
    ensures forall k :: k in r <==> k in keys && Usable(k, GetOr(concs, k, None), validSubstances)
    decreases |keys|
  {
    if keys == [] then []
    else
      var rest := UsableKeys(keys[1..], concs, validSubstances);
      assert keys == [keys[0]] + keys[1..];
      if Usable(keys[0], GetOr(concs, keys[0], None), validSubstances) then [keys[0]] + rest else rest
  }

  /** The keys still to be spread are new to the accumulator. */
  predicate Fresh(acc: Dict<string, real>, keys: seq<string>)
  {
    Distinct(keys) && forall i :: 0 <= i < |keys| ==> keys[i] !in acc.vals
  }

  lemma FreshStep(acc: Dict<string, real>, keys: seq<string>, next: Dict<string, real>)
    requires keys != [] && Fresh(acc, keys)
    requires next.vals.Keys <= acc.vals.Keys + {keys[0]}
    ensures Fresh(next, keys[1..])
  {
    forall i | 0 <= i < |keys[1..]|
      ensures keys[1..][i] !in next.vals
    {
      assert keys[1..][i] == keys[i + 1] && keys[i + 1] != keys[0];
    }
  }

  lemma {:induction false} SpreadUsableKeys(acc: Dict<string, real>, keys: seq<string>, concs: map<string, Option<real>>,
                                            validSubstances: Option<seq<string>>)
    requires acc.Valid() && Fresh(acc, keys)
    ensures SpreadUsable(acc, keys, concs, validSubstances).keys == acc.keys + UsableKeys(keys, concs, validSubstances)
    decreases |keys|
  {
    if keys == [] {
      assert acc.keys + [] == acc.keys;
    } else {
      var k := keys[0];
      var c := GetOr(concs, k, None);
      var next := if Usable(k, c, validSubstances) then acc.Put(k, c.value) else acc;
      FreshStep(acc, keys, next);
      SpreadUsableKeys(next, keys[1..], concs, validSubstances);
      SpreadKeysStep(acc, next, k, Usable(k, c, validSubstances), if c.Some? then c.value else 0.0,
                     UsableKeys(keys, concs, validSubstances), UsableKeys(keys[1..], concs, validSubstances));
    }
  }

  /** One key spread: the accumulator's keys grow as the usable keys do. */
  lemma SpreadKeysStep(acc: Dict<string, real>, next: Dict<string, real>, k: string, usable: bool, v: real,
                       all: seq<string>, later: seq<string>)
    requires acc.Valid() && k !in acc.vals
    requires next == if usable then acc.Put(k, v) else acc
    requires all == if usable then [k] + later else later
    ensures next.keys + later == acc.keys + all
  {
    if usable {
      assert next.keys == acc.keys + [k];
      Regroup(acc.keys, [k], later);
    }
  }

  lemma {:induction false} SpreadUsableAt(acc: Dict<string, real>, keys: seq<string>, concs: map<string, Option<real>>,
                                          validSubstances: Option<seq<string>>, k: string)
    requires acc.Valid() && Fresh(acc, keys)
    ensures var r := SpreadUsable(acc, keys, concs, validSubstances);
            (k in r.vals <==> k in acc.vals || (k in keys && Usable(k, GetOr(concs, k, None), validSubstances))) &&
            (k in r.vals ==> r.vals[k] == if k in acc.vals then acc.vals[k] else GetOr(concs, k, None).value)
    decreases |keys|
  {
    if keys != [] {
      var x := keys[0];
      var c := GetOr(concs, x, None);
      var next := if Usable(x, c, validSubstances) then acc.Put(x, c.value) else acc;
      FreshStep(acc, keys, next);
      SpreadUsableAt(next, keys[1..], concs, validSubstances, k);
      assert keys == [x] + keys[1..];
    }
  }

  /** The substances kept are exactly the usable ones, in the input's
    * order, each with its own value. */
  lemma FilterInvalidMeaning(concs: Dict<string, Option<real>>, validSubstances: Option<seq<string>>, k: string)
    requires concs.Valid()
    ensures var r := FilterInvalidAndUndefinedSubstances(concs, validSubstances);
            r.keys == UsableKeys(concs.keys, concs.vals, validSubstances) &&
            (k in r.vals <==> k in concs.vals && Usable(k, concs.vals[k], validSubstances)) &&
            (k in r.vals ==> r.vals[k] == concs.vals[k].value)
  {
    var empty := Dict<string, real>.Empty();
    assert empty.keys + UsableKeys(concs.keys, concs.vals, validSubstances) == UsableKeys(concs.keys, concs.vals, validSubstances);
    SpreadUsableKeys(empty, concs.keys, concs.vals, validSubstances);
    SpreadUsableAt(empty, concs.keys, concs.vals, validSubstances, k);
  }

  /** With no list of valid substances nothing is kept. */
  lemma NoValidSubstancesKeepsNothing(concs: Dict<string, Option<real>>)
    requires concs.Valid()
    ensures FilterInvalidAndUndefinedSubstances(concs, None) == Dict.Empty()
  {
    var r := FilterInvalidAndUndefinedSubstances(concs, None);
    forall k
      ensures k !in r.vals
    {
      FilterInvalidMeaning(concs, None, k);
    }
    FilterInvalidMeaning(concs, None, "");
    UsableKeysNone(concs.keys, concs.vals);
  }

  lemma {:induction false} UsableKeysNone(keys: seq<string>, concs: map<string, Option<real>>)
    ensures UsableKeys(keys, concs, None) == []
    decreases |keys|
  {
    if keys != [] {
      UsableKeysNone(keys[1..], concs);
    }
  }

  /** Of the two acids the solubility model takes, only the larger stays. */
  const HNO3 := "HNO3"
  const H2SO4 := "H2SO4"

  /** `acids.filter((acid) => concentrations[acid] !== undefined)` */
  function PresentAcids(concs: Dict<string, real>): (r: seq<string>)
    ensures r == (if HNO3 in concs.vals then [HNO3] else []) + (if H2SO4 in concs.vals then [H2SO4] else [])
  {
    var acids := [HNO3, H2SO4];
    var p := (acid: string) => acid in concs.vals;
    assert acids == [HNO3] + [H2SO4];
    FilterConcat([HNO3], [H2SO4], p);
    FilterOne(HNO3, p);
    FilterOne(H2SO4, p);
    Filter(acids, p)
  }

  /** `filterAcidWithLowConcentration(concentrations)`: when both acids are
    * present the one with the smaller value is removed, sulphuric acid on
    * a tie; otherwise a copy of the input. */
  function FilterAcidWithLowConcentration(concs: Dict<string, real>): (r: Dict<string, real>)
    requires concs.Valid()
    ensures r.Valid()
  {
    var present := PresentAcids(concs);
    if |present| == 2 then
      var acid1, acid2 := present[0], present[1];
      if concs.vals[acid1] >= concs.vals[acid2] then concs.Delete(acid2) else concs.Delete(acid1)
    else concs
  }

  /** Which acid is dropped: with both present, sulphuric acid when nitric
    * acid is at least as large, nitric acid otherwise; with at most one
    * present, nothing. Every other entry keeps its value, and the order of
    * the remaining keys is kept. */
  lemma AcidFilterMeaning(concs: Dict<string, real>, k: string)
    requires concs.Valid()
    ensures var r := FilterAcidWithLowConcentration(concs);
            var both := HNO3 in concs.vals && H2SO4 in concs.vals;
            var dropped := if !both then None
                           else if concs.vals[HNO3] >= concs.vals[H2SO4] then Some(H2SO4) else Some(HNO3);
            (k in r.vals <==> k in concs.vals && dropped != Some(k)) &&
            (k in r.vals ==> r.vals[k] == concs.vals[k]) &&
            r.keys == (if dropped.None? then concs.keys else RemoveElem(concs.keys, dropped.value))
  {
  }

  // Examples

  const ExampleModels: seq<ModelConfig> := [
    ModelConfig("model1", "Primary", ["CO", "H2O"]),
    ModelConfig("model2", "Primary", ["COS", "H2O", "CH4", "N2"]),
    ModelConfig("model3", "Secondary", ["CO", "H2O"]),
    ModelConfig("model4", "Primary", ["COS", "H2O"]),
    ModelConfig("model5", "Primary", ["O2", "N2", "H2O"])
  ]

  lemma ExampleCanRun(initial: Dict<string, real>)
    requires initial == Dict(["H2O", "COS", "CH4", "N2", "O2"],
                             map["H2O" := 0.2, "COS" := 0.5, "CH4" := 0.0, "N2" := 0.0, "O2" := 0.0])
    ensures !CanRun(ExampleModels[0], initial) && CanRun(ExampleModels[1], initial) && !CanRun(ExampleModels[2], initial)
    ensures CanRun(ExampleModels[3], initial) && !CanRun(ExampleModels[4], initial)
  {
    assert "COS" in initial.vals && initial.vals["COS"] != 0.0;
    assert "COS" !in ExampleModels[0].validSubstances && "COS" !in ExampleModels[4].validSubstances;
    forall k | k in initial.vals && initial.vals[k] != 0.0
      ensures k in ExampleModels[1].validSubstances && k in ExampleModels[3].validSubstances
    {
      assert k == "H2O" || k == "COS";
    }
  }

  /** Keeping the second and fourth of five. */
  lemma FilterSecondAndFourth<T(!new)>(ms: seq<T>, p: T -> bool)
    requires |ms| == 5 && !p(ms[0]) && p(ms[1]) && !p(ms[2]) && p(ms[3]) && !p(ms[4])
    ensures Filter(ms, p) == [ms[1], ms[3]]
  {
    assert Filter(ms[4..], p) == [] by {
      assert ms[4..][1..] == [];
    }
    assert Filter(ms[3..], p) == [ms[3]] by {
      assert ms[3..][1..] == ms[4..];
    }
    assert Filter(ms[2..], p) == [ms[3]] by {
      assert ms[2..][1..] == ms[3..];
    }
    assert Filter(ms[1..], p) == [ms[1], ms[3]] by {
      assert ms[1..][1..] == ms[2..];
    }
  }

  /** An experiment starting with water and carbonyl sulphide, and with
    * zeros for three more substances, can be run by the second and fourth
    * models only. */
  lemma FilterValidModelsExample(initial: Dict<string, real>)
    requires initial == Dict(["H2O", "COS", "CH4", "N2", "O2"],
                             map["H2O" := 0.2, "COS" := 0.5, "CH4" := 0.0, "N2" := 0.0, "O2" := 0.0])
    ensures FilterValidModels(initial, ExampleModels) == [ExampleModels[1], ExampleModels[3]]
  {
    ExampleValid(initial);
    ExampleCanRun(initial);
    SecondAndFourthRun(ExampleModels, initial);
  }

  lemma ExampleValid(initial: Dict<string, real>)
    requires initial == Dict(["H2O", "COS", "CH4", "N2", "O2"],
                             map["H2O" := 0.2, "COS" := 0.5, "CH4" := 0.0, "N2" := 0.0, "O2" := 0.0])
    ensures initial.Valid()
  {
  }

  lemma SecondAndFourthRun(ms: seq<ModelConfig>, initial: Dict<string, real>)
    requires initial.Valid()
    requires |ms| == 5 && !CanRun(ms[0], initial) && CanRun(ms[1], initial) && !CanRun(ms[2], initial)
    requires CanRun(ms[3], initial) && !CanRun(ms[4], initial)
    ensures FilterValidModels(initial, ms) == [ms[1], ms[3]]
  {
    FilterValidModelsMeaning(initial, ms);
    FilterSecondAndFourth(ms, CanRunIn(initial));
  }
}
