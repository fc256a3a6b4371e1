/** The batch tool that replays OASIS experiments through ARCS: snapping a
  * temperature or pressure to the nearest value ARCS tabulates, and turning
  * one experiment entry into a simulation request. */
module ArcsTool {
  import opened Common
  import opened Text

  function Abs(x: real): real { if x < 0.0 then -x else x }

  /** The position `min(valid, key=lambda x: abs(x - target))` picks: the
    * first element at the least distance from `target`. */
  function SnapIndex(valid: seq<real>, target: real): (i: nat)
    requires |valid| > 0
    ensures i < |valid|
    ensures forall j :: 0 <= j < |valid| ==> Abs(valid[i] - target) <= Abs(valid[j] - target)
    ensures forall j :: 0 <= j < i ==> Abs(valid[j] - target) > Abs(valid[i] - target)
    decreases |valid|
  {
    if |valid| == 1 then 0
    else
      var k := SnapIndex(valid[1..], target);
      assert forall j :: 1 <= j < |valid| ==> valid[j] == valid[1..][j - 1];
      if Abs(valid[k + 1] - target) < Abs(valid[0] - target) then k + 1 else 0
  }

  /** `min(valid, key=lambda x: abs(x - target))` */
  function Snap(valid: seq<real>, target: real): (r: real)
    requires |valid| > 0
  {
    valid[SnapIndex(valid, target)]
  }

  /** The snapped value is tabulated, at least as close as any other, and
    * strictly closer than every value before it. */
  lemma SnapNearest(valid: seq<real>, target: real)
    requires |valid| > 0
    ensures Snap(valid, target) in valid
    ensures forall v :: v in valid ==> Abs(Snap(valid, target) - target) <= Abs(v - target)
    ensures exists i :: 0 <= i < |valid| && valid[i] == Snap(valid, target) &&
                        forall j :: 0 <= j < i ==> Abs(valid[j] - target) > Abs(Snap(valid, target) - target)
  {
    var i := SnapIndex(valid, target);
    forall v | v in valid
      ensures Abs(Snap(valid, target) - target) <= Abs(v - target)
    {
      var j :| 0 <= j < |valid| && valid[j] == v;
    }
  }

  const ValidTemps: seq<real> := [200.0, 250.0, 300.0, 350.0, 400.0]

  const ValidPressures: seq<real> := [1.0, 2.0, 5.0, 10.0, 15.0, 20.0, 25.0, 30.0, 35.0, 40.0, 45.0, 50.0,
                                      100.0, 125.0, 150.0, 175.0, 200.0, 225.0, 250.0, 275.0, 300.0]

  /** `snap_to_temp` */
  function SnapToTemp(temp: real): real
  {
    Snap(ValidTemps, temp)
  }

  /** `snap_to_pressure` */
  function SnapToPressure(pressure: real): real
  {
    Snap(ValidPressures, pressure)
  }

  /** A value already tabulated snaps to itself. */
  lemma SnapMember(valid: seq<real>, x: real)
    requires x in valid
    ensures Snap(valid, x) == x
  {
    SnapNearest(valid, x);
    assert Abs(Snap(valid, x) - x) <= Abs(x - x);
  }

  /** Of two equally near values, the earlier one wins: the pick is never
    * after the first nearest value. */
  lemma SnapTieEarlier(valid: seq<real>, target: real, a: nat)
    requires a < |valid|
    requires forall j :: 0 <= j < |valid| ==> Abs(valid[a] - target) <= Abs(valid[j] - target)
    ensures SnapIndex(valid, target) <= a
    ensures Abs(Snap(valid, target) - target) == Abs(valid[a] - target)
  {
  }

  /** 275 K lies halfway between 250 and 300 and snaps to 250. */
  lemma SnapTempTie()
    ensures SnapToTemp(275.0) == 250.0
  {
    var t := ValidTemps;
    assert t[0] == 200.0 && t[1] == 250.0 && t[2] == 300.0 && t[3] == 350.0 && t[4] == 400.0;
    SnapTieEarlier(t, 275.0, 1);
    var i := SnapIndex(t, 275.0);
    assert i == 0 || i == 1;
    assert Abs(t[i] - 275.0) == 25.0;
  }

  /** A species value as read from the experiment: a number or NaN. */
  datatype Number = Num(value: real) | NaN

  /** One experiment entry: its species and, when the keys are present, its
    * temperature and pressure. */
  datatype Experiment = Experiment(species: Dict<string, Number>, temperature: Option<real>, pressure: Option<real>)

  datatype ArcsSettings = ArcsSettings(temperature: real, pressure: real, sampleLength: int)

  datatype SimulationRequest = SimulationRequest(settings: ArcsSettings, concs: Dict<string, real>)

  /** The 24 species every request carries, in order. */
  const DefaultSpecies: seq<string> := CarbonSpecies + SulfurNitrogenSpecies

  const CarbonSpecies: seq<string> := ["CH2O2", "CH3CH2OH", "CO", "H2", "O2", "CH3COOH", "CH3OH", "CH4",
                                        "CH3CHO", "H2CO", "CO2", "H2O"]

  const SulfurNitrogenSpecies: seq<string> := ["H2SO4", "H2S", "S8", "SO2", "H2SO3",
                                                "HNO3", "NO2", "NH3", "HNO2", "NO", "N2", "NOHSO4"]

  /** `all_concs`: every default species at 0. */
  function AllConcs(): (d: Dict<string, Number>)
    ensures d.Valid() && d.keys == DefaultSpecies
    ensures forall k :: k in d.vals <==> k in DefaultSpecies
    ensures forall k :: k in d.vals ==> d.vals[k] == Num(0.0)
  {
    DefaultDistinct();
    Dict(DefaultSpecies, map k | k in DefaultSpecies :: Num(0.0))
  }

  lemma DefaultDistinct()
    ensures Distinct(DefaultSpecies)
  {
    CarbonDistinct();
    SulfurNitrogenDistinct();
    SpeciesDisjoint();
    DistinctAppend(CarbonSpecies, SulfurNitrogenSpecies);
  }

  lemma CarbonDistinct()
    ensures Distinct(CarbonSpecies)
  {
  }

  lemma SulfurNitrogenDistinct()
    ensures Distinct(SulfurNitrogenSpecies)
  {
  }

  lemma SpeciesDisjoint()
    ensures forall i, j :: 0 <= i < |CarbonSpecies| && 0 <= j < |SulfurNitrogenSpecies| ==> CarbonSpecies[i] != SulfurNitrogenSpecies[j]
  {
  }

  /** `input_keys.update(...)` with the "In_" species of the first keys, their
    * prefix cut off (the case is kept). */
  function Update(base: Dict<string, Number>, keys: seq<string>, vals: map<string, Number>): (d: Dict<string, Number>)
    requires base.Valid()
    requires forall k :: k in keys ==> k in vals
    ensures d.Valid()
  {
    if keys == [] then base
    else
      var rest := Update(base, keys[..|keys| - 1], vals);
      var k := keys[|keys| - 1];
      if StartsWith(k, "In_") then rest.Put(k[3..], vals[k]) else rest
  }

  /** The species a request is built from. */
  function InputKeys(species: Dict<string, Number>): (d: Dict<string, Number>)
    requires species.Valid()
    ensures d.Valid()
  {
    Update(AllConcs(), species.keys, species.vals)
  }

  /** Scaling by `10e-7` and replacing NaN by 0. */
  function Clean(v: Number): real
  {
    match v
    case Num(x) => x * 0.000001
    case NaN => 0.0
  }

  /** `format_simulation_request`; a missing "temperature" or "pressure"
    * key fails with that key, temperature first. */
  function FormatSimulationRequest(e: Experiment): (r: Result<SimulationRequest, string>)
    requires e.species.Valid()
  {
    var concs := InputKeys(e.species).Map((k: string, v: Number) => Clean(v));
    if e.temperature.None? then Failure("temperature")
    else if e.pressure.None? then Failure("pressure")
    else Success(SimulationRequest(ArcsSettings(e.temperature.value + 273.0, e.pressure.value, 5000), concs))
  }

  /** A species name is in the update exactly when it is a default or the
    * suffix of an "In_" key. */
  lemma {:induction false} UpdateKeys(base: Dict<string, Number>, keys: seq<string>, vals: map<string, Number>, name: string)
    requires base.Valid()
    requires forall k :: k in keys ==> k in vals
    ensures name in Update(base, keys, vals).vals <==>
              name in base.vals || exists i :: 0 <= i < |keys| && StartsWith(keys[i], "In_") && keys[i][3..] == name
  {
    if keys != [] {
      var init := keys[..|keys| - 1];
      UpdateKeys(base, init, vals, name);
      assert forall i :: 0 <= i < |init| ==> init[i] == keys[i];
    }
  }

  /** A name takes the value of the last "In_" key naming it, or keeps the
    * base value when no key does. */
  lemma UpdateValue(base: Dict<string, Number>, keys: seq<string>, vals: map<string, Number>, name: string)
    requires base.Valid()
    requires forall k :: k in keys ==> k in vals
    requires name in Update(base, keys, vals).vals
    ensures (forall i :: 0 <= i < |keys| && StartsWith(keys[i], "In_") ==> keys[i][3..] != name) ==>
              name in base.vals && Update(base, keys, vals).vals[name] == base.vals[name]
    ensures forall i :: (0 <= i < |keys| && StartsWith(keys[i], "In_") && keys[i][3..] == name &&
                         (forall j :: i < j < |keys| && StartsWith(keys[j], "In_") ==> keys[j][3..] != name)) ==>
              Update(base, keys, vals).vals[name] == vals[keys[i]]
  {
    UpdateUntouched(base, keys, vals, name);
    UpdateLastWins(base, keys, vals, name);
  }

  lemma {:induction false} UpdateUntouched(base: Dict<string, Number>, keys: seq<string>, vals: map<string, Number>, name: string)
    requires base.Valid()
    requires forall k :: k in keys ==> k in vals
    requires name in Update(base, keys, vals).vals
    ensures (forall i :: 0 <= i < |keys| && StartsWith(keys[i], "In_") ==> keys[i][3..] != name) ==>
              name in base.vals && Update(base, keys, vals).vals[name] == base.vals[name]
  {
    if keys != [] {
      var n := |keys| - 1;
      var init := keys[..n];
      assert forall i :: 0 <= i < n ==> init[i] == keys[i];
      if !(StartsWith(keys[n], "In_") && keys[n][3..] == name) {
        UpdateUntouched(base, init, vals, name);
      }
    }
  }

  lemma {:induction false} UpdateLastWins(base: Dict<string, Number>, keys: seq<string>, vals: map<string, Number>, name: string)
    requires base.Valid()
    requires forall k :: k in keys ==> k in vals
    requires name in Update(base, keys, vals).vals
    ensures forall i :: (0 <= i < |keys| && StartsWith(keys[i], "In_") && keys[i][3..] == name &&
                         (forall j :: i < j < |keys| && StartsWith(keys[j], "In_") ==> keys[j][3..] != name)) ==>
              Update(base, keys, vals).vals[name] == vals[keys[i]]
  {
    if keys != [] {
      var n := |keys| - 1;
      var init := keys[..n];
      assert forall i :: 0 <= i < n ==> init[i] == keys[i];
      if !(StartsWith(keys[n], "In_") && keys[n][3..] == name) {
        UpdateLastWins(base, init, vals, name);
      }
    }
  }

  /** Updating only ever appends: the base keys stay first, in order. */
  lemma {:induction false} UpdateKeepsOrder(base: Dict<string, Number>, keys: seq<string>, vals: map<string, Number>)
    requires base.Valid()
    requires forall k :: k in keys ==> k in vals
    ensures |Update(base, keys, vals).keys| >= |base.keys|
    ensures Update(base, keys, vals).keys[..|base.keys|] == base.keys
  {
    if keys != [] {
      UpdateKeepsOrder(base, keys[..|keys| - 1], vals);
      var rest := Update(base, keys[..|keys| - 1], vals);
      forall x: string
        ensures (rest.keys + [x])[..|base.keys|] == rest.keys[..|base.keys|]
      {
      }
    }
  }

  /** Two distinct keys with the same prefix have distinct suffixes. */
  lemma SuffixInjective(a: string, b: string, prefix: string)
    ensures StartsWith(a, prefix) && StartsWith(b, prefix) && a != b ==> a[|prefix|..] != b[|prefix|..]
  {
    if StartsWith(a, prefix) && StartsWith(b, prefix) {
      assert a == a[..|prefix|] + a[|prefix|..];
      assert b == b[..|prefix|] + b[|prefix|..];
    }
  }

  /** The request's concentrations: the 24 defaults first and in order, plus
    * every "In_" species with its prefix cut off; an "In_" value overrides
    * the default 0; every value is scaled by 10e-7 and NaN becomes 0; the
    * settings are the temperature plus 273, the pressure as given, and a
    * sample length of 5000. */
  lemma RequestContents(e: Experiment, name: string)
    requires e.species.Valid() && e.temperature.Some? && e.pressure.Some?
    ensures FormatSimulationRequest(e).Success?
    ensures var req := FormatSimulationRequest(e).value;
            && req.settings == ArcsSettings(e.temperature.value + 273.0, e.pressure.value, 5000)
            && |req.concs.keys| >= 24 && req.concs.keys[..24] == DefaultSpecies
            && (name in req.concs.vals <==>
                  name in DefaultSpecies ||
                  exists k :: k in e.species.vals && StartsWith(k, "In_") && k[3..] == name)
            && (name in req.concs.vals && !(exists k :: k in e.species.vals && StartsWith(k, "In_") && k[3..] == name) ==>
                  req.concs.vals[name] == 0.0)
            && (forall k :: k in e.species.vals && StartsWith(k, "In_") && k[3..] == name ==>
                  req.concs.vals[name] == Clean(e.species.vals[k]))
  {
    var d := InputKeys(e.species);
    UpdateKeepsOrder(AllConcs(), e.species.keys, e.species.vals);
    InputKeysHas(e.species, name);
    InputKeysValue(e.species, name);
    if name in d.vals && !(exists k :: k in e.species.vals && StartsWith(k, "In_") && k[3..] == name) {
      assert Clean(d.vals[name]) == 0.0;
    }
  }

  /** A name is among the species exactly when it is a default or the
    * suffix of an "In_" key of the experiment. */
  lemma InputKeysHas(sp: Dict<string, Number>, name: string)
    requires sp.Valid()
    ensures name in InputKeys(sp).vals <==>
              name in DefaultSpecies || exists k :: k in sp.vals && StartsWith(k, "In_") && k[3..] == name
  {
    UpdateKeys(AllConcs(), sp.keys, sp.vals, name);
    if exists k :: k in sp.vals && StartsWith(k, "In_") && k[3..] == name {
      var k :| k in sp.vals && StartsWith(k, "In_") && k[3..] == name;
      var i :| 0 <= i < |sp.keys| && sp.keys[i] == k;
    }
  }

  /** A species named by an "In_" key takes that key's value; a default no
    * key names stays at 0. */
  lemma InputKeysValue(sp: Dict<string, Number>, name: string)
    requires sp.Valid()
    ensures name in InputKeys(sp).vals && !(exists k :: k in sp.vals && StartsWith(k, "In_") && k[3..] == name) ==>
              InputKeys(sp).vals[name] == Num(0.0)
    ensures forall k :: k in sp.vals && StartsWith(k, "In_") && k[3..] == name ==>
              name in InputKeys(sp).vals && InputKeys(sp).vals[name] == sp.vals[k]
  {
    var d := InputKeys(sp);
    InputKeysHas(sp, name);
    if name in d.vals {
      UpdateValue(AllConcs(), sp.keys, sp.vals, name);
      forall k | k in sp.vals && StartsWith(k, "In_") && k[3..] == name
        ensures d.vals[name] == sp.vals[k]
      {
        var i :| 0 <= i < |sp.keys| && sp.keys[i] == k;
        forall j | i < j < |sp.keys| && StartsWith(sp.keys[j], "In_")
          ensures sp.keys[j][3..] != name
        {
          SuffixInjective(sp.keys[j], k, "In_");
        }
      }
      if !(exists k :: k in sp.vals && StartsWith(k, "In_") && k[3..] == name) {
        forall i | 0 <= i < |sp.keys| && StartsWith(sp.keys[i], "In_")
          ensures sp.keys[i][3..] != name
        {
          assert sp.keys[i] in sp.vals;
        }
      }
    }
  }
}
