/** Model adapters: the result of a run, the adapter registry that
  * `__init_subclass__` fills, and the input gate of `BaseAdapter.__init__`
  * that rejects unknown substances and invalid parameters before any model
  * runs. */
module Adapters {
  import opened Common
  import opened ParameterSchema
  import opened Panels

  /** What `run()` returns: final concentrations alone, or a tuple of the
    * final concentrations followed by panels. */
  datatype RunResult =
    | Concentrations(concs: Dict<string, real>)
    | WithPanels(concs: Dict<string, real>, panels: seq<Panel>)

  /** `get_concs` */
  function GetConcs(r: RunResult): Dict<string, real>
  {
    r.concs
  }

  /** `get_metas` */
  function GetMetas(r: RunResult): seq<Panel>
  {
    if r.Concentrations? then [] else r.panels
  }

  /** A run result is recovered from its concentrations and its panels; a
    * bare dictionary has no panels. */
  lemma ConcsAndMetasRebuildResult(r: RunResult)
    ensures r.WithPanels? ==> r == WithPanels(GetConcs(r), GetMetas(r))
    ensures r.Concentrations? ==> r == Concentrations(GetConcs(r)) && GetMetas(r) == []
  {
  }

  /** A registered adapter class: its declared attributes and its resolved
    * parameters class (`None` when it declares none). `BaseAdapter` only
    * annotates `description` and does not declare `category`, so a subclass
    * may have neither; `None` stands for an attribute the class lacks. */
  datatype AdapterClass = AdapterClass(
    modelId: string,
    displayName: string,
    description: Option<string>,
    category: Option<string>,
    validSubstances: seq<string>,
    authentication: bool,
    scope: Option<string>,
    parameters: Option<ParamClass>)

  /** How an adapter class declares `parameters`: not type-hinted (and
    * perhaps assigned anyway), hinted with a `BaseParameters` subclass, or
    * hinted with some other type. */
  datatype ParamsHint = Unhinted(hasAttribute: bool) | Hinted(cls: ParamClass) | HintedOther

  /** A subclass of `BaseAdapter` as written, before registration. */
  datatype ClassDecl = ClassDecl(
    modelId: string,
    displayName: string,
    description: Option<string>,
    category: Option<string>,
    validSubstances: seq<string>,
    authentication: bool,
    scope: Option<string>,
    hint: ParamsHint)

  /** The errors `__init_subclass__` raises. */
  datatype RegisterError = ParametersNotHinted | ParametersNotBaseParameters | DuplicateModelId(modelId: string)

  /** The checks of `__init_subclass__` that look at the class alone. */
  function CheckDecl(d: ClassDecl): (r: Result<AdapterClass, RegisterError>)
    ensures r.Failure? <==> d.hint == Unhinted(true) || d.hint == HintedOther
    ensures d.hint == Unhinted(true) ==> r == Failure(ParametersNotHinted)
    ensures d.hint == HintedOther ==> r == Failure(ParametersNotBaseParameters)
    ensures r.Success? ==> (r.value.modelId == d.modelId && r.value.displayName == d.displayName
      && r.value.description == d.description && r.value.category == d.category
      && r.value.validSubstances == d.validSubstances
      && r.value.authentication == d.authentication && r.value.scope == d.scope
      && (r.value.parameters.Some? <==> d.hint.Hinted?)
      && (d.hint.Hinted? ==> r.value.parameters == Some(d.hint.cls)))
  {
    match d.hint
    case Unhinted(hasAttribute) =>
      if hasAttribute then Failure(ParametersNotHinted)
      else Success(AdapterClass(d.modelId, d.displayName, d.description, d.category, d.validSubstances,
                                d.authentication, d.scope, None))
    case HintedOther => Failure(ParametersNotBaseParameters)
    case Hinted(cls) =>
      Success(AdapterClass(d.modelId, d.displayName, d.description, d.category, d.validSubstances,
                           d.authentication, d.scope, Some(cls)))
  }

  /** `ADAPTERS`: model id to adapter class, in declaration order. */
  class Registry {
    var adapters: Dict<string, AdapterClass>

    ghost predicate Valid()
      reads this
    {
      adapters.Valid() && forall id :: id in adapters.vals ==> adapters.vals[id].modelId == id
    }

    constructor()
      ensures Valid() && adapters == Dict.Empty()
    {
      adapters := Dict.Empty();
    }

    /** `__init_subclass__`: check the class, refuse a second class with the
      * same model id, and otherwise append it to the registry. */
    method Register(d: ClassDecl) returns (r: Result<AdapterClass, RegisterError>)
      requires Valid()
      modifies this
      ensures Valid()
      ensures CheckDecl(d).Failure? ==> r == CheckDecl(d) && adapters == old(adapters)
      ensures CheckDecl(d).Success? && d.modelId in old(adapters.vals) ==>
        r == Failure(DuplicateModelId(d.modelId)) && adapters == old(adapters)
      ensures CheckDecl(d).Success? && d.modelId !in old(adapters.vals) ==>
        r == CheckDecl(d)
        && adapters.keys == old(adapters.keys) + [d.modelId]
        && adapters.vals == old(adapters.vals)[d.modelId := r.value]
    {
      r := CheckDecl(d);
      if r.Failure? {
        return;
      }
      if d.modelId in adapters.vals {
        r := Failure(DuplicateModelId(d.modelId));
        return;
      }
      adapters := adapters.Put(d.modelId, r.value);
    }
  }

  /** The `detail` of an `InputError`: errors by substance and by parameter. */
  datatype InputDetail = InputDetail(concentrations: map<string, seq<ErrorMsg>>,
                                     parameters: map<string, seq<ErrorMsg>>)

  /** A constructed adapter: its class, one concentration per valid
    * substance, its validated parameters and the caller's token. */
  datatype Adapter = Adapter(cls: AdapterClass, concentrations: map<string, real>,
                             parameters: Option<map<string, Value>>, jwtToken: Option<string>)

  /** Occurrences of `l` in a location tuple. */
  function Count(locs: seq<string>, l: string): nat
  {
    if locs == [] then 0 else Count(locs[..|locs| - 1], l) + (if locs[|locs| - 1] == l then 1 else 0)
  }

  function Repeat(m: ErrorMsg, n: nat): (r: seq<ErrorMsg>)
    ensures |r| == n && forall k :: 0 <= k < n ==> r[k] == m
  {
    if n == 0 then [] else Repeat(m, n - 1) + [m]
  }

  /** Every location some issue mentions. */
  function Locations(issues: seq<Issue>): set<string>
  {
    if issues == [] then {}
    else Locations(issues[..|issues| - 1]) + Elems(issues[|issues| - 1].loc)
  }

  function Elems(s: seq<string>): set<string>
  {
    set i | 0 <= i < |s| :: s[i]
  }

  /** The messages filed under location `l`: for each issue in order, its
    * message once per occurrence of `l` in its location. */
  function MessagesAt(issues: seq<Issue>, l: string): seq<ErrorMsg>
  {
    if issues == [] then []
    else
      var last := issues[|issues| - 1];
      MessagesAt(issues[..|issues| - 1], l) + Repeat(last.msg, Count(last.loc, l))
  }

  /** The validation errors grouped by location, as the `parameters` part of
    * an `InputError` and the `detail` of a 422 response carry them. */
  function GroupByLocation(issues: seq<Issue>): (d: map<string, seq<ErrorMsg>>)
    ensures d.Keys == Locations(issues)
  {
    map l | l in Locations(issues) :: MessagesAt(issues, l)
  }

  lemma {:induction false} MessagesAtUnmentioned(issues: seq<Issue>, l: string)
    requires l !in Locations(issues)
    ensures MessagesAt(issues, l) == []
  {
    if issues != [] {
      var last := issues[|issues| - 1];
      MessagesAtUnmentioned(issues[..|issues| - 1], l);
      CountAbsent(last.loc, l);
    }
  }

  lemma {:induction false} CountAbsent(locs: seq<string>, l: string)
    requires l !in locs
    ensures Count(locs, l) == 0
  {
    if locs != [] {
      CountAbsent(locs[..|locs| - 1], l);
    }
  }

  /** The grouping after all of `before` and the first `j` locations of
    * one more issue with message `msg`. */
  ghost function Partial(before: seq<Issue>, loc: seq<string>, msg: ErrorMsg, j: nat): map<string, seq<ErrorMsg>>
    requires j <= |loc|
  {
    map l | l in Locations(before) + Elems(loc[..j]) :: MessagesAt(before, l) + Repeat(msg, Count(loc[..j], l))
  }

  lemma PartialStart(before: seq<Issue>, loc: seq<string>, msg: ErrorMsg)
    ensures Partial(before, loc, msg, 0) == GroupByLocation(before)
  {
    assert loc[..0] == [];
    assert Elems(loc[..0]) == {};
    forall l | l in Locations(before)
      ensures Partial(before, loc, msg, 0)[l] == MessagesAt(before, l)
    {
      assert Count(loc[..0], l) == 0;
      assert Repeat(msg, 0) == [];
    }
  }

  lemma PartialStep(before: seq<Issue>, loc: seq<string>, msg: ErrorMsg, j: nat)
    requires j < |loc|
    ensures var d := Partial(before, loc, msg, j);
      Partial(before, loc, msg, j + 1) == d[loc[j] := (if loc[j] in d then d[loc[j]] else []) + [msg]]
  {
    var d := Partial(before, loc, msg, j);
    var l := loc[j];
    var e := d[l := (if l in d then d[l] else []) + [msg]];
    var d' := Partial(before, loc, msg, j + 1);
    PartialKeys(before, loc, msg, j);
    PartialAt(before, loc, msg, j, l);
    forall x | x in d' && x != l
      ensures d'[x] == d[x]
    {
      PartialAt(before, loc, msg, j, x);
    }
    UpdateExtensional(d', d, l, (if l in d then d[l] else []) + [msg]);
  }

  /** A map that agrees with `d` off `l` and holds `v` at `l` is `d[l := v]`. */
  lemma UpdateExtensional<K, V>(d': map<K, V>, d: map<K, V>, l: K, v: V)
    requires d'.Keys == d.Keys + {l} && d'[l] == v
    requires forall x :: x in d' && x != l ==> d'[x] == d[x]
    ensures d' == d[l := v]
  {
  }

  lemma PartialKeys(before: seq<Issue>, loc: seq<string>, msg: ErrorMsg, j: nat)
    requires j < |loc|
    ensures Partial(before, loc, msg, j + 1).Keys == Partial(before, loc, msg, j).Keys + {loc[j]}
  {
    assert loc[..j + 1][..j] == loc[..j];
    assert Elems(loc[..j + 1]) == Elems(loc[..j]) + {loc[j]};
  }

  /** One location's messages after one more location of the issue. */
  lemma PartialAt(before: seq<Issue>, loc: seq<string>, msg: ErrorMsg, j: nat, x: string)
    requires j < |loc|
    ensures var was := Locations(before) + Elems(loc[..j]);
      var old_ := MessagesAt(before, x) + Repeat(msg, Count(loc[..j], x));
      MessagesAt(before, x) + Repeat(msg, Count(loc[..j + 1], x)) ==
        if x == loc[j] then (if x in was then old_ else []) + [msg] else old_
  {
    CountPrefix(loc, j, x);
    var n := Count(loc[..j], x);
    if x == loc[j] {
      assert Repeat(msg, n + 1) == Repeat(msg, n) + [msg];
      if x !in Locations(before) + Elems(loc[..j]) {
        MessagesAtUnmentioned(before, x);
        assert x !in loc[..j];
        CountAbsent(loc[..j], x);
      }
    }
  }

  lemma CountPrefix(loc: seq<string>, j: nat, x: string)
    requires j < |loc|
    ensures Count(loc[..j + 1], x) == Count(loc[..j], x) + (if loc[j] == x then 1 else 0)
  {
    assert loc[..j + 1][..j] == loc[..j];
  }

  lemma PartialEnd(issues: seq<Issue>, i: nat)
    requires i < |issues|
    ensures Partial(issues[..i], issues[i].loc, issues[i].msg, |issues[i].loc|) == GroupByLocation(issues[..i + 1])
  {
    var loc := issues[i].loc;
    assert loc[..|loc|] == loc;
    assert issues[..i + 1][..i] == issues[..i];
    assert issues[..i + 1][i] == issues[i];
  }

  /** The grouping loop: `for err in errors: for loc in err["loc"]:
    * detail[loc].append(err["msg"])`. */
  method GroupIssues(issues: seq<Issue>) returns (d: map<string, seq<ErrorMsg>>)
    ensures d == GroupByLocation(issues)
  {
    d := map[];
    var i := 0;
    while i < |issues|
      invariant 0 <= i <= |issues|
      invariant d == GroupByLocation(issues[..i])
    {
      var loc := issues[i].loc;
      var msg := issues[i].msg;
      PartialStart(issues[..i], loc, msg);
      var j := 0;
      while j < |loc|
        invariant 0 <= j <= |loc|
        invariant d == Partial(issues[..i], loc, msg, j)
      {
        PartialStep(issues[..i], loc, msg, j);
        var l := loc[j];
        d := d[l := (if l in d then d[l] else []) + [msg]];
        j := j + 1;
      }
      PartialEnd(issues, i);
      i := i + 1;
    }
    assert issues[..i] == issues;
  }

  /** The errors for concentrations of substances the model does not use. */
  function ConcentrationErrors(valid: seq<string>, concs: map<string, real>): (e: map<string, seq<ErrorMsg>>)
    ensures forall s :: s in e <==> s in concs && s !in valid
    ensures forall s :: s in e ==> e[s] == [ExtraForbidden]
  {
    map s | s in concs && s !in valid :: [ExtraForbidden]
  }

  /** `BaseAdapter.__init__`: the adapter, or the `InputError` detail. */
  function NewAdapter(cls: AdapterClass, concs: map<string, real>, params: Dict<string, Value>,
                      jwtToken: Option<string>): (r: Result<Adapter, InputDetail>)
    requires params.Valid()
    ensures r.Success? <==>
      (forall s :: s in concs ==> s in cls.validSubstances)
      && (cls.parameters.None? ==> params.vals == map[])
      && (cls.parameters.Some? ==> Validate(cls.parameters.value, params).Success?)
    ensures r.Success? ==>
      r.value.concentrations.Keys == (set s | s in cls.validSubstances)
      && (forall s :: s in r.value.concentrations ==> r.value.concentrations[s] == GetOr(concs, s, 0.0))
      && r.value.jwtToken == jwtToken && r.value.cls == cls
      && (cls.parameters.Some? ==> r.value.parameters == Some(Validate(cls.parameters.value, params).value))
    ensures r.Failure? ==> r.error.concentrations == ConcentrationErrors(cls.validSubstances, concs)
    ensures r.Failure? && cls.parameters.None? && params.vals != map[] ==>
      r.error.parameters == map p | p in params.vals :: [ExtraForbidden]
    ensures r.Failure? && cls.parameters.Some? && Validate(cls.parameters.value, params).Failure? ==>
      r.error.parameters == GroupByLocation(Validate(cls.parameters.value, params).error)
    ensures (r.Failure? && (cls.parameters.None? ==> params.vals == map[])
             && (cls.parameters.Some? ==> Validate(cls.parameters.value, params).Success?)) ==>
      r.error.parameters == map[] && r.error.concentrations != map[]
  {
    var concErrors := ConcentrationErrors(cls.validSubstances, concs);
    if params.vals != map[] && cls.parameters.None? then
      Failure(InputDetail(concErrors, map p | p in params.vals :: [ExtraForbidden]))
    else if cls.parameters.Some? && Validate(cls.parameters.value, params).Failure? then
      Failure(InputDetail(concErrors, GroupByLocation(Validate(cls.parameters.value, params).error)))
    else if concErrors != map[] then
      assert exists s :: s in concs && s !in cls.validSubstances;
      Failure(InputDetail(concErrors, map[]))
    else
      var validated := if cls.parameters.Some? then Some(Validate(cls.parameters.value, params).value) else None;
      Success(Adapter(cls, map s | s in cls.validSubstances :: GetOr(concs, s, 0.0), validated, jwtToken))
  }

  /** Constructing an adapter never changes a concentration it was given:
    * each sent substance keeps its value, and every other substance the
    * model uses starts at zero. */
  lemma NormalisedConcentrations(cls: AdapterClass, concs: map<string, real>, params: Dict<string, Value>,
                                 jwtToken: Option<string>)
    requires params.Valid()
    requires NewAdapter(cls, concs, params, jwtToken).Success?
    ensures var a := NewAdapter(cls, concs, params, jwtToken).value;
      (forall s :: s in concs ==> s in a.concentrations && a.concentrations[s] == concs[s])
      && (forall s :: s in a.concentrations && s !in concs ==> a.concentrations[s] == 0.0)
  {
  }
}
