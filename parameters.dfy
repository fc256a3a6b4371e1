/** Model parameters: the `Parameter` field factory, the class-definition
  * check of `BaseParameters`, pydantic's validation of a request's
  * `parameters` object against such a class (camelCase alias or field name,
  * kind, bounds, extra keys forbidden, then the `choices` validator), and the
  * JSON schema the frontend receives. */
module ParameterSchema {
  import opened Common
  import opened Text
  import opened AliasGenerator

  /** A scalar parameter value: `int | float | bool | str`. A `StrEnum`
    * member is its string. */
  datatype Value = IntV(i: int) | FloatV(r: real) | BoolV(b: bool) | StrV(s: string)

  /** The number a value stands for under Python's numeric tower
    * (`True == 1`, `1 == 1.0`); strings are not numbers. */
  function NumericValue(v: Value): Option<real>
  {
    match v
    case IntV(i) => Some(i as real)
    case FloatV(r) => Some(r)
    case BoolV(b) => Some(if b then 1.0 else 0.0)
    case StrV(_) => None
  }

  /** Python's `==` between two values. */
  predicate PyEq(a: Value, b: Value)
  {
    if a.StrV? || b.StrV? then a.StrV? && b.StrV? && a.s == b.s
    else NumericValue(a) == NumericValue(b)
  }

  /** Python's `value in choices`. */
  predicate PyIn(v: Value, choices: seq<Value>)
  {
    exists i :: 0 <= i < |choices| && PyEq(v, choices[i])
  }

  /** The declared Python type of a parameter field. */
  datatype Kind = IntKind | FloatKind | BoolKind | StrKind | EnumKind(members: seq<string>)

  predicate IsNumericKind(k: Kind) { k == IntKind || k == FloatKind }

  /** A pydantic error message, one constructor per message text:
    * "Extra inputs are not permitted", "Input should be a valid integer",
    * "Input should be a valid integer, got a number with a fractional part",
    * "Input should be a valid number", "Input should be a valid boolean",
    * "Input should be a valid string", "Input should be 'a', 'b' or 'c'",
    * "Input should be less than or equal to M",
    * "Input should be greater than or equal to M" and
    * "Value error, must be one of: [...]". */
  datatype ErrorMsg =
    | ExtraForbidden
    | NotAnInteger
    | FractionalInteger
    | NotANumber
    | NotABoolean
    | NotAString
    | NotAMember(members: seq<string>)
    | AboveMaximum(max: real)
    | BelowMinimum(min: real)
    | NotAChoice(choices: seq<Value>)

  /** The units the frontend knows how to convert (`Unit`). */
  datatype KnownUnit = TemperatureKelvin

  function KnownUnitName(u: KnownUnit): string
  {
    match u
    case TemperatureKelvin => "kelvin"
  }

  /** The `unit=` argument of `Parameter`: absent, free text, or a `Unit`. */
  datatype UnitArg = NoUnit | TextUnit(text: string) | ConvertibleUnit(known: KnownUnit)

  /** The `AcidwatchParameter` dictionary stored as the field's
    * `json_schema_extra`. */
  datatype ParameterMeta = ParameterMeta(
    default: Value,
    labelText: Option<string>,
    description: Option<string>,
    unit: Option<string>,
    convertibleUnit: Option<string>,
    choices: Option<seq<Value>>)

  /** What a field's `json_schema_extra` can be: none, the dictionary made by
    * `Parameter`, or some other dictionary (with or without a `__type__`
    * key, whose value is then not "AcidwatchParameter"). */
  datatype SchemaExtra = NoExtra | ParameterExtra(meta: ParameterMeta) | ForeignDict(hasTypeKey: bool)

  /** A pydantic `FieldInfo`: default, `ge`, `le` and the schema extra. */
  datatype FieldInfo = FieldInfo(default: Value, ge: Option<real>, le: Option<real>, extra: SchemaExtra)

  /** `Parameter(default, label=, description=, unit=, min=, max=, choices=)` */
  function Parameter(default: Value, labelText: Option<string>, description: Option<string>,
                     unit: UnitArg, min: Option<real>, max: Option<real>,
                     choices: Option<seq<Value>>): (f: FieldInfo)
    ensures f.default == default && f.ge == min && f.le == max
    ensures f.extra.ParameterExtra?
    ensures f.extra.meta.default == default && f.extra.meta.choices == choices
    ensures f.extra.meta.labelText == labelText && f.extra.meta.description == description
    ensures unit.ConvertibleUnit? ==>
      f.extra.meta.unit == None && f.extra.meta.convertibleUnit == Some(KnownUnitName(unit.known))
    ensures unit.TextUnit? ==> f.extra.meta.unit == Some(unit.text) && f.extra.meta.convertibleUnit == None
    ensures unit.NoUnit? ==> f.extra.meta.unit == None && f.extra.meta.convertibleUnit == None
  {
    var unitText := if unit.TextUnit? then Some(unit.text) else None;
    var convertible := if unit.ConvertibleUnit? then Some(KnownUnitName(unit.known)) else None;
    FieldInfo(default, min, max,
              ParameterExtra(ParameterMeta(default, labelText, description, unitText, convertible, choices)))
  }

  /** One annotated field of a `BaseParameters` subclass; `alias` is the
    * validation and serialisation alias pydantic stores with the field. */
  datatype FieldDecl = FieldDecl(name: string, kind: Kind, info: FieldInfo, alias: string)

  /** The fields as the class is built: `Parameter` sets no alias of its own,
    * so the class's `alias_generator` (`to_camel`) gives every field its alias. */
  function WithAliases(fields: seq<FieldDecl>): (r: seq<FieldDecl>)
    ensures |r| == |fields|
    ensures forall i :: 0 <= i < |r| ==> r[i] == fields[i].(alias := ToCamel(fields[i].name))
  {
    seq(|fields|, i requires 0 <= i < |fields| => fields[i].(alias := ToCamel(fields[i].name)))
  }

  /** A `BaseParameters` subclass that passed its class-definition check. */
  datatype ParamClass = ParamClass(fields: seq<FieldDecl>)

  function Names(fields: seq<FieldDecl>): seq<string>
  {
    seq(|fields|, i requires 0 <= i < |fields| => fields[i].name)
  }

  /** Why defining a `BaseParameters` subclass fails: the `TypeError` for a
    * field not made with `Parameter`, or the `KeyError` raised when its extra
    * dictionary has no `__type__` key. */
  datatype DefineError = NotAParameter(field: string) | MissingTypeKey(field: string)

  /** `__pydantic_init_subclass__`: fields are checked in declaration order
    * and the first one not made with `Parameter` aborts the definition. */
  function DefineParameters(fields: seq<FieldDecl>): (r: Result<ParamClass, DefineError>)
    ensures r.Success? <==> forall i :: 0 <= i < |fields| ==> fields[i].info.extra.ParameterExtra?
    ensures r.Success? ==> r.value.fields == WithAliases(fields)
    ensures r.Failure? ==> exists i :: (0 <= i < |fields| && !fields[i].info.extra.ParameterExtra?
      && (forall j :: 0 <= j < i ==> fields[j].info.extra.ParameterExtra?)
      && r.error == (if fields[i].info.extra == ForeignDict(false) then MissingTypeKey(fields[i].name)
                     else NotAParameter(fields[i].name)))
  {
    FirstBadField(fields, 0)
  }

  function FirstBadField(fields: seq<FieldDecl>, from: nat): (r: Result<ParamClass, DefineError>)
    requires from <= |fields|
    requires forall j :: 0 <= j < from ==> fields[j].info.extra.ParameterExtra?
    ensures r.Success? <==> forall i :: 0 <= i < |fields| ==> fields[i].info.extra.ParameterExtra?
    ensures r.Success? ==> r.value.fields == WithAliases(fields)
    ensures r.Failure? ==> exists i :: (from <= i < |fields| && !fields[i].info.extra.ParameterExtra?
      && (forall j :: 0 <= j < i ==> fields[j].info.extra.ParameterExtra?)
      && r.error == (if fields[i].info.extra == ForeignDict(false) then MissingTypeKey(fields[i].name)
                     else NotAParameter(fields[i].name)))
    decreases |fields| - from
  {
    if from == |fields| then Success(ParamClass(WithAliases(fields)))
    else
      var f := fields[from];
      if f.info.extra.ParameterExtra? then FirstBadField(fields, from + 1)
      else if f.info.extra == ForeignDict(false) then Failure(MissingTypeKey(f.name))
      else Failure(NotAParameter(f.name))
  }

  /** A class whose every field is declared with `Parameter` is accepted. */
  lemma ParameterFieldsAccepted(fields: seq<FieldDecl>)
    requires forall i :: 0 <= i < |fields| ==>
      exists d, l, desc, u, lo, hi, cs :: fields[i].info == Parameter(d, l, desc, u, lo, hi, cs)
    ensures DefineParameters(fields) == Success(ParamClass(WithAliases(fields)))
  {
  }

  /** In a class that was defined, a field named in snake_case answers to
    * its camelCase spelling: `max_iter` to `maxIter`. */
  lemma SnakeFieldAlias(fields: seq<FieldDecl>, i: nat, ws: seq<string>)
    requires DefineParameters(fields).Success? && i < |fields|
    requires |ws| > 0 && (forall j :: 0 <= j < |ws| ==> Word(ws[j])) && fields[i].name == Snake(ws)
    ensures DefineParameters(fields).value.fields[i].name == fields[i].name
    ensures DefineParameters(fields).value.fields[i].alias == ws[0] + Pascal(ws[1..])
  {
    SnakeToCamel(ws);
  }

  /** The key a field's value is taken from: the camelCase alias first,
    * then the field name (`populate_by_name`); `None` when neither is sent. */
  function UsedKey(f: FieldDecl, input: Dict<string, Value>): (k: Option<string>)
    ensures k.Some? ==> k.value in input.vals && (k.value == f.alias || k.value == f.name)
    ensures k.None? <==> f.alias !in input.vals && f.name !in input.vals
  {
    if f.alias in input.vals then Some(f.alias)
    else if f.name in input.vals then Some(f.name)
    else None
  }

  function Choices(f: FieldDecl): Option<seq<Value>>
  {
    if f.info.extra.ParameterExtra? then f.info.extra.meta.choices else None
  }

  /** Coercion of a sent value to the field's kind, covering only pydantic's
    * conversions between JSON numbers: an integral float is an int, and an
    * int is a float. A string or a boolean is accepted only by a field of
    * its own kind. */
  function Coerce(kind: Kind, v: Value): (r: Result<Value, ErrorMsg>)
    ensures r.Success? && IsNumericKind(kind) ==> r.value.IntV? || r.value.FloatV?
    ensures r.Success? ==> PyEq(r.value, v)
  {
    match kind
    case IntKind =>
      if v.IntV? then Success(v)
      else if v.FloatV? then (if v.r == v.r.Floor as real then Success(IntV(v.r.Floor)) else Failure(FractionalInteger))
      else Failure(NotAnInteger)
    case FloatKind =>
      if v.IntV? then Success(FloatV(v.i as real))
      else if v.FloatV? then Success(v)
      else Failure(NotANumber)
    case BoolKind => if v.BoolV? then Success(v) else Failure(NotABoolean)
    case StrKind => if v.StrV? then Success(v) else Failure(NotAString)
    case EnumKind(members) =>
      if v.StrV? && v.s in members then Success(v) else Failure(NotAMember(members))
  }

  /** The value a field ends up with, or the one message pydantic reports for
    * it: wrong kind, then `le`, then `ge`, then (after validation) choices. */
  function ValidateField(f: FieldDecl, v: Value): (r: Result<Value, ErrorMsg>)
  {
    var c := Coerce(f.kind, v);
    if c.Failure? then c
    else
      var x := NumericValue(c.value);
      if IsNumericKind(f.kind) && f.info.le.Some? && x.Some? && x.value > f.info.le.value then
        Failure(AboveMaximum(f.info.le.value))
      else if IsNumericKind(f.kind) && f.info.ge.Some? && x.Some? && x.value < f.info.ge.value then
        Failure(BelowMinimum(f.info.ge.value))
      else if Choices(f).Some? && !PyIn(c.value, Choices(f).value) then
        Failure(NotAChoice(Choices(f).value))
      else c
  }

  /** A field that validates holds a value of its kind, within its bounds,
    * and among its choices when it has them; a failure names the broken rule. */
  lemma ValidateFieldMeaning(f: FieldDecl, v: Value)
    ensures var r := ValidateField(f, v);
      r.Success? ==>
        Coerce(f.kind, v) == r
        && (IsNumericKind(f.kind) && f.info.le.Some? ==> NumericValue(r.value).value <= f.info.le.value)
        && (IsNumericKind(f.kind) && f.info.ge.Some? ==> NumericValue(r.value).value >= f.info.ge.value)
        && (Choices(f).Some? ==> PyIn(r.value, Choices(f).value))
    ensures var r := ValidateField(f, v);
      r.Failure? ==>
        (Coerce(f.kind, v).Failure? && r == Coerce(f.kind, v))
        || (f.info.le.Some? && r.error == AboveMaximum(f.info.le.value))
        || (f.info.ge.Some? && r.error == BelowMinimum(f.info.ge.value))
        || (Choices(f).Some? && r.error == NotAChoice(Choices(f).value))
  {
  }

  /** One entry of `ValidationError.errors()`: its `loc` and `msg`. */
  datatype Issue = Issue(loc: seq<string>, msg: ErrorMsg)

  /** The errors of the declared fields, in declaration order. */
  function FieldIssues(fields: seq<FieldDecl>, input: Dict<string, Value>): (r: seq<Issue>)
    ensures forall e :: e in r ==> exists i :: (0 <= i < |fields| && UsedKey(fields[i], input).Some?
      && e.loc == [UsedKey(fields[i], input).value])
  {
    if fields == [] then []
    else
      var f := fields[0];
      var k := UsedKey(f, input);
      var here := if k.Some? && ValidateField(f, input.vals[k.value]).Failure?
                  then [Issue([k.value], ValidateField(f, input.vals[k.value]).error)] else [];
      var rest := FieldIssues(fields[1..], input);
      assert forall e :: e in rest ==> exists i :: (0 <= i < |fields| && UsedKey(fields[i], input).Some?
        && e.loc == [UsedKey(fields[i], input).value]) by {
        forall e | e in rest
          ensures exists i :: (0 <= i < |fields| && UsedKey(fields[i], input).Some?
            && e.loc == [UsedKey(fields[i], input).value])
        {
          var j :| 0 <= j < |fields[1..]| && UsedKey(fields[1..][j], input).Some?
            && e.loc == [UsedKey(fields[1..][j], input).value];
          assert fields[1..][j] == fields[j + 1];
        }
      }
      here + rest
  }

  /** The keys consumed by some declared field. */
  function UsedKeys(fields: seq<FieldDecl>, input: Dict<string, Value>): (s: set<string>)
    ensures forall k :: k in s <==> exists i :: 0 <= i < |fields| && UsedKey(fields[i], input) == Some(k)
  {
    if fields == [] then {}
    else
      var rest := UsedKeys(fields[1..], input);
      assert forall i :: 0 <= i < |fields| - 1 ==> fields[1..][i] == fields[i + 1];
      (if UsedKey(fields[0], input).Some? then {UsedKey(fields[0], input).value} else {}) + rest
  }

  /** One "Extra inputs are not permitted" per unconsumed key, in input order
    * (`extra="forbid"`). */
  function ExtraIssues(keys: seq<string>, used: set<string>): (r: seq<Issue>)
    ensures forall e :: e in r ==> e.msg == ExtraForbidden && |e.loc| == 1 && e.loc[0] in keys && e.loc[0] !in used
    ensures forall k :: k in keys && k !in used ==> Issue([k], ExtraForbidden) in r
  {
    if keys == [] then []
    else (if keys[0] in used then [] else [Issue([keys[0]], ExtraForbidden)]) + ExtraIssues(keys[1..], used)
  }

  /** The value a declared field ends up with: the validated sent value, or
    * the default when the field is not sent (pydantic does not validate
    * defaults). */
  function FieldResult(f: FieldDecl, input: Dict<string, Value>): Value
  {
    var k := UsedKey(f, input);
    if k.Some? && ValidateField(f, input.vals[k.value]).Success?
    then ValidateField(f, input.vals[k.value]).value else f.info.default
  }

  /** The validated values by field name. */
  function Values(fields: seq<FieldDecl>, input: Dict<string, Value>): (m: map<string, Value>)
    ensures forall i :: 0 <= i < |fields| ==> fields[i].name in m
  {
    if fields == [] then map[]
    else
      var rest := Values(fields[1..], input);
      assert forall i :: 1 <= i < |fields| ==> fields[i] == fields[1..][i - 1];
      rest[fields[0].name := FieldResult(fields[0], input)]
  }

  /** With distinct field names, each field's entry is its own result. */
  lemma {:induction false} ValuesAt(fields: seq<FieldDecl>, input: Dict<string, Value>, i: nat)
    requires Distinct(Names(fields)) && i < |fields|
    ensures Values(fields, input)[fields[i].name] == FieldResult(fields[i], input)
  {
    if i > 0 {
      assert fields[i] == fields[1..][i - 1];
      assert Names(fields)[0] != Names(fields)[i];
      assert forall j :: 0 <= j < |fields| - 1 ==> Names(fields[1..])[j] == Names(fields)[j + 1];
      ValuesAt(fields[1..], input, i - 1);
    }
  }

  /** `ParamsClass.model_validate(parameters)`: the validated values, or all
    * the errors (declared fields first, then extra keys). */
  function Validate(c: ParamClass, input: Dict<string, Value>): (r: Result<map<string, Value>, seq<Issue>>)
    requires input.Valid()
    ensures r.Failure? ==> r.error != []
    ensures r.Failure? ==> r.error == FieldIssues(c.fields, input) + ExtraIssues(input.keys, UsedKeys(c.fields, input))
  {
    var issues := FieldIssues(c.fields, input) + ExtraIssues(input.keys, UsedKeys(c.fields, input));
    if issues == [] then Success(Values(c.fields, input)) else Failure(issues)
  }

  /** Validation succeeds exactly when every sent declared field validates
    * and every sent key belongs to a declared field. */
  lemma {:induction false} ValidateSucceedsIff(c: ParamClass, input: Dict<string, Value>)
    requires input.Valid()
    ensures Validate(c, input).Success? <==>
      (forall i :: 0 <= i < |c.fields| && UsedKey(c.fields[i], input).Some? ==>
         ValidateField(c.fields[i], input.vals[UsedKey(c.fields[i], input).value]).Success?)
      && (forall k :: k in input.keys ==> k in UsedKeys(c.fields, input))
  {
    FieldIssuesEmptyIff(c.fields, input);
    var used := UsedKeys(c.fields, input);
    if forall k :: k in input.keys ==> k in used {
      ExtraIssuesEmpty(input.keys, used);
    } else {
      var k :| k in input.keys && k !in used;
      assert Issue([k], ExtraForbidden) in ExtraIssues(input.keys, used);
    }
  }

  lemma {:induction false} FieldIssuesEmptyIff(fields: seq<FieldDecl>, input: Dict<string, Value>)
    ensures FieldIssues(fields, input) == [] <==>
      (forall i :: 0 <= i < |fields| && UsedKey(fields[i], input).Some? ==>
         ValidateField(fields[i], input.vals[UsedKey(fields[i], input).value]).Success?)
  {
    if fields != [] {
      FieldIssuesEmptyIff(fields[1..], input);
      assert forall i :: 1 <= i < |fields| ==> fields[i] == fields[1..][i - 1];
    }
  }

  lemma {:induction false} ExtraIssuesEmpty(keys: seq<string>, used: set<string>)
    requires forall k :: k in keys ==> k in used
    ensures ExtraIssues(keys, used) == []
  {
    if keys != [] {
      ExtraIssuesEmpty(keys[1..], used);
    }
  }

  /** A sent key that is neither a field's alias nor a field's name is
    * reported as an extra input, at that key. */
  lemma UnknownKeyRejected(c: ParamClass, input: Dict<string, Value>, k: string)
    requires input.Valid() && k in input.vals
    requires forall i :: 0 <= i < |c.fields| ==> k != c.fields[i].name && k != c.fields[i].alias
    ensures Validate(c, input).Failure?
    ensures Issue([k], ExtraForbidden) in Validate(c, input).error
  {
    assert k !in UsedKeys(c.fields, input);
  }

  /** Inputs on which every field gives the same result give the same values. */
  lemma {:induction false} ValuesAgree(fields: seq<FieldDecl>, a: Dict<string, Value>, b: Dict<string, Value>)
    requires forall j :: 0 <= j < |fields| ==> FieldResult(fields[j], a) == FieldResult(fields[j], b)
    ensures Values(fields, a) == Values(fields, b)
  {
    if fields != [] {
      assert forall j :: 1 <= j < |fields| ==> fields[j] == fields[1..][j - 1];
      ValuesAgree(fields[1..], a, b);
    }
  }

  /** A value sent under a field's camelCase alias and the same value sent
    * under its snake_case name are accepted alike and give the same
    * parameters, provided no other field claims either spelling. */
  lemma {:induction false} AliasOrNameAgree(c: ParamClass, i: nat, v: Value)
    requires i < |c.fields|
    requires forall j :: 0 <= j < |c.fields| && j != i ==>
      var n := c.fields[j].name;
      n != c.fields[i].name && c.fields[j].alias != c.fields[i].name
      && n != c.fields[i].alias && c.fields[j].alias != c.fields[i].alias
    ensures var byAlias := Dict([c.fields[i].alias], map[c.fields[i].alias := v]);
      var byName := Dict([c.fields[i].name], map[c.fields[i].name := v]);
      Validate(c, byAlias).Success? == Validate(c, byName).Success?
      && (Validate(c, byAlias).Success? ==> Validate(c, byAlias).value == Validate(c, byName).value)
  {
    var f := c.fields[i];
    var byAlias := Dict([f.alias], map[f.alias := v]);
    var byName := Dict([f.name], map[f.name := v]);
    SpellingsReadAlike(c, i, v, byAlias, byName);
    ValuesAgree(c.fields, byAlias, byName);
    ValidateSucceedsIff(c, byAlias);
    ValidateSucceedsIff(c, byName);
    assert f.alias in UsedKeys(c.fields, byAlias);
    assert f.name in UsedKeys(c.fields, byName);
  }

  /** Every field reads the same from either spelling of field `i`, and
    * the other fields find neither. */
  lemma {:induction false} SpellingsReadAlike(c: ParamClass, i: nat, v: Value, byAlias: Dict<string, Value>, byName: Dict<string, Value>)
    requires i < |c.fields|
    requires forall j :: 0 <= j < |c.fields| && j != i ==>
      var n := c.fields[j].name;
      n != c.fields[i].name && c.fields[j].alias != c.fields[i].name
      && n != c.fields[i].alias && c.fields[j].alias != c.fields[i].alias
    requires byAlias == Dict([c.fields[i].alias], map[c.fields[i].alias := v])
    requires byName == Dict([c.fields[i].name], map[c.fields[i].name := v])
    ensures forall j :: 0 <= j < |c.fields| ==> FieldResult(c.fields[j], byAlias) == FieldResult(c.fields[j], byName)
    ensures forall j :: 0 <= j < |c.fields| && j != i ==> UsedKey(c.fields[j], byAlias).None? && UsedKey(c.fields[j], byName).None?
  {
    var f := c.fields[i];
    assert UsedKey(f, byAlias) == Some(f.alias);
    assert UsedKey(f, byName).Some? && byName.vals[UsedKey(f, byName).value] == v;
    forall j | 0 <= j < |c.fields|
      ensures FieldResult(c.fields[j], byAlias) == FieldResult(c.fields[j], byName)
      ensures j != i ==> UsedKey(c.fields[j], byAlias).None? && UsedKey(c.fields[j], byName).None?
    {
    }
  }

  /** With nothing sent, every field takes its declared default. */
  lemma EmptyInputGivesDefaults(c: ParamClass)
    requires Distinct(Names(c.fields))
    ensures Validate(c, Dict.Empty()).Success?
    ensures forall i :: 0 <= i < |c.fields| ==>
      Validate(c, Dict.Empty()).value[c.fields[i].name] == c.fields[i].info.default
  {
    var e: Dict<string, Value> := Dict.Empty();
    FieldIssuesEmptyIff(c.fields, e);
    ExtraIssuesEmpty(e.keys, UsedKeys(c.fields, e));
    forall i | 0 <= i < |c.fields|
      ensures Values(c.fields, e)[c.fields[i].name] == c.fields[i].info.default
    {
      ValuesAt(c.fields, e, i);
    }
  }

  /** The property schema of one field, as `model_json_schema()` lists it
    * under "properties": default, bounds as minimum/maximum, and the
    * `AcidwatchParameter` keys merged in. */
  datatype PropertySchema = PropertySchema(kind: Kind, default: Value, minimum: Option<real>,
                                           maximum: Option<real>, extra: SchemaExtra)

  function Aliases(fields: seq<FieldDecl>): set<string>
  {
    set i | 0 <= i < |fields| :: fields[i].alias
  }

  function PropertyOf(f: FieldDecl): PropertySchema
  {
    PropertySchema(f.kind, f.info.default, f.info.ge, f.info.le, f.info.extra)
  }

  /** The properties of a parameters class, keyed by alias; a later field
    * with the same alias replaces an earlier one. */
  function Properties(fields: seq<FieldDecl>): (m: map<string, PropertySchema>)
    ensures m.Keys == Aliases(fields)
  {
    if fields == [] then map[]
    else
      var n := |fields| - 1;
      var init := fields[..n];
      assert forall i :: 0 <= i < n ==> init[i] == fields[i];
      assert Aliases(fields) == Aliases(init) + {fields[n].alias};
      Properties(init)[fields[n].alias := PropertyOf(fields[n])]
  }

  /** A field whose alias no later field shares is described by its own
    * default, bounds and `Parameter` metadata. */
  lemma {:induction false} PropertiesAt(fields: seq<FieldDecl>, i: nat)
    requires i < |fields|
    requires forall j :: i < j < |fields| ==> fields[j].alias != fields[i].alias
    ensures fields[i].alias in Properties(fields)
    ensures Properties(fields)[fields[i].alias] == PropertyOf(fields[i])
  {
    var n := |fields| - 1;
    if i < n {
      var init := fields[..n];
      assert init[i] == fields[i];
      PropertiesAt(init, i);
    }
  }

  /** `get_parameters_schema`: `{}` for an adapter without a parameters
    * class, otherwise the class's properties. */
  function ParametersSchema(hint: Option<ParamClass>): (m: map<string, PropertySchema>)
    ensures hint.None? ==> m == map[]
    ensures hint.Some? ==> m.Keys == Aliases(hint.value.fields)
    ensures hint.Some? ==> forall i :: 0 <= i < |hint.value.fields| ==> hint.value.fields[i].alias in m
  {
    if hint.None? then map[] else Properties(hint.value.fields)
  }
}
