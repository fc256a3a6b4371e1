/** The model endpoints: listing the registered models with their access
  * status, and running one model, mapping every way a run can fail to an
  * HTTP status. The same handlers appear in `routes/models.py` and `app.py`. */
module ModelRoutes {
  import opened Common
  import opened ParameterSchema
  import opened Panels
  import opened Adapters

  /** Why `get_models` raises: `_check_auth`'s `AssertionError` for an
    * adapter that requires authentication but has no scope, or the
    * `AttributeError` of reading a `category` or `description` that the
    * adapter class does not have. */
  datatype ListingFault = ScopeMissing | MissingAttribute(name: string)

  /** `_check_auth`: "Must be signed in" without a token; otherwise the
    * `error_description` of the on-behalf-of token request, which `obo`
    * stands for (given the token and the scope). */
  function CheckAuth(cls: AdapterClass, jwtToken: Option<string>, obo: (string, string) -> Option<string>)
    : (r: Result<Option<string>, ListingFault>)
    ensures jwtToken.None? ==> r == Success(Some("Must be signed in"))
    ensures jwtToken.Some? && cls.scope.None? ==> r == Failure(ScopeMissing)
    ensures jwtToken.Some? && cls.scope.Some? ==> r == Success(obo(jwtToken.value, cls.scope.value))
  {
    if jwtToken.None? then Success(Some("Must be signed in"))
    else if cls.scope.None? then Failure(ScopeMissing)
    else Success(obo(jwtToken.value, cls.scope.value))
  }

  /** One entry of the `/models` listing: the fields `ModelInfo` declares.
    * The `category` and `description` handed to it are read from the
    * adapter and then ignored, as `ModelInfo` declares no such fields. */
  datatype ModelInfo = ModelInfo(
    accessError: Option<string>,
    modelId: string,
    displayName: string,
    validSubstances: seq<string>,
    parameters: map<string, PropertySchema>)

  /** The listing entry of one adapter. Access is checked first, and only for
    * adapters that require authentication; then the keyword arguments are
    * read in order, so a missing `category` is reported before a missing
    * `description`. */
  function InfoOf(cls: AdapterClass, jwtToken: Option<string>, obo: (string, string) -> Option<string>)
    : Result<ModelInfo, ListingFault>
  {
    var access := if cls.authentication then CheckAuth(cls, jwtToken, obo) else Success(None);
    if access.Failure? then Failure(access.error)
    else if cls.category.None? then Failure(MissingAttribute("category"))
    else if cls.description.None? then Failure(MissingAttribute("description"))
    else Success(ModelInfo(access.value, cls.modelId, cls.displayName, cls.validSubstances,
                           ParametersSchema(cls.parameters)))
  }

  /** The class has the `category` and `description` the listing reads. */
  predicate HasListedAttributes(cls: AdapterClass)
  {
    cls.category.Some? && cls.description.Some?
  }

  /** What a listing entry says about access: nothing for an open model, a
    * request to sign in when no token was sent, and otherwise the identity
    * provider's verdict. */
  lemma AccessErrorRules(cls: AdapterClass, jwtToken: Option<string>, obo: (string, string) -> Option<string>)
    ensures HasListedAttributes(cls) && !cls.authentication ==> InfoOf(cls, jwtToken, obo).Success? && InfoOf(cls, jwtToken, obo).value.accessError == None
    ensures HasListedAttributes(cls) && cls.authentication && jwtToken.None? ==>
      InfoOf(cls, jwtToken, obo).Success? && InfoOf(cls, jwtToken, obo).value.accessError == Some("Must be signed in")
    ensures HasListedAttributes(cls) && cls.authentication && jwtToken.Some? && cls.scope.Some? ==>
      InfoOf(cls, jwtToken, obo).Success?
      && InfoOf(cls, jwtToken, obo).value.accessError == obo(jwtToken.value, cls.scope.value)
    ensures InfoOf(cls, jwtToken, obo).Success? ==>
      var m := InfoOf(cls, jwtToken, obo).value;
      m.modelId == cls.modelId && m.displayName == cls.displayName && m.validSubstances == cls.validSubstances
      && m.parameters == ParametersSchema(cls.parameters)
  {
  }

  /** When a listing entry cannot be built, and which error comes out: the
    * scope assertion first, then a missing `category`, then a missing
    * `description`. An adapter class declaring neither, as `ArcsAdapter`
    * does, therefore makes the entry fail. */
  lemma ListingFaultRules(cls: AdapterClass, jwtToken: Option<string>, obo: (string, string) -> Option<string>)
    ensures InfoOf(cls, jwtToken, obo).Failure? <==>
      (cls.authentication && jwtToken.Some? && cls.scope.None?) || cls.category.None? || cls.description.None?
    ensures cls.authentication && jwtToken.Some? && cls.scope.None? ==> InfoOf(cls, jwtToken, obo) == Failure(ScopeMissing)
    ensures !(cls.authentication && jwtToken.Some? && cls.scope.None?) && cls.category.None? ==>
      InfoOf(cls, jwtToken, obo) == Failure(MissingAttribute("category"))
    ensures !(cls.authentication && jwtToken.Some? && cls.scope.None?) && cls.category.Some? && cls.description.None? ==>
      InfoOf(cls, jwtToken, obo) == Failure(MissingAttribute("description"))
  {
  }

  /** `get_models`: one entry per registered adapter, in registration
    * order; the first adapter whose entry fails aborts the listing with its
    * error. */
  method GetModels(adapters: Dict<string, AdapterClass>, jwtToken: Option<string>,
                   obo: (string, string) -> Option<string>) returns (r: Result<seq<ModelInfo>, ListingFault>)
    requires adapters.Valid()
    ensures r.Failure? <==> exists i :: 0 <= i < |adapters.keys| && InfoOf(adapters.vals[adapters.keys[i]], jwtToken, obo).Failure?
    ensures r.Failure? ==> exists i :: (0 <= i < |adapters.keys|
      && InfoOf(adapters.vals[adapters.keys[i]], jwtToken, obo) == Failure(r.error)
      && forall k :: 0 <= k < i ==> InfoOf(adapters.vals[adapters.keys[k]], jwtToken, obo).Success?)
    ensures r.Success? ==> (|r.value| == |adapters.keys|
      && forall i :: 0 <= i < |adapters.keys| ==> Success(r.value[i]) == InfoOf(adapters.vals[adapters.keys[i]], jwtToken, obo))
  {
    var classes := adapters.Values();
    var models: seq<ModelInfo> := [];
    var i := 0;
    while i < |classes|
      invariant 0 <= i <= |classes|
      invariant |models| == i
      invariant forall k :: 0 <= k < i ==> Success(models[k]) == InfoOf(classes[k], jwtToken, obo)
    {
      var info := InfoOf(classes[i], jwtToken, obo);
      if info.Failure? {
        return Failure(info.error);
      }
      models := models + [info.value];
      i := i + 1;
    }
    return Success(models);
  }

  /** What the body of the run response holds. */
  datatype RunResponse = RunResponse(initialConcentrations: map<string, real>,
                                     finalConcentrations: Dict<string, real>,
                                     panels: seq<Panel>)

  /** An exception escaping `run()`: a `ValueError` (or a subclass), or any
    * other `BaseException`. `text` stands for its traceback. */
  datatype Raised = RaisedValueError(text: string) | RaisedOther(text: string)

  /** What awaiting `run()` does. */
  datatype RunOutcome = Returned(result: RunResult) | Threw(exc: Raised)

  /** An entry of `RESULTS`. */
  datatype Stored = StoredResponse(response: RunResponse) | StoredException(exc: Raised)

  /** The entry `_run_adapter` files for a run that started from `initial`. */
  function Captured(initial: map<string, real>, outcome: RunOutcome): Stored
  {
    match outcome
    case Threw(e) => StoredException(e)
    case Returned(Concentrations(c)) => StoredResponse(RunResponse(initial, c, []))
    case Returned(WithPanels(c, panels)) => StoredResponse(RunResponse(initial, c, panels))
  }

  /** Whatever shape the result has, the response pairs the initial snapshot
    * with `get_concs` and `get_metas` of the result. */
  lemma CapturedShape(initial: map<string, real>, outcome: RunOutcome)
    ensures outcome.Returned? ==>
      Captured(initial, outcome) == StoredResponse(RunResponse(initial, GetConcs(outcome.result), GetMetas(outcome.result)))
    ensures outcome.Threw? ==> Captured(initial, outcome) == StoredException(outcome.exc)
  {
  }

  /** The HTTP error bodies of `run_model`. */
  datatype ErrorBody =
    | InputErrorBody(detail: InputDetail)
    | GroupedBody(grouped: map<string, seq<ErrorMsg>>)
    | ArgsBody(args: seq<string>)
    | TracebackBody(exc: Raised)
    | FailedToCalculateBody(exc: Raised)
    | InternalServerError

  datatype HttpOutcome = Ok(response: RunResponse) | HttpError(status: int, body: ErrorBody)

  /** How the adapter constructor can end: an adapter, an `InputError`, a
    * pydantic `ValidationError`, another `ValueError`, or an exception of
    * another kind. */
  datatype CtorOutcome =
    | Constructed(adapter: Adapter)
    | CtorInputError(detail: InputDetail)
    | CtorValidationError(issues: seq<Issue>)
    | CtorValueError(args: seq<string>)
    | CtorOtherError

  /** The outcome of `BaseAdapter.__init__` itself. */
  function BaseCtor(cls: AdapterClass, concs: map<string, real>, params: Dict<string, Value>,
                    jwtToken: Option<string>): (c: CtorOutcome)
    requires params.Valid()
    ensures c.Constructed? || c.CtorInputError?
    ensures c.Constructed? <==> NewAdapter(cls, concs, params, jwtToken).Success?
  {
    var r := NewAdapter(cls, concs, params, jwtToken);
    if r.Success? then Constructed(r.value) else CtorInputError(r.error)
  }

  /** The response `run_model` sends for a filed run result. */
  function ResponseOf(s: Stored): (h: HttpOutcome)
  {
    match s
    case StoredResponse(resp) => Ok(resp)
    case StoredException(RaisedValueError(t)) => HttpError(422, TracebackBody(RaisedValueError(t)))
    case StoredException(RaisedOther(t)) => HttpError(500, FailedToCalculateBody(RaisedOther(t)))
  }

  /** A run is answered 200 exactly when it returned, 422 when it raised a
    * `ValueError`, and 500 for any other exception. */
  lemma RunStatusRules(initial: map<string, real>, outcome: RunOutcome)
    ensures ResponseOf(Captured(initial, outcome)).Ok? <==> outcome.Returned?
    ensures outcome.Threw? && outcome.exc.RaisedValueError? ==>
      ResponseOf(Captured(initial, outcome)) == HttpError(422, TracebackBody(outcome.exc))
    ensures outcome.Threw? && outcome.exc.RaisedOther? ==>
      ResponseOf(Captured(initial, outcome)) == HttpError(500, FailedToCalculateBody(outcome.exc))
    ensures outcome.Returned? ==> ResponseOf(Captured(initial, outcome)).response.initialConcentrations == initial
  {
  }

  /** The state behind the run endpoint: `RESULTS`, run id to filed entry. */
  class RunService {
    var results: map<nat, Stored>

    constructor()
      ensures results == map[]
    {
      results := map[];
    }

    /** `_run_adapter`: snapshot the adapter's concentrations, await the run
      * and file whatever happened under `runId`. */
    method RunAdapter(adapter: Adapter, runId: nat, outcome: RunOutcome)
      modifies this
      ensures results == old(results)[runId := Captured(adapter.concentrations, outcome)]
    {
      var initial := adapter.concentrations;
      match outcome {
        case Threw(e) =>
          results := results[runId := StoredException(e)];
        case Returned(result) =>
          if result.Concentrations? {
            results := results[runId := StoredResponse(RunResponse(initial, result.concs, []))];
          } else {
            results := results[runId := StoredResponse(RunResponse(initial, result.concs, result.panels))];
          }
      }
    }

    /** `run_model` where the adapter class keeps `BaseAdapter.__init__`: a
      * request the constructor rejects never reaches the model. It is
      * answered 422 with the constructor's input error, which lists the
      * invalid substances, and nothing is filed. An accepted request is run
      * and its outcome filed under `runId` and answered. */
    method RunBaseAdapter(adapters: Dict<string, AdapterClass>, modelId: string, concs: map<string, real>,
                          params: Dict<string, Value>, jwtToken: Option<string>, runId: nat,
                          run: Adapter -> RunOutcome)
      returns (h: HttpOutcome)
      requires adapters.Valid() && params.Valid()
      requires modelId in adapters.vals
      modifies this
      ensures var r := NewAdapter(adapters.vals[modelId], concs, params, jwtToken);
        r.Failure? ==> (h == HttpError(422, InputErrorBody(r.error)) && results == old(results)
          && h.body.detail.concentrations == ConcentrationErrors(adapters.vals[modelId].validSubstances, concs))
      ensures var r := NewAdapter(adapters.vals[modelId], concs, params, jwtToken);
        r.Success? ==>
          var s := Captured(r.value.concentrations, run(r.value));
          results == old(results)[runId := s] && h == ResponseOf(s)
    {
      h := RunModel(adapters, modelId, cls => BaseCtor(cls, concs, params, jwtToken), runId, run);
    }

    /** `run_model`: look the model up, construct the adapter (`construct`
      * stands for calling the adapter class with the request), run it under
      * the fresh id `runId` (`run` stands for its `run()`), and answer. */
    method RunModel(adapters: Dict<string, AdapterClass>, modelId: string,
                    construct: AdapterClass -> CtorOutcome, runId: nat, run: Adapter -> RunOutcome)
      returns (h: HttpOutcome)
      requires adapters.Valid()
      modifies this
      ensures modelId !in adapters.vals ==> h == HttpError(500, InternalServerError) && results == old(results)
      ensures modelId in adapters.vals ==>
        var c := construct(adapters.vals[modelId]);
        (c.CtorInputError? ==> h == HttpError(422, InputErrorBody(c.detail)) && results == old(results))
        && (c.CtorValidationError? ==> h == HttpError(422, GroupedBody(GroupByLocation(c.issues))) && results == old(results))
        && (c.CtorValueError? ==> h == HttpError(422, ArgsBody(c.args)) && results == old(results))
        && (c.CtorOtherError? ==> h == HttpError(500, InternalServerError) && results == old(results))
        && (c.Constructed? ==>
              var s := Captured(c.adapter.concentrations, run(c.adapter));
              results == old(results)[runId := s] && h == ResponseOf(s))
    {
      if modelId !in adapters.vals {
        return HttpError(500, InternalServerError);
      }
      var c := construct(adapters.vals[modelId]);
      match c {
        case CtorInputError(detail) =>
          return HttpError(422, InputErrorBody(detail));
        case CtorValidationError(issues) =>
          var grouped := GroupIssues(issues);
          return HttpError(422, GroupedBody(grouped));
        case CtorValueError(args) =>
          return HttpError(422, ArgsBody(args));
        case CtorOtherError =>
          return HttpError(500, InternalServerError);
        case Constructed(adapter) =>
          RunAdapter(adapter, runId, run(adapter));
          var filed := results[runId];
          match filed {
            case StoredException(RaisedValueError(t)) =>
              return HttpError(422, TracebackBody(filed.exc));
            case StoredException(RaisedOther(t)) =>
              return HttpError(500, FailedToCalculateBody(filed.exc));
            case StoredResponse(resp) =>
              return Ok(resp);
          }
      }
    }
  }

}
