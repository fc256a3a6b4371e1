# AcidWatch core, modelled in Dafny

AcidWatch predicts how impurities react in dense CO2 streams. A FastAPI
backend hosts a registry of model adapters. Each adapter declares the
substances it accepts and an optional Pydantic parameters class.

On the backend the project models how the registry and its requests work:
- it validates an adapter's concentrations and parameters, and groups the
  validation errors by location;
- it lists the models with their access errors;
- it runs a model and maps the adapter's outcome to an HTTP answer;
- it provides the legacy form and result conversions;
- it keeps the in-memory project, scenario and result store;
- it parses the PHPITZ text output;
- the experiment tool snaps temperatures and pressures to a grid.

The formula grammar that the adapter test suite checks every substance
against is modelled too.

The React frontend has pure helpers and small stores, also modelled here:
- filtering models and substances;
- subscripts, tables, panel names and the save button;
- status counts, the comparison page and the mass-balance checks;
- the simulation history kept in `localStorage`;
- the settings and temperature units;
- the concentration, model-input, breadcrumb and model-selection stores;
- the convertible text field.

Pure code becomes datatypes, functions and lemmas. Code that mutates things
becomes classes:
- the adapter registry;
- the run service and its result cache;
- the local database;
- `ContextStore` and the history provider;
- the Zustand stores;
- the unit cache and the settings provider;
- the text field.

Their methods state the whole new state. Dictionaries whose insertion order
shows up (`localStorage`, Python dicts that become JSON, chart series) are
`Common.Dict`, a key sequence plus a map.

Some behaviours become parameters:
- `localStorage`, clocks and `uuid4` are inputs;
- JSON parsing and zod validation are a decoder function;
- Python's `float()` is a function from text to an optional real;
- number printing (`toString`, `toPrecision`) is a function argument;
- an adapter's `run` is its outcome, either a result or an exception.

Where the code and the written design disagree, the model follows the code:
- `BaseAdapter` derives no `choices` from an `Enum` default. Only an
  explicit `choices` list is checked (`models/base.py:141-168`).
- `ModelInfo` declares no category or description, so the descriptor of
  `GET /models` has neither (`models/datamodel.py:24-35`). `get_models` still
  reads both from every adapter class. `BaseAdapter` declares no `category`
  and gives `description` no value (`models/base.py:261-268`), so an adapter
  class without either makes the whole listing raise `AttributeError`
  (`routes/models.py:49-58`). `ArcsAdapter` defines neither.
- A validation failure always carries a `parameters` entry, even when it is
  empty (`models/base.py:226-229`).
- The legacy form configuration turns a parameter whose `unit` is JSON
  `null` into the meta text `"None"`, as Python's `str(None)` does
  (`_legacy.py:38`).

## Model

| member | source | states |
|---|---|---|
| ParameterSchema.Parameter | backend/src/acidwatch_api/models/base.py:88-118 | The field info of a declared parameter. It carries the default and the bounds. Its extra holds the label, description and choices. A convertible unit goes to `convertibleUnit`, a text unit to `unit`, and no unit leaves both empty. |
| ParameterSchema.DefineParameters | backend/src/acidwatch_api/models/base.py:121-139 | Defining a parameters class succeeds exactly when every field was made by `Parameter`. Otherwise the first offending field names the error: a missing `type` key or not a parameter. A defined class gives every field the alias `to_camel` makes of its name. |
| ParameterSchema.ParameterFieldsAccepted | backend/src/acidwatch_api/models/base.py:129-139 | A class whose fields all come from `Parameter` is accepted, its fields unchanged but for their generated aliases. |
| ParameterSchema.SnakeFieldAlias | backend/src/acidwatch_api/models/base.py:121-123 | In a defined class, a field named in snake_case words answers to the first word followed by the others capitalised (`max_iter` to `maxIter`). |
| AliasGenerator.ToCamel | backend/src/acidwatch_api/models/base.py:23 | `to_camel` keeps a name that is already camelCase. The alias is never longer than the name. |
| AliasGenerator.SnakeToCamel | backend/src/acidwatch_api/models/base.py:121-123 | Lower-case words joined by `_` become the first word followed by the others capitalised. |
| AliasGenerator.SnakeSplit | backend/src/acidwatch_api/models/base.py:121-123 | A name of two or more snake_case words is not camelCase, so it takes the conversion path. |
| AliasGenerator.WordIsCamel | backend/src/acidwatch_api/models/base.py:121-123 | A single lower-case word is camelCase and is its own alias. |
| AliasGenerator.EosAlias | backend/src/acidwatch_api/models/base.py:121-123 | An all-capital name is title-cased and its first letter lowered: `EOS` becomes `eos`. |
| AliasGenerator.DigitLetterAlias | backend/src/acidwatch_api/models/base.py:121-123 | A letter after a digit starts a new capitalised word and the `_` before a capital is dropped: `h2o_ppm` becomes `h2OPpm`. |
| ParameterSchema.UsedKey | backend/src/acidwatch_api/models/base.py:121-127 | Input is read under the field's generated alias first, then under the field name. No key is used exactly when neither is present. |
| ParameterSchema.Coerce | backend/src/acidwatch_api/models/base.py:88-118 | A successful coercion equals its input under Python equality. A numeric kind yields an int or a float. |
| ParameterSchema.ValidateFieldMeaning | backend/src/acidwatch_api/models/base.py:141-168 | A field value is accepted only when it coerces, lies within `le`/`ge` and is one of the choices. Each failure names the violated constraint. |
| ParameterSchema.FieldIssues | backend/src/acidwatch_api/models/base.py:210-224 | Every field error is located at the key the value was read from. |
| ParameterSchema.UsedKeys | backend/src/acidwatch_api/models/base.py:121-127 | The consumed keys are exactly the keys some field read. |
| ParameterSchema.ExtraIssues | backend/src/acidwatch_api/models/base.py:121-127 | Each unconsumed input key gets exactly one "extra forbidden" error, located at that key. |
| ParameterSchema.ValuesAt | backend/src/acidwatch_api/models/base.py:210-224 | The validated value of each field is its field result. |
| ParameterSchema.Validate | backend/src/acidwatch_api/models/base.py:210-224 | A failure is non-empty. It lists the field errors, then the extra-key errors. |
| ParameterSchema.ValidateSucceedsIff | backend/src/acidwatch_api/models/base.py:210-224 | Validation succeeds iff every supplied field is valid and every input key was consumed. |
| ParameterSchema.FieldIssuesEmptyIff | backend/src/acidwatch_api/models/base.py:210-224 | There are no field errors iff every supplied field value validates. |
| ParameterSchema.UnknownKeyRejected | backend/src/acidwatch_api/models/base.py:121-127 | A key that is neither a field name nor a field's generated alias makes validation fail with an "extra forbidden" error at that key. |
| ParameterSchema.AliasOrNameAgree | backend/src/acidwatch_api/models/base.py:121-127 | A value given under the alias validates exactly as under the field name, with the same result. |
| ParameterSchema.EmptyInputGivesDefaults | backend/src/acidwatch_api/models/base.py:200-209 | An empty parameter input validates to every field's default. |
| ParameterSchema.Properties | backend/src/acidwatch_api/models/base.py:171-183 | The schema's properties are keyed by the fields' aliases. |
| ParameterSchema.PropertiesAt | backend/src/acidwatch_api/models/base.py:171-183 | The property under a field's alias describes that field, when no later field shares the alias. |
| ParameterSchema.ParametersSchema | backend/src/acidwatch_api/models/base.py:171-183 | An adapter without parameters has an empty schema. Otherwise there is one property per alias. |
| Adapters.ConcsAndMetasRebuildResult | backend/src/acidwatch_api/models/base.py:60-69 | `get_concs` and `get_metas` split a result losslessly. A bare concentration result has no panels. |
| Adapters.CheckDecl | backend/src/acidwatch_api/models/base.py:237-260 | A subclass declaration fails iff `parameters` is unannotated but set, or annotated with a non-`BaseParameters` class. Otherwise it keeps the id, display name, description, category, substances, authentication and scope, and has parameters iff hinted. |
| Adapters.Registry.constructor | backend/src/acidwatch_api/models/base.py:237-260 | The registry starts empty. |
| Adapters.Registry.Register | backend/src/acidwatch_api/models/base.py:237-260 | A rejected declaration leaves the registry unchanged, and so does a duplicate model id, which fails. A new valid adapter is appended under its id. |
| Adapters.GroupByLocation | backend/src/acidwatch_api/models/base.py:214-217 | The grouped errors are keyed by exactly the error locations. |
| Adapters.GroupIssues | backend/src/acidwatch_api/models/base.py:214-217 | The loop that groups the errors computes the grouping by location. |
| Adapters.ConcentrationErrors | backend/src/acidwatch_api/models/base.py:193-197 | The substances in error are exactly those not valid for the adapter, each with one "extra forbidden" message. |
| Adapters.NewAdapter | backend/src/acidwatch_api/models/base.py:187-235 | Construction succeeds iff every substance is valid and the parameters validate. Without parameters, "validate" means none were given. On success the concentrations are normalised over the valid substances. On failure the concentration errors and the grouped parameter errors are reported. |
| Adapters.NormalisedConcentrations | backend/src/acidwatch_api/models/base.py:231-235 | Given substances keep their value. Valid substances not given are 0. |
| ModelRoutes.CheckAuth | backend/src/acidwatch_api/routes/models.py:31-37 | Without a token the access error is "Must be signed in". A token with no scope is a server error. Otherwise the on-behalf-of exchange decides. |
| ModelRoutes.AccessErrorRules | backend/src/acidwatch_api/app.py:59-88 | For an adapter class with a category and a description: anonymous models have no access error, and protected models report the sign-in or exchange error. The descriptor keeps the id, the display name, the substances and the parameter schema. |
| ModelRoutes.ListingFaultRules | backend/src/acidwatch_api/routes/models.py:46-58 | An entry fails iff the scope assertion fails or the class lacks `category` or `description`. The error is the scope assertion first, then the missing `category`, then the missing `description`. |
| ModelRoutes.GetModels | backend/src/acidwatch_api/routes/models.py:40-60 | One descriptor per registered adapter, in registry order. The listing fails iff some adapter's entry does, and then with the error of the first failing adapter. |
| ModelRoutes.CapturedShape | backend/src/acidwatch_api/app.py:140-157 | A returned result is stored with the initial concentrations, its final concentrations and its panels. A raised exception is stored as such. |
| ModelRoutes.BaseCtor | backend/src/acidwatch_api/routes/models.py:94-101 | The adapter constructor succeeds exactly when `NewAdapter` does. Otherwise it raises the input error. |
| ModelRoutes.RunStatusRules | backend/src/acidwatch_api/app.py:186-198 | A returned result gives 200 with the initial concentrations. A `ValueError` gives 422 with the traceback. Any other exception gives 500. |
| ModelRoutes.RunService.constructor | backend/src/acidwatch_api/routes/models.py:66-83 | The result cache starts empty. |
| ModelRoutes.RunService.RunAdapter | backend/src/acidwatch_api/routes/models.py:66-83 | The cache gains exactly the captured outcome under the run id. |
| ModelRoutes.RunService.RunModel | backend/src/acidwatch_api/routes/models.py:86-124 | An unknown model gives 500. Each constructor error gives 422 with its own body, and the cache is unchanged. A constructed adapter is run, and its outcome is cached and answered. |
| ModelRoutes.RunService.RunBaseAdapter | backend/src/acidwatch_api/routes/models.py:94-124 | With `BaseAdapter`'s own constructor, a request whose concentrations or parameters are rejected is answered 422 with the input error, which lists the invalid substances, and nothing is cached. An accepted request is run, and its outcome is cached under the run id and answered. |
| LabData.Collect | backend/src/acidwatch_api/routes/oasis.py:34-61 | The collected species dictionary is well formed. |
| LabData.CollectKeys | backend/src/acidwatch_api/routes/oasis.py:34-61 | Its keys are exactly the upper-cased species of the samples. |
| LabData.CollectLastWins | backend/src/acidwatch_api/routes/oasis.py:34-61 | Under a colliding upper-case name, the last sample's value wins. |
| LabData.ItemRows | backend/src/acidwatch_api/routes/oasis.py:34-61 | One row per experiment step of an item. |
| LabData.FormatLabData | backend/src/acidwatch_api/routes/oasis.py:34-61 | The loop builds exactly the rows of every item, in order. |
| LabData.RowsConcat | backend/src/acidwatch_api/routes/oasis.py:34-61 | The rows of two responses together are the rows of each, concatenated. |
| LabData.RowsOfOneItem | backend/src/acidwatch_api/routes/oasis.py:34-61 | A single item contributes its own rows. |
| LabData.RowContents | backend/src/acidwatch_api/app.py:107-134 | Each row carries its item's name, time, pressure, temperature and step, and its collected species. |
| Legacy.SubstanceInputRules | backend/src/acidwatch_api/_legacy.py:11-33 | A substance input is enabled iff the substance has a default. An undefaulted substance starts at 0. Examples are H2S and CO2. |
| Legacy.MetaRules | backend/src/acidwatch_api/_legacy.py:35-46 | The meta text is the unit, `"None"` for a null unit, the custom unit without a unit, and otherwise empty. |
| Legacy.FirstMissing | backend/src/acidwatch_api/_legacy.py:35-46 | It finds the first parameter without a `default`. |
| Legacy.FormConfigOf | backend/src/acidwatch_api/_legacy.py:20-51 | A model's form configuration succeeds iff every parameter has a default. Otherwise the `KeyError` names the first one without. |
| Legacy.FormConfigContents | backend/src/acidwatch_api/_legacy.py:20-51 | Its inputs are exactly the valid substances. Its settings keep parameter order, default, meta, minimum and maximum. `unavailable` is the access error. |
| Legacy.Gather | backend/src/acidwatch_api/_legacy.py:20-51 | The gathered dictionary is well formed. |
| Legacy.GatherSucceeds | backend/src/acidwatch_api/_legacy.py:20-51 | Gathering succeeds iff every form does, and fails with the first failure. |
| Legacy.GatherKeys | backend/src/acidwatch_api/_legacy.py:20-51 | Its keys are the model ids. |
| Legacy.GatherLastWins | backend/src/acidwatch_api/_legacy.py:20-51 | A repeated model id keeps its last form. |
| Legacy.FormConfigsSucceed | backend/src/acidwatch_api/_legacy.py:20-51 | The conversion of all models succeeds iff every model has defaults. Otherwise it fails with the first model's error. |
| Legacy.FormConfigsEntries | backend/src/acidwatch_api/_legacy.py:20-51 | Entries are keyed by model id. The last model under an id provides its form. |
| Legacy.ToPpm | backend/src/acidwatch_api/_legacy.py:100-101 | Converting to ppm keeps the keys in order. |
| Legacy.ToPpmValues | backend/src/acidwatch_api/_legacy.py:100-101 | Each value is multiplied by 10^6, and zero stays zero. |
| Legacy.Change | backend/src/acidwatch_api/_legacy.py:59 | The change has the final concentrations' keys, in order. |
| Legacy.DropVanished | backend/src/acidwatch_api/_legacy.py:64-68 | The loop deletes exactly the vanished substances from initial, final and change. |
| Legacy.ScanForTable | backend/src/acidwatch_api/_legacy.py:71-76 | The loop finds the first JSON panel that has a `table` entry. |
| Legacy.FirstTableIsFirst | backend/src/acidwatch_api/_legacy.py:71-76 | A panel that has a table, with none before it, is the one found. |
| Legacy.ResultToSimulationResults | backend/src/acidwatch_api/_legacy.py:54-97 | Initial, final and change are in ppm without the vanished substances. The component names are the upper-cased keys of the change, and the values are in the same order. The table data comes from the first table panel. |
| Legacy.VanishedMeaning | backend/src/acidwatch_api/_legacy.py:64-68 | A substance vanishes iff it is zero both initially and finally. |
| Legacy.ChangeMeaning | backend/src/acidwatch_api/_legacy.py:59-62 | The change in ppm is final minus initial, with a missing initial counted as 0. |
| LocalStore.ValuesWhere | backend/src/acidwatch_api/local_db.py:12-17 | The filtered values are exactly the stored values that satisfy the predicate. |
| LocalStore.LocalDB.constructor | backend/src/acidwatch_api/local_db.py:2-5 | All three tables start empty. |
| LocalStore.LocalDB.InitProject | backend/src/acidwatch_api/local_db.py:7-10 | The project is stored under its id and returned. The other tables are unchanged. |
| LocalStore.LocalDB.ProjectsWithAccess | backend/src/acidwatch_api/local_db.py:12-17 | The answer is exactly the projects whose access ids include the user. |
| LocalStore.LocalDB.DeleteProject | backend/src/acidwatch_api/local_db.py:19-26 | Only the owner deletes. Otherwise nothing changes. |
| LocalStore.LocalDB.SwitchProjectPublicity | backend/src/acidwatch_api/local_db.py:28-33 | A missing project gives nothing. A non-owner gets the project unchanged. The owner flips `isPublic` and the flipped project is stored. |
| LocalStore.LocalDB.UpsertScenario | backend/src/acidwatch_api/local_db.py:51-54 | The scenario is stored under its id and returned. |
| LocalStore.LocalDB.FetchScenarioAndValidateUser | backend/src/acidwatch_api/local_db.py:40-44 | A scenario is returned iff it exists and the user owns it. |
| LocalStore.LocalDB.DeleteScenario | backend/src/acidwatch_api/local_db.py:46-49 | It is deleted iff the fetch-and-validate succeeds. |
| LocalStore.LocalDB.ScenariosOfProject | backend/src/acidwatch_api/local_db.py:56-61 | The answer is exactly the scenarios of the project. |
| LocalStore.LocalDB.GetResult | backend/src/acidwatch_api/local_db.py:63-64 | A result is returned iff it is stored. |
| LocalStore.LocalDB.DeleteResult | backend/src/acidwatch_api/local_db.py:66-70 | A stored result is deleted and its id returned. A missing one changes nothing. |
| LocalStore.LocalDB.ResultsOfScenario | backend/src/acidwatch_api/local_db.py:72-77 | The answer is exactly the results of the scenario. |
| LocalStore.LocalDB.UpsertResult | backend/src/acidwatch_api/local_db.py:79-82 | The result is stored under its id and returned. |
| LocalStore.LocalDB.DeleteResultsOfScenario | backend/src/acidwatch_api/local_db.py:86-93 | Exactly the scenario's results are removed. |
| LocalStore.IdsOfScenario | backend/src/acidwatch_api/local_db.py:86-93 | The ids collected by the loop are the scenario's results. |
| LocalStore.ModelScenarioNeverValidated | backend/src/acidwatch_api/local_db.py:40-44 | A scenario without an owner is never returned. |
| LocalStore.ResultsOfScenarioGone | backend/src/acidwatch_api/local_db.py:86-93 | After the deletion a result remains iff it belongs to another scenario. |
| Phpitz.ParsePhpitzSimple | backend/src/acidwatch_api/models/phpitz.py:77-114 | The loop parses the newline-split text line by line. |
| Phpitz.ParseLines | backend/src/acidwatch_api/models/phpitz.py:77-114 | A successful parse yields a well-formed dictionary. |
| Phpitz.LineRules | backend/src/acidwatch_api/models/phpitz.py:88-96 | Empty, dashed and header lines are skipped. Other lines are split into words. |
| Phpitz.PartsRules | backend/src/acidwatch_api/models/phpitz.py:98-112 | Fewer than five words are skipped. Otherwise the entry holds the four numbers, the first three with `E+`/`E-` rewritten, and it is bad iff one fails to parse. |
| Phpitz.OneBad | backend/src/acidwatch_api/models/phpitz.py:98-112 | One unparsable number fails the whole parse. |
| Phpitz.ParseLinesKeys | backend/src/acidwatch_api/models/phpitz.py:77-114 | The components are exactly those of the parsed lines. |
| Phpitz.ParseLinesLastWins | backend/src/acidwatch_api/models/phpitz.py:77-114 | A repeated component keeps its last line. |
| Phpitz.ParseLinesFails | backend/src/acidwatch_api/models/phpitz.py:77-114 | The parse fails iff some line has an unparsable number. |
| Phpitz.RewriteRemovesUpperExponents | backend/src/acidwatch_api/models/phpitz.py:102-110 | No `E+` or `E-` is left after the rewrite. |
| Phpitz.RewriteKeepsOthers | backend/src/acidwatch_api/models/phpitz.py:102-110 | Text without them is unchanged. |
| Phpitz.SectionCases | backend/src/acidwatch_api/models/phpitz.py:69-74 | The run section lies between `FINISH` and the blank-line marker, following Python slicing when a marker is missing. |
| ArcsTool.SnapNearest | backend/tools/run_arcs_from_experiments.py:49-55 | The snapped value is at least as close as every grid point. |
| ArcsTool.SnapMember | backend/tools/run_arcs_from_experiments.py:49-55 | The snapped value is a grid point. |
| ArcsTool.SnapTieEarlier | backend/tools/run_arcs_from_experiments.py:49-55 | On a tie, the earlier grid point wins. |
| ArcsTool.SnapTempTie | backend/tools/run_arcs_from_experiments.py:49-51 | 275 K snaps to 250 K. |
| ArcsTool.AllConcs | backend/tools/run_arcs_from_experiments.py:60-85 | The concentration table lists the known substances, with zero for absent ones. |
| ArcsTool.UpdateKeys | backend/tools/run_arcs_from_experiments.py:86-87 | Updating with the experiment's inputs adds exactly their keys. |
| ArcsTool.UpdateValue | backend/tools/run_arcs_from_experiments.py:86-87 | An input's value replaces the table's. |
| ArcsTool.UpdateKeepsOrder | backend/tools/run_arcs_from_experiments.py:86-87 | Existing keys keep their position. |
| ArcsTool.RequestContents | backend/tools/run_arcs_from_experiments.py:57-106 | The settings are the experiment's temperature plus 273 and its pressure as given, with sample length 5000. The concentrations start with all 24 default species, zeros included. A species has a value iff it is a default or an `In_` key names it; its value is that key's cleaned value, and 0 otherwise. |
| FormulaGrammar.Scan | backend/tests/models/test_all_adapters.py:35-45 | The scanner takes the first token that matches, in pattern order. |
| FormulaGrammar.ScanSpec | backend/tests/models/test_all_adapters.py:7-45 | An atom token is an element symbol followed by digits. |
| FormulaGrammar.TokenizeSpells | backend/tests/models/test_all_adapters.py:35-45 | The tokens spell the substance back. |
| FormulaGrammar.AtomsAreElements | backend/tests/models/test_all_adapters.py:7-32 | Every atom token names a chemical element. |
| FormulaGrammar.FirstFault | backend/tests/models/test_all_adapters.py:48-69 | The scan stops at the first faulty token. |
| FormulaGrammar.AssertIsValidSubstance | backend/tests/models/test_all_adapters.py:48-69 | The checking loop computes the substance's verdict. |
| FormulaGrammar.AcceptedMeaning | backend/tests/models/test_all_adapters.py:48-69 | A substance is accepted iff it is non-empty, has atoms and valid multipliers, ends balanced, and contains no invalid token. |
| FormulaGrammar.AcceptedExamples | backend/tests/models/test_all_adapters.py:72-81 | The listed good formulas are accepted. |
| FormulaGrammar.AcceptedGroupExample | backend/tests/models/test_all_adapters.py:72-81 | A parenthesised group with a multiplier is accepted. |
| FormulaGrammar.ZeroMultiplierExample | backend/tests/models/test_all_adapters.py:84-98 | A zero multiplier is rejected. |
| FormulaGrammar.MissingMultiplierExample | backend/tests/models/test_all_adapters.py:84-98 | A group without a multiplier is rejected. |
| FormulaGrammar.RejectedExamples | backend/tests/models/test_all_adapters.py:84-98 | `""`, `H0`, `water` and `1234` are rejected, each for its reason. |
| FormulaGrammar.UnclosedExample | backend/tests/models/test_all_adapters.py:84-98 | An unclosed group is rejected. |
| FormulaGrammar.ClosingFirstAccepted | backend/tests/models/test_all_adapters.py:48-69 | As written, `)2(` is accepted. |
| FormulaGrammar.CorrectedMeaning | backend/tests/models/test_all_adapters.py:48-69 | The corrected check accepts iff the as-written one does and the depth never goes below zero. |
| FormulaGrammar.ClosingFirstRejected | backend/tests/models/test_all_adapters.py:48-69 | The corrected check rejects `)2(`. |
| FormulaGrammar.CheckInitConcs | backend/tests/models/test_all_adapters.py:106-112 | All substances pass iff none is CO2 and each is a valid formula. Otherwise the first failing index and its reason are reported. |
| FormulaGrammar.SolventIsWellFormed | backend/tests/models/test_all_adapters.py:106-112 | CO2 is a valid formula, yet it is refused as a listed substance. |
| Filtering.FilterValidModels | frontend/src/functions/Filtering.ts:4-11 | Only primary models from the input survive. |
| Filtering.FilterValidModelsMeaning | frontend/src/functions/Filtering.tsx:4-11 | A model is kept iff it is primary and accepts every non-zero starting substance. The order is kept. |
| Filtering.CoversMeaning | frontend/src/functions/Filtering.ts:4-11 | A model covers the start iff it accepts every substance with a non-zero concentration. |
| Filtering.AllZeroKeepsPrimary | frontend/src/functions/Filtering.ts:4-11 | With all concentrations zero, every primary model is kept. |
| Filtering.FilterValidModelsExample | frontend/tests/functions/Filtering.test.tsx:87-119 | The second and fourth test models are kept. |
| Filtering.ValidParametersForSecondaryModel | frontend/src/functions/Filtering.ts:13-19 | Exactly the parameters the secondary model accepts are kept, in order. Missing input gives an empty result. |
| Filtering.UsableKeys | frontend/src/functions/Filtering.ts:21-37 | A key is usable iff it is valid for the model and has a defined value. |
| Filtering.FilterInvalidMeaning | frontend/src/functions/Filtering.ts:21-37 | Exactly the valid, defined substances are kept, in order, with their values. |
| Filtering.NoValidSubstancesKeepsNothing | frontend/src/functions/Filtering.ts:21-37 | Without a valid-substance list nothing is kept. |
| Filtering.PresentAcids | frontend/src/functions/Filtering.ts:39-52 | The acids present are found in HNO3, H2SO4 order. |
| Filtering.AcidFilterMeaning | frontend/src/functions/Filtering.ts:39-52 | When both acids are present, the one with the lower concentration is dropped, and HNO3 wins a tie. Otherwise nothing changes. |
| History.KeyIndexOfIndexKey | frontend/src/hooks/useSimulationHistory.ts:23-24 | A `simulation[N]` key reads back as N. |
| History.Bump | frontend/src/hooks/useSimulationHistory.ts:26-27 | The next index passes the index read and never decreases. |
| History.ScanNextIndex | frontend/src/hooks/useSimulationHistory.ts:17-46 | The next index exceeds every history key's index and is either the start or one past some key. |
| History.ScanEntries | frontend/src/hooks/useSimulationHistory.ts:29-36 | The entries are exactly those that decode under history keys. |
| History.ScanRejected | frontend/src/hooks/useSimulationHistory.ts:29-36 | The rejected keys are exactly those whose value fails validation. |
| History.InsertByCreated | frontend/src/hooks/useSimulationHistory.ts:40 | Insertion keeps the list sorted and adds the entry. |
| History.SortByCreated | frontend/src/hooks/useSimulationHistory.ts:40 | The entries are sorted by creation date and are a permutation of the input. |
| History.GetFromStorage | frontend/src/hooks/useSimulationHistory.ts:17-46 | Rejected keys are removed from storage. The context holds the sorted entries and the next index, or nothing when parsing threw. |
| History.ScanStorage | frontend/src/hooks/useSimulationHistory.ts:20-37 | The loop visits the keys in storage order and ends in the scan's state: the entries, the next index, the rejected keys and whether parsing threw. Storage loses exactly the rejected keys. |
| History.VisitKey | frontend/src/hooks/useSimulationHistory.ts:21-38 | One loop step advances the scan and removes a key only if it was rejected. |
| History.FirstUnfinished | frontend/src/hooks/useSimulationHistory.ts:78-89 | It finds the first unfinished entry with the id, or reports that there is none. |
| History.ContextStore.constructor | frontend/src/hooks/useSimulationHistory.ts:54-59 | The store holds the context's entries and next index, and no listeners. |
| History.ContextStore.AddEntry | frontend/src/hooks/useSimulationHistory.ts:65-76 | The entry is appended under the next index and stored. The index increments and every listener is called. Indices stay unique. |
| History.ContextStore.FinalizeEntry | frontend/src/hooks/useSimulationHistory.ts:78-89 | The first unfinished entry with the id gets its finish time, is stored, and the listeners are called. Without one nothing changes. |
| History.ContextStore.Subscribe | frontend/src/hooks/useSimulationHistory.ts:91-94 | A listener is added once. |
| History.ContextStore.Unsubscribe | frontend/src/hooks/useSimulationHistory.ts:91-94 | The returned callback removes it. |
| History.SubscribeThenUnsubscribe | frontend/src/hooks/useSimulationHistory.ts:91-94 | Subscribing and then unsubscribing restores the listeners. |
| History.UnrelatedKeysIgnored | frontend/tests/hooks/useSimulationHistory.test.ts:11-13 | Keys that are not history keys change nothing. |
| History.ScanExample | frontend/tests/hooks/useSimulationHistory.test.ts:88-119 | Keys 1, 5 and 10, visited in that order, give three entries and next index 11. |
| History.ScanOrderExample | frontend/tests/hooks/useSimulationHistory.test.ts:62-86 | Keys 10 then 1 give both entries in visiting order and next index 11, the largest index plus one, although the larger key comes first. |
| History.SortExample | frontend/tests/hooks/useSimulationHistory.test.ts:88-120 | Entries come out oldest first. |
| History.NotJsonThrows | frontend/src/hooks/useSimulationHistory.ts:29-36 | As written, a history key holding non-JSON text makes the read throw. |
| History.LenientNeverThrows | frontend/src/hooks/useSimulationHistory.ts:29-36 | The lenient read never throws. |
| History.LenientRejects | frontend/src/hooks/useSimulationHistory.ts:29-36 | It rejects exactly the history keys whose value is not a valid entry. |
| History.FromStorageAsWritten | frontend/src/hooks/useSimulationHistory.ts:61-63 | As written, building the store throws exactly when the scan meets stored text that is not JSON, and the keys deleted before that stay deleted. Otherwise a fresh store holds the sorted entries and the next index. |
| History.FromStorage | frontend/src/hooks/useSimulationHistory.ts:61-63 | The corrected build, reading leniently: a fresh store is always built from the sorted entries, and storage loses every rejected key, including text that is not JSON. |
| HistoryContext.ReadHistory | frontend/src/contexts/SimulationHistoryContext.ts:18-32 | Missing, empty or corrupted storage gives an empty history. Otherwise the history is the parsed list. |
| HistoryContext.Added | frontend/src/contexts/SimulationHistoryContext.ts:45-62 | The new item comes first, followed by the earlier items with other ids, capped at 10. |
| HistoryContext.AddedKeepsNewest | frontend/tests/components/SimulationHistory.test.tsx:25-35 | With new ids, the newest 10 are kept. |
| HistoryContext.AddedUniqueIds | frontend/src/contexts/SimulationHistoryContext.ts:54 | Ids stay unique. |
| HistoryContext.AddedTwice | frontend/tests/components/SimulationHistory.test.tsx:37-47 | Adding the same simulation twice keeps one item. |
| HistoryContext.ReadSaved | frontend/src/contexts/SimulationHistoryContext.ts:18-36 | Saved history reads back unchanged. |
| HistoryContext.HistoryProvider.constructor | frontend/src/contexts/SimulationHistoryContext.ts:39 | The provider starts with an empty history. |
| HistoryContext.HistoryProvider.Load | frontend/src/contexts/SimulationHistoryContext.ts:41-43 | The provider loads the stored history. |
| HistoryContext.HistoryProvider.AddSimulation | frontend/src/contexts/SimulationHistoryContext.ts:45-62 | The history becomes `Added` and is saved. |
| ConcentrationsStore.DefaultsValid | frontend/src/hooks/useConcentrationsStore.ts:3-9 | The default concentrations are a well-formed dictionary. |
| ConcentrationsStore.Store.constructor | frontend/src/hooks/useConcentrationsStore.ts:17-18 | The store starts at the defaults. |
| ConcentrationsStore.Store.SetConcentration | frontend/src/hooks/useConcentrationsStore.ts:20-21 | One substance is set and the others are unchanged. |
| ConcentrationsStore.Store.Reset | frontend/src/hooks/useConcentrationsStore.ts:23-26 | Reset sets the given concentrations, or the defaults. |
| ModelInputStore.Accepted | frontend/src/hooks/useModelInputStore.ts:12-14 | Exactly the keys the model accepts are kept, with their values. |
| ModelInputStore.ConcentrationDefaults | frontend/src/hooks/useModelInputStore.ts:12-14 | The defaults are restricted to the model's substances. |
| ModelInputStore.ConcentrationDefaultsIsSelect | frontend/src/hooks/useModelInputStore.ts:12-14 | The restriction keeps the defaults' order. |
| ModelInputStore.ParameterDefaults | frontend/src/hooks/useModelInputStore.ts:16-18 | Each parameter gets its default, in declaration order. |
| ModelInputStore.AllAcceptedKeepsDefaults | frontend/src/hooks/useModelInputStore.ts:12-14 | A model that accepts every default substance gets all the defaults. |
| ModelInputStore.Store.constructor | frontend/src/hooks/useModelInputStore.ts:29-33 | The store starts at the model's defaults. |
| ModelInputStore.Store.SetConcentration | frontend/src/hooks/useModelInputStore.ts:34-35 | One concentration is set and the rest are unchanged. |
| ModelInputStore.Store.SetParameter | frontend/src/hooks/useModelInputStore.ts:37 | One parameter is set and the rest are unchanged. |
| ModelInputStore.Store.Reset | frontend/src/hooks/useModelInputStore.ts:39-45 | Reset takes the given state, or returns to the defaults. |
| ModelInputStore.StoreCache.constructor | frontend/src/hooks/useModelInputStore.ts:48-55 | The cache starts empty. |
| ModelInputStore.StoreCache.GetModelInputStore | frontend/src/hooks/useModelInputStore.ts:48-55 | One store per model id. An existing store is returned unchanged. |
| ModelInputStore.StoreCache.SameIdSameStore | frontend/src/hooks/useModelInputStore.ts:48-55 | Two lookups with the same id give the same store, built for the first model. |
| BreadcrumbStore.Store.constructor | frontend/src/hooks/useBreadcrumbStore.ts:12-13 | Both names start empty. |
| BreadcrumbStore.Store.SetProject | frontend/src/hooks/useBreadcrumbStore.ts:14 | Only the project name changes. |
| BreadcrumbStore.Store.SetSimulation | frontend/src/hooks/useBreadcrumbStore.ts:15 | Only the simulation name changes. |
| BreadcrumbStore.Store.ClearAll | frontend/src/hooks/useBreadcrumbStore.ts:16-20 | Both names are cleared. |
| ModelSelection.Defined | frontend/src/hooks/useModelSelection.ts:16-18 | The defined selections, in order. |
| ModelSelection.SelectedModels | frontend/src/hooks/useModelSelection.ts:16-18 | Exactly the models selected for some category. |
| ModelSelection.SetThenSelected | frontend/src/hooks/useModelSelection.ts:9-18 | A model just set is selected. An empty selection has no models. |
| ModelSelection.Hook.constructor | frontend/src/hooks/useModelSelection.ts:7 | The selection starts empty. |
| ModelSelection.Hook.SetModelForCategory | frontend/src/hooks/useModelSelection.ts:9-14 | The category's model is set. |
| ModelSelection.Hook.ClearSelection | frontend/src/hooks/useModelSelection.ts:20-22 | The selection is emptied. |
| TemperatureStore.Code | frontend/src/components/Temperature/store.ts:19-21 | Celsius is stored as "0" and Kelvin as "1". |
| TemperatureStore.DefaultUnit | frontend/src/components/Temperature/store.ts:9-17 | The default is Kelvin iff "1" is stored. |
| TemperatureStore.DefaultUnitOfCode | frontend/src/components/Temperature/store.ts:9-21 | A stored code reads back as its unit. |
| TemperatureStore.StateOf | frontend/src/components/Temperature/store.ts:35-49 | The state describes its unit. |
| TemperatureStore.ConvertRoundTrip | frontend/src/components/Temperature/store.ts:35-49 | Conversion to and from a unit are inverse. Kelvin is the identity. |
| TemperatureStore.Toggle | frontend/src/components/Temperature/store.ts:54-59 | The next unit is the other one. |
| TemperatureStore.Store.constructor | frontend/src/components/Temperature/store.ts:52 | The store starts at the stored default unit. |
| TemperatureStore.Store.NextUnit | frontend/src/components/Temperature/store.ts:54-59 | The unit is toggled and its code is stored. |
| TemperatureStore.Store.NextUnitTwice | frontend/src/components/Temperature/store.ts:54-59 | Toggling twice restores the state, and storage reads back the unit. |
| SettingsContext.ToText | frontend/src/contexts/SettingsContext.ts:12-14 | A value is shown in the unit, followed by the symbol. |
| SettingsContext.NewUnit | frontend/src/contexts/SettingsContext.ts:3-22 | A plain unit takes its name and symbol, or empty text when absent. |
| SettingsContext.ConversionsInverse | frontend/src/contexts/SettingsContext.ts:24-40 | `toNumber` and `fromNumber` are inverse, and the identity for non-Celsius units. |
| SettingsContext.FindByName | frontend/src/contexts/SettingsContext.tsx:56-59 | It finds the first unit with the stored name. |
| SettingsContext.GetDefault | frontend/src/contexts/SettingsContext.ts:65-68 | The default is the unit named in storage, or the first unit. |
| SettingsContext.IndexOf | frontend/src/contexts/SettingsContext.tsx:61-68 | It finds the first position of the current unit. |
| SettingsContext.NextUnit | frontend/src/contexts/SettingsContext.ts:70-77 | The next unit in the list, wrapping around, and the first unit when the current one is unknown. |
| SettingsContext.TemperatureCycle | frontend/src/contexts/SettingsContext.tsx:73-76 | Celsius and Kelvin alternate. |
| SettingsContext.StoredNameReadBack | frontend/src/contexts/SettingsContext.ts:65-77 | The name stored by `nextUnit` reads back as that unit. |
| SettingsContext.UnitCache.constructor | frontend/src/contexts/SettingsContext.ts:55-60 | The unit cache starts empty. |
| SettingsContext.UnitCache.GetUnit | frontend/src/contexts/SettingsContext.ts:55-60 | A unit is cached by its custom symbol. A cached unit is returned. |
| SettingsContext.UnitCache.GetUnitTwice | frontend/src/contexts/SettingsContext.tsx:87-90 | The same symbol gives the same unit, with the first name. |
| SettingsContext.Provider.constructor | frontend/src/contexts/SettingsContext.ts:79-80 | The temperature starts at the stored default. |
| SettingsContext.Provider.NextTemperature | frontend/src/contexts/SettingsContext.ts:84-87 | The temperature advances and its name is stored. |
| SettingsContext.Provider.GetUnit | frontend/src/contexts/SettingsContext.ts:88-91 | "kelvin" gives the current temperature. Other names go to the cache. |
| SettingsContext.FreshUnit | frontend/src/contexts/SettingsContext.tsx:53 | The default context builds a new plain unit on each call. |
| ConvertibleField.Of | frontend/src/components/ConvertibleTextField.tsx:47-53 | The unit's conversions are inverse. |
| ConvertibleField.Constrain | frontend/src/components/ConvertibleTextField.tsx:61-62 | A value is clamped into the bounds. Values within them are unchanged. |
| ConvertibleField.ChangeValidity | frontend/src/components/ConvertibleTextField.tsx:64-70 | Input is valid iff it parses and lies within the bounds. |
| ConvertibleField.Field.constructor | frontend/src/components/ConvertibleTextField.tsx:47-53 | The value defaults to 0 and the text shows it in the unit. |
| ConvertibleField.Field.ValueChanged | frontend/src/components/ConvertibleTextField.tsx:57-59 | A new value from outside resets the text. |
| ConvertibleField.Field.HandleChange | frontend/src/components/ConvertibleTextField.tsx:64-70 | The text is kept and the validity flag is set. |
| ConvertibleField.Field.HandleBlur | frontend/src/components/ConvertibleTextField.tsx:72-82 | On blur the parsed value is clamped and reported, and the text is reset. |
| ConvertibleField.TypingPastMaximum | frontend/tests/components/ConvertibleTextField.test.tsx:23-34 | Typing past the maximum reports the maximum. |
| ConvertibleField.ShiftedUnit | frontend/tests/components/ConvertibleTextField.test.tsx:81-105 | A shifted unit shows and reports converted values. |
| Formatting.RemoveSubsOfMarkup | frontend/src/functions/Formatting.tsx:4-8 | Removing the `<sub>` tags gives back the content. |
| Formatting.RemoveSubsOfPlain | frontend/src/functions/Formatting.tsx:4-8 | Text without tags is unchanged. |
| Formatting.SplitFrom | frontend/src/functions/Formatting.tsx:11-13 | The split has one more text than digits. |
| Formatting.SplitSpec | frontend/src/functions/Formatting.tsx:11-13 | Each split-off digit follows a letter. No match is left in the texts, and the pieces join back to the formula. |
| Formatting.JoinedSplit | frontend/src/functions/Formatting.tsx:11-13 | The pieces join back to the input. |
| Formatting.Interleave | frontend/src/functions/Formatting.tsx:15-17 | Texts and subscripts alternate. |
| Formatting.ConvertToSubscriptsShape | frontend/src/functions/Formatting.tsx:10-19 | The output alternates the split texts with subscripted digits. |
| Formatting.ConvertEmpty | frontend/tests/functions/Formatting.test.tsx:14-20 | The empty formula gives one empty text. |
| Formatting.ConvertLikeNO2 | frontend/tests/functions/Formatting.test.tsx:21-27 | In NO2 the 2 is subscripted. |
| Formatting.ConvertLike2NO2 | frontend/tests/functions/Formatting.test.tsx:28-35 | In `2 NO2` only the last 2 is subscripted. |
| Calculations.CountSteps | frontend/src/functions/Calculations.tsx:2-5 | The step count covers the range: `n - 1 <= span/step < n`. |
| Calculations.Factor | frontend/src/functions/Calculations.tsx:6-13 | A zero step counts once. |
| Calculations.CalculateNumberOfSimulations | frontend/src/functions/Calculations.tsx:1-14 | The loop computes the product of the step counts, or reports an unknown component. |
| Calculations.NothingSelected | frontend/src/functions/Calculations.tsx:1-14 | No selection gives one simulation. |
| Calculations.StepZeroIgnored | frontend/src/functions/Calculations.tsx:6-13 | Zero-step components do not change the count. |
| Calculations.ProductPermutation | frontend/src/functions/Calculations.tsx:6-13 | Selection order does not change the count. |
| ModelOrder.SortModelsByCategory | frontend/src/utils/modelUtils.ts:8-13 | The sort is a permutation. |
| ModelOrder.SortPartition | frontend/src/utils/modelUtils.ts:8-13 | The primary models come first, then the secondary ones. |
| ModelOrder.PrimaryFirst | frontend/src/utils/modelUtils.ts:8-13 | No secondary model precedes a primary one. |
| ModelOrder.Stable | frontend/src/utils/modelUtils.ts:8-13 | Within a category, order is kept. |
| StringFormat.Lookup | frontend/src/config/Settings.ts:14-18 | A placeholder is replaced iff its digits are a canonical index within the arguments. |
| StringFormat.NoPlaceholderUnchanged | frontend/src/config/Settings.ts:14-18 | Text without placeholders is unchanged. |
| StringFormat.NoArgsUnchanged | frontend/src/config/Settings.ts:14-18 | Without arguments the text is unchanged. |
| StringFormat.PlaceholderReplaced | frontend/src/config/Settings.ts:14-18 | `{n}` with n in range becomes the argument. |
| StringFormat.PlaceholderKept | frontend/src/config/Settings.ts:14-18 | Out of range, `{n}` stays. |
| StringFormat.LeadingZeroKept | frontend/src/config/Settings.ts:14-18 | `{01}` stays, as the object has no key "01". |
| Tables.Dedup | frontend/src/functions/Tables.tsx:7-12 | The headers are distinct and cover the keys. |
| Tables.DedupOrder | frontend/src/functions/Tables.tsx:7-12 | Headers keep first-occurrence order. |
| Tables.HeadersSpec | frontend/src/functions/Tables.tsx:7-12 | The headers are exactly the substances of all results, distinct, in first-seen order. |
| Tables.SubstanceColumns | frontend/src/functions/Tables.tsx:44-61 | One column per header, with its prefix. |
| Tables.PrefixedCells | frontend/src/functions/Tables.tsx:70-81 | One cell per substance, keyed with its prefix and rounded. |
| Tables.TableShape | frontend/src/functions/Tables.tsx:14-85 | Three column groups and one row per result. |
| Tables.RowCellsSpec | frontend/src/functions/Tables.tsx:64-83 | Every row holds each initial and final concentration under its prefixed key. |
| Tables.AccessorsSpec | frontend/src/functions/Tables.tsx:14-62 | A column exists for exactly the prefixed headers. |
| Tables.CellHasColumn | frontend/src/functions/Tables.tsx:14-83 | Every substance cell has a column. |
| Tables.ColumnHasCell | frontend/src/functions/Tables.tsx:14-83 | Every substance column has a cell in some row. |
| PanelName.GetPanelNameAsWritten | frontend/src/components/Simulation/Results.tsx:16-35 | As written: a label wins. A table whose label is present but empty gives "". Otherwise the type's fallback. |
| PanelName.EmptyTableLabelAsWritten | frontend/src/components/Simulation/Results.tsx:29-30 | As written, a table with label "" is named "". |
| PanelName.GetPanelName | frontend/src/components/Simulation/Results.tsx:16-35 | Corrected: a panel name is never empty, and a label wins. |
| PanelName.AsWrittenAgrees | frontend/src/components/Simulation/Results.tsx:16-35 | The two agree except for a table with an empty label. |
| PanelName.Fallbacks | frontend/src/components/Simulation/Results.tsx:19-33 | The fallbacks are Text, JSON, Reactions and "Table data". |
| SaveButton.ValidNameSpec | frontend/src/components/SaveButton.tsx:10-12 | A name is valid iff it has a non-space character. |
| SaveButton.SaveButtonState | frontend/src/components/SaveButton.tsx:14-31 | The tooltip follows the saving, project, name and saved checks in that order. |
| SaveButton.ReadyWhen | frontend/src/components/SaveButton.tsx:14-31 | The button is ready iff it is not saving, has a project and a valid name, and is not saved. |
| SaveButton.BlankNameDisables | frontend/src/components/SaveButton.tsx:29 | A blank name disables the button. |
| SaveButton.SavingDoesNotDisable | frontend/src/components/SaveButton.tsx:14-29 | While saving, the button shows "Saving" and stays enabled. |
| Statuses.CountBuckets | frontend/src/components/Statuses.tsx:12-20 | Each bucket counts its status. |
| Statuses.CountsAddUp | frontend/src/components/Statuses.tsx:12-20 | The buckets sum to the number of runs. |
| Statuses.CreateRows | frontend/src/components/Statuses.tsx:46-53 | One row per status entry. |
| Statuses.RowOfSpec | frontend/src/components/Statuses.tsx:46-53 | A row splits its key at the first colon. |
| RunsStatus.At | frontend/src/components/LabResultSimulationRunsStatus.tsx:48-53 | A missing entry reads as empty text. |
| RunsStatus.Max3 | frontend/src/components/LabResultSimulationRunsStatus.tsx:46 | It returns the maximum of the three. |
| RunsStatus.CreateRows | frontend/src/components/LabResultSimulationRunsStatus.tsx:41-54 | There are as many rows as the longest column, and none when all are empty. |
| RunsStatus.CopiedUnchanged | frontend/src/components/LabResultSimulationRunsStatus.tsx:48-53 | Each row copies the entries at its index. |
| Compare.SimulationIds | frontend/src/pages/Compare.tsx:71-72 | The ids are non-empty and contain no commas. |
| Compare.IdsRoundTrip | frontend/src/pages/Compare.tsx:71-72 | Joining ids and splitting them again gives the ids back. |
| Compare.FindPrimary | frontend/src/pages/Compare.tsx:118-126 | It finds the first primary stage. |
| Compare.PrimaryOf | frontend/src/pages/Compare.tsx:118-126 | A primary result takes its data from that stage. |
| Compare.PrimaryResults | frontend/src/pages/Compare.tsx:118-126 | One primary result per id, in order. |
| Compare.InputsMatchPairwise | frontend/src/pages/Compare.tsx:129-139 | Inputs match iff every pair of results has equal inputs. |
| Compare.SortStringsSpec | frontend/src/pages/Compare.tsx:144-150 | The sort is sorted and keeps distinctness. |
| Compare.CollectSubstances | frontend/src/pages/Compare.tsx:144-150 | The substances are exactly those of any result, distinct and sorted. |
| Compare.ValueOf | frontend/src/pages/Compare.tsx:156-167 | A missing substance reads as 0. |
| Compare.SomeAbove | frontend/src/pages/Compare.tsx:156-158 | The loop decides significance. |
| Compare.SignificantSubstances | frontend/src/pages/Compare.tsx:156-158 | Exactly the significant substances are kept. |
| Compare.ShortId | frontend/src/pages/Compare.tsx:161-167 | The label is the first eight characters of the id. |
| Compare.ChartData | frontend/src/pages/Compare.tsx:161-167 | One series per result, each point that result's value. |
| Compare.ChartShowsSignificant | frontend/src/pages/Compare.tsx:161-167 | The chart plots each significant substance's value. |
| MassBalance.AddOneValid | frontend/src/components/Simulation/MassBalanceError.tsx:93-95 | Adding to an element accumulates its amount. |
| MassBalance.AddScaledAt | frontend/src/components/Simulation/MassBalanceError.tsx:73-82 | Merging a group adds its counts times the factor. |
| MassBalance.AddScaledNonNegative | frontend/src/components/Simulation/MassBalanceError.tsx:73-82 | Merging keeps tallies non-negative. |
| MassBalance.UnionSpec | frontend/src/components/Simulation/MassBalanceError.tsx:112 | The element union is distinct and starts with the first list. |
| MassBalance.ScoreMasses | frontend/src/components/Simulation/MassBalanceError.tsx:101-128 | The loop computes the balance of the two tallies. |
| MassBalance.RatioZeroIff | frontend/src/components/Simulation/MassBalanceError.tsx:112-124 | An element's ratio is finite and non-negative, and zero iff its masses agree. |
| MassBalance.LargestRatioZeroIff | frontend/src/components/Simulation/MassBalanceError.tsx:112-124 | The largest ratio is finite and non-negative. |
| MassBalance.BalanceZeroIff | frontend/src/components/Simulation/MassBalanceError.tsx:101-128 | The error is zero iff every element's mass agrees. |
| MassBalance.SameMassesNoError | frontend/src/components/Simulation/MassBalanceError.tsx:101-128 | Equal tallies have no error. |
| FlatMasses.MatchesShape | frontend/src/components/MassBalanceError.tsx:10 | Each match is an element symbol with digits. |
| FlatMasses.MatchesSpell | frontend/src/components/MassBalanceError.tsx:10 | Matching spelled-out matches gives them back. |
| FlatMasses.SkipsNonUpper | frontend/src/components/MassBalanceError.tsx:10 | Text not starting with a capital is skipped. |
| FlatMasses.AddMatchesAt | frontend/src/components/MassBalanceError.tsx:6-20 | Each element gains its count times the amount. |
| FlatMasses.MassesAt | frontend/src/components/MassBalanceError.tsx:6-20 | The masses are well formed, and non-negative for non-negative input. |
| FlatMasses.GetMasses | frontend/src/components/MassBalanceError.tsx:6-20 | The loop computes the element masses. |
| FlatMasses.AddSubstance | frontend/src/components/MassBalanceError.tsx:9-18 | One substance adds its matches. |
| FlatMasses.AddAtom | frontend/src/components/MassBalanceError.tsx:11-17 | One atom adds its amount. |
| FlatMasses.GetMassBalanceError | frontend/src/components/MassBalanceError.tsx:22-50 | The loop computes the mass-balance error. |
| FlatMasses.MassBalanceZeroIff | frontend/src/components/MassBalanceError.tsx:22-50 | The error is finite, and zero iff the element masses agree. |
| FlatMasses.IdenticalInputsNoError | frontend/tests/components/MassBalanceError.test.tsx:45-47 | Identical inputs have no error. |
| FlatMasses.MatchesH2O | frontend/src/components/MassBalanceError.tsx:10 | H2O matches H2 and O. |
| FlatMasses.ParenthesesSkipped | frontend/src/components/MassBalanceError.tsx:10 | Parentheses are ignored. |
| FlatMasses.EmptyMasses | frontend/tests/components/MassBalanceError.test.tsx:5-7 | No substances give no masses. |
| FlatMasses.SimpleMasses | frontend/tests/components/MassBalanceError.test.tsx:9-21 | The simple test tallies H, O and N. |
| FlatMasses.MatchesAcetic | frontend/tests/components/MassBalanceError.test.tsx:23-35 | Acetic acid's matches. |
| FlatMasses.AceticMasses | frontend/tests/components/MassBalanceError.test.tsx:23-35 | Acetic acid gives C 2, H 4, O 2. |
| GroupMasses.JsTokenizeDrops | frontend/src/components/Simulation/MassBalanceError.tsx:6-40 | The JavaScript scan equals the grammar scan without dropped tokens. |
| GroupMasses.JsTokenizeAgrees | frontend/src/components/Simulation/MassBalanceError.tsx:6-40 | Without line terminators, both scans agree. |
| GroupMasses.Message | frontend/src/components/Simulation/MassBalanceError.tsx:84-91 | An error message is shown exactly for a bad token or an unclosed group. |
| GroupMasses.MergeScaled | frontend/src/components/Simulation/MassBalanceError.tsx:73-82 | The merging loop adds the group's counts times the factor. |
| GroupMasses.SubstanceCounts | frontend/src/components/Simulation/MassBalanceError.tsx:50-91 | The stack loop computes the element counts. |
| GroupMasses.GetMasses | frontend/src/components/Simulation/MassBalanceError.tsx:50-99 | The loop computes the masses. |
| GroupMasses.GetMassBalanceError | frontend/src/components/Simulation/MassBalanceError.tsx:101-128 | The loop computes the error. |
| GroupMasses.StepWellFormed | frontend/src/components/Simulation/MassBalanceError.tsx:61-82 | Each token keeps the stack well formed. |
| GroupMasses.CountsWellFormed | frontend/src/components/Simulation/MassBalanceError.tsx:50-91 | The counts are well formed. |
| GroupMasses.FormulaCounts | frontend/src/components/Simulation/MassBalanceError.tsx:50-91 | A well-nested formula counts each element, with groups multiplied. |
| GroupMasses.CorrectedRunIff | frontend/src/components/Simulation/MassBalanceError.tsx:73-82 | The strict reading succeeds iff no token is invalid and the depth never drops below the stack. |
| GroupMasses.StrictAgrees | frontend/src/components/Simulation/MassBalanceError.tsx:73-82 | Where the strict reading succeeds, the as-written one agrees. |
| GroupMasses.CorrectedCountsIff | frontend/src/components/Simulation/MassBalanceError.tsx:50-91 | The strict counts succeed iff the formula is valid and balanced. |
| GroupMasses.UnclosedThrows | frontend/src/components/Simulation/MassBalanceError.tsx:89-91 | An unclosed group throws "Couldn't parse". |
| GroupMasses.InvalidThrows | frontend/src/components/Simulation/MassBalanceError.tsx:84-86 | An invalid token throws "Unexpected". |
| GroupMasses.ValidatedSubstanceCounts | frontend/src/components/Simulation/MassBalanceError.tsx:50-91 | A grammar-valid substance counts under both readings, equally. |
| GroupMasses.MassesAt | frontend/src/components/Simulation/MassBalanceError.tsx:93-99 | Each element's mass is the sum over substances. |
| GroupMasses.MassesWellFormed | frontend/src/components/Simulation/MassBalanceError.tsx:50-99 | The masses are well formed. |
| GroupMasses.MassBalanceZeroIff | frontend/src/components/Simulation/MassBalanceError.tsx:101-128 | The error is zero iff each element's mass agrees. |
| GroupMasses.IdenticalInputsNoError | frontend/tests/components/MassBalanceError.test.tsx:45-47 | Identical inputs give zero error. |
| GroupMasses.GroupExampleCounts | frontend/src/components/Simulation/MassBalanceError.tsx:50-91 | A grouped formula gives C 4, H 10. |
| GroupMasses.UnderflowAsWritten | frontend/src/components/Simulation/MassBalanceError.tsx:73-82 | As written, `)(H2` counts H 2. |
| GroupMasses.UnderflowCorrected | frontend/src/components/Simulation/MassBalanceError.tsx:73-82 | The strict reading rejects `)(H2`. |

## Left out

- The simulation-chain orchestrator, the result endpoints and the project
  endpoints. `project_endpoints.py` and the chain code are not part of this
  model.
- The adapters' own `run` bodies (ARCS, Reaktoro and the others) and
  `BaseAdapter.client`. A run is an outcome: a result or an exception.
- Authentication, the on-behalf-of token exchange, the network, the
  database and `localStorage` I/O. The exchange is a function argument and
  storage is a field or a parameter.
- Floating-point formatting (`toString`, `toPrecision`,
  `format_exception`) and Python's `float()`. They are function
  parameters; reals are exact.
- Unicode letters, digits and whitespace. Only ASCII is classified.
- Adapters.NormalisedConcentrations: the adapter's concentrations are a
  map. The Python dict keeps the order of `valid_substances`, and the
  `initial` concentrations of a run response show it; the model does not.
- SettingsContext.UnitCache.GetUnit: the JavaScript cache is a plain object,
  so a symbol such as `constructor`, `toString` or `__proto__` finds an
  inherited member and returns it instead of a unit. The model's cache holds
  only the units it stored.
- SettingsContext.UnitCache.GetUnitTwice: the same holds for a symbol that
  names an inherited member; the lemma covers the units the cache stored.
- ParameterSchema.Coerce: pydantic's lax mode also turns numeric strings
  into numbers, strings such as `"true"` into booleans, booleans into
  integers and 0 or 1 into booleans. The model converts between numbers
  only, and rejects the other conversions.
- AliasGenerator.ToCamel: pydantic's `alias_generators` module is not part
  of the repository. The model follows pydantic 2's `to_camel` on ASCII
  names: the camelCase check, `str.title`, the `_` removal and the lowered
  first letter.
- React identity and rendering: `getSnapshot`, re-renders and array
  identity of `entries`.
- `test_has_model_name`. The display name is not part of the modelled
  adapter descriptor.
- LocalStore.LocalDB.ProjectsWithAccess: states which projects are
  returned, not their order.
- LocalStore.LocalDB.ScenariosOfProject: states which scenarios are
  returned, not their order.
- LocalStore.LocalDB.ResultsOfScenario: states which results are returned,
  not their order.
- Compare.InputsMatchPairwise: compares input maps rather than the JSON
  text of their sorted entries. The two differ only for keys containing
  commas.
- MassBalance.BalanceZeroIff: the epsilon guard is modelled as a parameter;
  `1e-9` and `1e-36` are not distinguished.

## Findings

| source | as written | input that shows it | evidently intended | confidence | as-written member | corrected member |
|---|---|---|---|---|---|---|
| backend/tests/models/test_all_adapters.py:48-69 | The depth is checked only at the end, so a close may come before an open. | `)2(` | Reject a close without a matching open. | not executed | FormulaGrammar.ClosingFirstAccepted | FormulaGrammar.ClosingFirstRejected |
| frontend/src/components/Simulation/MassBalanceError.tsx:73-82 | A close on a one-level stack pops the base tally and keeps going. | `)(H2` | Report a parse error. | not executed | GroupMasses.UnderflowAsWritten | GroupMasses.UnderflowCorrected |
| frontend/src/hooks/useSimulationHistory.ts:29-36 | `JSON.parse` runs outside any guard, so stored non-JSON text throws. | `simulation[0]` = `not json` | Drop the entry as invalid. | not executed | History.NotJsonThrows | History.LenientNeverThrows |
| frontend/src/components/Simulation/Results.tsx:29-30 | `??` keeps an empty label, so the panel is named "". | a table panel with label `""` | Fall back to "Table data". | not executed | PanelName.EmptyTableLabelAsWritten | PanelName.GetPanelName |
