/** `LocalDB`: the in-memory store of projects, scenarios and results that
  * stands in for the database during local development. Each record is the
  * `.dict()` of the object handed in; a key its model does not have reads as
  * `None` (or as the default the code supplies). */
module LocalStore {
  import opened Common

  /** A project record: `access_ids` missing reads as `[]`; `is_public` is
    * absent until the publicity is first switched. */
  datatype ProjectRecord = ProjectRecord(id: string, ownerId: Option<string>, accessIds: seq<string>,
                                         isPublic: Option<bool>)

  datatype ScenarioRecord = ScenarioRecord(id: string, projectId: Option<string>, ownerId: Option<string>)

  datatype ResultRecord = ResultRecord(id: string, scenarioId: Option<string>)

  /** The record `Scenario.dict()` gives: that model has no `owner_id`. */
  function ScenarioOfModel(id: string, projectId: string): ScenarioRecord
  {
    ScenarioRecord(id, Some(projectId), None)
  }

  /** The values of an ordered dictionary satisfying `p`, in key order. */
  function ValuesWhere<V(!new)>(d: Dict<string, V>, p: V -> bool): (r: seq<V>)
    requires d.Valid()
    ensures forall v :: v in r <==> (exists k :: k in d.vals && d.vals[k] == v) && p(v)
  {
    var vs := d.Values();
    assert forall v :: v in vs <==> exists k :: k in d.vals && d.vals[k] == v by {
      forall v | v in vs
        ensures exists k :: k in d.vals && d.vals[k] == v
      {
        var i :| 0 <= i < |vs| && vs[i] == v;
        assert d.keys[i] in d.vals;
      }
      forall v | exists k :: k in d.vals && d.vals[k] == v
        ensures v in vs
      {
        var k :| k in d.vals && d.vals[k] == v;
        var i :| 0 <= i < |d.keys| && d.keys[i] == k;
        assert vs[i] == v;
      }
    }
    Filter(vs, p)
  }

  /** The ids of the results of a scenario. */
  function ResultsOf(results: map<string, ResultRecord>, scenarioId: string): set<string>
  {
    set id | id in results && results[id].scenarioId == Some(scenarioId)
  }

  class LocalDB {
    var projects: Dict<string, ProjectRecord>
    var scenarios: Dict<string, ScenarioRecord>
    var results: Dict<string, ResultRecord>

    ghost predicate Valid()
      reads this
    {
      projects.Valid() && scenarios.Valid() && results.Valid()
    }

    constructor()
      ensures Valid()
      ensures projects == Dict.Empty() && scenarios == Dict.Empty() && results == Dict.Empty()
    {
      projects := Dict.Empty();
      scenarios := Dict.Empty();
      results := Dict.Empty();
    }

    /** `init_project`: store the project under its id, replacing any earlier
      * record (which keeps its position), and return it. */
    method InitProject(project: ProjectRecord) returns (r: ProjectRecord)
      requires Valid()
      modifies this
      ensures Valid()
      ensures projects == old(projects).Put(project.id, project)
      ensures scenarios == old(scenarios) && results == old(results)
      ensures r == project && projects.vals[project.id] == r
    {
      projects := projects.Put(project.id, project);
      r := projects.vals[project.id];
    }

    /** `get_projects_with_access`: the projects listing the user, in order. */
    function ProjectsWithAccess(user: string): (r: seq<ProjectRecord>)
      requires Valid()
      reads this
      ensures forall p :: p in r <==> (exists k :: k in projects.vals && projects.vals[k] == p) && user in p.accessIds
    {
      ValuesWhere(projects, (p: ProjectRecord) => user in p.accessIds)
    }

    /** `delete_project`: only the owner deletes; otherwise nothing changes. */
    method DeleteProject(projectId: string, user: string)
      requires Valid()
      modifies this
      ensures Valid()
      ensures projectId in old(projects.vals) && old(projects.vals[projectId].ownerId) == Some(user) ==>
                projects == old(projects).Delete(projectId)
      ensures !(projectId in old(projects.vals) && old(projects.vals[projectId].ownerId) == Some(user)) ==>
                projects == old(projects)
      ensures scenarios == old(scenarios) && results == old(results)
    {
      if projectId !in projects.vals {
        return;
      }
      var project := projects.vals[projectId];
      if project.ownerId == Some(user) {
        projects := projects.Delete(projectId);
      }
    }

    /** `switch_project_publicity`: the owner flips `is_public` (missing
      * counts as false); the project, switched or not, is returned. */
    method SwitchProjectPublicity(projectId: string, user: string) returns (r: Option<ProjectRecord>)
      requires Valid()
      modifies this
      ensures Valid()
      ensures projectId !in old(projects.vals) ==> r == None && projects == old(projects)
      ensures projectId in old(projects.vals) && old(projects.vals[projectId].ownerId) != Some(user) ==>
                r == Some(old(projects.vals[projectId])) && projects == old(projects)
      ensures projectId in old(projects.vals) && old(projects.vals[projectId].ownerId) == Some(user) ==>
                && r == Some(old(projects.vals[projectId]).(isPublic := Some(old(projects.vals[projectId]).isPublic != Some(true))))
                && projects == old(projects).Put(projectId, r.value)
      ensures scenarios == old(scenarios) && results == old(results)
    {
      if projectId !in projects.vals {
        return None;
      }
      var project := projects.vals[projectId];
      if project.ownerId == Some(user) {
        project := project.(isPublic := Some(project.isPublic != Some(true)));
        projects := projects.Put(projectId, project);
      }
      r := Some(project);
    }

    /** `init_scenario` and `upsert_scenario`: store under the id, replacing
      * any earlier record, and return it. */
    method UpsertScenario(scenario: ScenarioRecord) returns (r: ScenarioRecord)
      requires Valid()
      modifies this
      ensures Valid()
      ensures scenarios == old(scenarios).Put(scenario.id, scenario)
      ensures projects == old(projects) && results == old(results)
      ensures r == scenario && scenarios.vals[scenario.id] == r
    {
      scenarios := scenarios.Put(scenario.id, scenario);
      r := scenarios.vals[scenario.id];
    }

    /** `fetch_scenario_and_validate_user`: the scenario when it exists and
      * the user owns it. */
    function FetchScenarioAndValidateUser(scenarioId: string, user: string): (r: Option<ScenarioRecord>)
      reads this
      ensures r.Some? <==> scenarioId in scenarios.vals && scenarios.vals[scenarioId].ownerId == Some(user)
      ensures r.Some? ==> r.value == scenarios.vals[scenarioId]
    {
      if scenarioId !in scenarios.vals || scenarios.vals[scenarioId].ownerId != Some(user) then None
      else Some(scenarios.vals[scenarioId])
    }

    /** `delete_scenario`: only the owner deletes. */
    method DeleteScenario(scenarioId: string, user: string)
      requires Valid()
      modifies this
      ensures Valid()
      ensures old(FetchScenarioAndValidateUser(scenarioId, user)).Some? ==> scenarios == old(scenarios).Delete(scenarioId)
      ensures old(FetchScenarioAndValidateUser(scenarioId, user)).None? ==> scenarios == old(scenarios)
      ensures projects == old(projects) && results == old(results)
    {
      if scenarioId in scenarios.vals && scenarios.vals[scenarioId].ownerId == Some(user) {
        scenarios := scenarios.Delete(scenarioId);
      }
    }

    /** `get_scenarios_of_project` */
    function ScenariosOfProject(projectId: string): (r: seq<ScenarioRecord>)
      requires Valid()
      reads this
      ensures forall s :: s in r <==> (exists k :: k in scenarios.vals && scenarios.vals[k] == s) && s.projectId == Some(projectId)
    {
      ValuesWhere(scenarios, (s: ScenarioRecord) => s.projectId == Some(projectId))
    }

    /** `get_result` */
    function GetResult(resultId: string): (r: Option<ResultRecord>)
      reads this
      ensures r.Some? <==> resultId in results.vals
      ensures r.Some? ==> r.value == results.vals[resultId]
    {
      if resultId in results.vals then Some(results.vals[resultId]) else None
    }

    /** `delete_result`: remove an existing result and return its id. */
    method DeleteResult(resultId: string) returns (r: Option<string>)
      requires Valid()
      modifies this
      ensures Valid()
      ensures resultId in old(results.vals) ==> r == Some(resultId) && results == old(results).Delete(resultId)
      ensures resultId !in old(results.vals) ==> r == None && results == old(results)
      ensures projects == old(projects) && scenarios == old(scenarios)
    {
      if resultId in results.vals {
        results := results.Delete(resultId);
        return Some(resultId);
      }
      return None;
    }

    /** `get_results_of_scenario` */
    function ResultsOfScenario(scenarioId: string): (r: seq<ResultRecord>)
      requires Valid()
      reads this
      ensures forall x :: x in r <==> (exists k :: k in results.vals && results.vals[k] == x) && x.scenarioId == Some(scenarioId)
    {
      ValuesWhere(results, (x: ResultRecord) => x.scenarioId == Some(scenarioId))
    }

    /** `upsert_result` */
    method UpsertResult(result: ResultRecord) returns (r: ResultRecord)
      requires Valid()
      modifies this
      ensures Valid()
      ensures results == old(results).Put(result.id, result)
      ensures projects == old(projects) && scenarios == old(scenarios)
      ensures r == result && results.vals[result.id] == r
    {
      results := results.Put(result.id, result);
      r := results.vals[result.id];
    }

    /** `delete_results_of_scenario`: collect the ids, then delete them. */
    method DeleteResultsOfScenario(scenarioId: string)
      requires Valid()
      modifies this
      ensures Valid()
      ensures results == old(results).Without(ResultsOf(old(results.vals), scenarioId))
      ensures projects == old(projects) && scenarios == old(scenarios)
    {
      var toDelete := IdsOfScenario(results, scenarioId);
      ghost var results0 := results;
      WithoutNothing(results0);
      assert Prefix(toDelete, 0) == {};
      var i := 0;
      while i < |toDelete|
        invariant 0 <= i <= |toDelete|
        invariant results == results0.Without(Prefix(toDelete, i))
        invariant projects == old(projects) && scenarios == old(scenarios)
      {
        WithoutDelete(results0, Prefix(toDelete, i), toDelete[i]);
        PrefixStep(toDelete, i);
        results := results.Delete(toDelete[i]);
        i := i + 1;
      }
    }
  }

  /** The elements of the first `n` of `s`. */
  function Prefix(s: seq<string>, n: nat): set<string>
    requires n <= |s|
  {
    set j | 0 <= j < n :: s[j]
  }

  lemma PrefixStep(s: seq<string>, i: nat)
    requires i < |s|
    ensures Prefix(s, i + 1) == Prefix(s, i) + {s[i]}
  {
  }

  /** `[result_id for result_id, result in results.items() if
    * result.get("scenario_id") == scenario_id]` */
  function IdsOfScenario(results: Dict<string, ResultRecord>, scenarioId: string): (ids: seq<string>)
    requires results.Valid()
    ensures Prefix(ids, |ids|) == ResultsOf(results.vals, scenarioId)
  {
    var rs := results.vals;
    var ids := Filter(results.keys, (id: string) => id in rs && rs[id].scenarioId == Some(scenarioId));
    assert Prefix(ids, |ids|) == ResultsOf(results.vals, scenarioId) by {
      forall id | id in ResultsOf(results.vals, scenarioId)
        ensures id in Prefix(ids, |ids|)
      {
        assert id in ids;
        var j :| 0 <= j < |ids| && ids[j] == id;
      }
    }
    ids
  }

  /** A scenario stored from the datamodel's `Scenario` has no owner, so no
    * user can fetch or delete it through the ownership check. */
  lemma ModelScenarioNeverValidated(db: LocalDB, id: string, projectId: string, user: string)
    requires id in db.scenarios.vals && db.scenarios.vals[id] == ScenarioOfModel(id, projectId)
    ensures db.FetchScenarioAndValidateUser(id, user) == None
  {
  }

  /** The results left behind by `delete_results_of_scenario` are exactly
    * those of other scenarios. */
  lemma ResultsOfScenarioGone(results: Dict<string, ResultRecord>, scenarioId: string, id: string)
    requires results.Valid()
    ensures id in results.Without(ResultsOf(results.vals, scenarioId)).vals <==>
              id in results.vals && results.vals[id].scenarioId != Some(scenarioId)
  {
  }
}
