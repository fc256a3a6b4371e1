/** The context-held list of recently started simulations, newest first,
  * kept in local storage under `simulationHistory`. */
module HistoryContext {
  import opened Common

  const StorageKey := "simulationHistory"

  /** How many simulations the list keeps. */
  const Limit := 10

  /** A started simulation; the date is milliseconds since the epoch. */
  datatype Item = Item(simulationId: string, displayName: string, date: int)

  /** Reads the stored text back as a list: `JSON.parse` with the dates
    * revived. `None` is every failure the `catch` swallows (text that is
    * not JSON, or JSON that is not a list). */
  type Parser = string -> Option<seq<Item>>

  /** `getSimulationHistory()`, given what `localStorage.getItem` returns. */
  function ReadHistory(stored: Option<string>, parse: Parser): (r: seq<Item>)
    ensures stored.None? || stored == Some("") ==> r == []
    ensures stored.Some? && stored.value != "" ==>
              if parse(stored.value).Some? then r == parse(stored.value).value else r == []
  {
    match stored
    case None => []
    case Some(text) =>
      if text == "" then []
      else match parse(text)
        case None => []
        case Some(items) => items
  }

  predicate UniqueIds(items: seq<Item>)
  {
    forall i, j :: 0 <= i < j < |items| ==> items[i].simulationId != items[j].simulationId
  }

  /** `(item) => item.simulationId !== simulationId` */
  function OtherId(id: string): Item -> bool
  {
    (item: Item) => item.simulationId != id
  }

  /** The list after `addSimulation(simulationId, displayName)` at `now`:
    * the new item first, every earlier item with that id gone, cut to the
    * first ten. */
  function Added(prev: seq<Item>, id: string, name: string, now: int): (r: seq<Item>)
    ensures 1 <= |r| <= Limit && r[0] == Item(id, name, now)
    ensures forall i :: 1 <= i < |r| ==> r[i].simulationId != id
    ensures var rest := Filter(prev, OtherId(id));
            |r| == if 1 + |rest| < Limit then 1 + |rest| else Limit
    ensures r[1..] == Filter(prev, OtherId(id))[..|r| - 1]
  {
    var rest := Filter(prev, OtherId(id));
    var kept := rest[..if |rest| < Limit then |rest| else Limit - 1];
    OthersLackId(prev, id, |kept|);
    [Item(id, name, now)] + kept
  }

  lemma OthersLackId(prev: seq<Item>, id: string, n: nat)
    requires n <= |Filter(prev, OtherId(id))|
    ensures forall i :: 0 <= i < n ==> Filter(prev, OtherId(id))[i].simulationId != id
  {
    var rest := Filter(prev, OtherId(id));
    forall i | 0 <= i < n
      ensures rest[i].simulationId != id
    {
      assert rest[i] in rest;
    }
  }

  /** `updatedHistory.slice(0, 10)` keeps the newest. With no earlier item
    * of that id, the list is the new item before the nine most recent
    * earlier ones. */
  lemma AddedKeepsNewest(prev: seq<Item>, id: string, name: string, now: int)
    requires forall i :: 0 <= i < |prev| ==> prev[i].simulationId != id
    ensures Added(prev, id, name, now) == [Item(id, name, now)] + prev[..if |prev| < Limit - 1 then |prev| else Limit - 1]
  {
    FilterAll(prev, OtherId(id));
  }

  /** Ids stay unique: adding to a list of distinct ids keeps them
    * distinct. */
  lemma AddedUniqueIds(prev: seq<Item>, id: string, name: string, now: int)
    requires UniqueIds(prev)
    ensures UniqueIds(Added(prev, id, name, now))
  {
    var r := Added(prev, id, name, now);
    var rest := Filter(prev, OtherId(id));
    FilterUniqueIds(prev, OtherId(id));
    forall i, j | 0 <= i < j < |r|
      ensures r[i].simulationId != r[j].simulationId
    {
      if i > 0 {
        assert r[i] == rest[i - 1] && r[j] == rest[j - 1];
      }
    }
  }

  lemma {:induction false} FilterUniqueIds(s: seq<Item>, p: Item -> bool)
    requires UniqueIds(s)
    ensures UniqueIds(Filter(s, p))
    decreases |s|
  {
    if s != [] {
      assert UniqueIds(s[1..]) by {
        TailUniqueIds(s);
      }
      FilterUniqueIds(s[1..], p);
      if p(s[0]) {
        var rest := Filter(s[1..], p);
        forall y | y in rest
          ensures y.simulationId != s[0].simulationId
        {
          FirstIdUnique(s, y);
        }
        ConsUniqueIds(s[0], rest);
      }
    }
  }

  lemma TailUniqueIds(s: seq<Item>)
    requires s != [] && UniqueIds(s)
    ensures UniqueIds(s[1..])
  {
    forall i, j | 0 <= i < j < |s[1..]|
      ensures s[1..][i].simulationId != s[1..][j].simulationId
    {
      assert s[1..][i] == s[i + 1] && s[1..][j] == s[j + 1];
    }
  }

  /** No later item shares the first item's id. */
  lemma FirstIdUnique(s: seq<Item>, y: Item)
    requires s != [] && UniqueIds(s) && y in s[1..]
    ensures y.simulationId != s[0].simulationId
  {
    var k :| 0 <= k < |s[1..]| && s[1..][k] == y;
    assert s[k + 1] == y;
  }

  lemma ConsUniqueIds(x: Item, rest: seq<Item>)
    requires UniqueIds(rest) && forall y :: y in rest ==> y.simulationId != x.simulationId
    ensures UniqueIds([x] + rest)
  {
    var r := [x] + rest;
    forall i, j | 0 <= i < j < |r|
      ensures r[i].simulationId != r[j].simulationId
    {
      assert r[j] == rest[j - 1];
      if i > 0 {
        assert r[i] == rest[i - 1];
      }
    }
  }

  /** Adding the same simulation again moves it to the front instead of
    * listing it twice. */
  lemma AddedTwice(prev: seq<Item>, id: string, name: string, now: int, later: int)
    ensures var once := Added(prev, id, name, now);
            Added(once, id, name, later) == [Item(id, name, later)] + Filter(prev, OtherId(id))[..|once| - 1]
  {
    var once := Added(prev, id, name, now);
    var rest := Filter(prev, OtherId(id));
    assert once == [once[0]] + once[1..];
    FilterAll(once[1..], OtherId(id));
    assert Filter(once, OtherId(id)) == once[1..];
  }

  /** Reading back what was saved gives the saved list, whenever parsing
    * undoes stringifying. */
  lemma ReadSaved(items: seq<Item>, stringify: seq<Item> -> string, parse: Parser)
    requires stringify(items) != "" && parse(stringify(items)) == Some(items)
    ensures ReadHistory(Some(stringify(items)), parse) == items
  {
  }

  /** `SimulationHistoryProvider`: the list in React state and the list
    * last written to local storage. */
  class HistoryProvider {
    var history: seq<Item>
    var saved: Option<seq<Item>>

    /** `useState<SimulationHistoryItem[]>([])`, before the effect runs. */
    constructor()
      ensures history == [] && saved == None
    {
      history := [];
      saved := None;
    }

    /** The mount effect `setHistory(getSimulationHistory())`. */
    method Load(stored: Option<string>, parse: Parser)
      modifies this
      ensures history == ReadHistory(stored, parse) && saved == old(saved)
    {
      history := ReadHistory(stored, parse);
    }

    /** `addSimulation(simulationId, displayName)` at `now`: the new list
      * is both the state and what is saved. */
    method AddSimulation(id: string, name: string, now: int)
      modifies this
      ensures history == Added(old(history), id, name, now)
      ensures saved == Some(history)
    {
      var limited := Added(history, id, name, now);
      saved := Some(limited);
      history := limited;
    }
  }
}
