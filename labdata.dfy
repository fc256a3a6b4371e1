/** `format_lab_data`: reshaping the laboratory results fetched from OASIS
  * into one row per concentration entry. The species of an entry are an
  * ordered JSON object; each row splits them into the initial ("In_") and
  * final ("Out_") concentrations. */
module LabData {
  import opened Common
  import opened Text

  /** One entry of `item["data"]["labData"]["concentrations"]["entries"]`.
    * `step` is the entry's step as `str()` spells it; the optional numbers
    * are `None` when the key is absent. */
  datatype LabEntry = LabEntry(step: string, species: Dict<string, real>,
                               pressure: Option<real>, temperature: Option<real>, time: Option<real>)

  /** One item of the OASIS response: its general name and its entries. */
  datatype LabItem = LabItem(generalName: string, entries: seq<LabEntry>)

  /** One output row. */
  datatype LabRow = LabRow(name: string, initialConcentrations: Dict<string, real>,
                           finalConcentrations: Dict<string, real>,
                           pressure: Option<real>, temperature: Option<real>, time: Option<real>)

  /** Every species object is a well-formed dictionary (as a parsed JSON
    * object always is). */
  predicate WellFormed(items: seq<LabItem>)
  {
    forall i, j :: 0 <= i < |items| && 0 <= j < |items[i].entries| ==> items[i].entries[j].species.Valid()
  }

  /** A species key with `prefix` contributes under this name. */
  function SpeciesName(key: string, prefix: string): string
    requires StartsWith(key, prefix)
  {
    Upper(key[|prefix|..])
  }

  /** The dict comprehension `{key[len(prefix):].upper(): value for key, value
    * in species.items() if key.startswith(prefix)}` over the first keys,
    * in their order. */
  function Collect(keys: seq<string>, vals: map<string, real>, prefix: string): (d: Dict<string, real>)
    requires forall k :: k in keys ==> k in vals
    ensures d.Valid()
  {
    if keys == [] then Dict.Empty()
    else
      var rest := Collect(keys[..|keys| - 1], vals, prefix);
      var k := keys[|keys| - 1];
      if StartsWith(k, prefix) then rest.Put(SpeciesName(k, prefix), vals[k]) else rest
  }

  /** A name appears exactly when some key carries the prefix and names it. */
  lemma {:induction false} CollectKeys(keys: seq<string>, vals: map<string, real>, prefix: string, name: string)
    requires forall k :: k in keys ==> k in vals
    ensures name in Collect(keys, vals, prefix).vals <==>
            exists i :: 0 <= i < |keys| && StartsWith(keys[i], prefix) && SpeciesName(keys[i], prefix) == name
  {
    if keys != [] {
      var init := keys[..|keys| - 1];
      CollectKeys(init, vals, prefix, name);
      if name in Collect(init, vals, prefix).vals {
        var i :| 0 <= i < |init| && StartsWith(init[i], prefix) && SpeciesName(init[i], prefix) == name;
        assert keys[i] == init[i];
      }
      if exists i :: 0 <= i < |keys| && StartsWith(keys[i], prefix) && SpeciesName(keys[i], prefix) == name {
        var i :| 0 <= i < |keys| && StartsWith(keys[i], prefix) && SpeciesName(keys[i], prefix) == name;
        if i < |init| {
          assert init[i] == keys[i];
        }
      }
    }
  }

  /** A name takes the value of the LAST key that names it. */
  lemma {:induction false} CollectLastWins(keys: seq<string>, vals: map<string, real>, prefix: string, i: nat)
    requires forall k :: k in keys ==> k in vals
    requires i < |keys| && StartsWith(keys[i], prefix)
    requires forall j :: i < j < |keys| && StartsWith(keys[j], prefix) ==>
               SpeciesName(keys[j], prefix) != SpeciesName(keys[i], prefix)
    ensures SpeciesName(keys[i], prefix) in Collect(keys, vals, prefix).vals
    ensures Collect(keys, vals, prefix).vals[SpeciesName(keys[i], prefix)] == vals[keys[i]]
  {
    var init := keys[..|keys| - 1];
    if i < |keys| - 1 {
      assert init[i] == keys[i];
      forall j | i < j < |init| && StartsWith(init[j], prefix)
        ensures SpeciesName(init[j], prefix) != SpeciesName(init[i], prefix)
      {
        assert init[j] == keys[j];
      }
      CollectLastWins(init, vals, prefix, i);
    }
  }

  function RowOf(generalName: string, e: LabEntry): (r: LabRow)
    requires e.species.Valid()
  {
    LabRow(generalName + "-" + e.step,
           Collect(e.species.keys, e.species.vals, "In_"),
           Collect(e.species.keys, e.species.vals, "Out_"),
           e.pressure, e.temperature, e.time)
  }

  /** The rows of one item, in entry order. */
  function ItemRows(item: LabItem): (r: seq<LabRow>)
    requires forall j :: 0 <= j < |item.entries| ==> item.entries[j].species.Valid()
    ensures |r| == |item.entries|
  {
    seq(|item.entries|, j requires 0 <= j < |item.entries| => RowOf(item.generalName, item.entries[j]))
  }

  /** All rows, item after item. */
  function Rows(items: seq<LabItem>): seq<LabRow>
    requires WellFormed(items)
  {
    if items == [] then []
    else Rows(items[..|items| - 1]) + ItemRows(items[|items| - 1])
  }

  /** `format_lab_data` */
  method FormatLabData(response: seq<LabItem>) returns (labData: seq<LabRow>)
    requires WellFormed(response)
    ensures labData == Rows(response)
  {
    labData := [];
    var i := 0;
    while i < |response|
      invariant 0 <= i <= |response|
      invariant labData == Rows(response[..i])
    {
      var item := response[i];
      var j := 0;
      while j < |item.entries|
        invariant 0 <= j <= |item.entries|
        invariant labData == Rows(response[..i]) + ItemRows(item)[..j]
      {
        var entry := item.entries[j];
        var initial := Collect(entry.species.keys, entry.species.vals, "In_");
        var final := Collect(entry.species.keys, entry.species.vals, "Out_");
        labData := labData + [LabRow(item.generalName + "-" + entry.step, initial, final,
                                     entry.pressure, entry.temperature, entry.time)];
        assert ItemRows(item)[..j + 1] == ItemRows(item)[..j] + [RowOf(item.generalName, entry)];
        j := j + 1;
      }
      assert response[..i + 1][..i] == response[..i];
      assert ItemRows(item)[..j] == ItemRows(item);
      i := i + 1;
    }
    assert response[..i] == response;
  }

  /** Rows of a concatenation are the rows of each part, in order. */
  lemma {:induction false} RowsConcat(a: seq<LabItem>, b: seq<LabItem>)
    requires WellFormed(a) && WellFormed(b)
    ensures WellFormed(a + b)
    ensures Rows(a + b) == Rows(a) + Rows(b)
    decreases |b|
  {
    assert WellFormed(a + b) by {
      forall i, j | 0 <= i < |a + b| && 0 <= j < |(a + b)[i].entries|
        ensures (a + b)[i].entries[j].species.Valid()
      {
        if i < |a| { assert (a + b)[i] == a[i]; } else { assert (a + b)[i] == b[i - |a|]; }
      }
    }
    if b == [] {
      assert a + b == a;
    } else {
      var b' := b[..|b| - 1];
      assert (a + b)[..|a + b| - 1] == a + b';
      assert WellFormed(b');
      RowsConcat(a, b');
    }
  }

  /** One row per entry, item after item: the rows of one item are exactly
    * its entries' rows. */
  lemma RowsOfOneItem(item: LabItem)
    requires forall j :: 0 <= j < |item.entries| ==> item.entries[j].species.Valid()
    ensures WellFormed([item])
    ensures Rows([item]) == ItemRows(item)
    ensures |Rows([item])| == |item.entries|
  {
    assert [item][..0] == [];
  }

  /** The contents of one row: the name joins general name and step, the
    * initial map holds exactly the names of "In_" keys and the final map
    * those of "Out_" keys, the optional numbers are copied. */
  lemma RowContents(generalName: string, e: LabEntry, name: string)
    requires e.species.Valid()
    ensures RowOf(generalName, e).name == generalName + "-" + e.step
    ensures name in RowOf(generalName, e).initialConcentrations.vals <==>
            exists i :: (0 <= i < |e.species.keys| && StartsWith(e.species.keys[i], "In_")
                         && Upper(e.species.keys[i][3..]) == name)
    ensures name in RowOf(generalName, e).finalConcentrations.vals <==>
            exists i :: (0 <= i < |e.species.keys| && StartsWith(e.species.keys[i], "Out_")
                         && Upper(e.species.keys[i][4..]) == name)
    ensures RowOf(generalName, e).pressure == e.pressure
    ensures RowOf(generalName, e).temperature == e.temperature
    ensures RowOf(generalName, e).time == e.time
  {
    CollectKeys(e.species.keys, e.species.vals, "In_", name);
    CollectKeys(e.species.keys, e.species.vals, "Out_", name);
  }
}
