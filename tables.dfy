/** The lab results table: three groups of columns (the experiment's meta
  * data, then one column per input and per output substance) and one row
  * per experiment. */
module Tables {
  import opened Common

  /** The fields of a lab result the table reads; the three numbers may be
    * `null`. */
  datatype LabResult = LabResult(
    name: string, time: Option<real>, temperature: Option<real>, pressure: Option<real>,
    initial: Dict<string, real>, final: Dict<string, real>)

  predicate ValidResult(r: LabResult)
  {
    r.initial.Valid() && r.final.Valid()
  }

  const InitialPrefix := "in-"
  const FinalPrefix := "out-"

  datatype Column = Column(header: string, id: string, accessorKey: string, size: int)
  datatype Group = Group(header: string, columns: seq<Column>)

  /** One entry of a row object besides its fixed fields. */
  datatype Cell = Cell(key: string, value: real)

  datatype Row = Row(
    id: string, name: string, time: string, temperature: Option<real>, pressure: Option<real>,
    cells: Dict<string, real>)

  datatype Table = Table(columns: seq<Group>, rows: seq<Row>)

  /** `Array.from(new Set(xs))`: each element once, where it first
    * appears. */
  function Dedup<T(==,!new)>(xs: seq<T>): (r: seq<T>)
    ensures Distinct(r)
    ensures forall x :: x in r <==> x in xs
    decreases |xs|
  {
    if xs == [] then []
    else
      var init := xs[..|xs| - 1];
      var last := xs[|xs| - 1];
      var r := Dedup(init);
      assert forall x :: x in xs <==> x in init || x == last by {
        assert xs == init + [last];
      }
      if last in r then r
      else
        assert forall i :: 0 <= i < |r| ==> (r + [last])[i] == r[i];
        r + [last]
  }

  /** The position where `x` first appears. */
  function FirstIndex<T(==)>(xs: seq<T>, x: T): (i: nat)
    requires x in xs
    ensures i < |xs| && xs[i] == x && x !in xs[..i]
    decreases |xs|
  {
    if xs[0] == x then 0
    else
      var i := FirstIndex(xs[1..], x);
      assert xs[..i + 1] == [xs[0]] + xs[1..][..i];
      i + 1
  }

  lemma FirstIndexOfPrefix<T>(xs: seq<T>, ys: seq<T>, x: T)
    requires x in xs
    ensures FirstIndex(xs + ys, x) == FirstIndex(xs, x)
  {
    var i := FirstIndex(xs, x);
    assert (xs + ys)[i] == x;
  }

  /** `r` lists elements of `xs` in the order they first appear there. */
  ghost predicate InFirstOrder<T>(xs: seq<T>, r: seq<T>)
  {
    (forall x :: x in r ==> x in xs) &&
    forall i, j :: 0 <= i < j < |r| && r[i] in xs && r[j] in xs ==>
      FirstIndex(xs, r[i]) < FirstIndex(xs, r[j])
  }

  /** The set keeps first appearances in order: an element listed earlier
    * appeared earlier. */
  lemma {:induction false} DedupOrder<T(!new)>(xs: seq<T>)
    ensures InFirstOrder(xs, Dedup(xs))
    decreases |xs|
  {
    if xs != [] {
      var init := xs[..|xs| - 1];
      var last := xs[|xs| - 1];
      DedupOrder(init);
      var r0 := Dedup(init);
      var r := Dedup(xs);
      assert xs == init + [last];
      forall x | x in init
        ensures FirstIndex(xs, x) == FirstIndex(init, x)
      {
        FirstIndexOfPrefix(init, [last], x);
      }
      if last !in r0 {
        assert r == r0 + [last];
        assert last !in init;
        forall i, j | 0 <= i < j < |r|
          ensures FirstIndex(xs, r[i]) < FirstIndex(xs, r[j])
        {
          assert r[i] == r0[i] && r[i] in init;
          if j < |r0| {
            assert r[j] == r0[j];
          } else {
            assert r[j] == last;
          }
        }
      }
    }
  }

  /** A list without repeats is its own set. */
  lemma {:induction false} DedupDistinct<T(!new)>(xs: seq<T>)
    requires Distinct(xs)
    ensures Dedup(xs) == xs
    decreases |xs|
  {
    if xs != [] {
      var init := xs[..|xs| - 1];
      assert Distinct(init) by {
        forall i, j | 0 <= i < j < |init| ensures init[i] != init[j] {
          assert init[i] == xs[i] && init[j] == xs[j];
        }
      }
      DedupDistinct(init);
      assert xs[|xs| - 1] !in init by {
        forall i | 0 <= i < |init| ensures init[i] != xs[|xs| - 1] {
          assert init[i] == xs[i];
        }
      }
      assert xs == init + [xs[|xs| - 1]];
    }
  }

  /** The substances of a result's initial or final concentrations. */
  function KeysOf(r: LabResult, initial: bool): seq<string>
  {
    if initial then r.initial.keys else r.final.keys
  }

  /** The keys of every result's initial (or final) concentrations, result
    * after result: the `flatMap`. */
  function AllKeys(results: seq<LabResult>, initial: bool): (r: seq<string>)
    ensures forall k :: k in r <==> exists i :: 0 <= i < |results| && k in KeysOf(results[i], initial)
    decreases |results|
  {
    if results == [] then []
    else
      var rest := AllKeys(results[1..], initial);
      var first := KeysOf(results[0], initial);
      assert forall k :: (exists i :: 1 <= i < |results| && k in KeysOf(results[i], initial)) ==> k in rest by {
        forall k | exists i :: 1 <= i < |results| && k in KeysOf(results[i], initial)
          ensures k in rest
        {
          var i :| 1 <= i < |results| && k in KeysOf(results[i], initial);
          assert results[1..][i - 1] == results[i];
        }
      }
      first + rest
  }

  /** `initialConcHeaders` and `finalConcHeaders` */
  function Headers(results: seq<LabResult>, initial: bool): seq<string>
  {
    Dedup(AllKeys(results, initial))
  }

  /** The column of one substance. */
  function SubstanceColumn(prefix: string, header: string): Column
  {
    Column(header, prefix + header, prefix + header, 65)
  }

  function SubstanceColumns(prefix: string, headers: seq<string>): (r: seq<Column>)
    ensures |r| == |headers|
    ensures forall i :: 0 <= i < |headers| ==> r[i] == SubstanceColumn(prefix, headers[i])
  {
    seq(|headers|, i requires 0 <= i < |headers| => SubstanceColumn(prefix, headers[i]))
  }

  /** The fixed "Meta data" columns. */
  const MetaColumns: seq<Column> := [
    Column("Experiment", "name", "name", 200),
    Column("Time", "time", "time", 65),
    Column("Temperature (\U{00B0}C)", "temperature", "temperature", 475),
    Column("Pressure", "pressure", "pressure", 65)
  ]

  /** A dictionary's entries under prefixed keys, each value rounded. */
  function PrefixedCells(prefix: string, d: Dict<string, real>, round: real -> real): (r: seq<Cell>)
    requires d.Valid()
    ensures |r| == |d.keys|
    ensures forall i :: 0 <= i < |d.keys| ==> r[i] == Cell(prefix + d.keys[i], round(d.vals[d.keys[i]]))
  {
    seq(|d.keys|, i requires 0 <= i < |d.keys| => Cell(prefix + d.keys[i], round(d.vals[d.keys[i]])))
  }

  function CellKey(c: Cell): string { c.key }
  function CellValue(c: Cell): real { c.value }

  /** The two `Object.fromEntries` spread into the row, in order. */
  function RowCells(r: LabResult, round: real -> real): seq<Cell>
    requires ValidResult(r)
  {
    PrefixedCells(InitialPrefix, r.initial, round) + PrefixedCells(FinalPrefix, r.final, round)
  }

  /** `String(x)`, given JavaScript's number-to-text conversion. */
  function NullableText(x: Option<real>, show: real -> string): string
  {
    match x
    case None => "null"
    case Some(v) => show(v)
  }

  /** The row of one lab result; `round` is `+Number(v).toPrecision(3)`. */
  function RowOf(r: LabResult, show: real -> string, round: real -> real): Row
    requires ValidResult(r)
  {
    Row(r.name, r.name, NullableText(r.time, show), r.temperature, r.pressure,
        Comprehend(RowCells(r, round), CellKey, CellValue))
  }

  /** `buildLabResultsTableData(labResults)` */
  function BuildLabResultsTableData(results: seq<LabResult>, show: real -> string, round: real -> real): (t: Table)
    requires forall i :: 0 <= i < |results| ==> ValidResult(results[i])
  {
    var columns := [
      Group("Meta data", MetaColumns),
      Group("Input Concentrations", SubstanceColumns(InitialPrefix, Headers(results, true))),
      Group("Output Concentrations", SubstanceColumns(FinalPrefix, Headers(results, false)))
    ];
    var rows := seq(|results|, i requires 0 <= i < |results| => RowOf(results[i], show, round));
    Table(columns, rows)
  }

  /** Three column groups: the meta data, one column per input substance
    * with accessor "in-" + substance, one per output substance with
    * accessor "out-" + substance. One row per result, in order, named and
    * keyed by the experiment. */
  lemma TableShape(results: seq<LabResult>, show: real -> string, round: real -> real)
    requires forall i :: 0 <= i < |results| ==> ValidResult(results[i])
    ensures var t := BuildLabResultsTableData(results, show, round);
            |t.columns| == 3 &&
            t.columns[0] == Group("Meta data", MetaColumns) &&
            t.columns[1].header == "Input Concentrations" &&
            t.columns[2].header == "Output Concentrations" &&
            |t.columns[1].columns| == |Headers(results, true)| &&
            (forall i :: 0 <= i < |Headers(results, true)| ==>
               t.columns[1].columns[i].accessorKey == InitialPrefix + Headers(results, true)[i] &&
               t.columns[1].columns[i].header == Headers(results, true)[i]) &&
            |t.columns[2].columns| == |Headers(results, false)| &&
            (forall i :: 0 <= i < |Headers(results, false)| ==>
               t.columns[2].columns[i].accessorKey == FinalPrefix + Headers(results, false)[i] &&
               t.columns[2].columns[i].header == Headers(results, false)[i]) &&
            |t.rows| == |results| &&
            forall i :: 0 <= i < |results| ==>
              t.rows[i].id == results[i].name && t.rows[i].name == results[i].name &&
              t.rows[i].time == NullableText(results[i].time, show)
  {
  }

  /** The substance headers are distinct, are exactly the substances some
    * result has, and come in the order they first appear. */
  lemma HeadersSpec(results: seq<LabResult>, initial: bool)
    ensures var h := Headers(results, initial);
            Distinct(h) &&
            (forall k :: k in h <==> exists i :: 0 <= i < |results| && k in KeysOf(results[i], initial)) &&
            InFirstOrder(AllKeys(results, initial), h)
  {
    DedupOrder(AllKeys(results, initial));
  }

  /** Different keys stay different under one prefix. */
  lemma PrefixInjective(prefix: string, a: string, b: string)
    requires prefix + a == prefix + b
    ensures a == b
  {
    assert a == (prefix + a)[|prefix|..];
    assert b == (prefix + b)[|prefix|..];
  }

  /** An input key and an output key never clash. */
  lemma PrefixesDiffer(a: string, b: string)
    ensures InitialPrefix + a != FinalPrefix + b
  {
    assert (InitialPrefix + a)[0] == 'i';
    assert (FinalPrefix + b)[0] == 'o';
  }

  /** No later entry of a row repeats the key of an initial entry. */
  lemma InitialCellLast(r: LabResult, round: real -> real, i: nat)
    requires ValidResult(r) && i < |r.initial.keys|
    ensures var xs := RowCells(r, round);
            forall j :: i < j < |xs| ==> CellKey(xs[j]) != CellKey(xs[i])
  {
    var xs := RowCells(r, round);
    var ins := PrefixedCells(InitialPrefix, r.initial, round);
    var outs := PrefixedCells(FinalPrefix, r.final, round);
    forall j | i < j < |xs|
      ensures CellKey(xs[j]) != CellKey(xs[i])
    {
      assert xs[i] == ins[i];
      if j < |ins| {
        assert xs[j] == ins[j];
        if CellKey(xs[j]) == CellKey(xs[i]) {
          PrefixInjective(InitialPrefix, r.initial.keys[j], r.initial.keys[i]);
        }
      } else {
        assert xs[j] == outs[j - |ins|];
        PrefixesDiffer(r.initial.keys[i], r.final.keys[j - |ins|]);
      }
    }
  }

  /** No later entry of a row repeats the key of a final entry. */
  lemma FinalCellLast(r: LabResult, round: real -> real, i: nat)
    requires ValidResult(r) && i < |r.final.keys|
    ensures var xs := RowCells(r, round);
            forall j :: |r.initial.keys| + i < j < |xs| ==> CellKey(xs[j]) != CellKey(xs[|r.initial.keys| + i])
  {
    var xs := RowCells(r, round);
    var ins := PrefixedCells(InitialPrefix, r.initial, round);
    var outs := PrefixedCells(FinalPrefix, r.final, round);
    var n := |ins| + i;
    forall j | n < j < |xs|
      ensures CellKey(xs[j]) != CellKey(xs[n])
    {
      assert xs[n] == outs[i];
      assert xs[j] == outs[j - |ins|];
      if CellKey(xs[j]) == CellKey(xs[n]) {
        PrefixInjective(FinalPrefix, r.final.keys[j - |ins|], r.final.keys[i]);
      }
    }
  }

  /** Each of a row's entries comes from an initial or a final entry. */
  lemma CellOrigin(r: LabResult, round: real -> real, key: string)
    requires ValidResult(r)
    requires key in Comprehend(RowCells(r, round), CellKey, CellValue).vals
    ensures (exists k :: k in r.initial.vals && key == InitialPrefix + k) ||
            (exists k :: k in r.final.vals && key == FinalPrefix + k)
  {
    var xs := RowCells(r, round);
    var ins := PrefixedCells(InitialPrefix, r.initial, round);
    var outs := PrefixedCells(FinalPrefix, r.final, round);
    ComprehendKeys(xs, CellKey, CellValue, key);
    var i :| 0 <= i < |xs| && CellKey(xs[i]) == key;
    if i < |ins| {
      var k := r.initial.keys[i];
      assert xs[i] == ins[i] == Cell(InitialPrefix + k, round(r.initial.vals[k]));
      assert k in r.initial.vals && key == InitialPrefix + k;
    } else {
      var k := r.final.keys[i - |ins|];
      assert xs[i] == outs[i - |ins|] == Cell(FinalPrefix + k, round(r.final.vals[k]));
      assert k in r.final.vals && key == FinalPrefix + k;
    }
  }

  /** The cell of an initial substance holds its rounded value. */
  lemma InitialCell(r: LabResult, round: real -> real, k: string)
    requires ValidResult(r) && k in r.initial.vals
    ensures var cells := Comprehend(RowCells(r, round), CellKey, CellValue);
            InitialPrefix + k in cells.vals && cells.vals[InitialPrefix + k] == round(r.initial.vals[k])
  {
    var xs := RowCells(r, round);
    var i :| 0 <= i < |r.initial.keys| && r.initial.keys[i] == k;
    assert xs[i] == PrefixedCells(InitialPrefix, r.initial, round)[i];
    InitialCellLast(r, round, i);
    ComprehendLastWins(xs, CellKey, CellValue, i);
  }

  /** The cell of a final substance holds its rounded value. */
  lemma FinalCell(r: LabResult, round: real -> real, k: string)
    requires ValidResult(r) && k in r.final.vals
    ensures var cells := Comprehend(RowCells(r, round), CellKey, CellValue);
            FinalPrefix + k in cells.vals && cells.vals[FinalPrefix + k] == round(r.final.vals[k])
  {
    var xs := RowCells(r, round);
    var n := |r.initial.keys|;
    var i :| 0 <= i < |r.final.keys| && r.final.keys[i] == k;
    assert xs[n + i] == PrefixedCells(FinalPrefix, r.final, round)[i];
    FinalCellLast(r, round, i);
    ComprehendLastWins(xs, CellKey, CellValue, n + i);
  }

  /** A row has "in-" + k for each initial substance k and "out-" + k for
    * each final one, with its rounded value, and no other entry. */
  lemma RowCellsSpec(r: LabResult, show: real -> string, round: real -> real)
    requires ValidResult(r)
    ensures var cells := RowOf(r, show, round).cells;
            (forall k :: k in r.initial.vals ==>
               InitialPrefix + k in cells.vals && cells.vals[InitialPrefix + k] == round(r.initial.vals[k])) &&
            (forall k :: k in r.final.vals ==>
               FinalPrefix + k in cells.vals && cells.vals[FinalPrefix + k] == round(r.final.vals[k])) &&
            forall key :: key in cells.vals ==>
              (exists k :: k in r.initial.vals && key == InitialPrefix + k) ||
              (exists k :: k in r.final.vals && key == FinalPrefix + k)
  {
    forall k | k in r.initial.vals
      ensures var cells := Comprehend(RowCells(r, round), CellKey, CellValue);
              InitialPrefix + k in cells.vals && cells.vals[InitialPrefix + k] == round(r.initial.vals[k])
    {
      InitialCell(r, round, k);
    }
    forall k | k in r.final.vals
      ensures var cells := Comprehend(RowCells(r, round), CellKey, CellValue);
              FinalPrefix + k in cells.vals && cells.vals[FinalPrefix + k] == round(r.final.vals[k])
    {
      FinalCell(r, round, k);
    }
    forall key | key in Comprehend(RowCells(r, round), CellKey, CellValue).vals
      ensures (exists k :: k in r.initial.vals && key == InitialPrefix + k) ||
              (exists k :: k in r.final.vals && key == FinalPrefix + k)
    {
      CellOrigin(r, round, key);
    }
  }

  /** The substance columns' accessors. */
  function Accessors(t: Table): seq<string>
    requires |t.columns| == 3
  {
    seq(|t.columns[1].columns| + |t.columns[2].columns|,
        i requires 0 <= i < |t.columns[1].columns| + |t.columns[2].columns| =>
          (t.columns[1].columns + t.columns[2].columns)[i].accessorKey)
  }

  lemma AccessorsOf(results: seq<LabResult>, show: real -> string, round: real -> real, key: string)
    requires forall j :: 0 <= j < |results| ==> ValidResult(results[j])
    requires key in Accessors(BuildLabResultsTableData(results, show, round))
    ensures (exists h :: h in Headers(results, true) && key == InitialPrefix + h) ||
            (exists h :: h in Headers(results, false) && key == FinalPrefix + h)
  {
    var t := BuildLabResultsTableData(results, show, round);
    var hin := Headers(results, true);
    var hout := Headers(results, false);
    var cs := t.columns[1].columns + t.columns[2].columns;
    var p :| 0 <= p < |cs| && Accessors(t)[p] == key;
    if p < |hin| {
      assert cs[p] == SubstanceColumn(InitialPrefix, hin[p]);
      assert hin[p] in hin && key == InitialPrefix + hin[p];
    } else {
      assert cs[p] == SubstanceColumn(FinalPrefix, hout[p - |hin|]);
      assert hout[p - |hin|] in hout && key == FinalPrefix + hout[p - |hin|];
    }
  }

  /** The accessors are "in-" + an input header or "out-" + an output
    * header. */
  lemma AccessorsSpec(results: seq<LabResult>, show: real -> string, round: real -> real, key: string)
    requires forall j :: 0 <= j < |results| ==> ValidResult(results[j])
    ensures var t := BuildLabResultsTableData(results, show, round);
            key in Accessors(t) <==>
              (exists h :: h in Headers(results, true) && key == InitialPrefix + h) ||
              (exists h :: h in Headers(results, false) && key == FinalPrefix + h)
  {
    var t := BuildLabResultsTableData(results, show, round);
    var hin := Headers(results, true);
    var hout := Headers(results, false);
    if key in Accessors(t) {
      AccessorsOf(results, show, round, key);
    }
    if h :| h in hin && key == InitialPrefix + h {
      HeaderAccessor(results, show, round, h, true);
    }
    if h :| h in hout && key == FinalPrefix + h {
      HeaderAccessor(results, show, round, h, false);
    }
  }

  lemma HeaderAccessor(results: seq<LabResult>, show: real -> string, round: real -> real, h: string, initial: bool)
    requires forall j :: 0 <= j < |results| ==> ValidResult(results[j])
    requires h in Headers(results, initial)
    ensures (if initial then InitialPrefix else FinalPrefix) + h in Accessors(BuildLabResultsTableData(results, show, round))
  {
    var t := BuildLabResultsTableData(results, show, round);
    var hs := Headers(results, initial);
    var n := |Headers(results, true)|;
    var p :| 0 <= p < |hs| && hs[p] == h;
    var q := if initial then p else n + p;
    AccessorAt(results, show, round, q);
    assert Accessors(t)[q] == (if initial then InitialPrefix else FinalPrefix) + h;
  }

  /** The accessor in each position. */
  lemma AccessorAt(results: seq<LabResult>, show: real -> string, round: real -> real, p: nat)
    requires forall j :: 0 <= j < |results| ==> ValidResult(results[j])
    requires p < |Headers(results, true)| + |Headers(results, false)|
    ensures var t := BuildLabResultsTableData(results, show, round);
            var n := |Headers(results, true)|;
            p < |Accessors(t)| &&
            Accessors(t)[p] == if p < n then InitialPrefix + Headers(results, true)[p]
                               else FinalPrefix + Headers(results, false)[p - n]
  {
  }

  /** Every entry of every row has a column. */
  lemma CellHasColumn(results: seq<LabResult>, show: real -> string, round: real -> real, i: nat, key: string)
    requires forall j :: 0 <= j < |results| ==> ValidResult(results[j])
    requires i < |results|
    ensures var t := BuildLabResultsTableData(results, show, round);
            key in t.rows[i].cells.vals ==> key in Accessors(t)
  {
    var t := BuildLabResultsTableData(results, show, round);
    assert t.rows[i] == RowOf(results[i], show, round);
    if key in t.rows[i].cells.vals {
      RowCellsSpec(results[i], show, round);
      HeadersSpec(results, true);
      HeadersSpec(results, false);
      AccessorsSpec(results, show, round, key);
      if k :| k in results[i].initial.vals && key == InitialPrefix + k {
        assert k in Headers(results, true);
      } else {
        var k :| k in results[i].final.vals && key == FinalPrefix + k;
        assert k in Headers(results, false);
      }
    }
  }

  /** Every substance column is filled by at least one row. */
  lemma ColumnHasCell(results: seq<LabResult>, show: real -> string, round: real -> real, key: string)
    requires forall j :: 0 <= j < |results| ==> ValidResult(results[j])
    ensures var t := BuildLabResultsTableData(results, show, round);
            key in Accessors(t) ==> exists j :: 0 <= j < |results| && key in t.rows[j].cells.vals
  {
    var t := BuildLabResultsTableData(results, show, round);
    if key in Accessors(t) {
      AccessorsSpec(results, show, round, key);
      if h :| h in Headers(results, true) && key == InitialPrefix + h {
        HeadersSpec(results, true);
        var j :| 0 <= j < |results| && h in KeysOf(results[j], true);
        CellInRow(results, show, round, j, h, true);
      } else {
        var h :| h in Headers(results, false) && key == FinalPrefix + h;
        HeadersSpec(results, false);
        var j :| 0 <= j < |results| && h in KeysOf(results[j], false);
        CellInRow(results, show, round, j, h, false);
      }
    }
  }

  /** A result's own concentrations fill its row. */
  lemma CellInRow(results: seq<LabResult>, show: real -> string, round: real -> real, j: int, h: string, initial: bool)
    requires forall j :: 0 <= j < |results| ==> ValidResult(results[j])
    requires 0 <= j < |results| && h in KeysOf(results[j], initial)
    ensures (if initial then InitialPrefix else FinalPrefix) + h in BuildLabResultsTableData(results, show, round).rows[j].cells.vals
  {
    RowCellsSpec(results[j], show, round);
    assert BuildLabResultsTableData(results, show, round).rows[j] == RowOf(results[j], show, round);
  }
}
