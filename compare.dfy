/** The page comparing simulations side by side: which simulations, the
  * result each one's primary model gave, whether their inputs agree, the
  * substances shown, and the bar chart's data. */
module Compare {
  import opened Common
  import opened Text

  // ---------------------------------------------------------------------
  // The "ids" search parameter

  predicate NonEmpty(s: string) { s != "" }

  /** `idsParam ? idsParam.split(",").filter(Boolean) : []` */
  function SimulationIds(idsParam: Option<string>): (ids: seq<string>)
    ensures forall i :: 0 <= i < |ids| ==> ids[i] != "" && ',' !in ids[i]
  {
    match idsParam
    case None => []
    case Some(p) =>
      if p == "" then []
      else
        var r := Filter(Split(p, ','), NonEmpty);
        assert forall i :: 0 <= i < |r| ==> r[i] in Split(p, ',');
        r
  }

  /** Ids that are not empty and hold no comma, joined by commas in the
    * link, are read back as they were. */
  lemma IdsRoundTrip(ids: seq<string>)
    requires ids != [] && forall i :: 0 <= i < |ids| ==> ids[i] != "" && ',' !in ids[i]
    ensures SimulationIds(Some(Join(ids, ','))) == ids
  {
    SplitJoin(ids, ',');
    FilterAll(ids, NonEmpty);
    assert Join(ids, ',') != "" by {
      if |ids| > 1 {
        assert |Join(ids, ',')| >= |ids[0]| + 1;
      }
    }
  }

  // ---------------------------------------------------------------------
  // The primary stage of each result

  /** The fields of a chained result's stage the page reads. */
  datatype Stage = Stage(status: string, modelId: string, inputConcentrations: Dict<string, real>,
                         finalConcentrations: Option<Dict<string, real>>)

  predicate IsPrimaryStage(s: Stage)
  {
    s.status == "done" && s.finalConcentrations.Some?
  }

  /** `stages.find(stage => stage.status === "done" && stage.finalConcentrations)`,
    * as a position. */
  function FindPrimary(stages: seq<Stage>): (r: Option<nat>)
    ensures r.Some? ==> r.value < |stages| && IsPrimaryStage(stages[r.value])
    ensures r.Some? ==> forall j :: 0 <= j < r.value ==> !IsPrimaryStage(stages[j])
    ensures r.None? ==> forall j :: 0 <= j < |stages| ==> !IsPrimaryStage(stages[j])
    decreases |stages|
  {
    if stages == [] then None
    else if IsPrimaryStage(stages[0]) then Some(0)
    else match FindPrimary(stages[1..])
      case None => None
      case Some(k) => Some(k + 1)
  }

  datatype PrimaryResult = PrimaryResult(id: string, modelName: string,
                                         concentrations: Dict<string, real>,
                                         inputConcentrations: Dict<string, real>)

  /** The entry of one result: its model's id (or "Unknown" when there is
    * no primary stage or its id is empty) and its maps (or `{}`). */
  function PrimaryOf(id: string, stages: seq<Stage>): (p: PrimaryResult)
    ensures p.id == id
    ensures match FindPrimary(stages)
            case None => p.modelName == "Unknown" && p.concentrations == Dict.Empty() &&
                         p.inputConcentrations == Dict.Empty()
            case Some(k) => p.modelName == (if stages[k].modelId == "" then "Unknown" else stages[k].modelId) &&
                            p.concentrations == stages[k].finalConcentrations.value &&
                            p.inputConcentrations == stages[k].inputConcentrations
  {
    match FindPrimary(stages)
    case None => PrimaryResult(id, "Unknown", Dict.Empty(), Dict.Empty())
    case Some(k) =>
      var s := stages[k];
      PrimaryResult(id, if s.modelId == "" then "Unknown" else s.modelId,
                    s.finalConcentrations.value, s.inputConcentrations)
  }

  /** `primaryResults`: one entry per simulation, in order; there is one
    * result per id, fetched for it. */
  function PrimaryResults(ids: seq<string>, results: seq<seq<Stage>>): (prs: seq<PrimaryResult>)
    requires |results| == |ids|
    ensures |prs| == |ids|
    ensures forall i :: 0 <= i < |ids| ==> prs[i] == PrimaryOf(ids[i], results[i])
  {
    seq(|ids|, i requires 0 <= i < |ids| => PrimaryOf(ids[i], results[i]))
  }

  // ---------------------------------------------------------------------
  // Whether the inputs agree

  /** `checkInputsMatch()`: fewer than two results match trivially;
    * otherwise every input map is the first one. */
  predicate InputsMatch(prs: seq<PrimaryResult>)
  {
    |prs| < 2 || forall i :: 0 <= i < |prs| ==> prs[i].inputConcentrations.vals == prs[0].inputConcentrations.vals
  }

  /** The inputs match exactly when any two results have the same input
    * map. */
  lemma InputsMatchPairwise(prs: seq<PrimaryResult>)
    ensures InputsMatch(prs) <==>
            forall i, j :: 0 <= i < |prs| && 0 <= j < |prs| ==>
              prs[i].inputConcentrations.vals == prs[j].inputConcentrations.vals
  {
    if |prs| >= 2 && InputsMatch(prs) {
      forall i, j | 0 <= i < |prs| && 0 <= j < |prs|
        ensures prs[i].inputConcentrations.vals == prs[j].inputConcentrations.vals
      {
        assert prs[i].inputConcentrations.vals == prs[0].inputConcentrations.vals;
        assert prs[j].inputConcentrations.vals == prs[0].inputConcentrations.vals;
      }
    }
  }

  // ---------------------------------------------------------------------
  // The substances shown

  /** JavaScript's default `sort()` order on text: code unit by code unit,
    * a prefix first. */
  predicate StrLe(a: string, b: string)
    decreases |a|
  {
    a == [] || (b != [] && (a[0] < b[0] || (a[0] == b[0] && StrLe(a[1..], b[1..]))))
  }

  lemma {:induction false} StrLeTotal(a: string, b: string)
    ensures StrLe(a, b) || StrLe(b, a)
    decreases |a|
  {
    if a != [] && b != [] && a[0] == b[0] {
      StrLeTotal(a[1..], b[1..]);
    }
  }

  lemma {:induction false} StrLeAntisymmetric(a: string, b: string)
    requires StrLe(a, b) && StrLe(b, a)
    ensures a == b
    decreases |a|
  {
    if a != [] {
      StrLeAntisymmetric(a[1..], b[1..]);
      assert a == [a[0]] + a[1..] && b == [b[0]] + b[1..];
    }
  }

  lemma {:induction false} StrLeTransitive(a: string, b: string, c: string)
    requires StrLe(a, b) && StrLe(b, c)
    ensures StrLe(a, c)
    decreases |a|
  {
    if a != [] && a[0] == b[0] && b[0] == c[0] {
      StrLeTransitive(a[1..], b[1..], c[1..]);
    }
  }

  predicate SortedStrings(s: seq<string>)
  {
    forall i, j :: 0 <= i < j < |s| ==> StrLe(s[i], s[j])
  }

  /** Puts `x` ahead of the first element it does not come after. */
  function InsertString(x: string, ys: seq<string>): (r: seq<string>)
    ensures multiset(r) == multiset(ys) + multiset{x}
  {
    if ys == [] || StrLe(x, ys[0]) then [x] + ys
    else
      assert ys == [ys[0]] + ys[1..];
      [ys[0]] + InsertString(x, ys[1..])
  }

  lemma {:induction false} InsertStringSorted(x: string, ys: seq<string>)
    requires SortedStrings(ys)
    ensures SortedStrings(InsertString(x, ys))
    decreases |ys|
  {
    var r := InsertString(x, ys);
    if ys == [] {
    } else if StrLe(x, ys[0]) {
      forall i, j | 0 <= i < j < |r| ensures StrLe(r[i], r[j]) {
        if i == 0 {
          assert r[j] == ys[j - 1];
          if j > 1 {
            StrLeTransitive(x, ys[0], ys[j - 1]);
          }
        } else {
          assert r[i] == ys[i - 1] && r[j] == ys[j - 1];
        }
      }
    } else {
      StrLeTotal(x, ys[0]);
      InsertStringSorted(x, ys[1..]);
      var tail := InsertString(x, ys[1..]);
      assert r == [ys[0]] + tail;
      forall i, j | 0 <= i < j < |r| ensures StrLe(r[i], r[j]) {
        if i == 0 {
          assert r[j] == tail[j - 1];
          assert r[j] in multiset(tail);
          assert r[j] == x || r[j] in ys[1..];
          if r[j] != x {
            var k :| 0 <= k < |ys[1..]| && ys[1..][k] == r[j];
            assert ys[k + 1] == r[j];
          }
        } else {
          assert r[i] == tail[i - 1] && r[j] == tail[j - 1];
        }
      }
    }
  }

  /** `.sort()` on text. */
  function SortStrings(xs: seq<string>): (r: seq<string>)
    ensures multiset(r) == multiset(xs)
  {
    if xs == [] then []
    else
      assert xs == [xs[0]] + xs[1..];
      InsertString(xs[0], SortStrings(xs[1..]))
  }

  lemma {:induction false} SortStringsSpec(xs: seq<string>)
    ensures SortedStrings(SortStrings(xs))
    ensures Distinct(xs) ==> Distinct(SortStrings(xs))
    decreases |xs|
  {
    if xs != [] {
      SortStringsSpec(xs[1..]);
      InsertStringSorted(xs[0], SortStrings(xs[1..]));
      if Distinct(xs) {
        assert Distinct(xs[1..]) by {
          forall i, j | 0 <= i < j < |xs[1..]| ensures xs[1..][i] != xs[1..][j] {
            assert xs[1..][i] == xs[i + 1] && xs[1..][j] == xs[j + 1];
          }
        }
        assert xs[0] !in xs[1..] by {
          forall k | 0 <= k < |xs[1..]| ensures xs[1..][k] != xs[0] {
            assert xs[1..][k] == xs[k + 1];
          }
        }
        assert xs[0] !in multiset(SortStrings(xs[1..]));
        InsertDistinct(xs[0], SortStrings(xs[1..]));
      }
    }
  }

  lemma {:induction false} InsertDistinct(x: string, ys: seq<string>)
    requires Distinct(ys) && x !in ys
    ensures Distinct(InsertString(x, ys))
    decreases |ys|
  {
    var r := InsertString(x, ys);
    if ys == [] || StrLe(x, ys[0]) {
      forall i, j | 0 <= i < j < |r| ensures r[i] != r[j] {
        if i > 0 {
          assert r[i] == ys[i - 1] && r[j] == ys[j - 1];
        } else {
          assert r[j] == ys[j - 1];
        }
      }
    } else {
      assert Distinct(ys[1..]) by {
        forall i, j | 0 <= i < j < |ys[1..]| ensures ys[1..][i] != ys[1..][j] {
          assert ys[1..][i] == ys[i + 1] && ys[1..][j] == ys[j + 1];
        }
      }
      InsertDistinct(x, ys[1..]);
      var tail := InsertString(x, ys[1..]);
      assert ys[0] !in ys[1..] by {
        forall k | 0 <= k < |ys[1..]| ensures ys[1..][k] != ys[0] {
          assert ys[1..][k] == ys[k + 1];
        }
      }
      assert ys[0] !in multiset(tail);
      forall i, j | 0 <= i < j < |r| ensures r[i] != r[j] {
        if i > 0 {
          assert r[i] == tail[i - 1] && r[j] == tail[j - 1];
        } else {
          assert r[j] == tail[j - 1] && r[j] in tail;
        }
      }
    }
  }

  /** The map a field names: `"concentrations"` or `"inputConcentrations"`. */
  function Field(p: PrimaryResult, inputs: bool): Dict<string, real>
  {
    if inputs then p.inputConcentrations else p.concentrations
  }

  /** The substances some result has in that field. */
  ghost predicate InSomeField(prs: seq<PrimaryResult>, inputs: bool, x: string)
  {
    exists i :: 0 <= i < |prs| && x in Field(prs[i], inputs).keys
  }

  /** `collectSubstances(field)`: every key of the field of every result,
    * added to a set, then the set's elements sorted. */
  method CollectSubstances(prs: seq<PrimaryResult>, inputs: bool) returns (r: seq<string>)
    ensures SortedStrings(r) && Distinct(r)
    ensures forall x :: x in r <==> InSomeField(prs, inputs, x)
  {
    var substances: seq<string> := [];
    var i := 0;
    while i < |prs|
      invariant 0 <= i <= |prs|
      invariant Distinct(substances)
      invariant forall x :: x in substances <==> InSomeField(prs[..i], inputs, x)
    {
      var keys := Field(prs[i], inputs).keys;
      var j := 0;
      while j < |keys|
        invariant 0 <= j <= |keys|
        invariant Distinct(substances)
        invariant forall x :: x in substances <==> InSomeField(prs[..i], inputs, x) || x in keys[..j]
      {
        if keys[j] !in substances {
          DistinctSnoc(substances, keys[j]);
          substances := substances + [keys[j]];
        }
        assert keys[..j + 1] == keys[..j] + [keys[j]];
        j := j + 1;
      }
      assert keys[..j] == keys;
      InSomeFieldStep(prs, inputs, i);
      i := i + 1;
    }
    assert prs[..i] == prs;
    r := SortStrings(substances);
    SortStringsSpec(substances);
    assert forall x :: x in r <==> x in multiset(substances);
  }

  lemma DistinctSnoc(s: seq<string>, x: string)
    requires Distinct(s) && x !in s
    ensures Distinct(s + [x])
  {
    var t := s + [x];
    forall i, j | 0 <= i < j < |t| ensures t[i] != t[j] {
      if j < |s| {
        assert t[i] == s[i] && t[j] == s[j];
      } else {
        assert t[i] == s[i];
      }
    }
  }

  lemma InSomeFieldStep(prs: seq<PrimaryResult>, inputs: bool, i: nat)
    requires i < |prs|
    ensures forall x :: InSomeField(prs[..i + 1], inputs, x) <==>
              InSomeField(prs[..i], inputs, x) || x in Field(prs[i], inputs).keys
  {
    forall x ensures InSomeField(prs[..i + 1], inputs, x) <==>
                     InSomeField(prs[..i], inputs, x) || x in Field(prs[i], inputs).keys
    {
      if InSomeField(prs[..i + 1], inputs, x) {
        var k :| 0 <= k < i + 1 && x in Field(prs[..i + 1][k], inputs).keys;
        if k < i {
          assert prs[..i + 1][k] == prs[..i][k];
        }
      }
      if InSomeField(prs[..i], inputs, x) {
        var k :| 0 <= k < i && x in Field(prs[..i][k], inputs).keys;
        assert prs[..i + 1][k] == prs[..i][k];
      }
      if x in Field(prs[i], inputs).keys {
        assert prs[..i + 1][i] == prs[i];
      }
    }
  }

  /** Two sorted lists without repeats that hold the same elements are the
    * same list: the substances do not depend on the order they were
    * added in. */
  lemma {:induction false} SortedUnique(a: seq<string>, b: seq<string>)
    requires SortedStrings(a) && Distinct(a) && SortedStrings(b) && Distinct(b)
    requires forall x :: x in a <==> x in b
    ensures a == b
    decreases |a|
  {
    if a != [] {
      assert a[0] in b;
    }
    if b != [] {
      assert b[0] in a;
    }
    if a != [] && b != [] {
      var i :| 0 <= i < |a| && a[i] == b[0];
      var j :| 0 <= j < |b| && b[j] == a[0];
      if a[0] != b[0] {
        assert StrLe(a[0], a[i]) && StrLe(b[0], b[j]);
        StrLeAntisymmetric(a[0], b[0]);
      }
      forall x ensures x in a[1..] <==> x in b[1..] {
        if x in a[1..] {
          var k :| 0 <= k < |a[1..]| && a[1..][k] == x;
          assert a[k + 1] == x && x != a[0];
          assert x in b;
        }
        if x in b[1..] {
          var k :| 0 <= k < |b[1..]| && b[1..][k] == x;
          assert b[k + 1] == x && x != b[0];
          assert x in a;
        }
      }
      assert Distinct(a[1..]) by {
        forall p, q | 0 <= p < q < |a[1..]| ensures a[1..][p] != a[1..][q] {
          assert a[1..][p] == a[p + 1] && a[1..][q] == a[q + 1];
        }
      }
      assert Distinct(b[1..]) by {
        forall p, q | 0 <= p < q < |b[1..]| ensures b[1..][p] != b[1..][q] {
          assert b[1..][p] == b[p + 1] && b[1..][q] == b[q + 1];
        }
      }
      assert SortedStrings(a[1..]) by {
        forall p, q | 0 <= p < q < |a[1..]| ensures StrLe(a[1..][p], a[1..][q]) {
          assert a[1..][p] == a[p + 1] && a[1..][q] == a[q + 1];
        }
      }
      assert SortedStrings(b[1..]) by {
        forall p, q | 0 <= p < q < |b[1..]| ensures StrLe(b[1..][p], b[1..][q]) {
          assert b[1..][p] == b[p + 1] && b[1..][q] == b[q + 1];
        }
      }
      SortedUnique(a[1..], b[1..]);
      assert a == [a[0]] + a[1..] && b == [b[0]] + b[1..];
    }
  }

  // ---------------------------------------------------------------------
  // The significant substances and the chart

  /** `result.concentrations[substance] || 0`: a missing value is 0. */
  function ValueOf(p: PrimaryResult, substance: string): (v: real)
    ensures substance !in p.concentrations.vals ==> v == 0.0
    ensures substance in p.concentrations.vals ==> v == p.concentrations.vals[substance]
  {
    GetOr(p.concentrations.vals, substance, 0.0)
  }

  const Threshold: real := 0.01

  ghost predicate Significant(prs: seq<PrimaryResult>, substance: string)
  {
    exists i :: 0 <= i < |prs| && ValueOf(prs[i], substance) >= Threshold
  }

  function SomeAbove(prs: seq<PrimaryResult>, substance: string): (b: bool)
    ensures b <==> Significant(prs, substance)
    decreases |prs|
  {
    if prs == [] then false
    else if ValueOf(prs[0], substance) >= Threshold then true
    else
      var b := SomeAbove(prs[1..], substance);
      assert Significant(prs[1..], substance) ==> Significant(prs, substance) by {
        if Significant(prs[1..], substance) {
          var k :| 0 <= k < |prs[1..]| && ValueOf(prs[1..][k], substance) >= Threshold;
          assert prs[1..][k] == prs[k + 1];
        }
      }
      b
  }

  function SignificanceTest(prs: seq<PrimaryResult>): string -> bool
  {
    (s: string) => SomeAbove(prs, s)
  }

  /** `significantOutputSubstances`: the substances, in order, that some
    * result has at least 0.01 of. */
  function SignificantSubstances(substances: seq<string>, prs: seq<PrimaryResult>): (r: seq<string>)
    ensures forall x :: x in r <==> x in substances && Significant(prs, x)
    ensures |r| <= |substances|
  {
    Filter(substances, SignificanceTest(prs))
  }

  datatype Point = Point(x: string, y: real)
  datatype DataSet = DataSet(caption: string, data: seq<Point>)

  /** `result.id.slice(0, 8)` */
  function ShortId(id: string): (r: string)
    ensures |r| <= 8 && |r| <= |id| && r == id[..|r|]
    ensures |id| >= 8 ==> |r| == 8
  {
    if |id| <= 8 then id else id[..8]
  }

  /** `chartData`: one data set per result, labelled with its model and
    * short id, with one point per significant substance. */
  function ChartData(prs: seq<PrimaryResult>, significant: seq<string>): (r: seq<DataSet>)
    ensures |r| == |prs|
    ensures forall i :: 0 <= i < |prs| ==>
              r[i].caption == prs[i].modelName + " (" + ShortId(prs[i].id) + ")" &&
              |r[i].data| == |significant| &&
              forall j :: 0 <= j < |significant| ==>
                r[i].data[j] == Point(significant[j], ValueOf(prs[i], significant[j]))
  {
    seq(|prs|, i requires 0 <= i < |prs| =>
      DataSet(prs[i].modelName + " (" + ShortId(prs[i].id) + ")",
              seq(|significant|, j requires 0 <= j < |significant| =>
                Point(significant[j], ValueOf(prs[i], significant[j])))))
  }

  /** Every bar that is drawn belongs to a substance some result has at
    * least 0.01 of, and a result without that substance draws 0. */
  lemma ChartShowsSignificant(prs: seq<PrimaryResult>, substances: seq<string>, i: nat, j: nat)
    requires i < |prs|
    requires j < |SignificantSubstances(substances, prs)|
    ensures var sig := SignificantSubstances(substances, prs);
            var pt := ChartData(prs, sig)[i].data[j];
            pt.x in substances && Significant(prs, pt.x) &&
            (pt.x !in prs[i].concentrations.vals ==> pt.y == 0.0)
  {
    var sig := SignificantSubstances(substances, prs);
    assert sig[j] in sig;
  }
}
