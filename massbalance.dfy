/** What the two mass-balance panels share: a tally of element masses kept
  * in a JavaScript object (insertion-ordered), and the error score that
  * compares the masses going into a simulation with those coming out. */
module MassBalance {
  import opened Common

  /** Element name to amount, in the order the names were first added. */
  type Tally = Dict<string, real>

  /** `t[name] = (t[name] ?? 0) + x`: a new name goes last. */
  function AddOne(t: Tally, name: string, x: real): Tally
  {
    Dict(if name in t.vals then t.keys else t.keys + [name], t.vals[name := GetOr(t.vals, name, 0.0) + x])
  }

  /** The tally after adding the first `n` entries of `from`, one
    * `AddOne` each, in `from`'s order. */
  function AddPrefix(into: Tally, from: Tally, n: nat): Tally
    requires n <= |from.keys|
  {
    if n == 0 then into
    else AddOne(AddPrefix(into, from, n - 1), from.keys[n - 1], GetOr(from.vals, from.keys[n - 1], 0.0))
  }

  lemma AddOneValid(t: Tally, name: string, x: real)
    requires t.Valid()
    ensures AddOne(t, name, x) == t.Put(name, GetOr(t.vals, name, 0.0) + x)
    ensures AddOne(t, name, x).Valid()
  {
  }

  /** The additions keep a tally well formed. */
  lemma {:induction false} AddPrefixValid(into: Tally, from: Tally, n: nat)
    requires into.Valid() && n <= |from.keys|
    ensures AddPrefix(into, from, n).Valid()
  {
    if n > 0 {
      AddPrefixValid(into, from, n - 1);
      AddOneValid(AddPrefix(into, from, n - 1), from.keys[n - 1], GetOr(from.vals, from.keys[n - 1], 0.0));
    }
  }

  /** The same additions on the amounts alone. */
  function SumInto(m: map<string, real>, names: seq<string>, amounts: map<string, real>): map<string, real>
  {
    if names == [] then m
    else
      var last := names[|names| - 1];
      var p := SumInto(m, names[..|names| - 1], amounts);
      p[last := GetOr(p, last, 0.0) + GetOr(amounts, last, 0.0)]
  }

  lemma SumIntoStep(m: map<string, real>, names: seq<string>, amounts: map<string, real>, p: map<string, real>)
    requires |names| > 0 && p == SumInto(m, names[..|names| - 1], amounts)
    ensures SumInto(m, names, amounts) ==
              p[names[|names| - 1] := GetOr(p, names[|names| - 1], 0.0) + GetOr(amounts, names[|names| - 1], 0.0)]
  {
  }

  lemma AddPrefixStep(into: Tally, from: Tally, n: nat, p: Tally)
    requires 0 < n <= |from.keys| && p == AddPrefix(into, from, n - 1)
    ensures AddPrefix(into, from, n).vals ==
              p.vals[from.keys[n - 1] := GetOr(p.vals, from.keys[n - 1], 0.0) + GetOr(from.vals, from.keys[n - 1], 0.0)]
  {
  }

  lemma {:induction false} AddPrefixVals(into: Tally, from: Tally, n: nat)
    requires n <= |from.keys|
    ensures AddPrefix(into, from, n).vals == SumInto(into.vals, from.keys[..n], from.vals)
  {
    if n > 0 {
      var names := from.keys[..n];
      var p := AddPrefix(into, from, n - 1);
      AddPrefixStep(into, from, n, p);
      AddPrefixVals(into, from, n - 1);
      assert names[..n - 1] == from.keys[..n - 1] && names[n - 1] == from.keys[n - 1];
      SumIntoStep(into.vals, names, from.vals, p.vals);
    }
  }

  /** With each name listed once, a name is present after the additions
    * exactly when it was before or is listed, and its amount has grown by
    * its amount in `amounts` if it is listed. */
  lemma {:induction false} SumIntoAt(m: map<string, real>, names: seq<string>, amounts: map<string, real>, k: string)
    requires Distinct(names)
    ensures k in SumInto(m, names, amounts) <==> k in m || k in names
    ensures GetOr(SumInto(m, names, amounts), k, 0.0) ==
              GetOr(m, k, 0.0) + (if k in names then GetOr(amounts, k, 0.0) else 0.0)
  {
    if names != [] {
      var init := names[..|names| - 1];
      var last := names[|names| - 1];
      assert names == init + [last];
      SumIntoStep(m, names, amounts, SumInto(m, init, amounts));
      SumIntoAt(m, init, amounts, k);
      if k == last {
        forall j | 0 <= j < |init|
          ensures init[j] != last
        {
          assert init[j] == names[j];
        }
      }
    }
  }

  /** After the first `n` entries a name is present exactly when it was
    * before or is among them, and its amount has grown by its amount in
    * `from` if it is among them. */
  lemma AddPrefixAt(into: Tally, from: Tally, n: nat, k: string)
    requires from.Valid() && n <= |from.keys|
    ensures k in AddPrefix(into, from, n).vals <==> k in into.vals || k in from.keys[..n]
    ensures GetOr(AddPrefix(into, from, n).vals, k, 0.0) ==
              GetOr(into.vals, k, 0.0) + (if k in from.keys[..n] then GetOr(from.vals, k, 0.0) else 0.0)
  {
    AddPrefixVals(into, from, n);
    var names := from.keys[..n];
    forall i, j | 0 <= i < j < |names|
      ensures names[i] != names[j]
    {
      assert names[i] == from.keys[i] && names[j] == from.keys[j];
    }
    SumIntoAt(into.vals, names, from.vals, k);
  }

  /** `from` with every amount multiplied by `factor`. */
  function Scale(from: Tally, factor: real): Tally
  {
    Dict(from.keys, map k | k in from.vals :: from.vals[k] * factor)
  }

  /** `for (const [name, num] of Object.entries(from)) into[name] =
    * (into[name] ?? 0) + num * factor` */
  function AddScaled(into: Tally, from: Tally, factor: real): Tally
  {
    AddPrefix(into, Scale(from, factor), |from.keys|)
  }

  lemma AddScaledValid(into: Tally, from: Tally, factor: real)
    requires into.Valid()
    ensures AddScaled(into, from, factor).Valid()
  {
    AddPrefixValid(into, Scale(from, factor), |from.keys|);
  }

  /** Each name is present when it was in either tally, and its amount has
    * grown by its amount in `from` times `factor`. */
  lemma AddScaledAt(into: Tally, from: Tally, factor: real, k: string)
    requires from.Valid()
    ensures k in AddScaled(into, from, factor).vals <==> k in into.vals || k in from.vals
    ensures GetOr(AddScaled(into, from, factor).vals, k, 0.0) ==
              GetOr(into.vals, k, 0.0) + GetOr(from.vals, k, 0.0) * factor
  {
    var scaled := Scale(from, factor);
    AddPrefixAt(into, scaled, |from.keys|, k);
    assert scaled.keys[..|from.keys|] == from.keys;
    ScaleAt(from, factor, k);
  }

  /** A scaled tally holds the same names, each amount times the factor. */
  lemma ScaleAt(from: Tally, factor: real, k: string)
    requires from.Valid()
    ensures var scaled := Scale(from, factor);
            (k in from.keys <==> k in from.vals) &&
            (if k in from.keys then GetOr(scaled.vals, k, 0.0) else 0.0) == GetOr(from.vals, k, 0.0) * factor
  {
  }

  predicate NonNegative(t: Tally)
  {
    forall k :: k in t.vals ==> t.vals[k] >= 0.0
  }

  /** Adding non-negative amounts keeps a tally non-negative. */
  lemma AddScaledNonNegative(into: Tally, from: Tally, factor: real)
    requires from.Valid() && NonNegative(into) && NonNegative(from) && factor >= 0.0
    ensures NonNegative(AddScaled(into, from, factor))
  {
    var r := AddScaled(into, from, factor);
    forall k | k in r.vals
      ensures r.vals[k] >= 0.0
    {
      AddScaledAt(into, from, factor, k);
      assert GetOr(from.vals, k, 0.0) * factor >= 0.0;
    }
  }

  /** `Array.from(new Set([...a, ...b]))`: each name once, in first
    * appearance order. */
  function Union(a: seq<string>, b: seq<string>): (r: seq<string>)
  {
    a + Filter(b, (k: string) => k !in a)
  }

  /** The union lists `a` first, then the names of `b` not in `a`; with
    * `a` and `b` free of repeats, it lists every name of either once. */
  lemma UnionSpec(a: seq<string>, b: seq<string>)
    requires Distinct(a) && Distinct(b)
    ensures Distinct(Union(a, b))
    ensures |Union(a, b)| >= |a| && Union(a, b)[..|a|] == a
    ensures forall k :: k in Union(a, b) <==> k in a || k in b
  {
    var extra := Filter(b, (k: string) => k !in a);
    FilterDistinct(b, (k: string) => k !in a);
    var r := a + extra;
    assert r[..|a|] == a;
    forall i, j | 0 <= i < j < |r|
      ensures r[i] != r[j]
    {
      if j < |a| {
        assert r[i] == a[i] && r[j] == a[j];
      } else if i < |a| {
        assert r[i] == a[i] && r[j] == extra[j - |a|];
        assert r[j] in extra;
      } else {
        assert r[i] == extra[i - |a|] && r[j] == extra[j - |a|];
      }
    }
  }

  /** A JavaScript number as the score can take it: division by zero gives
    * an infinity, and 0/0 gives NaN. */
  datatype Score = Finite(value: real) | Infinite | NotANumber

  function Abs(x: real): real { if x < 0.0 then -x else x }

  /** `Math.abs(2 - a / b - b / a)` */
  function Ratio(a: real, b: real): Score
  {
    if a == 0.0 && b == 0.0 then NotANumber
    else if a == 0.0 || b == 0.0 then Infinite
    else Finite(Abs(2.0 - a / b - b / a))
  }

  /** `Math.max(x, y)`: NaN wins over everything, then infinity. */
  function Max(x: Score, y: Score): Score
  {
    if x.NotANumber? || y.NotANumber? then NotANumber
    else if x.Infinite? || y.Infinite? then Infinite
    else if x.value >= y.value then x
    else y
  }

  /** The largest `Ratio` over the first `n` names, each amount shifted by
    * `epsilon`; a missing name counts as 0. */
  function LargestRatio(names: seq<string>, n: nat, init: map<string, real>, final: map<string, real>,
                        epsilon: real): Score
    requires n <= |names|
  {
    if n == 0 then Finite(0.0)
    else
      var k := names[n - 1];
      Max(Ratio(GetOr(init, k, 0.0) + epsilon, GetOr(final, k, 0.0) + epsilon),
          LargestRatio(names, n - 1, init, final, epsilon))
  }

  /** `error /= ERROR_THRESHOLD` with the threshold 1e-3. */
  function Normalise(e: Score): Score
  {
    if e.Finite? then Finite(e.value / 0.001) else e
  }

  /** The values a score loop over both tallies computes. */
  datatype Balance = Balance(error: Score, initMasses: Tally, finalMasses: Tally, substances: seq<string>)

  function BalanceOf(initMasses: Tally, finalMasses: Tally, epsilon: real): (b: Balance)
  {
    var names := Union(initMasses.keys, finalMasses.keys);
    Balance(Normalise(LargestRatio(names, |names|, initMasses.vals, finalMasses.vals, epsilon)),
            initMasses, finalMasses, names)
  }

  /** The loop of `getMassBalanceError` over the compared names. */
  method ScoreMasses(initMasses: Tally, finalMasses: Tally, epsilon: real) returns (b: Balance)
    ensures b == BalanceOf(initMasses, finalMasses, epsilon)
  {
    var substances := Union(initMasses.keys, finalMasses.keys);
    var error := Finite(0.0);
    var i := 0;
    while i < |substances|
      invariant 0 <= i <= |substances|
      invariant error == LargestRatio(substances, i, initMasses.vals, finalMasses.vals, epsilon)
    {
      var subst := substances[i];
      var a := GetOr(initMasses.vals, subst, 0.0) + epsilon;
      var b := GetOr(finalMasses.vals, subst, 0.0) + epsilon;
      error := Max(Ratio(a, b), error);
      i := i + 1;
    }
    error := Normalise(error);
    b := Balance(error, initMasses, finalMasses, substances);
  }

  /** For positive amounts the ratio score is zero exactly when they agree:
    * with `u = a/b`, `2 - u - 1/u` vanishes only at `u = 1`. */
  lemma RatioZeroIff(a: real, b: real)
    requires a > 0.0 && b > 0.0
    ensures Ratio(a, b).Finite? && Ratio(a, b).value >= 0.0
    ensures Ratio(a, b) == Finite(0.0) <==> a == b
  {
    if a == b {
      assert a / b == 1.0 && b / a == 1.0;
    }
    if 2.0 - a / b - b / a == 0.0 {
      ZeroMeansEqual(a, b);
    }
  }

  lemma ZeroMeansEqual(a: real, b: real)
    requires a > 0.0 && b > 0.0 && 2.0 - a / b - b / a == 0.0
    ensures a == b
  {
    Reciprocals(a, b);
    UnitSum(a / b, b / a);
  }

  /** Two numbers with product 1 and sum 2 are both 1: `(u - 1) * (v - 1)`
    * is `u*v - u - v + 1`, which is zero. */
  lemma UnitSum(u: real, v: real)
    requires u * v == 1.0 && u + v == 2.0
    ensures u == 1.0
  {
    assert (u - 1.0) * (v - 1.0) == u * v - u - v + 1.0;
    ProductZero(u - 1.0, v - 1.0);
  }

  lemma Reciprocals(a: real, b: real)
    requires a > 0.0 && b > 0.0
    ensures (a / b) * (b / a) == 1.0 && (a / b) * b == a
  {
  }

  lemma MulPositive(x: real, y: real)
    requires x > 0.0 && y > 0.0
    ensures x * y > 0.0
  {
  }

  /** A product of reals is zero only when a factor is. */
  lemma ProductZero(x: real, y: real)
    ensures x * y == 0.0 ==> x == 0.0 || y == 0.0
  {
    if x > 0.0 && y > 0.0 { MulPositive(x, y); }
    if x < 0.0 && y < 0.0 { MulPositive(-x, -y); }
    if x > 0.0 && y < 0.0 { MulPositive(x, -y); }
    if x < 0.0 && y > 0.0 { MulPositive(-x, y); }
  }

  /** With positive shifted amounts the largest ratio is zero exactly when
    * every compared name has the same amount on both sides. */
  lemma {:induction false} LargestRatioZeroIff(names: seq<string>, n: nat, init: map<string, real>,
                                               final: map<string, real>, epsilon: real)
    requires n <= |names| && epsilon > 0.0
    requires forall k :: k in init ==> init[k] >= 0.0
    requires forall k :: k in final ==> final[k] >= 0.0
    ensures LargestRatio(names, n, init, final, epsilon).Finite?
    ensures LargestRatio(names, n, init, final, epsilon).value >= 0.0
    ensures LargestRatio(names, n, init, final, epsilon) == Finite(0.0) <==>
              forall i :: 0 <= i < n ==> GetOr(init, names[i], 0.0) == GetOr(final, names[i], 0.0)
  {
    if n > 0 {
      var k := names[n - 1];
      LargestRatioZeroIff(names, n - 1, init, final, epsilon);
      RatioZeroIff(GetOr(init, k, 0.0) + epsilon, GetOr(final, k, 0.0) + epsilon);
    }
  }

  /** The normalised error is zero exactly when the two tallies agree on
    * every name that either holds (a missing name counting as 0). */
  lemma BalanceZeroIff(initMasses: Tally, finalMasses: Tally, epsilon: real)
    requires initMasses.Valid() && finalMasses.Valid() && epsilon > 0.0
    requires NonNegative(initMasses) && NonNegative(finalMasses)
    ensures BalanceOf(initMasses, finalMasses, epsilon).error.Finite?
    ensures BalanceOf(initMasses, finalMasses, epsilon).error == Finite(0.0) <==>
              forall k :: k in initMasses.vals || k in finalMasses.vals ==>
                GetOr(initMasses.vals, k, 0.0) == GetOr(finalMasses.vals, k, 0.0)
  {
    var names := Union(initMasses.keys, finalMasses.keys);
    UnionSpec(initMasses.keys, finalMasses.keys);
    LargestRatioZeroIff(names, |names|, initMasses.vals, finalMasses.vals, epsilon);
    AgreeOnNames(names, initMasses.vals, finalMasses.vals);
  }

  /** Agreeing at every position of a list of the names is agreeing on
    * every name. */
  lemma AgreeOnNames(names: seq<string>, a: map<string, real>, b: map<string, real>)
    requires forall k :: k in names <==> k in a || k in b
    ensures (forall i :: 0 <= i < |names| ==> GetOr(a, names[i], 0.0) == GetOr(b, names[i], 0.0)) <==>
            (forall k :: k in a || k in b ==> GetOr(a, k, 0.0) == GetOr(b, k, 0.0))
  {
    if forall i :: 0 <= i < |names| ==> GetOr(a, names[i], 0.0) == GetOr(b, names[i], 0.0) {
      forall k | k in a || k in b
        ensures GetOr(a, k, 0.0) == GetOr(b, k, 0.0)
      {
        var i :| 0 <= i < |names| && names[i] == k;
      }
    }
  }

  /** Two equal tallies give the error 0. */
  lemma SameMassesNoError(masses: Tally, epsilon: real)
    requires masses.Valid() && epsilon > 0.0 && NonNegative(masses)
    ensures BalanceOf(masses, masses, epsilon).error == Finite(0.0)
  {
    BalanceZeroIff(masses, masses, epsilon);
  }
}
