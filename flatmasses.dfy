/** The earlier, flat formula reader of the mass-balance panel: every match
  * of an element symbol with the digits after it adds that many atoms,
  * times the substance's concentration; anything else in a name is
  * skipped. */
module FlatMasses {
  import opened Common
  import opened Text
  import opened FormulaGrammar
  import opened MassBalance

  /** One match of `/([A-Z][a-z]?)(\d*)/g`: the symbol and its digits. */
  datatype Match = Match(atom: string, digits: string)

  /** The end of the symbol that starts `s`: one capital, and a small
    * letter after it when there is one. */
  function AtomEnd(s: string): (j: nat)
    requires s != [] && IsUpper(s[0])
    ensures 1 <= j <= 2 && j <= |s|
    ensures j == 2 <==> |s| >= 2 && IsLower(s[1])
  {
    if |s| >= 2 && IsLower(s[1]) then 2 else 1
  }

  /** `s.matchAll(/([A-Z][a-z]?)(\d*)/g)`: a match starts at each capital
    * the previous match did not consume; other characters are passed
    * over. */
  function Matches(s: string): seq<Match>
    decreases |s|
  {
    if s == [] then []
    else if !IsUpper(s[0]) then Matches(s[1..])
    else
      var j := AtomEnd(s);
      var e := j + DigitRun(s, j);
      [Match(s[..j], s[j..e])] + Matches(s[e..])
  }

  /** What the pattern lets a match be. */
  predicate WellShaped(m: Match)
  {
    (|m.atom| == 1 || |m.atom| == 2) && IsUpper(m.atom[0]) && (|m.atom| == 2 ==> IsLower(m.atom[1])) &&
    AllDigits(m.digits)
  }

  /** The text of consecutive matches. */
  function Spell(ms: seq<Match>): string
    decreases |ms|
  {
    if ms == [] then "" else ms[0].atom + ms[0].digits + Spell(ms[1..])
  }

  /** Every match has the pattern's shape. */
  lemma {:induction false} MatchesShape(s: string)
    ensures forall i :: 0 <= i < |Matches(s)| ==> WellShaped(Matches(s)[i])
    decreases |s|
  {
    if s != [] {
      if !IsUpper(s[0]) {
        MatchesShape(s[1..]);
      } else {
        var j := AtomEnd(s);
        var e := j + DigitRun(s, j);
        MatchesShape(s[e..]);
        assert AllDigits(s[j..e]);
      }
    }
  }

  /** Reading back the text of well-shaped matches gives those matches. */
  lemma {:induction false} MatchesSpell(ms: seq<Match>)
    requires forall i :: 0 <= i < |ms| ==> WellShaped(ms[i])
    ensures Matches(Spell(ms)) == ms
    decreases |ms|
  {
    if ms != [] {
      var rest := Spell(ms[1..]);
      MatchesSpell(ms[1..]);
      assert Boundary(rest) by {
        if ms[1..] != [] {
          assert WellShaped(ms[1..][0]);
          assert rest[0] == ms[1].atom[0];
        }
      }
      MatchesCons(ms[0], rest);
    }
  }

  /** Where a match stops: at the end, or at a character that is neither
    * a digit nor a small letter. */
  predicate Boundary(rest: string)
  {
    rest == [] || (!IsDigit(rest[0]) && !IsLower(rest[0]))
  }

  /** A well-shaped match followed by a boundary is read as itself. */
  lemma MatchesCons(m: Match, rest: string)
    requires WellShaped(m) && Boundary(rest)
    ensures Matches(m.atom + m.digits + rest) == [m] + Matches(rest)
  {
    var s := m.atom + m.digits + rest;
    var j := |m.atom|;
    ConsAtomEnd(m, rest, s);
    ConsPieces(m, rest, s);
    DigitRunOf(s, j, m.digits, rest);
    MatchesUnfold(s);
  }

  lemma ConsAtomEnd(m: Match, rest: string, s: string)
    requires WellShaped(m) && Boundary(rest) && s == m.atom + m.digits + rest
    ensures s != [] && IsUpper(s[0]) && AtomEnd(s) == |m.atom|
  {
    assert s[0] == m.atom[0];
    if |m.atom| == 1 {
      assert |s| >= 2 ==> s[1] == (if m.digits != [] then m.digits[0] else rest[0]);
    } else {
      assert s[1] == m.atom[1];
    }
  }

  lemma ConsPieces(m: Match, rest: string, s: string)
    requires s == m.atom + m.digits + rest
    ensures var j, e := |m.atom|, |m.atom| + |m.digits|;
            s[..j] == m.atom && s[j..e] == m.digits && s[e..] == rest && s[j..] == m.digits + rest
  {
  }

  lemma MatchesUnfold(s: string)
    requires s != [] && IsUpper(s[0])
    ensures var j := AtomEnd(s);
            var e := j + DigitRun(s, j);
            Matches(s) == [Match(s[..j], s[j..e])] + Matches(s[e..])
  {
  }

  /** The digit run after the symbol is exactly the match's digits when a
    * capital or the end comes after them. */
  lemma {:induction false} DigitRunOf(s: string, j: nat, digits: string, rest: string)
    requires j <= |s| && s[j..] == digits + rest && AllDigits(digits)
    requires Boundary(rest)
    ensures DigitRun(s, j) == |digits|
    decreases |digits|
  {
    if digits == [] {
      assert s[j..] == rest;
      assert j < |s| ==> s[j] == rest[0];
    } else {
      assert s[j] == digits[0];
      assert s[j + 1..] == digits[1..] + rest;
      DigitRunOf(s, j + 1, digits[1..], rest);
    }
  }

  /** Text with no capital letter in front of the formula is skipped. */
  lemma {:induction false} SkipsNonUpper(p: string, s: string)
    requires forall i :: 0 <= i < |p| ==> !IsUpper(p[i])
    ensures Matches(p + s) == Matches(s)
    decreases |p|
  {
    if p != [] {
      var t := p + s;
      assert t[0] == p[0];
      assert t[1..] == p[1..] + s;
      assert Matches(t) == Matches(t[1..]);
      SkipsNonUpper(p[1..], s);
    } else {
      assert p + s == s;
    }
  }

  /** What one match adds: `mult * amount` with `mult` the match's
    * digits, `m[2] ? Number.parseInt(m[2]) : 1`. */
  function Increment(m: Match, amount: real): real
  {
    (CountOf(m.digits) as real) * amount
  }

  /** The atoms `ms` adds for one substance of concentration `amount`:
    * `masses[atom] ??= 0; masses[atom] += mult * amount` for each. */
  function AddMatches(t: Tally, ms: seq<Match>, amount: real): Tally
    decreases |ms|
  {
    if ms == [] then t else AddMatches(AddOne(t, ms[0].atom, Increment(ms[0], amount)), ms[1..], amount)
  }

  /** The masses after the substances from the `n`-th on are added to
    * `acc`. */
  function MassesFrom(concs: Dict<string, real>, n: nat, acc: Tally): Tally
    requires n <= |concs.keys|
    decreases |concs.keys| - n
  {
    if n == |concs.keys| then acc
    else
      var subst := concs.keys[n];
      MassesFrom(concs, n + 1, AddMatches(acc, Matches(subst), GetOr(concs.vals, subst, 0.0)))
  }

  /** `getMasses(concs)`. */
  function Masses(concs: Dict<string, real>): Tally
  {
    MassesFrom(concs, 0, Tally.Empty())
  }

  /** The atoms of `k` the matches count: the digits after each match of
    * `k`, 1 when there are none. */
  function MatchCount(ms: seq<Match>, k: string): real
  {
    Sum(Weights(ms, k))
  }

  /** What each match counts of `k`. */
  function Weights(ms: seq<Match>, k: string): seq<real>
  {
    if ms == [] then [] else [if ms[0].atom == k then CountOf(ms[0].digits) as real else 0.0] + Weights(ms[1..], k)
  }

  function Sum(xs: seq<real>): real
  {
    if xs == [] then 0.0 else xs[0] + Sum(xs[1..])
  }

  predicate Mentioned(ms: seq<Match>, k: string)
  {
    exists i :: 0 <= i < |ms| && ms[i].atom == k
  }

  /** The mass of `k` the substances from the `n`-th on contribute. */
  function ElementMassFrom(concs: Dict<string, real>, n: nat, k: string): real
    requires n <= |concs.keys|
    decreases |concs.keys| - n
  {
    if n == |concs.keys| then 0.0
    else
      var subst := concs.keys[n];
      MatchCount(Matches(subst), k) * GetOr(concs.vals, subst, 0.0) + ElementMassFrom(concs, n + 1, k)
  }

  function ElementMass(concs: Dict<string, real>, k: string): real
  {
    ElementMassFrom(concs, 0, k)
  }

  /** Whether a substance from the `n`-th on has a match of `k`. */
  predicate MentionedFrom(concs: Dict<string, real>, n: nat, k: string)
    requires n <= |concs.keys|
  {
    exists i :: n <= i < |concs.keys| && Mentioned(Matches(concs.keys[i]), k)
  }

  lemma AddMatchesUnfold(t: Tally, ms: seq<Match>, amount: real)
    requires ms != []
    ensures AddMatches(t, ms, amount) == AddMatches(AddOne(t, ms[0].atom, Increment(ms[0], amount)), ms[1..], amount)
  {
  }

  lemma MentionedCons(ms: seq<Match>, k: string)
    requires ms != []
    ensures Mentioned(ms, k) <==> ms[0].atom == k || Mentioned(ms[1..], k)
  {
    if Mentioned(ms[1..], k) {
      var i :| 0 <= i < |ms[1..]| && ms[1..][i].atom == k;
      assert ms[i + 1].atom == k;
    }
    if Mentioned(ms, k) && ms[0].atom != k {
      var i :| 0 <= i < |ms| && ms[i].atom == k;
      assert ms[1..][i - 1].atom == k;
    }
  }

  /** Adding matches keeps a tally well formed. */
  lemma {:induction false} AddMatchesValid(t: Tally, ms: seq<Match>, amount: real)
    requires t.Valid()
    ensures AddMatches(t, ms, amount).Valid()
    decreases |ms|
  {
    if ms != [] {
      var x := Increment(ms[0], amount);
      AddOneValid(t, ms[0].atom, x);
      AddMatchesUnfold(t, ms, amount);
      AddMatchesValid(AddOne(t, ms[0].atom, x), ms[1..], amount);
    }
  }

  /** A non-negative concentration keeps a tally non-negative. */
  lemma {:induction false} AddMatchesNonNegative(t: Tally, ms: seq<Match>, amount: real)
    requires NonNegative(t) && amount >= 0.0
    ensures NonNegative(AddMatches(t, ms, amount))
    decreases |ms|
  {
    if ms != [] {
      var x := Increment(ms[0], amount);
      AddMatchesUnfold(t, ms, amount);
      assert x >= 0.0;
      AddMatchesNonNegative(AddOne(t, ms[0].atom, x), ms[1..], amount);
    }
  }

  /** The tally gains exactly the matched symbols. */
  lemma {:induction false} AddMatchesHas(t: Tally, ms: seq<Match>, amount: real, k: string)
    ensures k in AddMatches(t, ms, amount).vals <==> k in t.vals || Mentioned(ms, k)
    decreases |ms|
  {
    if ms != [] {
      var x := Increment(ms[0], amount);
      AddMatchesUnfold(t, ms, amount);
      AddMatchesHas(AddOne(t, ms[0].atom, x), ms[1..], amount, k);
      MentionedCons(ms, k);
    }
  }

  /** The matches' count of `k`, each match's digits times `amount`. */
  function ScaledCount(ms: seq<Match>, k: string, amount: real): real
    decreases |ms|
  {
    if ms == [] then 0.0
    else (if ms[0].atom == k then Increment(ms[0], amount) else 0.0) + ScaledCount(ms[1..], k, amount)
  }

  lemma {:induction false} ScaledCountIs(ms: seq<Match>, k: string, amount: real)
    ensures ScaledCount(ms, k, amount) == MatchCount(ms, k) * amount
  {
    ScaledCountSum(ms, k, amount);
    ScaledSumIs(Weights(ms, k), amount);
  }

  /** `ScaledCount` is the scaled sum of the weights. */
  lemma {:induction false} ScaledCountSum(ms: seq<Match>, k: string, amount: real)
    ensures ScaledCount(ms, k, amount) == ScaledSum(Weights(ms, k), amount)
    decreases |ms|
  {
    if ms != [] {
      ScaledCountSum(ms[1..], k, amount);
      var w := Weights(ms, k);
      assert w[1..] == Weights(ms[1..], k);
    }
  }

  /** Each weight times `a`, summed. */
  function ScaledSum(xs: seq<real>, a: real): real
  {
    if xs == [] then 0.0 else xs[0] * a + ScaledSum(xs[1..], a)
  }

  /** Scaling distributes over a sum: `Σ xᵢ·a = (Σ xᵢ)·a`. */
  lemma {:induction false} ScaledSumIs(xs: seq<real>, a: real)
    ensures ScaledSum(xs, a) == Sum(xs) * a
  {
    if xs != [] {
      ScaledSumIs(xs[1..], a);
    }
  }

  /** Each symbol gains its count times the concentration. */
  lemma {:induction false} AddMatchesAt(t: Tally, ms: seq<Match>, amount: real, k: string)
    ensures GetOr(AddMatches(t, ms, amount).vals, k, 0.0) == GetOr(t.vals, k, 0.0) + MatchCount(ms, k) * amount
  {
    AddMatchesScaled(t, ms, amount, k);
    ScaledCountIs(ms, k, amount);
  }

  lemma {:induction false} AddMatchesScaled(t: Tally, ms: seq<Match>, amount: real, k: string)
    ensures GetOr(AddMatches(t, ms, amount).vals, k, 0.0) == GetOr(t.vals, k, 0.0) + ScaledCount(ms, k, amount)
    decreases |ms|
  {
    if ms != [] {
      var x := Increment(ms[0], amount);
      var next := AddOne(t, ms[0].atom, x);
      AddMatchesUnfold(t, ms, amount);
      AddMatchesScaled(next, ms[1..], amount, k);
    }
  }

  lemma MassesUnfold(concs: Dict<string, real>, n: nat, acc: Tally)
    requires n < |concs.keys|
    ensures var subst := concs.keys[n];
            MassesFrom(concs, n, acc) == MassesFrom(concs, n + 1, AddMatches(acc, Matches(subst), GetOr(concs.vals, subst, 0.0)))
  {
  }

  lemma {:induction false} MassesFromValid(concs: Dict<string, real>, n: nat, acc: Tally)
    requires n <= |concs.keys| && acc.Valid()
    ensures MassesFrom(concs, n, acc).Valid()
    ensures NonNegative(concs) && NonNegative(acc) ==> NonNegative(MassesFrom(concs, n, acc))
    decreases |concs.keys| - n
  {
    if n < |concs.keys| {
      var subst := concs.keys[n];
      var amount := GetOr(concs.vals, subst, 0.0);
      AddMatchesValid(acc, Matches(subst), amount);
      if NonNegative(concs) && NonNegative(acc) {
        assert amount >= 0.0;
        AddMatchesNonNegative(acc, Matches(subst), amount);
      }
      MassesUnfold(concs, n, acc);
      MassesFromValid(concs, n + 1, AddMatches(acc, Matches(subst), amount));
    }
  }

  lemma {:induction false} MassesFromHas(concs: Dict<string, real>, n: nat, acc: Tally, k: string)
    requires n <= |concs.keys|
    ensures k in MassesFrom(concs, n, acc).vals <==> k in acc.vals || MentionedFrom(concs, n, k)
    decreases |concs.keys| - n
  {
    if n < |concs.keys| {
      var subst := concs.keys[n];
      var amount := GetOr(concs.vals, subst, 0.0);
      AddMatchesHas(acc, Matches(subst), amount, k);
      MassesUnfold(concs, n, acc);
      MassesFromHas(concs, n + 1, AddMatches(acc, Matches(subst), amount), k);
      assert MentionedFrom(concs, n, k) <==> Mentioned(Matches(subst), k) || MentionedFrom(concs, n + 1, k);
    }
  }

  /** `ElementMassFrom` with each substance's count already scaled. */
  function ScaledMassFrom(concs: Dict<string, real>, n: nat, k: string): real
    requires n <= |concs.keys|
    decreases |concs.keys| - n
  {
    if n == |concs.keys| then 0.0
    else
      var subst := concs.keys[n];
      ScaledCount(Matches(subst), k, GetOr(concs.vals, subst, 0.0)) + ScaledMassFrom(concs, n + 1, k)
  }

  lemma {:induction false} ScaledMassIs(concs: Dict<string, real>, n: nat, k: string)
    requires n <= |concs.keys|
    ensures ScaledMassFrom(concs, n, k) == ElementMassFrom(concs, n, k)
    decreases |concs.keys| - n
  {
    if n < |concs.keys| {
      var subst := concs.keys[n];
      ScaledCountIs(Matches(subst), k, GetOr(concs.vals, subst, 0.0));
      ScaledMassIs(concs, n + 1, k);
    }
  }

  lemma {:induction false} MassesFromScaled(concs: Dict<string, real>, n: nat, acc: Tally, k: string)
    requires n <= |concs.keys|
    ensures GetOr(MassesFrom(concs, n, acc).vals, k, 0.0) == GetOr(acc.vals, k, 0.0) + ScaledMassFrom(concs, n, k)
    decreases |concs.keys| - n
  {
    if n < |concs.keys| {
      var subst := concs.keys[n];
      var amount := GetOr(concs.vals, subst, 0.0);
      var next := AddMatches(acc, Matches(subst), amount);
      AddMatchesScaled(acc, Matches(subst), amount, k);
      MassesUnfold(concs, n, acc);
      MassesFromScaled(concs, n + 1, next, k);
    }
  }

  lemma MassesFromAt(concs: Dict<string, real>, n: nat, acc: Tally, k: string)
    requires n <= |concs.keys|
    ensures GetOr(MassesFrom(concs, n, acc).vals, k, 0.0) == GetOr(acc.vals, k, 0.0) + ElementMassFrom(concs, n, k)
  {
    MassesFromScaled(concs, n, acc, k);
    ScaledMassIs(concs, n, k);
  }

  /** The mass tally is well formed, holds exactly the symbols some
    * substance name matches, and gives each the sum over the substances
    * of its count times the concentration. */
  lemma MassesAt(concs: Dict<string, real>, k: string)
    ensures Masses(concs).Valid()
    ensures NonNegative(concs) ==> NonNegative(Masses(concs))
    ensures k in Masses(concs).vals <==> MentionedFrom(concs, 0, k)
    ensures GetOr(Masses(concs).vals, k, 0.0) == ElementMass(concs, k)
  {
    MassesFromValid(concs, 0, Tally.Empty());
    MassesFromHas(concs, 0, Tally.Empty(), k);
    MassesFromAt(concs, 0, Tally.Empty(), k);
  }

  /** The loops of `getMasses`. */
  method GetMasses(concs: Dict<string, real>) returns (masses: Tally)
    ensures masses == Masses(concs)
  {
    masses := Tally.Empty();
    var n := 0;
    while n < |concs.keys|
      invariant n <= |concs.keys|
      invariant Masses(concs) == MassesFrom(concs, n, masses)
      decreases |concs.keys| - n
    {
      var subst := concs.keys[n];
      var amount := GetOr(concs.vals, subst, 0.0);
      MassesUnfold(concs, n, masses);
      masses := AddSubstance(masses, subst, amount);
      n := n + 1;
    }
  }

  /** The inner loop of `getMasses`, over one substance's matches. */
  method AddSubstance(start: Tally, subst: string, amount: real) returns (masses: Tally)
    ensures masses == AddMatches(start, Matches(subst), amount)
  {
    var rest := Matches(subst);
    masses := start;
    while rest != []
      invariant AddMatches(start, Matches(subst), amount) == AddMatches(masses, rest, amount)
      decreases |rest|
    {
      var m := rest[0];
      AddMatchesUnfold(masses, rest, amount);
      masses := AddAtom(masses, m.atom, Increment(m, amount));
      rest := rest[1..];
    }
  }

  /** `masses[atom] ??= 0; masses[atom] += x`. */
  method AddAtom(t: Tally, atom: string, x: real) returns (r: Tally)
    ensures r == AddOne(t, atom, x)
  {
    r := t;
    if atom !in r.vals {
      r := Dict(r.keys + [atom], r.vals[atom := 0.0]);
    }
    r := Dict(r.keys, r.vals[atom := r.vals[atom] + x]);
  }

  const Epsilon: real := 0.000000000000000000000000000000000001

  /** `getMassBalanceError(init, final)`. */
  function MassBalanceErrorOf(init: Dict<string, real>, final: Dict<string, real>): Balance
  {
    BalanceOf(Masses(init), Masses(final), Epsilon)
  }

  method GetMassBalanceError(init: Dict<string, real>, final: Dict<string, real>) returns (b: Balance)
    ensures b == MassBalanceErrorOf(init, final)
  {
    var initMasses := GetMasses(init);
    var finalMasses := GetMasses(final);
    b := ScoreMasses(initMasses, finalMasses, Epsilon);
  }

  /** With non-negative concentrations the score is finite, and zero
    * exactly when every symbol has the same mass on both sides. */
  lemma MassBalanceZeroIff(init: Dict<string, real>, final: Dict<string, real>)
    requires NonNegative(init) && NonNegative(final)
    ensures MassBalanceErrorOf(init, final).error.Finite?
    ensures MassBalanceErrorOf(init, final).error == Finite(0.0) <==>
              forall k :: ElementMass(init, k) == ElementMass(final, k)
  {
    var a, b := Masses(init), Masses(final);
    MassesAt(init, "");
    MassesAt(final, "");
    BalanceZeroIff(a, b, Epsilon);
    forall k
      ensures GetOr(a.vals, k, 0.0) == ElementMass(init, k)
      ensures GetOr(b.vals, k, 0.0) == ElementMass(final, k)
    {
      MassesAt(init, k);
      MassesAt(final, k);
    }
  }

  /** The same non-negative concentrations on both sides score 0. */
  lemma IdenticalInputsNoError(concs: Dict<string, real>)
    requires NonNegative(concs)
    ensures MassBalanceErrorOf(concs, concs).error == Finite(0.0)
  {
    MassesAt(concs, "");
    SameMassesNoError(Masses(concs), Epsilon);
  }

  // Examples

  lemma MatchesH2O(s: string)
    requires s == "H2O"
    ensures Matches(s) == [Match("H", "2"), Match("O", "")]
  {
    var ms := [Match("H", "2"), Match("O", "")];
    assert forall i :: 0 <= i < |ms| ==> WellShaped(ms[i]);
    SpellTwo(ms[0], ms[1], "H2", "O");
    assert "H2" + "O" == s;
    MatchesSpell(ms);
  }

  lemma MatchesNO2(s: string)
    requires s == "NO2"
    ensures Matches(s) == [Match("N", ""), Match("O", "2")]
  {
    var ms := [Match("N", ""), Match("O", "2")];
    assert forall i :: 0 <= i < |ms| ==> WellShaped(ms[i]);
    MatchesSpell(ms);
    assert Spell(ms) == s;
  }

  lemma MatchesN2(s: string)
    requires s == "N2"
    ensures Matches(s) == [Match("N", "2")]
  {
    var ms := [Match("N", "2")];
    assert forall i :: 0 <= i < |ms| ==> WellShaped(ms[i]);
    MatchesSpell(ms);
    assert Spell(ms) == s;
  }

  /** Parentheses and the multiplier after them are passed over: in
    * `(OH)2` only `O` and `H` are matched, once each. */
  lemma ParenthesesSkipped(s: string)
    requires s == "(OH)2"
    ensures Matches(s) == [Match("O", ""), Match("H", "")]
  {
    var o, h := Match("O", ""), Match("H", "");
    assert s == "(" + (o.atom + o.digits + (h.atom + h.digits + ")2"));
    TwoBetween("(", ")2", o, h, s);
  }

  /** Two matches between text without capitals are all that is read. */
  lemma TwoBetween(open: string, close: string, o: Match, h: Match, s: string)
    requires WellShaped(o) && WellShaped(h) && Boundary(close)
    requires forall i :: 0 <= i < |open| ==> !IsUpper(open[i])
    requires forall i :: 0 <= i < |close| ==> !IsUpper(close[i])
    requires s == open + (o.atom + o.digits + (h.atom + h.digits + close))
    ensures Matches(s) == [o, h]
  {
    SkipsNonUpper(close, "");
    assert close + "" == close;
    MatchesCons(h, close);
    var tail := h.atom + h.digits + close;
    MatchesCons(o, tail);
    SkipsNonUpper(open, o.atom + o.digits + tail);
  }

  /** An empty map has no masses. */
  lemma EmptyMasses()
    ensures Masses(Dict([], map[])) == Tally.Empty()
  {
  }

  lemma AddH2O(t: Tally)
    requires t == Tally.Empty()
    ensures AddMatches(t, [Match("H", "2"), Match("O", "")], 1.0) == Dict(["H", "O"], map["H" := 2.0, "O" := 1.0])
  {
    var ms := [Match("H", "2"), Match("O", "")];
    assert CountOf("2") == 2;
    AddMatchesUnfold(t, ms, 1.0);
    var t1 := AddOne(t, "H", 2.0);
    assert t1 == Dict(["H"], map["H" := 2.0]);
    AddMatchesUnfold(t1, ms[1..], 1.0);
    assert ms[1..][1..] == [];
  }

  lemma AddNO2(t: Tally)
    requires t == Dict(["H", "O"], map["H" := 2.0, "O" := 1.0])
    ensures AddMatches(t, [Match("N", ""), Match("O", "2")], 2.0) == Dict(["H", "O", "N"], map["H" := 2.0, "O" := 5.0, "N" := 2.0])
  {
    var ms := [Match("N", ""), Match("O", "2")];
    assert CountOf("2") == 2;
    AddMatchesUnfold(t, ms, 2.0);
    var t1 := AddOne(t, "N", 2.0);
    assert t1 == Dict(["H", "O", "N"], map["H" := 2.0, "O" := 1.0, "N" := 2.0]);
    AddMatchesUnfold(t1, ms[1..], 2.0);
    assert ms[1..][1..] == [];
  }

  lemma AddN2(t: Tally)
    requires t == Dict(["H", "O", "N"], map["H" := 2.0, "O" := 5.0, "N" := 2.0])
    ensures AddMatches(t, [Match("N", "2")], 3.0) == Dict(["H", "O", "N"], map["H" := 2.0, "O" := 5.0, "N" := 8.0])
  {
    var ms := [Match("N", "2")];
    assert CountOf("2") == 2;
    AddMatchesUnfold(t, ms, 3.0);
    assert ms[1..] == [];
  }

  /** `{H2O: 1, NO2: 2, N2: 3}` holds 2 of H, 5 of O and 8 of N, keyed in
    * the order the symbols first appear. */
  lemma SimpleMasses(concs: Dict<string, real>)
    requires concs == Dict(["H2O", "NO2", "N2"], map["H2O" := 1.0, "NO2" := 2.0, "N2" := 3.0])
    ensures Masses(concs) == Dict(["H", "O", "N"], map["H" := 2.0, "O" := 5.0, "N" := 8.0])
  {
    SimpleFirst(concs);
    SimpleSecond(concs);
    SimpleThird(concs);
  }

  lemma SimpleFirst(concs: Dict<string, real>)
    requires concs == Dict(["H2O", "NO2", "N2"], map["H2O" := 1.0, "NO2" := 2.0, "N2" := 3.0])
    ensures MassesFrom(concs, 0, Tally.Empty()) == MassesFrom(concs, 1, Dict(["H", "O"], map["H" := 2.0, "O" := 1.0]))
  {
    MatchesH2O("H2O");
    AddH2O(Tally.Empty());
    MassesStep(concs, 0, Tally.Empty(), Dict(["H", "O"], map["H" := 2.0, "O" := 1.0]), [Match("H", "2"), Match("O", "")], 1.0);
  }

  lemma SimpleSecond(concs: Dict<string, real>)
    requires concs == Dict(["H2O", "NO2", "N2"], map["H2O" := 1.0, "NO2" := 2.0, "N2" := 3.0])
    ensures MassesFrom(concs, 1, Dict(["H", "O"], map["H" := 2.0, "O" := 1.0])) ==
              MassesFrom(concs, 2, Dict(["H", "O", "N"], map["H" := 2.0, "O" := 5.0, "N" := 2.0]))
  {
    MatchesNO2("NO2");
    var t1 := Dict(["H", "O"], map["H" := 2.0, "O" := 1.0]);
    AddNO2(t1);
    MassesStep(concs, 1, t1, Dict(["H", "O", "N"], map["H" := 2.0, "O" := 5.0, "N" := 2.0]), [Match("N", ""), Match("O", "2")], 2.0);
  }

  lemma SimpleThird(concs: Dict<string, real>)
    requires concs == Dict(["H2O", "NO2", "N2"], map["H2O" := 1.0, "NO2" := 2.0, "N2" := 3.0])
    ensures MassesFrom(concs, 2, Dict(["H", "O", "N"], map["H" := 2.0, "O" := 5.0, "N" := 2.0])) ==
              Dict(["H", "O", "N"], map["H" := 2.0, "O" := 5.0, "N" := 8.0])
  {
    MatchesN2("N2");
    var t2 := Dict(["H", "O", "N"], map["H" := 2.0, "O" := 5.0, "N" := 2.0]);
    AddN2(t2);
    MassesStep(concs, 2, t2, Dict(["H", "O", "N"], map["H" := 2.0, "O" := 5.0, "N" := 8.0]), [Match("N", "2")], 3.0);
  }

  /** One substance of a worked example: its matches `ms` at `amount`
    * turn `acc` into `next`. */
  lemma MassesStep(concs: Dict<string, real>, n: nat, acc: Tally, next: Tally, ms: seq<Match>, amount: real)
    requires n < |concs.keys|
    requires Matches(concs.keys[n]) == ms && GetOr(concs.vals, concs.keys[n], 0.0) == amount
    requires AddMatches(acc, ms, amount) == next
    ensures MassesFrom(concs, n, acc) == MassesFrom(concs, n + 1, next)
  {
    MassesUnfold(concs, n, acc);
  }

  lemma MatchesAcetic(s: string)
    requires s == "CH3COOH"
    ensures Matches(s) == [Match("C", ""), Match("H", "3"), Match("C", ""), Match("O", ""), Match("O", ""), Match("H", "")]
  {
    var ms := [Match("C", ""), Match("H", "3"), Match("C", ""), Match("O", ""), Match("O", ""), Match("H", "")];
    AceticShaped(ms);
    AceticSpell(ms, s);
    MatchesSpell(ms);
  }

  lemma AceticShaped(ms: seq<Match>)
    requires ms == [Match("C", ""), Match("H", "3"), Match("C", ""), Match("O", ""), Match("O", ""), Match("H", "")]
    ensures forall i :: 0 <= i < |ms| ==> WellShaped(ms[i])
  {
  }

  lemma AceticSpell(ms: seq<Match>, s: string)
    requires ms == [Match("C", ""), Match("H", "3"), Match("C", ""), Match("O", ""), Match("O", ""), Match("H", "")]
    requires s == "CH3COOH"
    ensures Spell(ms) == s
  {
    AceticTail(ms);
    SpellStep(ms, 2, "C", "OOH");
    SpellStep(ms, 1, "H3", "COOH");
    SpellStep(ms, 0, "C", "H3COOH");
  }

  lemma AceticTail(ms: seq<Match>)
    requires |ms| == 6 && ms[3] == Match("O", "") && ms[4] == Match("O", "") && ms[5] == Match("H", "")
    ensures Spell(ms[3..]) == "OOH"
  {
    SpellStep(ms, 5, "H", "");
    SpellStep(ms, 4, "O", "H");
    SpellStep(ms, 3, "O", "OH");
  }

  lemma SpellTwo(a: Match, b: Match, x: string, y: string)
    requires a.atom + a.digits == x && b.atom + b.digits == y
    ensures Spell([a, b]) == x + y
  {
    assert [a, b][1..] == [b];
    assert [b][1..] == [];
    assert Spell([b]) == y + "" == y;
  }

  /** Spelling a suffix one match longer. */
  lemma SpellStep(ms: seq<Match>, i: nat, head: string, tail: string)
    requires i < |ms| && ms[i].atom + ms[i].digits == head && Spell(ms[i + 1..]) == tail
    ensures Spell(ms[i..]) == head + tail
  {
    assert ms[i..][1..] == ms[i + 1..];
  }

  /** Two steps of a tally: `AddMatches` over two matches. */
  lemma AddTwo(t: Tally, ms: seq<Match>, amount: real)
    requires |ms| >= 2
    ensures AddMatches(t, ms, amount) ==
              AddMatches(AddOne(AddOne(t, ms[0].atom, Increment(ms[0], amount)), ms[1].atom, Increment(ms[1], amount)), ms[2..], amount)
  {
    AddMatchesUnfold(t, ms, amount);
    AddMatchesUnfold(AddOne(t, ms[0].atom, Increment(ms[0], amount)), ms[1..], amount);
    assert ms[1..][1..] == ms[2..];
  }

  lemma AddAceticHead(t: Tally)
    requires t == Tally.Empty()
    ensures AddOne(AddOne(t, "C", 1.0), "H", 3.0) == Dict(["C", "H"], map["C" := 1.0, "H" := 3.0])
  {
  }

  lemma AddAceticMiddle(t: Tally)
    requires t == Dict(["C", "H"], map["C" := 1.0, "H" := 3.0])
    ensures AddOne(AddOne(t, "C", 1.0), "O", 1.0) == Dict(["C", "H", "O"], map["C" := 2.0, "H" := 3.0, "O" := 1.0])
  {
    var t1 := AddOne(t, "C", 1.0);
    assert t1 == Dict(["C", "H"], map["C" := 2.0, "H" := 3.0]);
  }

  lemma AddAceticLast(t: Tally)
    requires t == Dict(["C", "H", "O"], map["C" := 2.0, "H" := 3.0, "O" := 1.0])
    ensures AddOne(AddOne(t, "O", 1.0), "H", 1.0) == Dict(["C", "H", "O"], map["C" := 2.0, "H" := 4.0, "O" := 2.0])
  {
    var t1 := AddOne(t, "O", 1.0);
    assert t1 == Dict(["C", "H", "O"], map["C" := 2.0, "H" := 3.0, "O" := 2.0]);
  }

  lemma AddAcetic(t: Tally)
    requires t == Tally.Empty()
    ensures AddMatches(t, [Match("C", ""), Match("H", "3"), Match("C", ""), Match("O", ""), Match("O", ""), Match("H", "")], 1.0) ==
              Dict(["C", "H", "O"], map["C" := 2.0, "H" := 4.0, "O" := 2.0])
  {
    var ms := [Match("C", ""), Match("H", "3"), Match("C", ""), Match("O", ""), Match("O", ""), Match("H", "")];
    assert CountOf("3") == 3;
    assert Increment(ms[0], 1.0) == 1.0 && Increment(ms[1], 1.0) == 3.0 && Increment(ms[2], 1.0) == 1.0;
    assert Increment(ms[3], 1.0) == 1.0 && Increment(ms[4], 1.0) == 1.0 && Increment(ms[5], 1.0) == 1.0;
    AddTwo(t, ms, 1.0);
    AddAceticHead(t);
    var t2 := Dict(["C", "H"], map["C" := 1.0, "H" := 3.0]);
    AddTwo(t2, ms[2..], 1.0);
    AddAceticMiddle(t2);
    var t4 := Dict(["C", "H", "O"], map["C" := 2.0, "H" := 3.0, "O" := 1.0]);
    assert ms[2..][2..] == ms[4..];
    AddTwo(t4, ms[4..], 1.0);
    AddAceticLast(t4);
    assert ms[4..][2..] == [];
  }

  /** Repeated symbols add up: `{CH3COOH: 1}` holds 2 of C, 4 of H and 2
    * of O. */
  lemma AceticMasses(concs: Dict<string, real>)
    requires concs == Dict(["CH3COOH"], map["CH3COOH" := 1.0])
    ensures Masses(concs) == Dict(["C", "H", "O"], map["C" := 2.0, "H" := 4.0, "O" := 2.0])
  {
    MatchesAcetic("CH3COOH");
    AddAcetic(Tally.Empty());
    MassesUnfold(concs, 0, Tally.Empty());
  }
}
