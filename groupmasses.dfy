/** The formula reader of the simulation page's mass-balance panel: each
  * substance name is split into tokens by the same alternatives as the
  * formula validator, and a stack of per-group tallies multiplies a
  * closed group by the number after it. */
module GroupMasses {
  import opened Common
  import opened FormulaGrammar
  import opened MassBalance

  /** The characters JavaScript's "." does not match. */
  predicate IsLineTerminator(c: char)
  {
    c == '\n' || c == '\r' || c == '\U{2028}' || c == '\U{2029}'
  }

  /** `subst.matchAll(SUBSTANCE_PATTERN)` from position `i`: the pattern
    * is the validator's, but a line terminator matches nothing. */
  function JsTokenizeFrom(s: string, i: nat): seq<Token>
    requires i <= |s|
    decreases |s| - i
  {
    if i == |s| then []
    else if IsLineTerminator(s[i]) then JsTokenizeFrom(s, i + 1)
    else
      match Scan(s, i)
      case Matched(t, j) => [t] + JsTokenizeFrom(s, j)
      case Passed => assert false; []
  }

  function JsTokenize(s: string): seq<Token>
  {
    JsTokenizeFrom(s, 0)
  }

  predicate KeptByJs(t: Token)
  {
    !(t.Invalid? && IsLineTerminator(t.c))
  }

  /** The JavaScript tokens are the validator's tokens without the single
    * characters that only the validator's "." matches. */
  lemma {:induction false} JsTokenizeDrops(s: string, i: nat)
    requires i <= |s|
    ensures JsTokenizeFrom(s, i) == Filter(TokenizeFrom(s, i), KeptByJs)
    decreases |s| - i
  {
    if i < |s| {
      if IsLineTerminator(s[i]) {
        JsTokenizeDrops(s, i + 1);
        TerminatorDropped(s, i);
      } else {
        ScanSpec(s, i);
        var j := Scan(s, i).next;
        JsTokenizeDrops(s, j);
        KeptStep(s, i);
      }
    }
  }

  /** A line terminator contributes no kept token. */
  lemma TerminatorDropped(s: string, i: nat)
    requires i < |s| && IsLineTerminator(s[i])
    ensures Filter(TokenizeFrom(s, i), KeptByJs) == Filter(TokenizeFrom(s, i + 1), KeptByJs)
  {
    if s[i] != '\n' {
      assert SymbolLength(s, i) == 0;
      assert Scan(s, i) == Matched(Invalid(s[i]), i + 1);
      var rest := TokenizeFrom(s, i + 1);
      assert TokenizeFrom(s, i) == [Invalid(s[i])] + rest;
      assert ([Invalid(s[i])] + rest)[1..] == rest;
    }
  }

  /** Any other character starts a token both readings keep. */
  lemma KeptStep(s: string, i: nat)
    requires i < |s| && !IsLineTerminator(s[i])
    ensures Scan(s, i).Matched?
    ensures Filter(TokenizeFrom(s, i), KeptByJs)
            == [Scan(s, i).token] + Filter(TokenizeFrom(s, Scan(s, i).next), KeptByJs)
  {
    ScanSpec(s, i);
    var t, j := Scan(s, i).token, Scan(s, i).next;
    var rest := TokenizeFrom(s, j);
    assert TokenizeFrom(s, i) == [t] + rest;
    assert ([t] + rest)[1..] == rest;
    assert KeptByJs(t) by {
      if t.Invalid? {
        assert TokenText(t) == s[i..j];
        assert t.c == s[i];
      }
    }
  }

  /** Without carriage returns and Unicode line or paragraph separators
    * both tokenisers agree. */
  lemma {:induction false} JsTokenizeAgrees(s: string, i: nat)
    requires i <= |s|
    requires forall k :: i <= k < |s| ==> s[k] == '\n' || !IsLineTerminator(s[k])
    ensures JsTokenizeFrom(s, i) == TokenizeFrom(s, i)
    decreases |s| - i
  {
    if i < |s| {
      match Scan(s, i)
      case Matched(t, j) =>
        JsTokenizeAgrees(s, j);
      case Passed =>
        JsTokenizeAgrees(s, i + 1);
    }
  }

  /** What `getMasses` throws: the `Error`s it raises itself, the
    * `TypeError` of reading a name off a missing group, and (in the
    * corrected reading only) a closing parenthesis with no open group. */
  datatype Fault = UnexpectedMatch(c: char) | CouldNotParse(substance: string) | TypeError | Underflow

  /** The message of an `Error` the reader raises itself. */
  function Message(f: Fault): (m: Option<string>)
    ensures m.Some? <==> f.UnexpectedMatch? || f.CouldNotParse?
  {
    match f
    // `${match}` joins the eight entries of the match array with commas
    case UnexpectedMatch(c) => Some("Unexpected '" + [c] + ",,,,,,," + [c] + "'")
    case CouldNotParse(s) => Some("Couldn't parse substance: " + s)
    case _ => None
  }

  type Stack = seq<Tally>

  /** One token's effect on the stack of open groups, innermost last. With
    * `strict` false this is the reader as written: a closing parenthesis
    * at the outer level pops the outer tally and leaves no group at all. */
  function Step(stack: Stack, t: Token, strict: bool): Result<Stack, Fault>
  {
    match t
    case Atom(name, count) =>
      if stack == [] then Failure(TypeError)
      else Success(stack[..|stack| - 1] + [AddOne(stack[|stack| - 1], name, CountOf(count) as real)])
    case Open => Success(stack + [Tally.Empty()])
    case Close(mult) =>
      if |stack| >= 2 then
        Success(stack[..|stack| - 2] + [AddScaled(stack[|stack| - 2], stack[|stack| - 1], CountOf(mult) as real)])
      else if strict then Failure(Underflow)
      else if |stack| == 1 && stack[0].keys == [] then Success([])
      else Failure(TypeError)
    case Invalid(c) => Failure(UnexpectedMatch(c))
  }

  /** The loop over the matches: the first throw ends it. */
  function Run(stack: Stack, ts: seq<Token>, strict: bool): Result<Stack, Fault>
    decreases |ts|
  {
    if ts == [] then Success(stack)
    else
      match Step(stack, ts[0], strict)
      case Failure(f) => Failure(f)
      case Success(next) => Run(next, ts[1..], strict)
  }

  /** The outer tally once the tokens are done, if exactly one group is
    * left. */
  function Finish(r: Result<Stack, Fault>, subst: string): Result<Tally, Fault>
  {
    match r
    case Failure(f) => Failure(f)
    case Success(stack) => if |stack| != 1 then Failure(CouldNotParse(subst)) else Success(stack[0])
  }

  /** The atom counts of one substance. */
  function Counts(subst: string, strict: bool): Result<Tally, Fault>
  {
    Finish(Run([Tally.Empty()], JsTokenize(subst), strict), subst)
  }

  /** A substance reader: the counts of one substance, or what it throws. */
  type Reader = string -> Result<Tally, Fault>

  function ReaderOf(strict: bool): Reader
  {
    (subst: string) => Counts(subst, strict)
  }

  /** The masses after the substances from the `n`-th on are added to
    * `acc`: each count times the substance's concentration. */
  function MassesFrom(concs: Dict<string, real>, n: nat, acc: Tally, read: Reader): Result<Tally, Fault>
    requires n <= |concs.keys|
    decreases |concs.keys| - n
  {
    if n == |concs.keys| then Success(acc)
    else
      var subst := concs.keys[n];
      match read(subst)
      case Failure(f) => Failure(f)
      case Success(c) => MassesFrom(concs, n + 1, AddScaled(acc, c, GetOr(concs.vals, subst, 0.0)), read)
  }

  function Masses(concs: Dict<string, real>, strict: bool): Result<Tally, Fault>
  {
    MassesFrom(concs, 0, Tally.Empty(), ReaderOf(strict))
  }

  /** `getMassBalanceError`, with the epsilon 1e-9. */
  function MassBalanceErrorOf(init: Dict<string, real>, final: Dict<string, real>, strict: bool): Result<Balance, Fault>
  {
    match Masses(init, strict)
    case Failure(f) => Failure(f)
    case Success(initMasses) =>
      match Masses(final, strict)
      case Failure(f) => Failure(f)
      case Success(finalMasses) => Success(BalanceOf(initMasses, finalMasses, 0.000000001))
  }

  /** `for (const [name, num] of Object.entries(from)) into[name] =
    * (into[name] ?? 0) + num * factor` */
  method MergeScaled(into: Tally, from: Tally, factor: real) returns (r: Tally)
    ensures r == AddScaled(into, from, factor)
  {
    r := into;
    var j := 0;
    while j < |from.keys|
      invariant 0 <= j <= |from.keys|
      invariant r == AddPrefix(into, Scale(from, factor), j)
    {
      var name := from.keys[j];
      ScaleAt(from, factor, name);
      r := AddOne(r, name, GetOr(from.vals, name, 0.0) * factor);
      j := j + 1;
    }
  }

  lemma ScaleAt(from: Tally, factor: real, k: string)
    ensures GetOr(Scale(from, factor).vals, k, 0.0) == GetOr(from.vals, k, 0.0) * factor
  {
  }

  /** The token loop of `getMasses` for one substance, with the stack as
    * written. */
  method SubstanceCounts(subst: string) returns (r: Result<Tally, Fault>)
    ensures r == Counts(subst, false)
  {
    var tokens := JsTokenize(subst);
    var stack: Stack := [Tally.Empty()];
    var i := 0;
    while i < |tokens|
      invariant 0 <= i <= |tokens|
      invariant Run([Tally.Empty()], tokens, false) == Run(stack, tokens[i..], false)
    {
      assert tokens[i..][1..] == tokens[i + 1..];
      match tokens[i] {
        case Atom(name, count) =>
          if stack == [] {
            return Failure(TypeError);
          }
          var current := stack[|stack| - 1];
          stack := stack[..|stack| - 1] + [AddOne(current, name, CountOf(count) as real)];
        case Open =>
          stack := stack + [Tally.Empty()];
        case Close(mult) =>
          if stack == [] {
            return Failure(TypeError);
          }
          var popped := stack[|stack| - 1];
          if |stack| == 1 {
            if popped.keys != [] {
              return Failure(TypeError);
            }
            stack := [];
          } else {
            var prev := MergeScaled(stack[|stack| - 2], popped, CountOf(mult) as real);
            stack := stack[..|stack| - 2] + [prev];
          }
        case Invalid(c) =>
          return Failure(UnexpectedMatch(c));
      }
      i := i + 1;
    }
    if |stack| != 1 {
      return Failure(CouldNotParse(subst));
    }
    return Success(stack[0]);
  }

  /** `getMasses`: the substances in the object's order. */
  method GetMasses(concs: Dict<string, real>) returns (r: Result<Tally, Fault>)
    ensures r == Masses(concs, false)
  {
    var masses := Tally.Empty();
    var n := 0;
    while n < |concs.keys|
      invariant 0 <= n <= |concs.keys|
      invariant Masses(concs, false) == MassesFrom(concs, n, masses, ReaderOf(false))
    {
      var subst := concs.keys[n];
      var counts := SubstanceCounts(subst);
      if counts.Failure? {
        return Failure(counts.error);
      }
      masses := MergeScaled(masses, counts.value, GetOr(concs.vals, subst, 0.0));
      n := n + 1;
    }
    return Success(masses);
  }

  /** `getMassBalanceError`: both mass tallies, then the score loop. */
  method GetMassBalanceError(init: Dict<string, real>, final: Dict<string, real>) returns (r: Result<Balance, Fault>)
    ensures r == MassBalanceErrorOf(init, final, false)
  {
    var initMasses := GetMasses(init);
    if initMasses.Failure? {
      return Failure(initMasses.error);
    }
    var finalMasses := GetMasses(final);
    if finalMasses.Failure? {
      return Failure(finalMasses.error);
    }
    var b := ScoreMasses(initMasses.value, finalMasses.value, 0.000000001);
    return Success(b);
  }

  // Well-formed tallies

  /** No name twice, and no negative amount. */
  predicate WellFormed(t: Tally)
  {
    t.Valid() && NonNegative(t)
  }

  predicate AllWellFormed(stack: Stack)
  {
    forall i :: 0 <= i < |stack| ==> WellFormed(stack[i])
  }

  lemma AddOneWellFormed(t: Tally, name: string, x: real)
    requires WellFormed(t) && x >= 0.0
    ensures WellFormed(AddOne(t, name, x))
  {
    AddOneValid(t, name, x);
  }

  lemma AddScaledWellFormed(into: Tally, from: Tally, factor: real)
    requires WellFormed(into) && WellFormed(from) && factor >= 0.0
    ensures WellFormed(AddScaled(into, from, factor))
  {
    AddScaledValid(into, from, factor);
    AddScaledNonNegative(into, from, factor);
  }

  /** Every group tally stays well formed, whatever the tokens. */
  lemma StepWellFormed(stack: Stack, t: Token, strict: bool)
    requires AllWellFormed(stack)
    ensures Step(stack, t, strict).Success? ==> AllWellFormed(Step(stack, t, strict).value)
  {
    match t
    case Atom(name, count) =>
      if stack != [] {
        AddOneWellFormed(stack[|stack| - 1], name, CountOf(count) as real);
      }
    case Open =>
    case Close(mult) =>
      if |stack| >= 2 {
        AddScaledWellFormed(stack[|stack| - 2], stack[|stack| - 1], CountOf(mult) as real);
      }
    case Invalid(_) =>
  }

  lemma {:induction false} RunWellFormed(stack: Stack, ts: seq<Token>, strict: bool)
    requires AllWellFormed(stack)
    ensures Run(stack, ts, strict).Success? ==> AllWellFormed(Run(stack, ts, strict).value)
    decreases |ts|
  {
    if ts != [] {
      StepWellFormed(stack, ts[0], strict);
      if Step(stack, ts[0], strict).Success? {
        RunWellFormed(Step(stack, ts[0], strict).value, ts[1..], strict);
      }
    }
  }

  /** The counts of a substance never repeat a name and are never
    * negative. */
  lemma CountsWellFormed(subst: string, strict: bool)
    ensures Counts(subst, strict).Success? ==> WellFormed(Counts(subst, strict).value)
  {
    RunWellFormed([Tally.Empty()], JsTokenize(subst), strict);
  }

  // Running over a concatenation

  lemma {:induction false} RunConcat(stack: Stack, a: seq<Token>, b: seq<Token>, strict: bool)
    ensures Run(stack, a + b, strict) ==
              match Run(stack, a, strict)
              case Failure(f) => Failure(f)
              case Success(next) => Run(next, b, strict)
    decreases |a|
  {
    if a != [] {
      assert (a + b)[0] == a[0] && (a + b)[1..] == a[1..] + b;
      if Step(stack, a[0], strict).Success? {
        RunConcat(Step(stack, a[0], strict).value, a[1..], b, strict);
      }
    } else {
      assert a + b == b;
    }
  }

  // The reference: formulas as nested groups

  /** A formula as the validator's grammar describes it: element symbols
    * with an optional count, and parenthesised groups with an optional
    * multiplier, both kept as their digit text. */
  datatype Item = Element(name: string, count: string) | Group(items: seq<Item>, mult: string)

  /** The tokens of a formula. */
  function Render(items: seq<Item>): seq<Token>
    decreases items
  {
    if items == [] then [] else RenderItem(items[0]) + Render(items[1..])
  }

  function RenderItem(item: Item): seq<Token>
    decreases item
  {
    match item
    case Element(n, c) => [Atom(n, c)]
    case Group(inner, m) => [Open] + Render(inner) + [Close(m)]
  }

  /** The number of atoms named `k`: an element's count (1 when no digits
    * follow it), every group's count times its multiplier, summed. */
  function Count(items: seq<Item>, k: string): real
    decreases items
  {
    if items == [] then 0.0 else ItemCount(items[0], k) + Count(items[1..], k)
  }

  function ItemCount(item: Item, k: string): real
    decreases item
  {
    match item
    case Element(n, c) => if n == k then CountOf(c) as real else 0.0
    case Group(inner, m) => Times(Count(inner, k), CountOf(m))
  }

  /** A count repeated by a group's multiplier. */
  function Times(c: real, n: nat): real
  {
    c * (n as real)
  }

  /** The element names a formula mentions. */
  function Names(items: seq<Item>): set<string>
    decreases items
  {
    if items == [] then {} else ItemNames(items[0]) + Names(items[1..])
  }

  function ItemNames(item: Item): set<string>
    decreases item
  {
    match item
    case Element(n, _) => {n}
    case Group(inner, _) => Names(inner)
  }

  /** What a formula adds to a group's tally. */
  function Fill(top: Tally, items: seq<Item>): Tally
    decreases items
  {
    if items == [] then top else Fill(FillItem(top, items[0]), items[1..])
  }

  function FillItem(top: Tally, item: Item): Tally
    decreases item
  {
    match item
    case Element(n, c) => AddOne(top, n, CountOf(c) as real)
    case Group(inner, m) => AddScaled(top, Fill(Tally.Empty(), inner), CountOf(m) as real)
  }

  /** The reader takes a formula's tokens into the innermost open group
    * and leaves the outer groups alone. */
  lemma {:induction false} RunRender(stack: Stack, top: Tally, items: seq<Item>, rest: seq<Token>, strict: bool)
    ensures Run(stack + [top], Render(items) + rest, strict) == Run(stack + [Fill(top, items)], rest, strict)
    decreases items
  {
    if items != [] {
      assert Render(items) + rest == RenderItem(items[0]) + (Render(items[1..]) + rest);
      RunRenderItem(stack, top, items[0], Render(items[1..]) + rest, strict);
      RunRender(stack, FillItem(top, items[0]), items[1..], rest, strict);
    } else {
      assert Render(items) + rest == rest;
    }
  }

  lemma {:induction false} RunRenderItem(stack: Stack, top: Tally, item: Item, rest: seq<Token>, strict: bool)
    ensures Run(stack + [top], RenderItem(item) + rest, strict) == Run(stack + [FillItem(top, item)], rest, strict)
    decreases item
  {
    var s1 := stack + [top];
    match item
    case Element(n, c) =>
      assert s1[..|s1| - 1] == stack;
      RunFirst(s1, Atom(n, c), rest, strict, stack + [FillItem(top, item)]);
    case Group(inner, m) =>
      var tail := [Close(m)] + rest;
      assert RenderItem(item) + rest == [Open] + (Render(inner) + tail);
      RunFirst(s1, Open, Render(inner) + tail, strict, s1 + [Tally.Empty()]);
      RunRender(s1, Tally.Empty(), inner, tail, strict);
      var s2 := s1 + [Fill(Tally.Empty(), inner)];
      assert s2[..|s2| - 2] == stack && s2[|s2| - 2] == top && s2[|s2| - 1] == Fill(Tally.Empty(), inner);
      RunFirst(s2, Close(m), rest, strict, stack + [FillItem(top, item)]);
  }

  /** A token that steps to `next` leaves the rest to run from `next`. */
  lemma RunFirst(stack: Stack, t: Token, rest: seq<Token>, strict: bool, next: Stack)
    requires Step(stack, t, strict) == Success(next)
    ensures Run(stack, [t] + rest, strict) == Run(next, rest, strict)
  {
    assert ([t] + rest)[0] == t && ([t] + rest)[1..] == rest;
  }

  lemma {:induction false} FillWellFormed(top: Tally, items: seq<Item>)
    requires WellFormed(top)
    ensures WellFormed(Fill(top, items))
    decreases items
  {
    if items != [] {
      FillItemWellFormed(top, items[0]);
      FillWellFormed(FillItem(top, items[0]), items[1..]);
    }
  }

  lemma {:induction false} FillItemWellFormed(top: Tally, item: Item)
    requires WellFormed(top)
    ensures WellFormed(FillItem(top, item))
    decreases item
  {
    match item
    case Element(n, c) =>
      AddOneWellFormed(top, n, CountOf(c) as real);
    case Group(inner, m) =>
      FillWellFormed(Tally.Empty(), inner);
      AddScaledWellFormed(top, Fill(Tally.Empty(), inner), CountOf(m) as real);
  }

  /** A formula adds exactly its atom counts, under exactly its names. */
  lemma {:induction false} FillAt(top: Tally, items: seq<Item>, k: string)
    ensures k in Fill(top, items).vals <==> k in top.vals || k in Names(items)
    ensures GetOr(Fill(top, items).vals, k, 0.0) == GetOr(top.vals, k, 0.0) + Count(items, k)
    decreases items, 2
  {
    if items != [] {
      FillItemAt(top, items[0], k);
      FillAt(FillItem(top, items[0]), items[1..], k);
    }
  }

  lemma {:induction false} FillItemAt(top: Tally, item: Item, k: string)
    ensures k in FillItem(top, item).vals <==> k in top.vals || k in ItemNames(item)
    ensures GetOr(FillItem(top, item).vals, k, 0.0) == GetOr(top.vals, k, 0.0) + ItemCount(item, k)
    decreases item, 1
  {
    match item
    case Element(n, c) =>
      ElementAt(top, n, CountOf(c) as real, k);
    case Group(inner, m) =>
      GroupAt(top, inner, m, k);
  }

  /** An element adds its count to its own name and nothing elsewhere. */
  lemma ElementAt(top: Tally, n: string, x: real, k: string)
    ensures k in AddOne(top, n, x).vals <==> k in top.vals || k in {n}
    ensures GetOr(AddOne(top, n, x).vals, k, 0.0) == GetOr(top.vals, k, 0.0) + (if n == k then x else 0.0)
  {
  }

  lemma {:induction false} GroupAt(top: Tally, inner: seq<Item>, m: string, k: string)
    ensures k in FillItem(top, Group(inner, m)).vals <==> k in top.vals || k in ItemNames(Group(inner, m))
    ensures GetOr(FillItem(top, Group(inner, m)).vals, k, 0.0) == GetOr(top.vals, k, 0.0) + ItemCount(Group(inner, m), k)
    decreases Group(inner, m), 0
  {
    FillWellFormed(Tally.Empty(), inner);
    FillAt(Tally.Empty(), inner, k);
    FillGroup(top, inner, m);
    ScaledGroupAt(top, Fill(Tally.Empty(), inner), CountOf(m), k, Count(inner, k), Names(inner));
  }

  lemma FillGroup(top: Tally, inner: seq<Item>, m: string)
    ensures FillItem(top, Group(inner, m)) == AddScaled(top, Fill(Tally.Empty(), inner), CountOf(m) as real)
    ensures ItemNames(Group(inner, m)) == Names(inner)
  {
  }

  /** A tally holding `c` of `k`, merged with a multiplier, adds `c` times
    * the multiplier. */
  lemma ScaledGroupAt(top: Tally, group: Tally, n: nat, k: string, c: real, names: set<string>)
    requires group.Valid()
    requires k in group.vals <==> k in Tally.Empty().vals || k in names
    requires GetOr(group.vals, k, 0.0) == GetOr(Tally.Empty().vals, k, 0.0) + c
    ensures k in AddScaled(top, group, n as real).vals <==> k in top.vals || k in names
    ensures GetOr(AddScaled(top, group, n as real).vals, k, 0.0) == GetOr(top.vals, k, 0.0) + Times(c, n)
  {
    AddScaledAt(top, group, n as real, k);
    assert GetOr(group.vals, k, 0.0) == c;
  }

  /** Reading any formula's tokens succeeds with one tally that holds
    * exactly the formula's names, each with its atom count. */
  lemma FormulaCounts(items: seq<Item>, strict: bool)
    ensures Run([Tally.Empty()], Render(items), strict) == Success([Fill(Tally.Empty(), items)])
    ensures WellFormed(Fill(Tally.Empty(), items))
    ensures forall k :: k in Fill(Tally.Empty(), items).vals <==> k in Names(items)
    ensures forall k :: GetOr(Fill(Tally.Empty(), items).vals, k, 0.0) == Count(items, k)
  {
    RunRender([], Tally.Empty(), items, [], strict);
    assert [] + [Tally.Empty()] == [Tally.Empty()];
    assert Render(items) + [] == Render(items);
    assert [] + [Fill(Tally.Empty(), items)] == [Fill(Tally.Empty(), items)];
    FillWellFormed(Tally.Empty(), items);
    forall k
      ensures k in Fill(Tally.Empty(), items).vals <==> k in Names(items)
      ensures GetOr(Fill(Tally.Empty(), items).vals, k, 0.0) == Count(items, k)
    {
      FillAt(Tally.Empty(), items, k);
    }
  }

  // Nesting: what the corrected reader accepts

  function Delta(t: Token): int
  {
    match t
    case Open => 1
    case Close(_) => -1
    case _ => 0
  }

  lemma {:induction false} DepthCons(t: Token, ts: seq<Token>)
    ensures Depth([t] + ts) == Delta(t) + Depth(ts)
    decreases |ts|
  {
    if ts == [] {
      assert [t] + ts == [t];
      assert [t][..0] == [];
    } else {
      var n := |ts|;
      assert ([t] + ts)[..n] == [t] + ts[..n - 1];
      assert ([t] + ts)[n] == ts[n - 1];
      DepthCons(t, ts[..n - 1]);
    }
  }

  /** Starting `base` groups deep, no prefix of `ts` closes more groups
    * than are open. */
  predicate StaysAbove(ts: seq<Token>, base: int)
  {
    forall k :: 0 <= k <= |ts| ==> base + Depth(ts[..k]) >= 0
  }

  lemma StaysAboveCons(t: Token, ts: seq<Token>, base: int)
    requires base >= 0
    ensures StaysAbove([t] + ts, base) <==> base + Delta(t) >= 0 && StaysAbove(ts, base + Delta(t))
  {
    var whole := [t] + ts;
    forall k | 0 <= k <= |ts|
      ensures Depth(whole[..k + 1]) == Delta(t) + Depth(ts[..k])
    {
      assert whole[..k + 1] == [t] + ts[..k];
      DepthCons(t, ts[..k]);
    }
    assert Depth(whole[..0]) == 0;
    if StaysAbove(whole, base) {
      assert base + Depth(whole[..1]) >= 0;
      forall k | 0 <= k <= |ts|
        ensures base + Delta(t) + Depth(ts[..k]) >= 0
      {
        assert base + Depth(whole[..k + 1]) >= 0;
      }
    }
    if base + Delta(t) >= 0 && StaysAbove(ts, base + Delta(t)) {
      forall k | 0 <= k <= |whole|
        ensures base + Depth(whole[..k]) >= 0
      {
        if k > 0 {
          assert base + Delta(t) + Depth(ts[..k - 1]) >= 0;
        }
      }
    }
  }

  predicate NoInvalid(ts: seq<Token>)
  {
    forall k :: 0 <= k < |ts| ==> !ts[k].Invalid?
  }

  /** The corrected reader, started with at least one group, finishes
    * exactly when no token is invalid and no prefix closes more groups
    * than are open; it then holds one group more than the depth. */
  lemma {:induction false} CorrectedRunIff(stack: Stack, ts: seq<Token>)
    requires |stack| >= 1
    ensures Run(stack, ts, true).Success? <==> NoInvalid(ts) && StaysAbove(ts, |stack| - 1)
    ensures Run(stack, ts, true).Success? ==> |Run(stack, ts, true).value| == |stack| + Depth(ts)
    decreases |ts|
  {
    if ts == [] {
      assert ts[..0] == [];
    } else {
      var t, rest := ts[0], ts[1..];
      assert ts == [t] + rest;
      StaysAboveCons(t, rest, |stack| - 1);
      DepthCons(t, rest);
      assert NoInvalid(ts) <==> !t.Invalid? && NoInvalid(rest) by {
        forall k | 0 <= k < |rest|
          ensures rest[k] == ts[k + 1]
        {
        }
      }
      match Step(stack, t, true)
      case Failure(_) =>
      case Success(next) =>
        assert |next| == |stack| + Delta(t);
        CorrectedRunIff(next, rest);
    }
  }

  /** Where the corrected reader finishes, the reader as written reaches
    * the same stack: the two differ only on a closing parenthesis with
    * no open group. */
  lemma {:induction false} StrictAgrees(stack: Stack, ts: seq<Token>)
    ensures Run(stack, ts, true).Success? ==> Run(stack, ts, false) == Run(stack, ts, true)
    decreases |ts|
  {
    if ts != [] && Step(stack, ts[0], true).Success? {
      StrictAgrees(Step(stack, ts[0], true).value, ts[1..]);
    }
  }

  /** The corrected counts exist exactly for substances whose tokens are
    * all valid and whose groups nest and all close. */
  lemma CorrectedCountsIff(subst: string)
    ensures var ts := JsTokenize(subst);
            Counts(subst, true).Success? <==> NoInvalid(ts) && NeverBelowZero(ts) && Depth(ts) == 0
  {
    CorrectedRunIff([Tally.Empty()], JsTokenize(subst));
  }

  /** A group left open makes both readings throw "Couldn't parse
    * substance". */
  lemma UnclosedThrows(subst: string, strict: bool)
    requires var ts := JsTokenize(subst); NoInvalid(ts) && NeverBelowZero(ts) && Depth(ts) > 0
    ensures Counts(subst, strict) == Failure(CouldNotParse(subst))
  {
    var ts := JsTokenize(subst);
    CorrectedRunIff([Tally.Empty()], ts);
    StrictAgrees([Tally.Empty()], ts);
  }

  /** The first invalid character, behind tokens that nest, makes both
    * readings throw "Unexpected". */
  lemma InvalidThrows(subst: string, strict: bool, n: nat)
    requires var ts := JsTokenize(subst); n < |ts| && ts[n].Invalid? && NoInvalid(ts[..n]) && NeverBelowZero(ts[..n])
    ensures Counts(subst, strict) == Failure(UnexpectedMatch(JsTokenize(subst)[n].c))
  {
    var ts := JsTokenize(subst);
    var stack := [Tally.Empty()];
    assert ts == ts[..n] + ts[n..];
    assert ts[n..][0] == ts[n];
    CorrectedRunIff(stack, ts[..n]);
    StrictAgrees(stack, ts[..n]);
    RunConcat(stack, ts[..n], ts[n..], strict);
  }

  /** The validator's accepted substances, free of carriage returns and
    * Unicode separators, are read without a throw, and the reading as
    * written agrees with the corrected one. */
  lemma ValidatedSubstanceCounts(subst: string)
    requires CorrectedValidityOf(subst) == Accepted
    requires forall k :: 0 <= k < |subst| ==> subst[k] == '\n' || !IsLineTerminator(subst[k])
    ensures Counts(subst, true).Success?
    ensures Counts(subst, false) == Counts(subst, true)
  {
    var ts := Tokenize(subst);
    JsTokenizeAgrees(subst, 0);
    forall k | 0 <= k < |ts|
      ensures !ts[k].Invalid?
    {
      assert TokenFault(ts[k]).None?;
    }
    CorrectedCountsIff(subst);
    StrictAgrees([Tally.Empty()], ts);
  }

  // Masses

  /** The mass of `k` the substances from the `n`-th on contribute: its
    * atom count in each substance times that substance's concentration. */
  function ElementMassFrom(concs: Dict<string, real>, n: nat, k: string, read: Reader): real
    requires n <= |concs.keys|
    decreases |concs.keys| - n
  {
    if n == |concs.keys| then 0.0
    else
      var subst := concs.keys[n];
      AtomCount(read(subst), k) * GetOr(concs.vals, subst, 0.0) + ElementMassFrom(concs, n + 1, k, read)
  }

  /** The count of `k` in a substance that can be read, else 0. */
  function AtomCount(c: Result<Tally, Fault>, k: string): real
  {
    if c.Success? then GetOr(c.value.vals, k, 0.0) else 0.0
  }

  /** Whether some substance from the `n`-th on holds `k`. */
  predicate MentionedFrom(concs: Dict<string, real>, n: nat, k: string, read: Reader)
    requires n <= |concs.keys|
    decreases |concs.keys| - n
  {
    if n == |concs.keys| then false
    else
      var c := read(concs.keys[n]);
      (c.Success? && k in c.value.vals) || MentionedFrom(concs, n + 1, k, read)
  }

  ghost predicate ReadsWellFormed(read: Reader)
  {
    forall subst :: read(subst).Success? ==> WellFormed(read(subst).value)
  }

  lemma ReaderWellFormed(strict: bool)
    ensures ReadsWellFormed(ReaderOf(strict))
  {
    forall subst
      ensures ReaderOf(strict)(subst).Success? ==> WellFormed(ReaderOf(strict)(subst).value)
    {
      CountsWellFormed(subst, strict);
    }
  }

  /** The substances from the `n`-th on that can be read, each with its
    * concentration, in key order. */
  function Parts(concs: Dict<string, real>, n: nat, read: Reader): seq<(Tally, real)>
    requires n <= |concs.keys|
    decreases |concs.keys| - n
  {
    if n == |concs.keys| then []
    else
      var subst := concs.keys[n];
      var rest := Parts(concs, n + 1, read);
      if read(subst).Success? then [(read(subst).value, GetOr(concs.vals, subst, 0.0))] + rest else rest
  }

  /** A way of merging a scaled tally into another. */
  type Merge = (Tally, Tally, real) -> Tally

  /** The merge the mass loop performs. */
  function ScaledMerge(): Merge
  {
    (into: Tally, from: Tally, factor: real) => AddScaled(into, from, factor)
  }

  /** Each part merged in turn. */
  function FoldParts(merge: Merge, acc: Tally, ps: seq<(Tally, real)>): Tally
    decreases |ps|
  {
    if ps == [] then acc else FoldParts(merge, merge(acc, ps[0].0, ps[0].1), ps[1..])
  }

  /** `merge` adds the scaled count of `k`. */
  ghost predicate AddsScaled(merge: Merge, k: string)
  {
    forall into: Tally, from: Tally, factor: real :: from.Valid() ==>
      GetOr(merge(into, from, factor).vals, k, 0.0) == GetOr(into.vals, k, 0.0) + GetOr(from.vals, k, 0.0) * factor
  }

  lemma ScaledMergeAdds(k: string)
    ensures AddsScaled(ScaledMerge(), k)
  {
    forall into: Tally, from: Tally, factor: real | from.Valid()
      ensures GetOr(ScaledMerge()(into, from, factor).vals, k, 0.0) ==
                GetOr(into.vals, k, 0.0) + GetOr(from.vals, k, 0.0) * factor
    {
      AddScaledAt(into, from, factor, k);
    }
  }

  /** The mass of `k` the parts contribute. */
  function PartsMass(ps: seq<(Tally, real)>, k: string): real
    decreases |ps|
  {
    if ps == [] then 0.0 else GetOr(ps[0].0.vals, k, 0.0) * ps[0].1 + PartsMass(ps[1..], k)
  }

  /** A successful mass tally is the parts folded in. */
  lemma {:induction false} MassesFold(concs: Dict<string, real>, n: nat, acc: Tally, read: Reader)
    requires n <= |concs.keys|
    ensures MassesFrom(concs, n, acc, read).Success? ==>
              MassesFrom(concs, n, acc, read).value == FoldParts(ScaledMerge(), acc, Parts(concs, n, read))
    decreases |concs.keys| - n
  {
    if n < |concs.keys| && read(concs.keys[n]).Success? {
      var subst := concs.keys[n];
      var p := (read(subst).value, GetOr(concs.vals, subst, 0.0));
      var rest := Parts(concs, n + 1, read);
      assert Parts(concs, n, read) == [p] + rest;
      assert ([p] + rest)[1..] == rest;
      MassesFold(concs, n + 1, AddScaled(acc, p.0, p.1), read);
    }
  }

  lemma {:induction false} PartsWellFormed(concs: Dict<string, real>, n: nat, read: Reader)
    requires n <= |concs.keys| && ReadsWellFormed(read)
    ensures forall i :: 0 <= i < |Parts(concs, n, read)| ==> WellFormed(Parts(concs, n, read)[i].0)
    decreases |concs.keys| - n
  {
    if n < |concs.keys| {
      PartsWellFormed(concs, n + 1, read);
    }
  }

  lemma {:induction false} FoldPartsAt(merge: Merge, acc: Tally, ps: seq<(Tally, real)>, k: string)
    requires AddsScaled(merge, k)
    requires forall i :: 0 <= i < |ps| ==> ps[i].0.Valid()
    ensures GetOr(FoldParts(merge, acc, ps).vals, k, 0.0) == GetOr(acc.vals, k, 0.0) + PartsMass(ps, k)
    decreases |ps|
  {
    if ps != [] {
      FoldPartsAt(merge, merge(acc, ps[0].0, ps[0].1), ps[1..], k);
    }
  }

  lemma {:induction false} PartsMassIs(concs: Dict<string, real>, n: nat, read: Reader, k: string)
    requires n <= |concs.keys|
    ensures PartsMass(Parts(concs, n, read), k) == ElementMassFrom(concs, n, k, read)
    decreases |concs.keys| - n
  {
    if n < |concs.keys| {
      var subst := concs.keys[n];
      var rest := Parts(concs, n + 1, read);
      PartsMassIs(concs, n + 1, read, k);
      if read(subst).Success? {
        var p := (read(subst).value, GetOr(concs.vals, subst, 0.0));
        assert ([p] + rest)[1..] == rest;
      }
    }
  }

  lemma MassesFromAt(concs: Dict<string, real>, n: nat, acc: Tally, read: Reader, k: string)
    requires n <= |concs.keys| && ReadsWellFormed(read)
    ensures var r := MassesFrom(concs, n, acc, read);
            r.Success? ==> GetOr(r.value.vals, k, 0.0) == GetOr(acc.vals, k, 0.0) + ElementMassFrom(concs, n, k, read)
  {
    MassesFold(concs, n, acc, read);
    PartsWellFormed(concs, n, read);
    ScaledMergeAdds(k);
    FoldPartsAt(ScaledMerge(), acc, Parts(concs, n, read), k);
    PartsMassIs(concs, n, read, k);
  }

  lemma {:induction false} MassesFromHas(concs: Dict<string, real>, n: nat, acc: Tally, read: Reader, k: string)
    requires n <= |concs.keys| && ReadsWellFormed(read)
    ensures var r := MassesFrom(concs, n, acc, read);
            r.Success? ==> (k in r.value.vals <==> k in acc.vals || MentionedFrom(concs, n, k, read))
    decreases |concs.keys| - n
  {
    if n < |concs.keys| {
      var subst := concs.keys[n];
      if read(subst).Success? {
        var c, conc := read(subst).value, GetOr(concs.vals, subst, 0.0);
        AddScaledAt(acc, c, conc, k);
        MassesFromHas(concs, n + 1, AddScaled(acc, c, conc), read, k);
      }
    }
  }

  /** The mass of `k` over all substances. */
  function ElementMass(concs: Dict<string, real>, k: string, strict: bool): real
  {
    ElementMassFrom(concs, 0, k, ReaderOf(strict))
  }

  /** Each element's mass is the sum over the substances of its atom count
    * times the substance's concentration; the mass tally holds exactly
    * the elements some substance holds. */
  lemma MassesAt(concs: Dict<string, real>, strict: bool, k: string)
    ensures Masses(concs, strict).Success? ==>
              (k in Masses(concs, strict).value.vals <==> MentionedFrom(concs, 0, k, ReaderOf(strict))) &&
              GetOr(Masses(concs, strict).value.vals, k, 0.0) == ElementMass(concs, k, strict)
  {
    ReaderWellFormed(strict);
    MassesFromAt(concs, 0, Tally.Empty(), ReaderOf(strict), k);
    MassesFromHas(concs, 0, Tally.Empty(), ReaderOf(strict), k);
  }

  lemma {:induction false} MassesFromWellFormed(concs: Dict<string, real>, n: nat, acc: Tally, read: Reader)
    requires n <= |concs.keys| && WellFormed(acc) && NonNegative(concs) && ReadsWellFormed(read)
    ensures MassesFrom(concs, n, acc, read).Success? ==> WellFormed(MassesFrom(concs, n, acc, read).value)
    decreases |concs.keys| - n
  {
    if n < |concs.keys| {
      var subst := concs.keys[n];
      if read(subst).Success? {
        var c, conc := read(subst).value, GetOr(concs.vals, subst, 0.0);
        AddScaledWellFormed(acc, c, conc);
        MassesFromWellFormed(concs, n + 1, AddScaled(acc, c, conc), read);
      }
    }
  }

  /** Non-negative concentrations give well-formed masses. */
  lemma MassesWellFormed(concs: Dict<string, real>, strict: bool)
    requires NonNegative(concs)
    ensures Masses(concs, strict).Success? ==> WellFormed(Masses(concs, strict).value)
  {
    ReaderWellFormed(strict);
    MassesFromWellFormed(concs, 0, Tally.Empty(), ReaderOf(strict));
  }

  /** With non-negative concentrations the error is zero exactly when every
    * element has the same mass on both sides. */
  lemma MassBalanceZeroIff(init: Dict<string, real>, final: Dict<string, real>, strict: bool)
    requires NonNegative(init) && NonNegative(final)
    ensures var r := MassBalanceErrorOf(init, final, strict);
            r.Success? <==> Masses(init, strict).Success? && Masses(final, strict).Success?
    ensures var r := MassBalanceErrorOf(init, final, strict);
            r.Success? ==> r.value.error.Finite?
    ensures var r := MassBalanceErrorOf(init, final, strict);
            r.Success? ==> (r.value.error == Finite(0.0) <==>
                            forall k :: ElementMass(init, k, strict) == ElementMass(final, k, strict))
  {
    var r := MassBalanceErrorOf(init, final, strict);
    if r.Success? {
      var a, b := Masses(init, strict).value, Masses(final, strict).value;
      MassesWellFormed(init, strict);
      MassesWellFormed(final, strict);
      BalanceZeroIff(a, b, 0.000000001);
      forall k
        ensures GetOr(a.vals, k, 0.0) == ElementMass(init, k, strict)
        ensures GetOr(b.vals, k, 0.0) == ElementMass(final, k, strict)
      {
        MassesAt(init, strict, k);
        MassesAt(final, strict, k);
      }
    }
  }

  /** The same non-negative concentrations on both sides give the error 0
    * whenever the masses can be read. */
  lemma IdenticalInputsNoError(concs: Dict<string, real>, strict: bool)
    requires NonNegative(concs)
    ensures MassBalanceErrorOf(concs, concs, strict).Success? <==> Masses(concs, strict).Success?
    ensures MassBalanceErrorOf(concs, concs, strict).Success? ==>
              MassBalanceErrorOf(concs, concs, strict).value.error == Finite(0.0)
  {
    if Masses(concs, strict).Success? {
      MassesWellFormed(concs, strict);
      SameMassesNoError(Masses(concs, strict).value, 0.000000001);
    }
  }

  // Examples

  /** The formula tree of "CH(CH3)3". */
  const GroupExample: seq<Item> :=
    [Element("C", ""), Element("H", ""), Group([Element("C", ""), Element("H", "3")], "3")]

  lemma GroupExampleRender()
    ensures Render(GroupExample) == GroupHead + [Close("3")]
  {
  }

  lemma GroupExampleTally()
    ensures Names(GroupExample) == {"C", "H"}
    ensures Count(GroupExample, "C") == 4.0 && Count(GroupExample, "H") == 10.0
  {
    assert CountOf("3") == 3;
  }

  lemma NoTerminators(s: string)
    requires s == "CH(CH3)3" || s == ")(H2"
    ensures forall k :: 0 <= k < |s| ==> s[k] == '\n' || !IsLineTerminator(s[k])
  {
  }

  /** "CH(CH3)3" holds four carbons and ten hydrogens, on both readings. */
  lemma GroupExampleCounts(s: string, strict: bool)
    requires s == "CH(CH3)3"
    ensures Counts(s, strict).Success?
    ensures forall k :: k in Counts(s, strict).value.vals <==> k == "C" || k == "H"
    ensures GetOr(Counts(s, strict).value.vals, "C", 0.0) == 4.0
    ensures GetOr(Counts(s, strict).value.vals, "H", 0.0) == 10.0
  {
    NoTerminators(s);
    JsTokenizeAgrees(s, 0);
    GroupExampleTokenize(s);
    GroupExampleRender();
    FormulaCounts(GroupExample, strict);
    GroupExampleTally();
  }

  lemma GroupExampleTokenize(s: string)
    requires s == "CH(CH3)3"
    ensures Tokenize(s) == GroupHead + [Close("3")]
  {
    assert |s| == 8 && s[0] == 'C' && s[1] == 'H' && s[2] == '(' && s[3] == 'C' && s[4] == 'H';
    assert s[5] == '3' && s[6] == ')' && s[7] == '3';
    CloseDigitAt(s, 6);
    HeadThenClose(s, Close("3"), 8);
  }

  /** A closing parenthesis first: as written, the outer tally is popped
    * and a fresh one opened, so ")(H2" reads as two hydrogens. */
  lemma UnderflowAsWritten(s: string)
    requires s == ")(H2"
    ensures Counts(s, false) == Success(Dict(["H"], map["H" := 2.0]))
  {
    UnderflowTokens(s);
    var ts := [Close(""), Open, Atom("H", "2")];
    var empty: Tally := Tally.Empty();
    assert Step([empty], ts[0], false) == Success([]);
    var none: Stack := [];
    assert none + [empty] == [empty];
    assert Step(none, ts[1], false) == Success([empty]);
    assert CountOf("2") == 2;
    assert AddOne(empty, "H", 2.0) == Dict(["H"], map["H" := 2.0]);
    assert Run([empty], ts, false) == Run(none, ts[1..], false);
    assert Run(none, ts[1..], false) == Run([empty], ts[2..], false);
  }

  /** With the underflow rejected, ")(H2" cannot be read. */
  lemma UnderflowCorrected(s: string)
    requires s == ")(H2"
    ensures Counts(s, true) == Failure(Underflow)
  {
    UnderflowTokens(s);
  }

  lemma UnderflowTokens(s: string)
    requires s == ")(H2"
    ensures JsTokenize(s) == [Close(""), Open, Atom("H", "2")]
  {
    NoTerminators(s);
    JsTokenizeAgrees(s, 0);
    assert Scan(s, 0) == Matched(Close(""), 1) by {
      assert s[0] == ')' && s[1] == '(';
      assert DigitRun(s, 1) == 0;
    }
    assert Scan(s, 1) == Matched(Open, 2) by {
      assert s[1] == '(';
    }
    assert Scan(s, 2) == Matched(Atom("H", "2"), 4) by {
      assert s[2] == 'H' && s[3] == '2';
      assert s[3..4] == "2";
    }
    TokenizeStep(s, 2, Atom("H", "2"), 4);
    TokenizeStep(s, 1, Open, 2);
    TokenizeStep(s, 0, Close(""), 1);
  }
}

