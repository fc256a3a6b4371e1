/** The chemical-formula check every adapter's substances must pass: a
  * tokeniser matching, at each position, an element symbol with its count,
  * an opening parenthesis, a closing parenthesis with its multiplier, or any
  * other single character; and a validator walking the tokens with a group
  * depth. */
module FormulaGrammar {
  import opened Common
  import opened Text

  /** The second letters an element symbol starting with `c` may take, and
    * whether `c` alone is a symbol, in the order of the atom pattern. */
  function SecondLetters(c: char): (string, bool)
  {
    match c
    case 'A' => ("cglmrstu", false)
    case 'B' => ("aehikr", true)
    case 'C' => ("adeflmnorsu", true)
    case 'D' => ("bsy", false)
    case 'E' => ("rsu", false)
    case 'F' => ("elmr", true)
    case 'G' => ("ade", false)
    case 'H' => ("efgos", true)
    case 'I' => ("nr", true)
    case 'K' => ("r", true)
    case 'L' => ("airuv", false)
    case 'M' => ("cdgnot", false)
    case 'N' => ("abdehiop", true)
    case 'O' => ("gs", true)
    case 'P' => ("abdmortu", true)
    case 'R' => ("abefghnu", false)
    case 'S' => ("bcegimnr", true)
    case 'T' => ("abcehilms", false)
    case 'U' => ("", true)
    case 'V' => ("", true)
    case 'W' => ("", true)
    case 'X' => ("e", false)
    case 'Y' => ("b", true)
    case 'Z' => ("nr", false)
    case _ => ("", false)
  }

  /** A known element symbol. */
  predicate IsElement(name: string)
  {
    (|name| == 1 && SecondLetters(name[0]).1) || (|name| == 2 && name[1] in SecondLetters(name[0]).0)
  }

  /** The length of the element symbol at `i`, or 0 when none starts there;
    * the optional second letter is taken greedily. */
  function SymbolLength(s: string, i: nat): (n: nat)
    requires i <= |s|
    ensures n <= 2 && i + n <= |s|
    ensures n > 0 ==> IsElement(s[i..i + n]) && IsUpper(s[i])
    ensures forall k :: i <= k < i + n ==> s[k] != '\n'

  {
    // every symbol is an upper-case letter, then perhaps a lower-case one
    if i == |s| || !IsUpper(s[i]) then 0
    else
      var (second, bare) := SecondLetters(s[i]);
      if i + 1 < |s| && IsLower(s[i + 1]) && s[i + 1] in second then 2
      else if bare then 1
      else 0
  }

  /** The length of the run of digits at `i` (`\\d*`, ASCII digits). */
  function DigitRun(s: string, i: nat): (n: nat)
    requires i <= |s|
    ensures i + n <= |s|
    ensures AllDigits(s[i..i + n])
    ensures i + n == |s| || !IsDigit(s[i + n])
    decreases |s| - i
  {
    if i < |s| && IsDigit(s[i]) then
      var m := DigitRun(s, i + 1);
      assert forall k :: i + 1 <= k < i + 1 + m ==> s[k] == s[i + 1..i + 1 + m][k - i - 1];
      1 + m
    else 0
  }

  /** The tokens: `Atom` and `Close` keep the digits that follow them. */
  datatype Token = Atom(name: string, count: string) | Open | Close(mult: string) | Invalid(c: char)

  /** The text a token matched. */
  function TokenText(t: Token): string
  {
    match t
    case Atom(n, d) => n + d
    case Open => "("
    case Close(d) => ")" + d
    case Invalid(c) => [c]
  }

  /** What matches at position `i`: a token ending before `next`, or nothing
    * (a newline, which "." does not match). */
  datatype Step = Matched(token: Token, next: nat) | Passed

  /** The alternatives in the order atom, open, close, invalid. */
  function Scan(s: string, i: nat): (r: Step)
    requires i < |s|
    ensures r.Matched? ==> i < r.next <= |s|
  {
    var n := SymbolLength(s, i);
    if n > 0 then WithDigits(s, i, i + n, true)
    else if s[i] == '(' then Matched(Open, i + 1)
    else if s[i] == ')' then WithDigits(s, i, i + 1, false)
    else if s[i] != '\n' then Matched(Invalid(s[i]), i + 1)
    else Passed
  }

  /** A token matches the text it spans, which holds no newline; an atom
    * names a known element; counts and multipliers are digits; only a
    * newline matches nothing. */
  lemma ScanSpec(s: string, i: nat)
    requires i < |s|
    ensures var r := Scan(s, i);
            && (r.Matched? ==> TokenText(r.token) == s[i..r.next])
            && (r.Matched? ==> forall k :: i <= k < r.next ==> s[k] != '\n')
            && (r.Matched? && r.token.Atom? ==> IsElement(r.token.name) && AllDigits(r.token.count))
            && (r.Matched? && r.token.Close? ==> AllDigits(r.token.mult))
            && (r.Passed? <==> s[i] == '\n')
  {
  }

  /** An element symbol `s[i..m]`, or a closing parenthesis, with the digits
    * that follow it. */
  function WithDigits(s: string, i: nat, m: nat, atom: bool): (r: Step)
    requires i < m <= |s| && forall k :: i <= k < m ==> s[k] != '\n'
    requires atom ==> IsElement(s[i..m])
    requires !atom ==> s[i..m] == ")"
    ensures r.Matched? && i < r.next <= |s| && TokenText(r.token) == s[i..r.next]
    ensures forall k :: i <= k < r.next ==> s[k] != '\n'
    ensures atom ==> r.token.Atom? && IsElement(r.token.name) && AllDigits(r.token.count)
    ensures !atom ==> r.token.Close? && AllDigits(r.token.mult)
  {
    var d := DigitRun(s, m);
    TokenSpan(s, i, m, m + d);
    if atom then Matched(Atom(s[i..m], s[m..m + d]), m + d)
    else Matched(Close(s[m..m + d]), m + d)
  }

  /** A token spanning a head `s[i..m]` without newlines and a run of digits
    * `s[m..j]`. */
  lemma TokenSpan(s: string, i: nat, m: nat, j: nat)
    requires i < m <= j <= |s|
    requires forall k :: i <= k < m ==> s[k] != '\n'
    requires AllDigits(s[m..j])
    ensures s[i..j] == s[i..m] + s[m..j]
    ensures forall k :: i <= k < j ==> s[k] != '\n'
  {
    forall k | m <= k < j
      ensures s[k] != '\n'
    {
      assert s[k] == s[m..j][k - m];
    }
  }

  /** `SUBSTANCE_PATTERN.finditer(s)` from position `i`: a newline matches
    * nothing and is passed over. */
  function TokenizeFrom(s: string, i: nat): (r: seq<Token>)
    requires i <= |s|
    decreases |s| - i
  {
    if i == |s| then []
    else
      match Scan(s, i)
      case Matched(t, j) => [t] + TokenizeFrom(s, j)
      case Passed => TokenizeFrom(s, i + 1)
  }

  function Tokenize(s: string): seq<Token>
  {
    TokenizeFrom(s, 0)
  }

  function Flatten(ts: seq<Token>): string
  {
    if ts == [] then [] else TokenText(ts[0]) + Flatten(ts[1..])
  }

  function WithoutNewlines(s: string): string
  {
    if s == [] then [] else (if s[0] == '\n' then [] else [s[0]]) + WithoutNewlines(s[1..])
  }

  lemma {:induction false} WithoutNewlinesConcat(a: string, b: string)
    ensures WithoutNewlines(a + b) == WithoutNewlines(a) + WithoutNewlines(b)
  {
    if a == [] {
      assert a + b == b;
    } else {
      assert (a + b)[0] == a[0];
      assert (a + b)[1..] == a[1..] + b;
      WithoutNewlinesConcat(a[1..], b);
    }
  }

  lemma {:induction false} WithoutNewlinesNone(a: string)
    requires forall k :: 0 <= k < |a| ==> a[k] != '\n'
    ensures WithoutNewlines(a) == a
  {
    if a != [] {
      WithoutNewlinesNone(a[1..]);
    }
  }

  /** The tokens spell out the text, newlines aside. */
  lemma {:induction false} TokenizeFromSpells(s: string, i: nat)
    requires i <= |s|
    ensures Flatten(TokenizeFrom(s, i)) == WithoutNewlines(s[i..])
    decreases |s| - i
  {
    if i < |s| {
      ScanSpec(s, i);
      match Scan(s, i)
      case Matched(t, j) =>
        TokenizeFromSpells(s, j);
        SpellStep(s, i, j, t);
      case Passed =>
        TokenizeFromSpells(s, i + 1);
        assert s[i..][1..] == s[i + 1..];
    }
  }

  /** One token's step of the spelling: the token matched `s[i..j]`, which
    * holds no newline. */
  lemma SpellStep(s: string, i: nat, j: nat, t: Token)
    requires i < j <= |s|
    requires TokenText(t) == s[i..j]
    requires forall k :: i <= k < j ==> s[k] != '\n'
    ensures Flatten([t] + TokenizeFrom(s, j)) == TokenText(t) + Flatten(TokenizeFrom(s, j))
    ensures WithoutNewlines(s[i..]) == TokenText(t) + WithoutNewlines(s[j..])
  {
    assert ([t] + TokenizeFrom(s, j))[1..] == TokenizeFrom(s, j);
    assert s[i..] == s[i..j] + s[j..];
    WithoutNewlinesConcat(s[i..j], s[j..]);
    WithoutNewlinesNone(s[i..j]);
  }

  lemma TokenizeSpells(s: string)
    ensures Flatten(Tokenize(s)) == WithoutNewlines(s)
  {
    TokenizeFromSpells(s, 0);
    assert s[0..] == s;
  }

  /** Every atom token names a known element. */
  lemma {:induction false} AtomsAreElements(s: string, i: nat)
    requires i <= |s|
    ensures forall t :: t in TokenizeFrom(s, i) && t.Atom? ==> IsElement(t.name)
    decreases |s| - i
  {
    if i < |s| {
      ScanSpec(s, i);
      match Scan(s, i)
      case Matched(t, j) => AtomsAreElements(s, j);
      case Passed => AtomsAreElements(s, i + 1);
    }
  }

  /** Why a substance is rejected. */
  datatype Reason = Empty | ZeroAtoms(element: string) | MultiplierNotAboveOne | Unexpected(c: char) | Unclosed

  datatype Verdict = Accepted | Rejected(why: Reason)

  /** `int(digits or "1")` */
  function CountOf(digits: string): nat
  {
    if digits == [] then 1 else DigitsValue(digits)
  }

  /** What a single token is rejected for, if anything. */
  function TokenFault(t: Token): Option<Reason>
  {
    match t
    case Atom(n, d) => if CountOf(d) > 0 then None else Some(ZeroAtoms(n))
    case Open => None
    case Close(d) => if CountOf(d) > 1 then None else Some(MultiplierNotAboveOne)
    case Invalid(c) => Some(Unexpected(c))
  }

  /** The position of the first faulty token. */
  function FirstFault(ts: seq<Token>): (r: Option<nat>)
    ensures r.None? <==> forall k :: 0 <= k < |ts| ==> TokenFault(ts[k]).None?
    ensures r.Some? ==> r.value < |ts| && TokenFault(ts[r.value]).Some? &&
                        forall k :: 0 <= k < r.value ==> TokenFault(ts[k]).None?
  {
    if ts == [] then None
    else if TokenFault(ts[0]).Some? then Some(0)
    else
      var rest := FirstFault(ts[1..]);
      assert forall k :: 1 <= k < |ts| ==> ts[k] == ts[1..][k - 1];
      if rest.None? then None else Some(rest.value + 1)
  }

  /** Opening minus closing parentheses. */
  function Depth(ts: seq<Token>): int
  {
    if ts == [] then 0
    else Depth(ts[..|ts| - 1]) + (match ts[|ts| - 1] case Open => 1 case Close(_) => -1 case _ => 0)
  }

  /** The verdict `_assert_is_valid_substance` reaches: the empty text,
    * then the first faulty token, then an unbalanced depth. */
  function ValidityOf(s: string): Verdict
  {
    if s == [] then Rejected(Empty)
    else
      var ts := Tokenize(s);
      match FirstFault(ts)
      case Some(k) => Rejected(TokenFault(ts[k]).value)
      case None => if Depth(ts) != 0 then Rejected(Unclosed) else Accepted
  }

  /** `_assert_is_valid_substance`, the failed assertion as `Rejected`. */
  method AssertIsValidSubstance(substance: string) returns (r: Verdict)
    ensures r == ValidityOf(substance)
  {
    if substance == [] {
      return Rejected(Empty);
    }
    var tokens := Tokenize(substance);
    var groupdepth := 0;
    var i := 0;
    while i < |tokens|
      invariant 0 <= i <= |tokens|
      invariant groupdepth == Depth(tokens[..i])
      invariant forall k :: 0 <= k < i ==> TokenFault(tokens[k]).None?
    {
      DepthStep(tokens, i);
      match tokens[i] {
        case Atom(name, count) =>
          var atom := CountOf(count);
          if !(atom > 0) {
            FaultAt(tokens, i);
            return Rejected(ZeroAtoms(name));
          }
        case Open =>
          groupdepth := groupdepth + 1;
        case Close(m) =>
          var mult := CountOf(m);
          groupdepth := groupdepth - 1;
          if !(mult > 1) {
            FaultAt(tokens, i);
            return Rejected(MultiplierNotAboveOne);
          }
        case Invalid(c) =>
          FaultAt(tokens, i);
          return Rejected(Unexpected(c));
      }
      i := i + 1;
    }
    assert tokens[..i] == tokens;
    if groupdepth != 0 {
      return Rejected(Unclosed);
    }
    return Accepted;
  }

  /** The depth after one more token. */
  lemma DepthStep(ts: seq<Token>, i: nat)
    requires i < |ts|
    ensures Depth(ts[..i + 1]) == Depth(ts[..i]) + (match ts[i] case Open => 1 case Close(_) => -1 case _ => 0)
  {
    assert ts[..i + 1][..i] == ts[..i];
  }

  /** The first faulty token is the one the walk stops at. */
  lemma FaultAt(ts: seq<Token>, i: nat)
    requires i < |ts| && TokenFault(ts[i]).Some?
    requires forall k :: 0 <= k < i ==> TokenFault(ts[k]).None?
    ensures FirstFault(ts) == Some(i)
  {
  }

  /** Accepted exactly when the text is non-empty, every element count and
    * every multiplier is allowed, no character is unexpected, and the
    * parentheses balance overall. */
  lemma AcceptedMeaning(s: string)
    ensures ValidityOf(s) == Accepted <==>
              && s != []
              && (forall k :: 0 <= k < |Tokenize(s)| ==> TokenFault(Tokenize(s)[k]).None?)
              && Depth(Tokenize(s)) == 0
  {
  }

  // ---------------------------------------------------------------------
  // Single tokens, for the examples

  /** A capital that is a symbol on its own, not followed by a lower-case
    * letter or a digit. */
  lemma BareAtomAt(s: string, i: nat)
    requires i < |s| && IsUpper(s[i]) && SecondLetters(s[i]).1
    requires i + 1 == |s| || (!IsLower(s[i + 1]) && !IsDigit(s[i + 1]))
    ensures TokenizeFrom(s, i) == [Atom([s[i]], "")] + TokenizeFrom(s, i + 1)
  {
    assert SymbolLength(s, i) == 1;
    assert DigitRun(s, i + 1) == 0;
    assert s[i..i + 1] == [s[i]];
    TokenizeStep(s, i, Atom([s[i]], ""), i + 1);
  }

  /** Such a capital followed by one digit. */
  lemma AtomDigitAt(s: string, i: nat)
    requires i + 1 < |s| && IsUpper(s[i]) && SecondLetters(s[i]).1
    requires !IsLower(s[i + 1]) && IsDigit(s[i + 1])
    requires i + 2 == |s| || !IsDigit(s[i + 2])
    ensures TokenizeFrom(s, i) == [Atom([s[i]], [s[i + 1]])] + TokenizeFrom(s, i + 2)
  {
    assert SymbolLength(s, i) == 1;
    assert DigitRun(s, i + 2) == 0;
    assert DigitRun(s, i + 1) == 1;
    assert s[i..i + 1] == [s[i]] && s[i + 1..i + 2] == [s[i + 1]];
    TokenizeStep(s, i, Atom([s[i]], [s[i + 1]]), i + 2);
  }

  lemma OpenAt(s: string, i: nat)
    requires i < |s| && s[i] == '('
    ensures TokenizeFrom(s, i) == [Open] + TokenizeFrom(s, i + 1)
  {
    assert SymbolLength(s, i) == 0;
    TokenizeStep(s, i, Open, i + 1);
  }

  /** A closing parenthesis with no digit after it. */
  lemma BareCloseAt(s: string, i: nat)
    requires i < |s| && s[i] == ')'
    requires i + 1 == |s| || !IsDigit(s[i + 1])
    ensures TokenizeFrom(s, i) == [Close("")] + TokenizeFrom(s, i + 1)
  {
    assert SymbolLength(s, i) == 0;
    assert DigitRun(s, i + 1) == 0;
    TokenizeStep(s, i, Close(""), i + 1);
  }

  /** A closing parenthesis with one digit after it. */
  lemma CloseDigitAt(s: string, i: nat)
    requires i + 1 < |s| && s[i] == ')' && IsDigit(s[i + 1])
    requires i + 2 == |s| || !IsDigit(s[i + 2])
    ensures TokenizeFrom(s, i) == [Close([s[i + 1]])] + TokenizeFrom(s, i + 2)
  {
    assert SymbolLength(s, i) == 0;
    assert DigitRun(s, i + 2) == 0;
    assert DigitRun(s, i + 1) == 1;
    assert s[i + 1..i + 2] == [s[i + 1]];
    TokenizeStep(s, i, Close([s[i + 1]]), i + 2);
  }

  /** Nothing is left at the end. */
  lemma AtEnd(s: string)
    ensures TokenizeFrom(s, |s|) == []
  {
  }

  /** A character that starts no token but is matched by ".". */
  lemma InvalidAt(s: string, i: nat)
    requires i < |s| && !IsUpper(s[i]) && s[i] != '(' && s[i] != ')' && s[i] != '\n'
    ensures TokenizeFrom(s, i) == [Invalid(s[i])] + TokenizeFrom(s, i + 1)
  {
    assert SymbolLength(s, i) == 0;
    TokenizeStep(s, i, Invalid(s[i]), i + 1);
  }

  // ---------------------------------------------------------------------
  // Verdicts from the adapters' test

  /** Atoms with positive counts pass and keep the depth at 0. */
  lemma {:induction false} AtomsVerdict(ts: seq<Token>)
    requires forall k :: 0 <= k < |ts| ==> ts[k].Atom? && CountOf(ts[k].count) > 0
    ensures FirstFault(ts) == None && Depth(ts) == 0
    decreases |ts|
  {
    if ts != [] {
      AtomsVerdict(ts[..|ts| - 1]);
    }
  }

  lemma WaterTokens(s: string)
    requires s == "H2O"
    ensures Tokenize(s) == [Atom("H", "2"), Atom("O", "")]
  {
    assert s[0] == 'H' && s[1] == '2' && s[2] == 'O' && |s| == 3;
    AtEnd(s);
    BareAtomAt(s, 2);
    AtomDigitAt(s, 0);
  }

  lemma HydrogenTokens(s: string)
    requires s == "H2"
    ensures Tokenize(s) == [Atom("H", "2")]
  {
    assert s[0] == 'H' && s[1] == '2' && |s| == 2;
    AtEnd(s);
    AtomDigitAt(s, 0);
  }

  /** Accepted substances from the adapters' test. */
  lemma AcceptedExamples(water: string, hydrogen: string)
    requires water == "H2O" && hydrogen == "H2"
    ensures ValidityOf(water) == Accepted
    ensures ValidityOf(hydrogen) == Accepted
  {
    WaterTokens(water);
    HydrogenTokens(hydrogen);
    assert CountOf("2") == 2;
    AtomsVerdict([Atom("H", "2"), Atom("O", "")]);
    AtomsVerdict([Atom("H", "2")]);
  }

  /** The tokens of "CH(CH3" when a ")" follows. */
  const GroupHead: seq<Token> := [Atom("C", ""), Atom("H", ""), Open, Atom("C", ""), Atom("H", "3")]

  /** Five tokens in a row make the head. */
  lemma HeadChain(t0: seq<Token>, t1: seq<Token>, t2: seq<Token>, t3: seq<Token>, t4: seq<Token>, rest: seq<Token>)
    requires t0 == [Atom("C", "")] + t1 && t1 == [Atom("H", "")] + t2 && t2 == [Open] + t3
    requires t3 == [Atom("C", "")] + t4 && t4 == [Atom("H", "3")] + rest
    ensures t0 == GroupHead + rest
  {
  }

  lemma CarbonThenHydrogen(s: string, i: nat)
    requires i + 1 < |s| && s[i] == 'C' && s[i + 1] == 'H'
    ensures TokenizeFrom(s, i) == [Atom("C", "")] + TokenizeFrom(s, i + 1)
  {
    BareAtomAt(s, i);
    assert [s[i]] == "C";
  }

  lemma HydrogenThenOpen(s: string)
    requires 2 < |s| && s[1] == 'H' && s[2] == '('
    ensures TokenizeFrom(s, 1) == [Atom("H", "")] + TokenizeFrom(s, 2)
  {
    BareAtomAt(s, 1);
    assert [s[1]] == "H";
  }

  lemma HydrogenThree(s: string)
    requires 6 < |s| && s[4] == 'H' && s[5] == '3' && s[6] == ')'
    ensures TokenizeFrom(s, 4) == [Atom("H", "3")] + TokenizeFrom(s, 6)
  {
    AtomDigitAt(s, 4);
    assert [s[4]] == "H" && [s[5]] == "3";
  }

  /** "CH(CH3" followed by a ")" starts with the head's tokens. */
  lemma GroupHeadTokens(s: string)
    requires |s| >= 7 && s[0] == 'C' && s[1] == 'H' && s[2] == '(' && s[3] == 'C' && s[4] == 'H'
    requires s[5] == '3' && s[6] == ')'
    ensures Tokenize(s) == GroupHead + TokenizeFrom(s, 6)
  {
    CarbonThenHydrogen(s, 0);
    HydrogenThenOpen(s);
    OpenAt(s, 2);
    CarbonThenHydrogen(s, 3);
    HydrogenThree(s);
    HeadChain(TokenizeFrom(s, 0), TokenizeFrom(s, 1), TokenizeFrom(s, 2), TokenizeFrom(s, 3),
              TokenizeFrom(s, 4), TokenizeFrom(s, 6));
  }

  /** The tokens of the head pass and leave the depth at 1. */
  lemma GroupHeadFine(ts: seq<Token>)
    requires ts == GroupHead
    ensures FirstFault(ts) == None && Depth(ts) == 1
  {
    forall k | 0 < k <= |ts|
      ensures ts[..k][..k - 1] == ts[..k - 1] && ts[..k][k - 1] == ts[k - 1]
    {
    }
    assert Depth(ts[..0]) == 0;
    assert Depth(ts[..1]) == 0;
    assert Depth(ts[..2]) == 0;
    assert Depth(ts[..3]) == 1;
    assert Depth(ts[..4]) == 1;
    assert ts[..5] == ts;
  }

  /** The verdict on a head that passes, followed by one closing token. */
  lemma AfterGroupHead(ts: seq<Token>, t: Token)
    requires FirstFault(ts) == None && Depth(ts) == 1 && t.Close?
    ensures FirstFault(ts + [t]) == (if TokenFault(t).None? then None else Some(|ts|))
    ensures Depth(ts + [t]) == 0
  {
    assert (ts + [t])[..|ts|] == ts;
    assert forall k :: 0 <= k < |ts| ==> (ts + [t])[k] == ts[k];
  }

  /** The verdict on the head followed by one closing token. */
  lemma HeadCloseVerdict(s: string, t: Token)
    requires s != [] && t.Close? && Tokenize(s) == GroupHead + [t]
    ensures ValidityOf(s) == (if TokenFault(t).None? then Accepted else Rejected(TokenFault(t).value))
  {
    GroupHeadFine(GroupHead);
    AfterGroupHead(GroupHead, t);
    assert (GroupHead + [t])[|GroupHead|] == t;
  }

  /** The head, then ")" and the text from `j` on. */
  lemma HeadThenClose(s: string, t: Token, j: nat)
    requires |s| >= 7 && s[0] == 'C' && s[1] == 'H' && s[2] == '(' && s[3] == 'C' && s[4] == 'H'
    requires s[5] == '3' && s[6] == ')'
    requires j == |s| && TokenizeFrom(s, 6) == [t] + TokenizeFrom(s, j)
    ensures Tokenize(s) == GroupHead + [t]
  {
    GroupHeadTokens(s);
    AtEnd(s);
    assert [t] + [] == [t];
  }

  lemma AcceptedGroupExample(s: string)
    requires s == "CH(CH3)3"
    ensures ValidityOf(s) == Accepted
  {
    assert |s| == 8 && s[0] == 'C' && s[1] == 'H' && s[2] == '(' && s[3] == 'C' && s[4] == 'H';
    assert s[5] == '3' && s[6] == ')' && s[7] == '3';
    CloseDigitAt(s, 6);
    HeadThenClose(s, Close("3"), 8);
    assert CountOf("3") == 3;
    HeadCloseVerdict(s, Close("3"));
  }

  lemma ZeroMultiplierExample(s: string)
    requires s == "CH(CH3)0"
    ensures ValidityOf(s) == Rejected(MultiplierNotAboveOne)
  {
    assert |s| == 8 && s[0] == 'C' && s[1] == 'H' && s[2] == '(' && s[3] == 'C' && s[4] == 'H';
    assert s[5] == '3' && s[6] == ')' && s[7] == '0';
    CloseDigitAt(s, 6);
    HeadThenClose(s, Close("0"), 8);
    assert CountOf("0") == 0;
    HeadCloseVerdict(s, Close("0"));
  }

  lemma MissingMultiplierExample(s: string)
    requires s == "CH(CH3)"
    ensures ValidityOf(s) == Rejected(MultiplierNotAboveOne)
  {
    assert |s| == 7 && s[0] == 'C' && s[1] == 'H' && s[2] == '(' && s[3] == 'C' && s[4] == 'H';
    assert s[5] == '3' && s[6] == ')';
    BareCloseAt(s, 6);
    HeadThenClose(s, Close(""), 7);
    HeadCloseVerdict(s, Close(""));
  }

  /** A faulty first token decides the verdict. */
  lemma FirstTokenDecides(s: string, t: Token)
    requires s != [] && |Tokenize(s)| > 0 && Tokenize(s)[0] == t && TokenFault(t).Some?
    ensures ValidityOf(s) == Rejected(TokenFault(t).value)
  {
  }

  lemma RejectedExamples(h0: string, water: string, digits: string)
    requires h0 == "H0" && water == "water" && digits == "1234"
    ensures ValidityOf("") == Rejected(Empty)
    ensures ValidityOf(h0) == Rejected(ZeroAtoms("H"))
    ensures ValidityOf(water) == Rejected(Unexpected('w'))
    ensures ValidityOf(digits) == Rejected(Unexpected('1'))
  {
    assert |h0| == 2 && h0[0] == 'H' && h0[1] == '0';
    AtomDigitAt(h0, 0);
    assert [h0[1]] == "0" && CountOf("0") == 0;
    FirstTokenDecides(h0, Atom("H", "0"));
    assert water[0] == 'w';
    InvalidAt(water, 0);
    FirstTokenDecides(water, Invalid('w'));
    assert digits[0] == '1';
    InvalidAt(digits, 0);
    FirstTokenDecides(digits, Invalid('1'));
  }

  lemma UnclosedTokenize(s: string)
    requires s == "CH("
    ensures Tokenize(s) == [Atom("C", ""), Atom("H", ""), Open]
  {
    assert |s| == 3 && s[0] == 'C' && s[1] == 'H' && s[2] == '(';
    AtEnd(s);
    OpenAt(s, 2);
    BareAtomAt(s, 1);
    BareAtomAt(s, 0);
  }

  lemma UnclosedExample(s: string)
    requires s == "CH("
    ensures ValidityOf(s) == Rejected(Unclosed)
  {
    UnclosedTokenize(s);
    UnclosedDepth([Atom("C", ""), Atom("H", ""), Open]);
  }

  lemma UnclosedDepth(ts: seq<Token>)
    requires ts == [Atom("C", ""), Atom("H", ""), Open]
    ensures FirstFault(ts) == None && Depth(ts) == 1
  {
    forall k | 0 < k <= |ts|
      ensures ts[..k][..k - 1] == ts[..k - 1] && ts[..k][k - 1] == ts[k - 1]
    {
    }
    assert Depth(ts[..0]) == 0;
    assert Depth(ts[..1]) == 0;
    assert Depth(ts[..2]) == 0;
    assert ts[..3] == ts;
  }

  /** The tokens from `i` when a token matches there. */
  lemma TokenizeStep(s: string, i: nat, t: Token, j: nat)
    requires i < |s| && Scan(s, i) == Matched(t, j)
    ensures TokenizeFrom(s, i) == [t] + TokenizeFrom(s, j)
  {
  }

  /** The depth after every prefix of the tokens stays at or above zero: no
    * group is closed before it is opened. */
  predicate NeverBelowZero(ts: seq<Token>)
  {
    forall k :: 0 <= k <= |ts| ==> Depth(ts[..k]) >= 0
  }

  /** The check as evidently intended: a closing parenthesis must close an
    * open group. */
  function CorrectedValidityOf(s: string): Verdict
  {
    match ValidityOf(s)
    case Rejected(why) => Rejected(why)
    case Accepted => if NeverBelowZero(Tokenize(s)) then Accepted else Rejected(Unclosed)
  }

  /** The corrected check accepts exactly the texts the original accepts
    * whose groups nest properly. */
  lemma CorrectedMeaning(s: string)
    ensures CorrectedValidityOf(s) == Accepted <==> ValidityOf(s) == Accepted && NeverBelowZero(Tokenize(s))
  {
  }

  lemma ClosingFirstTokens(s: string)
    requires s == ")2("
    ensures Tokenize(s) == [Close("2"), Open]
  {
    assert |s| == 3 && s[0] == ')' && s[1] == '2' && s[2] == '(';
    AtEnd(s);
    OpenAt(s, 2);
    CloseDigitAt(s, 0);
  }

  /** As written, a group closed before it is opened passes: ")2(" is
    * accepted because only the final depth is checked. */
  lemma ClosingFirstAccepted(s: string)
    requires s == ")2("
    ensures ValidityOf(s) == Accepted
  {
    ClosingFirstTokens(s);
    var ts := [Close("2"), Open];
    assert CountOf("2") == 2;
    assert FirstFault(ts) == None;
    assert ts[..1] == [Close("2")] && ts[..1][..0] == [];
    assert Depth(ts) == 0;
  }

  /** The corrected check rejects it. */
  lemma ClosingFirstRejected(s: string)
    requires s == ")2("
    ensures CorrectedValidityOf(s) == Rejected(Unclosed)
  {
    ClosingFirstAccepted(s);
    ClosingFirstTokens(s);
    var ts := [Close("2"), Open];
    assert ts[..1] == [Close("2")] && ts[..1][..0] == [];
    assert Depth(ts[..1]) == -1;
  }

  /** The solvent: no model may list it among its substances. */
  const Solvent := "CO2"

  /** A substance `test_init_concs` lets through: not the solvent, and
    * accepted by the formula check. */
  predicate InitConcOk(substance: string)
  {
    substance != Solvent && ValidityOf(substance) == Accepted
  }

  /** How `test_init_concs` ends for one adapter: every substance passes,
    * or the first failing one is the solvent or is rejected. */
  datatype InitConcsVerdict = AllSubstancesValid | SolventListed(index: nat) | InvalidSubstance(index: nat, why: Reason)

  /** `test_init_concs(adapter)` over `adapter.valid_substances`. */
  method CheckInitConcs(substances: seq<string>) returns (r: InitConcsVerdict)
    ensures r.AllSubstancesValid? <==> forall i :: 0 <= i < |substances| ==> InitConcOk(substances[i])
    ensures r.SolventListed? ==>
              r.index < |substances| && substances[r.index] == Solvent &&
              forall j :: 0 <= j < r.index ==> InitConcOk(substances[j])
    ensures r.InvalidSubstance? ==>
              r.index < |substances| && substances[r.index] != Solvent &&
              ValidityOf(substances[r.index]) == Rejected(r.why) &&
              forall j :: 0 <= j < r.index ==> InitConcOk(substances[j])
  {
    var i := 0;
    while i < |substances|
      invariant 0 <= i <= |substances|
      invariant forall j :: 0 <= j < i ==> InitConcOk(substances[j])
    {
      var substance := substances[i];
      if substance == Solvent {
        return SolventListed(i);
      }
      var verdict := AssertIsValidSubstance(substance);
      if verdict.Rejected? {
        return InvalidSubstance(i, verdict.why);
      }
      i := i + 1;
    }
    return AllSubstancesValid;
  }

  /** The formula check alone accepts the solvent: only the explicit
    * comparison keeps "CO2" out of a model's substances. */
  lemma SolventIsWellFormed(s: string)
    requires s == Solvent
    ensures ValidityOf(s) == Accepted && !InitConcOk(s)
  {
    SolventTokens(s);
    assert CountOf("2") == 2;
    TwoAtomsAccepted(s, Atom("C", ""), Atom("O", "2"));
  }

  /** A substance made of two atoms with positive counts is accepted. */
  lemma TwoAtomsAccepted(s: string, a: Token, b: Token)
    requires s != [] && Tokenize(s) == [a, b]
    requires a.Atom? && CountOf(a.count) > 0 && b.Atom? && CountOf(b.count) > 0
    ensures ValidityOf(s) == Accepted
  {
    AtomsVerdict([a, b]);
  }

  lemma SolventTokens(s: string)
    requires s == "CO2"
    ensures Tokenize(s) == [Atom("C", ""), Atom("O", "2")]
  {
    assert s[0] == 'C' && s[1] == 'O' && s[2] == '2' && |s| == 3;
    AtEnd(s);
    AtomDigitAt(s, 1);
    BareAtomAt(s, 0);
  }
}
