/** Text helpers for chemical formulas: dropping HTML subscript tags, and
  * splitting a formula so that its digits can be shown as subscripts. */
module Formatting {
  import opened Text

  const SubOpen := "<sub>"
  const SubClose := "</sub>"

  /** `removeSubsFromString(s)`: every `<sub>` removed, then every `</sub>`.
    * Each pass is one left-to-right `replace(/.../g, "")`. */
  function RemoveSubs(s: string): (r: string)
  {
    ReplaceAll(ReplaceAll(s, SubOpen, ""), SubClose, "")
  }

  /** A formula written with subscript markup, piece by piece. */
  datatype Piece = Plain(text: string) | Subscript(text: string)

  /** The markup of the pieces: a subscript piece inside `<sub>` tags. */
  function Markup(pieces: seq<Piece>): string
  {
    if pieces == [] then ""
    else
      match pieces[0]
      case Plain(t) => t + Markup(pieces[1..])
      case Subscript(t) => SubOpen + t + SubClose + Markup(pieces[1..])
  }

  /** The text of the pieces, with no markup. */
  function Content(pieces: seq<Piece>): string
  {
    if pieces == [] then "" else pieces[0].text + Content(pieces[1..])
  }

  predicate NoTagStart(t: string)
  {
    '<' !in t
  }

  /** Text that holds no `<` is passed over by a replace whose pattern
    * starts with `<`. */
  lemma {:induction false} ReplaceSkipsPlain(t: string, rest: string, pat: string)
    requires |pat| > 0 && pat[0] == '<' && NoTagStart(t)
    ensures ReplaceAll(t + rest, pat, "") == t + ReplaceAll(rest, pat, "")
    decreases |t|
  {
    if t == [] {
      assert t + rest == rest;
    } else {
      var s := t + rest;
      assert s[0] == t[0] && t[0] != '<';
      assert s[1..] == t[1..] + rest;
      ReplaceSkipsPlain(t[1..], rest, pat);
      if |s| >= |pat| {
        assert s[..|pat|][0] == t[0];
        calc {
          ReplaceAll(s, pat, "");
          [s[0]] + ReplaceAll(s[1..], pat, "");
          [t[0]] + (t[1..] + ReplaceAll(rest, pat, ""));
          { assert t == [t[0]] + t[1..]; }
          t + ReplaceAll(rest, pat, "");
        }
      } else {
        assert ReplaceAll(rest, pat, "") == rest;
      }
    }
  }

  /** A replace removes a pattern at the front. */
  lemma ReplaceAtFront(pat: string, rest: string)
    requires |pat| > 0
    ensures ReplaceAll(pat + rest, pat, "") == ReplaceAll(rest, pat, "")
  {
    var s := pat + rest;
    assert s[..|pat|] == pat;
    assert s[|pat|..] == rest;
  }

  /** Where `<` occurs nowhere, the replace changes nothing. */
  lemma NoTagUnchanged(t: string, pat: string)
    requires |pat| > 0 && pat[0] == '<' && NoTagStart(t)
    ensures ReplaceAll(t, pat, "") == t
  {
    ReplaceSkipsPlain(t, "", pat);
    assert t + "" == t;
  }

  /** A replace of `pat` removes it at the front, passes over a text
    * without `<`, and passes over a tag `close` that differs from `pat` in
    * its second character and holds no further `<`. */
  lemma DropFrontTag(pat: string, t: string, close: string, rest: string)
    requires |pat| >= 2 && pat[0] == '<' && NoTagStart(t)
    requires |close| >= 2 && close[1] != pat[1] && NoTagStart(close[1..])
    ensures ReplaceAll(pat + t + close + rest, pat, "") == t + close + ReplaceAll(rest, pat, "")
  {
    assert pat + t + close + rest == pat + (t + (close + rest));
    ReplaceAtFront(pat, t + (close + rest));
    ReplaceSkipsPlain(t, close + rest, pat);
    PassOtherTag(pat, close, rest);
    assert t + (close + ReplaceAll(rest, pat, "")) == t + close + ReplaceAll(rest, pat, "");
  }

  /** A tag that differs from `pat` in its second character, with no
    * further `<`, is passed over. */
  lemma PassOtherTag(pat: string, close: string, rest: string)
    requires |pat| >= 2 && pat[0] == '<'
    requires |close| >= 2 && close[1] != pat[1] && NoTagStart(close[1..])
    ensures ReplaceAll(close + rest, pat, "") == close + ReplaceAll(rest, pat, "")
  {
    var c := close + rest;
    if |c| >= |pat| {
      assert c[..|pat|][1] == close[1];
      assert c[1..] == close[1..] + rest;
      ReplaceSkipsPlain(close[1..], rest, pat);
      assert [c[0]] + (close[1..] + ReplaceAll(rest, pat, "")) == close + ReplaceAll(rest, pat, "");
    } else {
      assert ReplaceAll(rest, pat, "") == rest;
    }
  }

  /** Removing the opening tags from markup leaves the closing ones. */
  lemma {:induction false} DropOpenTags(pieces: seq<Piece>)
    requires forall i :: 0 <= i < |pieces| ==> NoTagStart(pieces[i].text)
    ensures ReplaceAll(Markup(pieces), SubOpen, "") == CloseMarkup(pieces)
    decreases |pieces|
  {
    if pieces != [] {
      DropOpenTags(pieces[1..]);
      var rest := Markup(pieces[1..]);
      match pieces[0]
      case Plain(t) =>
        ReplaceSkipsPlain(t, rest, SubOpen);
      case Subscript(t) =>
        DropFrontTag(SubOpen, t, SubClose, rest);
    }
  }

  /** The markup with only the closing tags left. */
  function CloseMarkup(pieces: seq<Piece>): string
  {
    if pieces == [] then ""
    else
      match pieces[0]
      case Plain(t) => t + CloseMarkup(pieces[1..])
      case Subscript(t) => t + SubClose + CloseMarkup(pieces[1..])
  }

  /** Removing the closing tags then leaves the content. */
  lemma {:induction false} DropCloseTags(pieces: seq<Piece>)
    requires forall i :: 0 <= i < |pieces| ==> NoTagStart(pieces[i].text)
    ensures ReplaceAll(CloseMarkup(pieces), SubClose, "") == Content(pieces)
    decreases |pieces|
  {
    if pieces != [] {
      DropCloseTags(pieces[1..]);
      var rest := CloseMarkup(pieces[1..]);
      match pieces[0]
      case Plain(t) =>
        ReplaceSkipsPlain(t, rest, SubClose);
      case Subscript(t) =>
        assert t + SubClose + rest == t + (SubClose + rest);
        ReplaceSkipsPlain(t, SubClose + rest, SubClose);
        ReplaceAtFront(SubClose, rest);
    }
  }

  /** Stripping the tags from formula markup whose texts hold no `<` gives
    * the formula's text: every tag goes and nothing else does. */
  lemma RemoveSubsOfMarkup(pieces: seq<Piece>)
    requires forall i :: 0 <= i < |pieces| ==> NoTagStart(pieces[i].text)
    ensures RemoveSubs(Markup(pieces)) == Content(pieces)
  {
    DropOpenTags(pieces);
    DropCloseTags(pieces);
  }

  /** Text without `<` comes back unchanged. */
  lemma RemoveSubsOfPlain(t: string)
    requires NoTagStart(t)
    ensures RemoveSubs(t) == t
  {
    NoTagUnchanged(t, SubOpen);
    NoTagUnchanged(t, SubClose);
  }

  /** What `split(regex)` and `matchAll(regex)` give together: the texts
    * between the matches and the matched digits. */
  datatype Parts = Parts(texts: seq<string>, digits: seq<char>)

  /** The split of `s` at the matches of `(?<=\p{L})\d|(?=\p{L})\d`, where
    * `afterLetter` says whether the character before `s` is a letter. A
    * match is a digit right after a letter: the second alternative wants
    * one character to be both a letter and a digit, so it never
    * matches. */
  function SplitFrom(s: string, afterLetter: bool): (r: Parts)
    ensures |r.texts| == |r.digits| + 1
    decreases |s|
  {
    if s == [] then Parts([""], [])
    else
      var rest := SplitFrom(s[1..], IsLetter(s[0]));
      if afterLetter && IsDigit(s[0]) then
        Parts([""] + rest.texts, [s[0]] + rest.digits)
      else
        Parts([[s[0]] + rest.texts[0]] + rest.texts[1..], rest.digits)
  }

  predicate AllDigitsIn(p: Parts)
  {
    forall j :: 0 <= j < |p.digits| ==> IsDigit(p.digits[j])
  }

  /** Each text before a match ends in a letter; the first one only when
    * nothing came before. */
  predicate LettersBefore(p: Parts, afterLetter: bool)
    requires |p.texts| == |p.digits| + 1
  {
    forall j :: 0 <= j < |p.digits| ==>
      if p.texts[j] == [] then j == 0 && afterLetter else IsLetter(p.texts[j][|p.texts[j]| - 1])
  }

  /** No text holds a digit right after a letter, nor starts with a digit
    * when a letter came before. */
  predicate NoMatchLeft(p: Parts, afterLetter: bool)
    requires |p.texts| == |p.digits| + 1
  {
    (forall j, i :: 0 <= j < |p.texts| && 0 < i < |p.texts[j]| ==>
       !(IsLetter(p.texts[j][i - 1]) && IsDigit(p.texts[j][i]))) &&
    (afterLetter && p.texts[0] != [] ==> !IsDigit(p.texts[0][0]))
  }

  /** Every match is a single digit. */
  lemma {:induction false} SplitDigits(s: string, afterLetter: bool)
    ensures AllDigitsIn(SplitFrom(s, afterLetter))
    decreases |s|
  {
    if s != [] {
      SplitDigits(s[1..], IsLetter(s[0]));
      var rest := SplitFrom(s[1..], IsLetter(s[0]));
      var r := SplitFrom(s, afterLetter);
      if afterLetter && IsDigit(s[0]) {
        assert r.digits == [s[0]] + rest.digits;
        assert forall j :: 1 <= j < |r.digits| ==> r.digits[j] == rest.digits[j - 1];
      } else {
        assert r.digits == rest.digits;
      }
    }
  }

  /** Every match follows a letter: the text before it ends in one (the
    * first text only when nothing came before `s`). */
  lemma {:induction false} SplitAfterLetters(s: string, afterLetter: bool)
    ensures LettersBefore(SplitFrom(s, afterLetter), afterLetter)
    decreases |s|
  {
    if s != [] {
      SplitAfterLetters(s[1..], IsLetter(s[0]));
      var rest := SplitFrom(s[1..], IsLetter(s[0]));
      if afterLetter && IsDigit(s[0]) {
        LettersBeforeMatch(s[0], rest, afterLetter);
      } else {
        LettersBeforeText(s[0], rest, afterLetter);
      }
    }
  }

  /** A digit right after a letter starts a new match. */
  lemma LettersBeforeMatch(c: char, rest: Parts, afterLetter: bool)
    requires afterLetter && IsDigit(c)
    requires |rest.texts| == |rest.digits| + 1 && LettersBefore(rest, IsLetter(c))
    ensures LettersBefore(Parts([""] + rest.texts, [c] + rest.digits), afterLetter)
  {
    var r := Parts([""] + rest.texts, [c] + rest.digits);
    forall j | 0 < j < |r.digits|
      ensures if r.texts[j] == [] then j == 0 && afterLetter else IsLetter(r.texts[j][|r.texts[j]| - 1])
    {
      assert r.texts[j] == rest.texts[j - 1];
      assert !IsLetter(c);
    }
  }

  /** Any other character joins the first text. */
  lemma LettersBeforeText(c: char, rest: Parts, afterLetter: bool)
    requires !(afterLetter && IsDigit(c))
    requires |rest.texts| == |rest.digits| + 1 && LettersBefore(rest, IsLetter(c))
    ensures LettersBefore(Parts([[c] + rest.texts[0]] + rest.texts[1..], rest.digits), afterLetter)
  {
    var first := [c] + rest.texts[0];
    var r := Parts([first] + rest.texts[1..], rest.digits);
    forall j | 0 <= j < |r.digits|
      ensures if r.texts[j] == [] then j == 0 && afterLetter else IsLetter(r.texts[j][|r.texts[j]| - 1])
    {
      if j > 0 {
        assert r.texts[j] == rest.texts[j];
      } else if rest.texts[0] == [] {
        assert IsLetter(c);
        assert first == [c];
      } else {
        assert first[|first| - 1] == rest.texts[0][|rest.texts[0]| - 1];
      }
    }
  }

  /** No digit after a letter stays inside a text. */
  lemma {:induction false} SplitNoMatchLeft(s: string, afterLetter: bool)
    ensures NoMatchLeft(SplitFrom(s, afterLetter), afterLetter)
    decreases |s|
  {
    if s != [] {
      SplitNoMatchLeft(s[1..], IsLetter(s[0]));
      var rest := SplitFrom(s[1..], IsLetter(s[0]));
      var r := SplitFrom(s, afterLetter);
      if afterLetter && IsDigit(s[0]) {
        assert r.texts == [""] + rest.texts;
        forall j, i | 0 <= j < |r.texts| && 0 < i < |r.texts[j]|
          ensures !(IsLetter(r.texts[j][i - 1]) && IsDigit(r.texts[j][i]))
        {
          assert r.texts[j] == rest.texts[j - 1];
        }
      } else {
        var first := [s[0]] + rest.texts[0];
        assert r.texts == [first] + rest.texts[1..];
        forall j, i | 0 <= j < |r.texts| && 0 < i < |r.texts[j]|
          ensures !(IsLetter(r.texts[j][i - 1]) && IsDigit(r.texts[j][i]))
        {
          if j > 0 {
            assert r.texts[j] == rest.texts[j];
          } else if i > 1 {
            assert first[i] == rest.texts[0][i - 1] && first[i - 1] == rest.texts[0][i - 2];
          } else {
            assert first[0] == s[0] && first[1] == rest.texts[0][0];
          }
        }
      }
    }
  }

  /** The texts with the digits between them, as one string. */
  function Joined(p: Parts): string
    requires |p.texts| == |p.digits| + 1
    decreases |p.digits|
  {
    if p.digits == [] then p.texts[0]
    else p.texts[0] + [p.digits[0]] + Joined(Parts(p.texts[1..], p.digits[1..]))
  }

  /** Putting the parts back together gives the input. */
  lemma {:induction false} JoinedSplit(s: string, afterLetter: bool)
    ensures Joined(SplitFrom(s, afterLetter)) == s
    decreases |s|
  {
    if s != [] {
      JoinedSplit(s[1..], IsLetter(s[0]));
      var rest := SplitFrom(s[1..], IsLetter(s[0]));
      var r := SplitFrom(s, afterLetter);
      if afterLetter && IsDigit(s[0]) {
        assert Parts(r.texts[1..], r.digits[1..]) == rest;
        assert s == [s[0]] + s[1..];
      } else {
        JoinedFront(s[0], rest);
      }
    }
  }

  /** A character put in front of the first text comes first. */
  lemma JoinedFront(c: char, p: Parts)
    requires |p.texts| == |p.digits| + 1
    ensures Joined(Parts([[c] + p.texts[0]] + p.texts[1..], p.digits)) == [c] + Joined(p)
  {
    var q := Parts([[c] + p.texts[0]] + p.texts[1..], p.digits);
    if p.digits != [] {
      assert Parts(q.texts[1..], q.digits[1..]) == Parts(p.texts[1..], p.digits[1..]);
    }
  }

  /** One element of the rendered paragraph. */
  datatype Node = Text(text: string) | Sub(key: nat, digit: char)

  /** The `flatMap`: each text, followed by the subscript with its index
    * while there is a match left. */
  function Interleave(texts: seq<string>, digits: seq<char>, key: nat): (r: seq<Node>)
    requires |texts| == |digits| + 1
    ensures |r| == 2 * |digits| + 1
    ensures forall j :: 0 <= j < |texts| ==> r[2 * j] == Text(texts[j])
    ensures forall j :: 0 <= j < |digits| ==> r[2 * j + 1] == Sub(key + j, digits[j])
    decreases |digits|
  {
    if digits == [] then [Text(texts[0])]
    else
      var rest := Interleave(texts[1..], digits[1..], key + 1);
      assert forall j :: 1 <= j < |texts| ==> rest[2 * (j - 1)] == Text(texts[j]);
      assert forall j :: 1 <= j < |digits| ==> rest[2 * (j - 1) + 1] == Sub(key + j, digits[j]);
      [Text(texts[0]), Sub(key, digits[0])] + rest
  }

  /** `convertToSubscripts(formula)`: the children of the paragraph. */
  function ConvertToSubscripts(formula: string): (r: seq<Node>)
  {
    var p := SplitFrom(formula, false);
    Interleave(p.texts, p.digits, 0)
  }

  /** The paragraph alternates texts and single-digit subscripts keyed
    * 0, 1, ...: n subscripts between n + 1 texts, the texts and digits of
    * the split in order. */
  lemma ConvertToSubscriptsShape(formula: string)
    ensures var r := ConvertToSubscripts(formula);
            var p := SplitFrom(formula, false);
            |r| % 2 == 1 && |r| == 2 * |p.digits| + 1 &&
            (forall j :: 0 <= j < |p.texts| ==> r[2 * j] == Text(p.texts[j])) &&
            (forall j :: 0 <= j < |p.digits| ==> r[2 * j + 1] == Sub(j, p.digits[j]))
  {
  }

  /** The split subscripts exactly the digits right after a letter: each
    * subscript is a digit after a text ending in a letter, no text holds
    * a letter followed by a digit, and the texts and digits in order spell
    * the formula. */
  lemma SplitSpec(formula: string)
    ensures var p := SplitFrom(formula, false);
            AllDigitsIn(p) && LettersBefore(p, false) && NoMatchLeft(p, false) && Joined(p) == formula
  {
    JoinedSplit(formula, false);
    SplitDigits(formula, false);
    SplitAfterLetters(formula, false);
    SplitNoMatchLeft(formula, false);
  }

  /** The empty formula is one empty text. */
  lemma ConvertEmpty()
    ensures ConvertToSubscripts("") == [Text("")]
  {
  }

  /** A character that is not a match is added to the first text. */
  lemma SplitKeeps(c: char, rest: string, afterLetter: bool)
    requires !(afterLetter && IsDigit(c))
    ensures var r := SplitFrom(rest, IsLetter(c));
            SplitFrom([c] + rest, afterLetter) == Parts([[c] + r.texts[0]] + r.texts[1..], r.digits)
  {
    assert ([c] + rest)[1..] == rest;
  }

  /** A digit after a letter is a match. */
  lemma SplitMatches(c: char, rest: string)
    requires IsDigit(c)
    ensures var r := SplitFrom(rest, false);
            SplitFrom([c] + rest, true) == Parts([""] + r.texts, [c] + r.digits)
  {
    assert ([c] + rest)[1..] == rest;
  }

  lemma SplitLikeNO2(a: char, b: char, d: char)
    requires IsLetter(a) && IsLetter(b) && IsDigit(d)
    ensures SplitFrom([a, b, d], false) == Parts([[a, b], ""], [d])
  {
    SplitMatches(d, []);
    assert [d] == [d] + [];
    SplitKeeps(b, [d], true);
    assert [b, d] == [b] + [d] && [b] == [b] + "";
    SplitKeeps(a, [b, d], false);
    assert [a, b, d] == [a] + [b, d] && [a, b] == [a] + [b];
  }

  /** A formula shaped like "NO2" becomes its two letters, a subscript
    * for its digit, and an empty text. */
  lemma ConvertLikeNO2(a: char, b: char, d: char)
    requires IsLetter(a) && IsLetter(b) && IsDigit(d)
    ensures ConvertToSubscripts([a, b, d]) == [Text([a, b]), Sub(0, d), Text("")]
  {
    SplitLikeNO2(a, b, d);
  }

  /** In a formula shaped like "2 NO2" only the last digit follows a
    * letter. */
  lemma ConvertLike2NO2(n: char, sp: char, a: char, b: char, d: char)
    requires IsDigit(n) && !IsLetter(sp) && !IsDigit(sp) && IsLetter(a) && IsLetter(b) && IsDigit(d)
    ensures ConvertToSubscripts([n, sp, a, b, d]) == [Text([n, sp, a, b]), Sub(0, d), Text("")]
  {
    SplitLikeNO2(a, b, d);
    SplitKeeps(sp, [a, b, d], false);
    assert [sp, a, b, d] == [sp] + [a, b, d] && [sp, a, b] == [sp] + [a, b];
    var q := SplitFrom([sp, a, b, d], false);
    assert q == Parts([[sp, a, b], ""], [d]);
    SplitKeeps(n, [sp, a, b, d], false);
    assert [n, sp, a, b, d] == [n] + [sp, a, b, d] && [n, sp, a, b] == [n] + [sp, a, b];
  }
}
