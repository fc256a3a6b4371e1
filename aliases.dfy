/** pydantic's `alias_generators.to_camel`, the alias generator of every
  * parameters class, on ASCII names. A name already in camelCase is kept;
  * any other goes through `str.title()`, then loses every `_` that sits
  * between a letter or digit and a following capital or digit, and then has
  * its leading capital (after any leading `_`) lower-cased. */
module AliasGenerator {
  import opened Common
  import opened Text

  predicate IsAlnum(c: char) { IsLetter(c) || IsDigit(c) }

  /** ASCII lower-casing of one character. */
  function LowerChar(c: char): char
  {
    if IsUpper(c) then (c as int + 32) as char else c
  }

  /** `str.title()`: a letter that follows a letter is lower-cased, any
    * other letter upper-cased, and everything else kept. `afterLetter` says
    * whether the text before `s` ended in a letter. */
  function Title(s: string, afterLetter: bool): (r: string)
    ensures |r| == |s|
  {
    if s == [] then [] else [TitleChar(s[0], afterLetter)] + Title(s[1..], IsLetter(s[0]))
  }

  function TitleChar(c: char, afterLetter: bool): char
  {
    if !IsLetter(c) then c else if afterLetter then LowerChar(c) else UpperChar(c)
  }

  /** `re.sub('([0-9A-Za-z])_(?=[0-9A-Z])', lambda m: m.group(1), s)`,
    * scanning left to right without overlaps. */
  function JoinWords(s: string): (r: string)
    ensures |r| <= |s|
  {
    if |s| >= 3 && IsAlnum(s[0]) && s[1] == '_' && (IsDigit(s[2]) || IsUpper(s[2])) then [s[0]] + JoinWords(s[2..])
    else if s == [] then []
    else [s[0]] + JoinWords(s[1..])
  }

  /** `re.sub('(^_*[A-Z])', lambda m: m.group(1).lower(), s)` */
  function LowerLead(s: string): (r: string)
    ensures |r| == |s|
  {
    if s == [] then []
    else if s[0] == '_' then "_" + LowerLead(s[1..])
    else [LowerChar(s[0])] + s[1..]
  }

  /** `to_pascal` */
  function ToPascal(name: string): string
  {
    JoinWords(Title(name, false))
  }

  /** `re.match('^[a-z]+[A-Za-z0-9]*$', s) and not re.search(r'\d[a-z]', s)`;
    * `$` also matches before a final newline. */
  predicate IsCamel(s: string)
  {
    var body := Body(s);
    |body| > 0 && IsLower(body[0]) && AllAlnum(body) && !DigitThenLower(s)
  }

  predicate AllAlnum(s: string)
  {
    s == [] || (IsAlnum(s[0]) && AllAlnum(s[1..]))
  }

  /** `\d[a-z]` matches somewhere in `s`. */
  predicate DigitThenLower(s: string)
  {
    |s| >= 2 && ((IsDigit(s[0]) && IsLower(s[1])) || DigitThenLower(s[1..]))
  }

  /** The text `$` leaves to the rest of the pattern. */
  function Body(s: string): (body: string)
    ensures |body| <= |s| && body == s[..|body|]
  {
    if |s| > 0 && s[|s| - 1] == '\n' then s[..|s| - 1] else s
  }

  /** `to_camel` */
  function ToCamel(name: string): (r: string)
    ensures IsCamel(name) ==> r == name
    ensures |r| <= |name|
  {
    if IsCamel(name) then name else LowerLead(ToPascal(name))
  }

  // snake_case names

  /** A word of a snake_case name: lower-case letters. */
  predicate Word(w: string)
  {
    |w| > 0 && forall i :: 0 <= i < |w| ==> IsLower(w[i])
  }

  /** The words joined with `_`. */
  function Snake(ws: seq<string>): string
    requires |ws| > 0
  {
    if |ws| == 1 then ws[0] else ws[0] + "_" + Snake(ws[1..])
  }

  function Capitalized(w: string): string
    requires |w| > 0
  {
    [UpperChar(w[0])] + w[1..]
  }

  /** Every word capitalised, run together. */
  function Pascal(ws: seq<string>): string
    requires forall i :: 0 <= i < |ws| ==> Word(ws[i])
  {
    if ws == [] then []
    else
      assert Word(ws[0]);
      Capitalized(ws[0]) + Pascal(ws[1..])
  }

  /** A snake_case name of lower-case words becomes its first word followed
    * by the others capitalised: `flow_rate` gives `flowRate`. */
  lemma {:induction false} SnakeToCamel(ws: seq<string>)
    requires |ws| > 0 && forall i :: 0 <= i < |ws| ==> Word(ws[i])
    ensures ToCamel(Snake(ws)) == ws[0] + Pascal(ws[1..])
  {
    assert Word(ws[0]);
    if |ws| == 1 {
      WordIsCamel(ws[0]);
      assert Pascal(ws[1..]) == [];
      assert ws[0] + [] == ws[0];
    } else {
      SnakeSplit(ws);
      PascalSnake(ws);
      assert Pascal(ws) == Capitalized(ws[0]) + Pascal(ws[1..]);
      CamelOfSnake(Snake(ws), ws[0], Pascal(ws[1..]));
    }
  }

  lemma {:induction false} SnakeSplit(ws: seq<string>)
    requires |ws| > 1 && forall i :: 0 <= i < |ws| ==> Word(ws[i])
    ensures !IsCamel(Snake(ws))
  {
    var w := ws[0];
    var s := Snake(ws);
    assert s == w + ("_" + Snake(ws[1..]));
    SnakeEnds(ws);
    UnderscoreNotCamel(s, |w|);
  }

  lemma {:induction false} CamelOfSnake(s: string, w: string, rest: string)
    requires !IsCamel(s) && Word(w) && ToPascal(s) == Capitalized(w) + rest
    ensures ToCamel(s) == w + rest
  {
    LowerCapitalized(w, rest);
  }

  /** A single lower-case word is in camelCase already. */
  lemma {:induction false} WordIsCamel(w: string)
    requires Word(w)
    ensures IsCamel(w)
  {
    assert w[|w| - 1] != '\n';
    assert Body(w) == w;
    LowerPlain(w);
  }

  /** Lower-case letters are letters and hold no digit. */
  lemma {:induction false} LowerPlain(w: string)
    requires forall i :: 0 <= i < |w| ==> IsLower(w[i])
    ensures AllAlnum(w) && !DigitThenLower(w)
  {
    if w != [] {
      LowerPlain(w[1..]);
    }
  }

  /** A name with a `_` before its end is not in camelCase. */
  lemma {:induction false} UnderscoreNotCamel(s: string, i: int)
    requires 0 <= i < |s| - 1 && s[i] == '_'
    ensures !IsCamel(s)
  {
    var body := Body(s);
    assert i < |body| && body[i] == '_';
    UnderscoreNotAlnum(body, i);
  }

  lemma {:induction false} UnderscoreNotAlnum(s: string, i: nat)
    requires i < |s| && s[i] == '_'
    ensures !AllAlnum(s)
  {
    if i > 0 {
      UnderscoreNotAlnum(s[1..], i - 1);
    }
  }

  /** A snake_case name ends in a lower-case letter. */
  lemma {:induction false} SnakeEnds(ws: seq<string>)
    requires |ws| > 0 && forall i :: 0 <= i < |ws| ==> Word(ws[i])
    ensures |Snake(ws)| > 0 && IsLower(Snake(ws)[|Snake(ws)| - 1]) && IsLower(Snake(ws)[0])
  {
    if |ws| > 1 {
      SnakeEnds(ws[1..]);
      assert Snake(ws) == ws[0] + ("_" + Snake(ws[1..]));
    }
  }

  lemma {:induction false} LowerCapitalized(w: string, rest: string)
    requires Word(w)
    ensures LowerLead(Capitalized(w) + rest) == w + rest
  {
    assert (Capitalized(w) + rest)[0] == UpperChar(w[0]);
    assert (Capitalized(w) + rest)[1..] == w[1..] + rest;
    assert LowerChar(UpperChar(w[0])) == w[0];
    assert [w[0]] + (w[1..] + rest) == w + rest;
  }

  /** `to_pascal` of a snake_case name capitalises and joins its words. */
  lemma {:induction false} PascalSnake(ws: seq<string>)
    requires |ws| > 0 && forall i :: 0 <= i < |ws| ==> Word(ws[i])
    ensures ToPascal(Snake(ws)) == Pascal(ws)
    ensures |Pascal(ws)| > 0 && IsUpper(Pascal(ws)[0])
  {
    var w := ws[0];
    assert Word(w);
    TitleWord(w, false);
    CapitalizedAlnum(w);
    if |ws| == 1 {
      PascalOne(ws);
    } else {
      var rest := Snake(ws[1..]);
      PascalSnake(ws[1..]);
      assert Snake(ws) == w + ("_" + rest);
      TitleSnakeStep(w, rest);
      TitleSnakeStarts(ws[1..]);
      JoinAfterWord(Capitalized(w), Title(rest, false));
      assert Pascal(ws) == Capitalized(w) + Pascal(ws[1..]);
    }
  }

  lemma {:induction false} PascalOne(ws: seq<string>)
    requires |ws| == 1 && Word(ws[0])
    requires Title(ws[0], false) == Capitalized(ws[0])
    requires forall i :: 0 <= i < |Capitalized(ws[0])| ==> IsAlnum(Capitalized(ws[0])[i])
    ensures ToPascal(Snake(ws)) == Pascal(ws)
    ensures |Pascal(ws)| > 0 && IsUpper(Pascal(ws)[0])
  {
    var c := Capitalized(ws[0]);
    JoinPlain(c);
    assert Pascal(ws[1..]) == [];
    assert Pascal(ws) == c + [] == c;
  }

  lemma {:induction false} CapitalizedAlnum(w: string)
    requires Word(w)
    ensures forall i :: 0 <= i < |Capitalized(w)| ==> IsAlnum(Capitalized(w)[i])
    ensures IsUpper(Capitalized(w)[0])
  {
    forall i | 0 <= i < |Capitalized(w)|
      ensures IsAlnum(Capitalized(w)[i])
    {
      if i > 0 {
        assert Capitalized(w)[i] == w[i];
      }
    }
  }

  /** `str.title()` capitalises the first word of a snake_case name and
    * starts afresh after the `_`. */
  lemma {:induction false} TitleSnakeStep(w: string, rest: string)
    requires Word(w) && Title(w, false) == Capitalized(w)
    ensures Title(w + ("_" + rest), false) == Capitalized(w) + ("_" + Title(rest, false))
  {
    TitleConcat(w, "_" + rest, false);
    assert IsLetter(w[|w| - 1]);
    TitleCons('_', rest, true);
  }

  /** `str.title()` of a snake_case name starts with a capital. */
  lemma {:induction false} TitleSnakeStarts(ws: seq<string>)
    requires |ws| > 0 && forall i :: 0 <= i < |ws| ==> Word(ws[i])
    ensures |Title(Snake(ws), false)| > 0 && IsUpper(Title(Snake(ws), false)[0])
  {
    SnakeEnds(ws);
    var s := Snake(ws);
    assert Title(s, false)[0] == UpperChar(s[0]);
  }

  lemma {:induction false} TitleCons(c: char, s: string, afterLetter: bool)
    ensures Title([c] + s, afterLetter) == [TitleChar(c, afterLetter)] + Title(s, IsLetter(c))
  {
    assert ([c] + s)[0] == c && ([c] + s)[1..] == s;
  }

  /** `str.title()` works through a concatenation piece by piece. */
  lemma {:induction false} TitleConcat(a: string, b: string, afterLetter: bool)
    ensures Title(a + b, afterLetter) ==
              Title(a, afterLetter) + Title(b, if a == [] then afterLetter else IsLetter(a[|a| - 1]))
  {
    if a == [] {
      assert a + b == b;
    } else {
      var t := a[1..];
      assert a + b == [a[0]] + (t + b);
      TitleCons(a[0], t + b, afterLetter);
      TitleConcat(t, b, IsLetter(a[0]));
      TitleCons(a[0], t, afterLetter);
      assert a == [a[0]] + t;
      if |a| > 1 {
        assert t[|t| - 1] == a[|a| - 1];
      }
      Regroup([TitleChar(a[0], afterLetter)], Title(t, IsLetter(a[0])), Title(b, if a == [] then afterLetter else IsLetter(a[|a| - 1])));
    }
  }

  /** A word in title case is capitalised after a non-letter and lower-case
    * after a letter. */
  lemma {:induction false} TitleWord(w: string, afterLetter: bool)
    requires Word(w)
    ensures Title(w, afterLetter) == if afterLetter then w else Capitalized(w)
  {
    if |w| > 1 {
      TitleWord(w[1..], true);
      assert LowerChar(w[0]) == w[0];
    } else {
      assert w[1..] == [];
    }
  }

  /** Removing word joins leaves text without `_` alone. */
  lemma {:induction false} JoinPlain(s: string)
    requires forall i :: 0 <= i < |s| ==> s[i] != '_'
    ensures JoinWords(s) == s
  {
    if s != [] {
      JoinPlain(s[1..]);
      assert s == [s[0]] + s[1..];
    }
  }

  /** A character not followed by `_` is copied. */
  lemma {:induction false} JoinKeep(x: char, r: string)
    requires |r| > 0 && r[0] != '_'
    ensures JoinWords([x] + r) == [x] + JoinWords(r)
  {
    assert ([x] + r)[1] == r[0] && ([x] + r)[1..] == r;
  }

  /** A letter or digit, `_` and a capital lose the `_`. */
  lemma {:induction false} JoinDrop(x: char, t: string)
    requires IsAlnum(x) && |t| > 0 && IsUpper(t[0])
    ensures JoinWords([x] + ("_" + t)) == [x] + JoinWords(t)
  {
    var s := [x] + ("_" + t);
    assert s[0] == x && s[1] == '_' && s[2] == t[0];
    assert s[2..] == t;
  }

  /** A `_` between a word and a capital is removed. */
  lemma {:induction false} JoinAfterWord(c: string, t: string)
    requires |c| > 0 && forall i :: 0 <= i < |c| ==> IsAlnum(c[i])
    requires |t| > 0 && IsUpper(t[0])
    ensures JoinWords(c + ("_" + t)) == c + JoinWords(t)
  {
    var tail := c[1..];
    assert c == [c[0]] + tail;
    if |c| == 1 {
      assert tail == [];
      assert c + ("_" + t) == [c[0]] + ("_" + t);
      JoinDrop(c[0], t);
    } else {
      assert c + ("_" + t) == [c[0]] + (tail + ("_" + t));
      JoinKeep(c[0], tail + ("_" + t));
      JoinAfterWord(tail, t);
      Regroup([c[0]], tail, JoinWords(t));
    }
  }

  /** The alias of the Gibbs minimisation model's `EOS` parameter. */
  lemma {:induction false} EosAlias(name: string)
    requires name == "EOS"
    ensures ToCamel(name) == "eos"
  {
    UpperNotCamel(name);
    assert name[1..] == "OS" && name[1..][1..] == "S" && name[1..][1..][1..] == [];
    assert Title("S", true) == "s";
    assert Title("OS", true) == "os";
    assert Title(name, false) == "Eos";
    JoinPlain("Eos");
  }

  /** A name starting with a capital is not in camelCase. */
  lemma {:induction false} UpperNotCamel(s: string)
    requires |s| > 1 && IsUpper(s[0])
    ensures !IsCamel(s)
  {
    var body := Body(s);
    assert |body| > 0 && body[0] == s[0];
    assert !IsLower(body[0]);
  }

  /** A letter after a digit counts as a word start: `h2o_ppm` has the
    * alias `h2OPpm`. */
  lemma {:induction false} DigitLetterAlias(name: string)
    requires name == "h2o_ppm"
    ensures ToCamel(name) == "h2OPpm"
  {
    UnderscoreNotCamel(name, 3);
    H2oTitle(name);
    JoinH2o("H2O_Ppm");
    LowerH2o("H2OPpm");
  }

  lemma {:induction false} LowerH2o(s: string)
    requires s == "H2OPpm"
    ensures LowerLead(s) == "h2OPpm"
  {
    assert s[0] == 'H' && LowerChar('H') == 'h';
    assert s[1..] == "2OPpm";
  }

  lemma {:induction false} H2oTitle(name: string)
    requires name == "h2o_ppm"
    ensures Title(name, false) == "H2O_Ppm"
  {
    assert name == "h2o" + ("_" + "ppm");
    TitleConcat("h2o", "_" + "ppm", false);
    TitleCons('_', "ppm", true);
    TitleWord("ppm", false);
    TitleCons('h', "2o", false);
    TitleCons('2', "o", true);
    assert "h2o" == ['h'] + "2o" && "2o" == ['2'] + "o";
  }

  lemma {:induction false} JoinH2o(s: string)
    requires s == "H2O_Ppm"
    ensures JoinWords(s) == "H2OPpm"
  {
    assert s == "H2O" + ("_" + "Ppm");
    assert IsAlnum("H2O"[0]) && IsAlnum("H2O"[1]) && IsAlnum("H2O"[2]);
    JoinAfterWord("H2O", "Ppm");
    JoinPlain("Ppm");
  }
}
