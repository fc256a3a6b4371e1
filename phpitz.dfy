/** The pHPitz adapter's handling of the service's reply: unescaping the
  * text, cutting out the result table, and reading one entry per component
  * line. Python's `float()` is the parameter `toFloat`, `None` standing for
  * the `ValueError` it raises. */
module Phpitz {
  import opened Common
  import opened Text
  import opened Panels

  /** One component's row of the table. */
  datatype ComponentData = ComponentData(startMoles: real, endMoles: real, endPpm: real, fugacityCoef: real)

  /** A line after `strip()`, and whether it is a header, separator or the
    * "FINISH" marker, which are skipped. */
  predicate Skipped(line: string)
  {
    line == [] || StartsWith(line, "-") || StartsWith(line, "Component") || line == "FINISH"
  }

  /** `s.replace("E+", "e+").replace("E-", "e-")` */
  function Rewrite(s: string): string
  {
    ReplaceAll(ReplaceAll(s, "E+", "e+"), "E-", "e-")
  }

  /** What one line contributes: nothing, a component entry, or the token
    * `float()` rejects (the first of the four, in order). */
  datatype LineOutcome = Skip | Entry(component: string, data: ComponentData) | Bad(token: string)

  /** The outcome of a line's words, once the line passed the skip rules. */
  function PartsEntry(parts: seq<string>, toFloat: string -> Option<real>): (o: LineOutcome)
  {
    if |parts| < 5 then Skip
    else if toFloat(Rewrite(parts[1])).None? then Bad(Rewrite(parts[1]))
    else if toFloat(Rewrite(parts[2])).None? then Bad(Rewrite(parts[2]))
    else if toFloat(Rewrite(parts[3])).None? then Bad(Rewrite(parts[3]))
    else if toFloat(parts[4]).None? then Bad(parts[4])
    else Entry(parts[0], ComponentData(toFloat(Rewrite(parts[1])).value, toFloat(Rewrite(parts[2])).value,
                                       toFloat(Rewrite(parts[3])).value, toFloat(parts[4]).value))
  }

  function LineEntry(rawLine: string, toFloat: string -> Option<real>): (o: LineOutcome)
  {
    var line := Strip(rawLine, IsPySpace);
    if Skipped(line) then Skip else PartsEntry(Words(line), toFloat)
  }

  function Outcomes(lines: seq<string>, toFloat: string -> Option<real>): (r: seq<LineOutcome>)
    ensures |r| == |lines|
  {
    seq(|lines|, i requires 0 <= i < |lines| => LineEntry(lines[i], toFloat))
  }

  /** The table the outcomes give, or the first rejected token. */
  function Fold(outs: seq<LineOutcome>): (r: Result<Dict<string, ComponentData>, string>)
    ensures r.Success? ==> r.value.Valid()
  {
    if outs == [] then Success(Dict.Empty())
    else
      var n := |outs| - 1;
      match Fold(outs[..n])
      case Failure(e) => Failure(e)
      case Success(d) =>
        match outs[n]
        case Skip => Success(d)
        case Bad(t) => Failure(t)
        case Entry(c, data) => Success(d.Put(c, data))
  }

  /** The table the lines give, or the first rejected token. */
  function ParseLines(lines: seq<string>, toFloat: string -> Option<real>): (r: Result<Dict<string, ComponentData>, string>)
    ensures r.Success? ==> r.value.Valid()
  {
    Fold(Outcomes(lines, toFloat))
  }

  /** `parse_phpitz_simple` */
  method ParsePhpitzSimple(text: string, toFloat: string -> Option<real>) returns (r: Result<Dict<string, ComponentData>, string>)
    ensures r == ParseLines(Split(text, '\n'), toFloat)
  {
    var lines := Split(text, '\n');
    ghost var outs := Outcomes(lines, toFloat);
    var result: Dict<string, ComponentData> := Dict.Empty();
    var i := 0;
    while i < |lines|
      invariant 0 <= i <= |lines|
      invariant Fold(outs[..i]) == Success(result)
    {
      assert outs[..i + 1][..i] == outs[..i];
      assert outs[i] == LineEntry(lines[i], toFloat);
      var line := Strip(lines[i], IsPySpace);
      if !Skipped(line) {
        var parts := Words(line);
        if |parts| >= 5 {
          var component := parts[0];
          var startMoles := toFloat(Rewrite(parts[1]));
          if startMoles.None? { OneBad(outs, i); return Failure(Rewrite(parts[1])); }
          var endMoles := toFloat(Rewrite(parts[2]));
          if endMoles.None? { OneBad(outs, i); return Failure(Rewrite(parts[2])); }
          var endPpm := toFloat(Rewrite(parts[3]));
          if endPpm.None? { OneBad(outs, i); return Failure(Rewrite(parts[3])); }
          var fugacityCoef := toFloat(parts[4]);
          if fugacityCoef.None? { OneBad(outs, i); return Failure(parts[4]); }
          result := result.Put(component, ComponentData(startMoles.value, endMoles.value, endPpm.value, fugacityCoef.value));
        }
      }
      i := i + 1;
    }
    assert outs[..i] == outs;
    r := Success(result);
  }

  /** The first rejected token ends the parse: whatever follows is not read. */
  lemma {:induction false} OneBad(outs: seq<LineOutcome>, i: nat)
    requires i < |outs| && outs[i].Bad? && Fold(outs[..i]).Success?
    ensures Fold(outs) == Failure(outs[i].token)
    decreases |outs|
  {
    var n := |outs| - 1;
    if i < n {
      assert outs[..n][..i] == outs[..i];
      OneBad(outs[..n], i);
    } else {
      assert outs[..n] == outs[..i];
    }
  }

  /** Empty lines, separators, headers and the "FINISH" marker, once
    * stripped, contribute nothing; any other line is read from its words. */
  lemma LineRules(rawLine: string, toFloat: string -> Option<real>)
    ensures Skipped(Strip(rawLine, IsPySpace)) ==> LineEntry(rawLine, toFloat) == Skip
    ensures !Skipped(Strip(rawLine, IsPySpace)) ==> LineEntry(rawLine, toFloat) == PartsEntry(Words(Strip(rawLine, IsPySpace)), toFloat)
  {
  }

  /** Fewer than five words contribute nothing; otherwise the first word is
    * the component and the next four its numbers, words past the fifth being
    * ignored; only the first three numbers are rewritten before `float()`. */
  lemma PartsRules(parts: seq<string>, toFloat: string -> Option<real>)
    ensures |parts| < 5 ==> PartsEntry(parts, toFloat) == Skip
    ensures PartsEntry(parts, toFloat).Entry? ==>
              && |parts| >= 5
              && PartsEntry(parts, toFloat).component == parts[0]
              && Some(PartsEntry(parts, toFloat).data.startMoles) == toFloat(Rewrite(parts[1]))
              && Some(PartsEntry(parts, toFloat).data.endMoles) == toFloat(Rewrite(parts[2]))
              && Some(PartsEntry(parts, toFloat).data.endPpm) == toFloat(Rewrite(parts[3]))
              && Some(PartsEntry(parts, toFloat).data.fugacityCoef) == toFloat(parts[4])
    ensures |parts| >= 5 && PartsEntry(parts, toFloat).Bad? ==>
              PartsEntry(parts, toFloat).token in [Rewrite(parts[1]), Rewrite(parts[2]), Rewrite(parts[3]), parts[4]]
    ensures |parts| >= 5 ==>
              (PartsEntry(parts, toFloat).Entry? <==>
                 toFloat(Rewrite(parts[1])).Some? && toFloat(Rewrite(parts[2])).Some? &&
                 toFloat(Rewrite(parts[3])).Some? && toFloat(parts[4]).Some?)
  {
  }

  /** The table holds a component exactly when some line gives it an entry
    * (when no line is rejected). */
  lemma {:induction false} FoldKeys(outs: seq<LineOutcome>, c: string)
    requires Fold(outs).Success?
    ensures c in Fold(outs).value.vals <==> exists i :: 0 <= i < |outs| && outs[i].Entry? && outs[i].component == c
  {
    if outs != [] {
      var n := |outs| - 1;
      FoldKeys(outs[..n], c);
      assert forall i :: 0 <= i < n ==> outs[..n][i] == outs[i];
    }
  }

  lemma ParseLinesKeys(lines: seq<string>, toFloat: string -> Option<real>, c: string)
    requires ParseLines(lines, toFloat).Success?
    ensures c in ParseLines(lines, toFloat).value.vals <==>
              exists i :: 0 <= i < |lines| && LineEntry(lines[i], toFloat).Entry? && LineEntry(lines[i], toFloat).component == c
  {
    var outs := Outcomes(lines, toFloat);
    FoldKeys(outs, c);
    assert forall i :: 0 <= i < |lines| ==> outs[i] == LineEntry(lines[i], toFloat);
  }

  /** A later line for the same component overwrites the earlier entry. */
  lemma {:induction false} FoldLastWins(outs: seq<LineOutcome>, i: nat)
    requires Fold(outs).Success?
    requires i < |outs| && outs[i].Entry?
    requires forall j :: i < j < |outs| && outs[j].Entry? ==> outs[j].component != outs[i].component
    ensures outs[i].component in Fold(outs).value.vals
    ensures Fold(outs).value.vals[outs[i].component] == outs[i].data
  {
    var n := |outs| - 1;
    if i < n {
      assert outs[..n][i] == outs[i];
      assert forall j :: i < j < n ==> outs[..n][j] == outs[j];
      FoldLastWins(outs[..n], i);
    }
  }

  lemma ParseLinesLastWins(lines: seq<string>, toFloat: string -> Option<real>, i: nat)
    requires ParseLines(lines, toFloat).Success?
    requires i < |lines| && LineEntry(lines[i], toFloat).Entry?
    requires forall j :: i < j < |lines| && LineEntry(lines[j], toFloat).Entry? ==>
               LineEntry(lines[j], toFloat).component != LineEntry(lines[i], toFloat).component
    ensures LineEntry(lines[i], toFloat).component in ParseLines(lines, toFloat).value.vals
    ensures ParseLines(lines, toFloat).value.vals[LineEntry(lines[i], toFloat).component] == LineEntry(lines[i], toFloat).data
  {
    FoldLastWins(Outcomes(lines, toFloat), i);
  }

  /** Parsing fails exactly when some line has a rejected number, and then
    * with the first such line's token. */
  lemma {:induction false} FoldFails(outs: seq<LineOutcome>)
    ensures Fold(outs).Failure? <==> exists i :: 0 <= i < |outs| && outs[i].Bad?
    ensures Fold(outs).Failure? ==>
              exists i :: 0 <= i < |outs| && outs[i].Bad? && Fold(outs).error == outs[i].token &&
                          forall j :: 0 <= j < i ==> !outs[j].Bad?
  {
    if outs != [] {
      var n := |outs| - 1;
      FoldFails(outs[..n]);
      assert forall i :: 0 <= i < n ==> outs[..n][i] == outs[i];
    }
  }

  lemma ParseLinesFails(lines: seq<string>, toFloat: string -> Option<real>)
    ensures ParseLines(lines, toFloat).Failure? <==> exists i :: 0 <= i < |lines| && LineEntry(lines[i], toFloat).Bad?
  {
    FoldFails(Outcomes(lines, toFloat));
    var outs := Outcomes(lines, toFloat);
    assert forall i :: 0 <= i < |lines| ==> outs[i] == LineEntry(lines[i], toFloat);
  }

  predicate Absent(s: string, q: string)
  {
    forall i :: 0 <= i <= |s| ==> !OccursAt(s, q, i)
  }

  /** Replacing a two-character pattern by a text that can neither start it
    * nor complete it leaves no occurrence of the pattern, and keeps absent a
    * two-character text that was absent and that the replacement can
    * neither start nor complete. */
  lemma {:induction false} ReplaceAllAvoids(s: string, pat: string, repl: string, q: string)
    requires |pat| == 2 && |repl| == 2 && |q| == 2
    requires repl[0] != q[0] && repl[1] != q[0] && repl[0] != q[1]
    requires q == pat || Absent(s, q)
    ensures Absent(ReplaceAll(s, pat, repl), q)
    decreases |s|
  {
    var r := ReplaceAll(s, pat, repl);
    if |s| < |pat| {
    } else if s[..|pat|] == pat {
      var rest := ReplaceAll(s[2..], pat, repl);
      if q != pat {
        forall i | 0 <= i <= |s[2..]|
          ensures !OccursAt(s[2..], q, i)
        {
          assert !OccursAt(s, q, i + 2);
        }
      }
      ReplaceAllAvoids(s[2..], pat, repl, q);
      assert r == repl + rest;
      forall i | 0 <= i <= |r|
        ensures !OccursAt(r, q, i)
      {
        if i >= 2 {
          assert !OccursAt(rest, q, i - 2);
          if i + 2 <= |r| {
            assert r[i..i + 2] == rest[i - 2..i];
          }
        } else if i == 1 && |r| >= 3 {
          assert r[1] == repl[1];
        } else if i == 0 {
          assert r[0] == repl[0];
        }
      }
    } else {
      var rest := ReplaceAll(s[1..], pat, repl);
      if q != pat {
        forall i | 0 <= i <= |s[1..]|
          ensures !OccursAt(s[1..], q, i)
        {
          assert !OccursAt(s, q, i + 1);
        }
      }
      ReplaceAllAvoids(s[1..], pat, repl, q);
      assert r == [s[0]] + rest;
      forall i | 0 <= i <= |r|
        ensures !OccursAt(r, q, i)
      {
        if i >= 1 {
          assert !OccursAt(rest, q, i - 1);
          if i + 2 <= |r| {
            assert r[i..i + 2] == rest[i - 1..i + 1];
          }
        } else {
          // the second character is either the source's or a replacement's
          assert r[0] == s[0] && r[1] == rest[0];
          assert s[..2] != q by {
            if q != pat { assert !OccursAt(s, q, 0); }
          }
          if |s[1..]| >= 2 && s[1..][..2] == pat {
            assert rest == repl + ReplaceAll(s[1..][2..], pat, repl);
            assert r[1] != q[1];
          } else {
            assert rest[0] == s[1];
            assert s[..2] == [s[0], s[1]];
            assert r[..2] == s[..2];
          }
        }
      }
    }
  }

  /** After the rewrite a number has no "E+" and no "E-". */
  lemma RewriteRemovesUpperExponents(s: string)
    ensures Absent(Rewrite(s), "E+") && Absent(Rewrite(s), "E-")
  {
    ReplaceAllAvoids(s, "E+", "e+", "E+");
    ReplaceAllAvoids(ReplaceAll(s, "E+", "e+"), "E-", "e-", "E+");
    ReplaceAllAvoids(ReplaceAll(s, "E+", "e+"), "E-", "e-", "E-");
  }

  /** A number without an upper-case exponent is left untouched. */
  lemma RewriteKeepsOthers(s: string)
    requires Absent(s, "E+") && Absent(s, "E-")
    ensures Rewrite(s) == s
  {
    ReplaceAllAbsent(s, "E+", "e+");
    ReplaceAllAbsent(s, "E-", "e-");
  }

  /** `res.text.replace("\\n", "\n").strip("'")` */
  function Unescape(text: string): string
  {
    Strip(ReplaceAll(text, "\\n", "\n"), c => c == '\'')
  }

  /** `result[result.find("FINISH") : result.find("\n \n \n")]` */
  function Section(result: string): (r: string)
    ensures |r| <= |result|
  {
    PySlice(result, Find(result, "FINISH"), Find(result, "\n \n \n"))
  }

  /** The slice runs from the first "FINISH" to the first blank-line run
    * when both occur in that order; without a "FINISH" it is empty (the -1
    * start points at the last character, before any terminator); without a
    * terminator it stops one character short of the end. */
  lemma SectionCases(result: string)
    ensures var f, t := Find(result, "FINISH"), Find(result, "\n \n \n");
            && (0 <= f <= t ==> Section(result) == result[f..t])
            && (f == -1 ==> Section(result) == [])
            && (0 <= f && t == -1 && f < |result| - 1 ==> Section(result) == result[f..|result| - 1])
  {
    var f, t := Find(result, "FINISH"), Find(result, "\n \n \n");
    if f == -1 && t >= 0 {
      assert OccursAt(result, "\n \n \n", t);
    }
  }

  /** The adapter's result: the parsed table of the section, and the whole
    * unescaped text as a text panel. */
  method PhpitzResult(responseText: string, toFloat: string -> Option<real>) returns (r: Result<(Dict<string, ComponentData>, Panel), string>)
    ensures var result := Unescape(responseText);
            match ParseLines(Split(Section(result), '\n'), toFloat)
            case Success(d) => r == Success((d, TextPanel(result)))
            case Failure(e) => r == Failure(e)
  {
    var result := Unescape(responseText);
    var table := ParsePhpitzSimple(Section(result), toFloat);
    if table.Failure? {
      return Failure(table.error);
    }
    r := Success((table.value, TextPanel(result)));
  }
}
