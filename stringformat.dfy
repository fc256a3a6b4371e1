/** `stringFormat(template, ...args)`: every `{N}` in the template becomes
  * the N-th argument, in one left-to-right pass. */
module StringFormat {
  import opened Common
  import opened Text

  /** The number of decimal digits `t` starts with. */
  function DigitRun(t: string): (k: nat)
    ensures k <= |t| && AllDigits(t[..k])
    ensures k < |t| ==> !IsDigit(t[k])
  {
    if t == [] || !IsDigit(t[0]) then 0
    else
      var k := DigitRun(t[1..]);
      assert t[..k + 1] == [t[0]] + t[1..][..k];
      k + 1
  }

  /** Where the pattern `{(\d+)}` matches at the start of `t`, the length
    * of its digits. The digit run is greedy and a shorter run is followed
    * by a digit, so this is the only way the pattern can match here. */
  function MatchAt(t: string): (m: Option<nat>)
    ensures m.Some? ==> 1 <= m.value && m.value + 2 <= |t| && t[0] == '{' &&
                        AllDigits(t[1..m.value + 1]) && t[m.value + 1] == '}'
  {
    if t == [] || t[0] != '{' then None
    else
      var k := DigitRun(t[1..]);
      if k >= 1 && k + 1 < |t| && t[k + 1] == '}' then
        assert t[1..k + 1] == t[1..][..k];
        Some(k)
      else None
  }

  /** `args[number]`: a property name only indexes the array when it is a
    * number as JavaScript prints it (so "01" does not), and it is defined
    * when below the length. */
  function Lookup(args: seq<string>, digits: string): (r: Option<string>)
    ensures r.Some? <==> NatToString(DigitsValue(digits)) == digits && DigitsValue(digits) < |args|
    ensures r.Some? ==> r.value == args[DigitsValue(digits)]
  {
    var n := DigitsValue(digits);
    if NatToString(n) == digits && n < |args| then Some(args[n]) else None
  }

  /** `stringFormat(template, ...args)` */
  function Format(template: string, args: seq<string>): string
    decreases |template|
  {
    if template == [] then []
    else match MatchAt(template)
      case Some(k) =>
        var whole := template[..k + 2];
        var replacement := match Lookup(args, template[1..k + 1])
          case Some(a) => a
          case None => whole;
        replacement + Format(template[k + 2..], args)
      case None => [template[0]] + Format(template[1..], args)
  }

  predicate HasPlaceholder(t: string)
  {
    exists i :: 0 <= i < |t| && MatchAt(t[i..]).Some?
  }

  /** A template without `{digits}` comes back unchanged. */
  lemma {:induction false} NoPlaceholderUnchanged(t: string, args: seq<string>)
    requires !HasPlaceholder(t)
    ensures Format(t, args) == t
    decreases |t|
  {
    if t != [] {
      assert MatchAt(t[0..]).None?;
      assert t[0..] == t;
      assert !HasPlaceholder(t[1..]) by {
        forall i | 0 <= i < |t[1..]| ensures MatchAt(t[1..][i..]).None? {
          assert t[1..][i..] == t[i + 1..];
        }
      }
      NoPlaceholderUnchanged(t[1..], args);
      assert t == [t[0]] + t[1..];
    }
  }

  /** With no arguments every placeholder is left verbatim, so nothing
    * changes. */
  lemma {:induction false} NoArgsUnchanged(t: string)
    ensures Format(t, []) == t
    decreases |t|
  {
    if t != [] {
      match MatchAt(t)
      case Some(k) =>
        NoArgsUnchanged(t[k + 2..]);
        assert t == t[..k + 2] + t[k + 2..];
      case None =>
        NoArgsUnchanged(t[1..]);
        assert t == [t[0]] + t[1..];
    }
  }

  /** The placeholder `{n}` as the template writes it. */
  function Placeholder(n: nat): string
  {
    "{" + NatToString(n) + "}"
  }

  lemma PlaceholderMatches(n: nat, rest: string)
    ensures MatchAt(Placeholder(n) + rest) == Some(|NatToString(n)|)
    ensures (Placeholder(n) + rest)[1..|NatToString(n)| + 1] == NatToString(n)
    ensures (Placeholder(n) + rest)[..|NatToString(n)| + 2] == Placeholder(n)
    ensures (Placeholder(n) + rest)[|NatToString(n)| + 2..] == rest
  {
    var ds := NatToString(n);
    var t := Placeholder(n) + rest;
    assert t == ['{'] + ds + ['}'] + rest;
    assert t[1..] == ds + (['}'] + rest);
    DigitRunOf(ds, ['}'] + rest);
    assert t[1..][..|ds|] == ds;
  }

  lemma {:induction false} DigitRunOf(ds: string, rest: string)
    requires AllDigits(ds) && rest != [] && !IsDigit(rest[0])
    ensures DigitRun(ds + rest) == |ds|
    decreases |ds|
  {
    var t := ds + rest;
    if ds != [] {
      assert t[0] == ds[0] && IsDigit(t[0]);
      assert t[1..] == ds[1..] + rest;
      assert AllDigits(ds[1..]) by {
        forall i | 0 <= i < |ds[1..]|
          ensures IsDigit(ds[1..][i])
        {
          assert ds[1..][i] == ds[i + 1];
        }
      }
      DigitRunOf(ds[1..], rest);
      assert DigitRun(t) == DigitRun(t[1..]) + 1;
    } else {
      assert t == rest;
    }
  }

  /** `{n}` with an n-th argument becomes that argument, and the scan goes
    * on after the placeholder: the inserted text is never scanned again. */
  lemma PlaceholderReplaced(n: nat, rest: string, args: seq<string>)
    requires n < |args|
    ensures Format(Placeholder(n) + rest, args) == args[n] + Format(rest, args)
  {
    PlaceholderMatches(n, rest);
    DigitsOfNatToString(n);
  }

  /** `{n}` past the last argument stays as it is. */
  lemma PlaceholderKept(n: nat, rest: string, args: seq<string>)
    requires n >= |args|
    ensures Format(Placeholder(n) + rest, args) == Placeholder(n) + Format(rest, args)
  {
    PlaceholderMatches(n, rest);
    DigitsOfNatToString(n);
  }

  /** A placeholder with a leading zero, such as `{01}`, never names an
    * argument, so it stays as it is. */
  lemma LeadingZeroKept(ds: string, rest: string, args: seq<string>)
    requires ds != [] && AllDigits(ds)
    ensures Format("{0" + ds + "}" + rest, args) == "{0" + ds + "}" + Format(rest, args)
  {
    var digits := "0" + ds;
    assert AllDigits(digits) by {
      assert digits == ['0'] + ds;
    }
    assert "{0" + ds + "}" + rest == "{" + digits + "}" + rest;
    DigitsMatch(digits, rest);
    LeadingZero(DigitsValue(digits));
    assert digits[0] == '0';
    assert Lookup(args, digits).None?;
  }

  /** `{digits}` at the front of a text matches, with exactly those digits. */
  lemma DigitsMatch(digits: string, rest: string)
    requires digits != [] && AllDigits(digits)
    ensures var t := "{" + digits + "}" + rest;
            MatchAt(t) == Some(|digits|) && t[1..|digits| + 1] == digits &&
            t[..|digits| + 2] == "{" + digits + "}" && t[|digits| + 2..] == rest
  {
    var t := "{" + digits + "}" + rest;
    assert t == ['{'] + digits + ['}'] + rest;
    assert t[1..] == digits + (['}'] + rest);
    DigitRunOf(digits, ['}'] + rest);
    assert t[1..][..|digits|] == digits;
  }

  /** A number prints with a leading zero only when it is 0 itself. */
  lemma LeadingZero(n: nat)
    ensures |NatToString(n)| > 1 ==> NatToString(n)[0] != '0'
  {
    if n >= 10 {
      NatToStringFirst(n);
    }
  }

  lemma {:induction false} NatToStringFirst(n: nat)
    requires n >= 10
    ensures NatToString(n)[0] != '0'
    decreases n
  {
    if n / 10 >= 10 {
      NatToStringFirst(n / 10);
    }
  }
}
