/** How many simulations a batch input runs: one per combination of the
  * selected components' steps. */
module Calculations {
  /** A component's range in the batch form. */
  datatype Component = Component(conc: real, from: real, to: real, step: real)

  function Abs(x: real): real
  {
    if x < 0.0 then -x else x
  }

  /** `countSteps(from, to, step)`: with a positive step, one more than
    * the number of whole steps that fit in the range, so that `n - 1`
    * steps fit and `n` do not. A negative step gives at most 1. */
  function CountSteps(from: real, to: real, step: real): (n: int)
    requires step != 0.0
    ensures step > 0.0 ==> 1 <= n && (n - 1) as real <= Abs(to - from) / step < n as real
    ensures step < 0.0 ==> n <= 1
  {
    var q := Abs(to - from) / step;
    assert step > 0.0 ==> q >= 0.0;
    assert step < 0.0 ==> q <= 0.0;
    q.Floor + 1
  }

  /** The factor a selected component contributes; a step of 0 contributes
    * nothing. */
  function Factor(c: Component): (n: int)
    ensures c.step == 0.0 ==> n == 1
    ensures c.step > 0.0 ==> n >= 1
  {
    if c.step == 0.0 then 1 else CountSteps(c.from, c.to, c.step)
  }

  predicate AllKnown(components: map<string, Component>, selected: seq<string>)
  {
    forall i :: 0 <= i < |selected| ==> selected[i] in components
  }

  /** The product of the selected components' factors. */
  function Product(components: map<string, Component>, selected: seq<string>): int
    requires AllKnown(components, selected)
  {
    if selected == [] then 1
    else Product(components, selected[..|selected| - 1]) * Factor(components[selected[|selected| - 1]])
  }

  /** The number of simulations, or `None` where the source destructures
    * a component that is not in the record and throws. */
  function Count(components: map<string, Component>, selected: seq<string>): Option
  {
    if AllKnown(components, selected) then Known(Product(components, selected)) else Throws
  }

  datatype Option = Throws | Known(value: int)

  /** `calculateNumberOfSimulations(components, selectedComponents)`;
    * `selected` lists the set in its iteration order. */
  method CalculateNumberOfSimulations(components: map<string, Component>, selected: seq<string>) returns (r: Option)
    ensures r == Count(components, selected)
  {
    var res := 1;
    var i := 0;
    while i < |selected|
      invariant 0 <= i <= |selected|
      invariant AllKnown(components, selected[..i])
      invariant res == Product(components, selected[..i])
    {
      var name := selected[i];
      if name !in components {
        assert selected[..i + 1][i] == name;
        NotAllKnown(components, selected, i + 1);
        return Throws;
      }
      var c := components[name];
      if c.step != 0.0 {
        res := res * CountSteps(c.from, c.to, c.step);
      }
      assert selected[..i + 1][..i] == selected[..i];
      i := i + 1;
    }
    assert selected[..i] == selected;
    return Known(res);
  }

  lemma NotAllKnown(components: map<string, Component>, selected: seq<string>, n: nat)
    requires n <= |selected| && !AllKnown(components, selected[..n])
    ensures !AllKnown(components, selected)
  {
    var i :| 0 <= i < n && selected[..n][i] !in components;
    assert selected[i] !in components;
  }

  /** With nothing selected there is one simulation. */
  lemma NothingSelected(components: map<string, Component>)
    ensures Count(components, []) == Known(1)
  {
  }

  /** Selecting one more component multiplies by its factor. */
  lemma ProductSnoc(components: map<string, Component>, s: seq<string>, x: string)
    requires AllKnown(components, s) && x in components
    ensures AllKnown(components, s + [x])
    ensures Product(components, s + [x]) == Product(components, s) * Factor(components[x])
  {
    assert (s + [x])[..|s|] == s;
  }

  /** Removing an element before the last one commutes with dropping the
    * last. */
  lemma RemoveBeforeLast<T>(s: seq<T>, k: nat)
    requires k < |s| - 1
    ensures s[..k] + s[k + 1..] == (s[..|s| - 1][..k] + s[..|s| - 1][k + 1..]) + [s[|s| - 1]]
  {
  }

  lemma MultisetRemoveAt<T>(b: seq<T>, k: nat)
    requires k < |b|
    ensures multiset(b[..k] + b[k + 1..]) == multiset(b) - multiset{b[k]}
  {
    assert b == b[..k] + [b[k]] + b[k + 1..];
  }

  /** Leaving a component out of the product changes it by exactly that
    * component's factor. */
  lemma {:induction false} ProductRemoveAt(components: map<string, Component>, s: seq<string>, k: nat)
    requires AllKnown(components, s) && k < |s|
    ensures AllKnown(components, s[..k] + s[k + 1..])
    ensures Product(components, s) == Product(components, s[..k] + s[k + 1..]) * Factor(components[s[k]])
    decreases |s|
  {
    var rest := s[..k] + s[k + 1..];
    var init := s[..|s| - 1];
    var last := s[|s| - 1];
    assert s == init + [last];
    ProductSnoc(components, init, last);
    if k == |s| - 1 {
      assert rest == init;
    } else {
      assert init[k] == s[k];
      ProductRemoveAt(components, init, k);
      var initRest := init[..k] + init[k + 1..];
      RemoveBeforeLast(s, k);
      ProductSnoc(components, initRest, last);
      Commute(Product(components, initRest), Factor(components[s[k]]), Factor(components[last]));
    }
  }

  lemma Commute(a: int, b: int, c: int)
    ensures (a * b) * c == (a * c) * b
  {
  }

  /** The result does not depend on the order the set is walked in. */
  lemma {:induction false} ProductPermutation(components: map<string, Component>, a: seq<string>, b: seq<string>)
    requires AllKnown(components, a) && multiset(a) == multiset(b)
    ensures AllKnown(components, b)
    ensures Product(components, a) == Product(components, b)
    decreases |a|
  {
    forall i | 0 <= i < |b| ensures b[i] in components {
      assert b[i] in multiset(b);
      assert b[i] in a;
    }
    if a != [] {
      var init := a[..|a| - 1];
      var x := a[|a| - 1];
      MultisetRemoveAt(a, |a| - 1);
      assert init == a[..|a| - 1] + a[|a|..];
      assert x in multiset(b);
      var k :| 0 <= k < |b| && b[k] == x;
      var rest := b[..k] + b[k + 1..];
      MultisetRemoveAt(b, k);
      ProductRemoveAt(components, b, k);
      ProductPermutation(components, init, rest);
    }
  }

  /** Components with step 0 can be dropped from the selection. */
  lemma {:induction false} StepZeroIgnored(components: map<string, Component>, s: seq<string>)
    requires AllKnown(components, s)
    ensures AllKnown(components, Steps(components, s))
    ensures Product(components, s) == Product(components, Steps(components, s))
    decreases |s|
  {
    if s != [] {
      var init := s[..|s| - 1];
      var x := s[|s| - 1];
      assert s == init + [x];
      StepZeroIgnored(components, init);
      ProductSnoc(components, init, x);
      if components[x].step != 0.0 {
        ProductSnoc(components, Steps(components, init), x);
      }
    }
  }

  /** The selected components whose step is not 0. */
  function Steps(components: map<string, Component>, s: seq<string>): (t: seq<string>)
    requires AllKnown(components, s)
    ensures forall i :: 0 <= i < |t| ==> t[i] in components && components[t[i]].step != 0.0
    ensures multiset(t) <= multiset(s)
  {
    if s == [] then []
    else
      var init := s[..|s| - 1];
      var x := s[|s| - 1];
      assert s == init + [x];
      if components[x].step == 0.0 then Steps(components, init) else Steps(components, init) + [x]
  }
}
