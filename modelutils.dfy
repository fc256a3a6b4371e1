/** Putting the chosen models in the order a chain runs them: primary
  * models first, then secondary ones. */
module ModelOrder {
  import opened Filtering

  const Secondary := "Secondary"

  predicate IsSecondary(m: ModelConfig)
  {
    m.category == Secondary
  }

  /** No model is both primary and secondary. */
  lemma Exclusive(m: ModelConfig)
    ensures !(IsPrimary(m) && IsSecondary(m))
  {
    assert Primary[1] != Secondary[1];
  }

  /** The comparator's "`a` goes before `b`"; every other pair compares
    * equal. */
  predicate Before(a: ModelConfig, b: ModelConfig)
  {
    a.category == Primary && b.category == Secondary
  }

  /** Places `x` ahead of a sorted list, past the elements that go before
    * it and no further, so it stays ahead of the ones it compares equal
    * to. */
  function Insert(x: ModelConfig, ys: seq<ModelConfig>): (r: seq<ModelConfig>)
    ensures multiset(r) == multiset(ys) + multiset{x}
  {
    if ys == [] || !Before(ys[0], x) then [x] + ys
    else
      assert ys == [ys[0]] + ys[1..];
      [ys[0]] + Insert(x, ys[1..])
  }

  /** `sortModelsByCategory(models)`: a stable sort of a copy by the
    * comparator. The argument is a value, so it is left as it was. */
  function SortModelsByCategory(models: seq<ModelConfig>): (r: seq<ModelConfig>)
    ensures multiset(r) == multiset(models)
    ensures |r| == |models|
  {
    if models == [] then []
    else
      assert models == [models[0]] + models[1..];
      Insert(models[0], SortModelsByCategory(models[1..]))
  }

  predicate TwoCategories(models: seq<ModelConfig>)
  {
    forall i :: 0 <= i < |models| ==> IsPrimary(models[i]) || IsSecondary(models[i])
  }

  /** The models of one category, in their order. */
  function OfCategory(models: seq<ModelConfig>, category: string): seq<ModelConfig>
  {
    if models == [] then []
    else if models[0].category == category then [models[0]] + OfCategory(models[1..], category)
    else OfCategory(models[1..], category)
  }

  lemma {:induction false} OfCategoryMembers(models: seq<ModelConfig>, category: string)
    ensures forall i :: 0 <= i < |OfCategory(models, category)| ==> OfCategory(models, category)[i].category == category
    decreases |models|
  {
    if models != [] {
      OfCategoryMembers(models[1..], category);
    }
  }

  /** A secondary model goes past the primary ones to the head of the
    * secondary ones. */
  lemma {:induction false} InsertSecondary(x: ModelConfig, ps: seq<ModelConfig>, ss: seq<ModelConfig>)
    requires IsSecondary(x)
    requires forall i :: 0 <= i < |ps| ==> IsPrimary(ps[i])
    ensures Insert(x, ps + ss) == ps + Insert(x, ss)
    decreases |ps|
  {
    if ps == [] {
      assert ps + ss == ss;
    } else {
      assert (ps + ss)[0] == ps[0];
      assert (ps + ss)[1..] == ps[1..] + ss;
      InsertSecondary(x, ps[1..], ss);
    }
  }

  /** With only primary and secondary models, the sorted list is the
    * primary models in their order followed by the secondary models in
    * theirs. */
  lemma {:induction false} SortPartition(models: seq<ModelConfig>)
    requires TwoCategories(models)
    ensures SortModelsByCategory(models) == OfCategory(models, Primary) + OfCategory(models, Secondary)
    decreases |models|
  {
    if models != [] {
      var x := models[0];
      var rest := models[1..];
      SortPartition(rest);
      var ps := OfCategory(rest, Primary);
      var ss := OfCategory(rest, Secondary);
      Exclusive(x);
      if IsPrimary(x) {
        assert Insert(x, ps + ss) == [x] + (ps + ss);
        assert [x] + (ps + ss) == ([x] + ps) + ss;
      } else {
        OfCategoryMembers(rest, Primary);
        OfCategoryMembers(rest, Secondary);
        InsertSecondary(x, ps, ss);
        if ss != [] {
          Exclusive(ss[0]);
        }
        assert Insert(x, ss) == [x] + ss;
      }
    }
  }

  /** Every primary model comes before every secondary one. */
  lemma PrimaryFirst(models: seq<ModelConfig>, i: nat, j: nat)
    requires TwoCategories(models)
    requires i < j < |SortModelsByCategory(models)|
    ensures !(IsSecondary(SortModelsByCategory(models)[i]) && IsPrimary(SortModelsByCategory(models)[j]))
  {
    SortPartition(models);
    var ps := OfCategory(models, Primary);
    var ss := OfCategory(models, Secondary);
    var r := SortModelsByCategory(models);
    OfCategoryMembers(models, Primary);
    OfCategoryMembers(models, Secondary);
    if i < |ps| {
      assert r[i] == ps[i];
      Exclusive(r[i]);
    } else {
      assert r[j] == ss[j - |ps|];
      Exclusive(r[j]);
    }
  }

  lemma {:induction false} OfCategoryConcat(a: seq<ModelConfig>, b: seq<ModelConfig>, category: string)
    ensures OfCategory(a + b, category) == OfCategory(a, category) + OfCategory(b, category)
    decreases |a|
  {
    if a == [] {
      assert a + b == b;
    } else {
      assert (a + b)[1..] == a[1..] + b;
      OfCategoryConcat(a[1..], b, category);
    }
  }

  lemma {:induction false} OfCategoryAll(s: seq<ModelConfig>, category: string)
    requires forall i :: 0 <= i < |s| ==> s[i].category == category
    ensures OfCategory(s, category) == s
    decreases |s|
  {
    if s != [] {
      OfCategoryAll(s[1..], category);
      assert s == [s[0]] + s[1..];
    }
  }

  lemma {:induction false} OfCategoryNone(s: seq<ModelConfig>, category: string)
    requires forall i :: 0 <= i < |s| ==> s[i].category != category
    ensures OfCategory(s, category) == []
    decreases |s|
  {
    if s != [] {
      OfCategoryNone(s[1..], category);
    }
  }

  /** Models of the same category keep their relative order. */
  lemma Stable(models: seq<ModelConfig>)
    requires TwoCategories(models)
    ensures OfCategory(SortModelsByCategory(models), Primary) == OfCategory(models, Primary)
    ensures OfCategory(SortModelsByCategory(models), Secondary) == OfCategory(models, Secondary)
  {
    SortPartition(models);
    var ps := OfCategory(models, Primary);
    var ss := OfCategory(models, Secondary);
    OfCategoryConcat(ps, ss, Primary);
    OfCategoryConcat(ps, ss, Secondary);
    OfCategoryMembers(models, Primary);
    OfCategoryMembers(models, Secondary);
    forall i | 0 <= i < |ps| ensures ps[i].category != Secondary { Exclusive(ps[i]); }
    forall i | 0 <= i < |ss| ensures ss[i].category != Primary { Exclusive(ss[i]); }
    OfCategoryAll(ps, Primary);
    OfCategoryNone(ss, Primary);
    OfCategoryNone(ps, Secondary);
    OfCategoryAll(ss, Secondary);
    assert ps + [] == ps;
  }
}
