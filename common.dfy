/** Shared vocabulary: optional values, results, and the insertion-ordered
  * dictionary that Python's `dict` and a JavaScript object both are. */
module Common {

  datatype Option<T> = None | Some(value: T)

  datatype Result<T, E> = Success(value: T) | Failure(error: E)

  /** `d.get(k, default)` in Python, `d[k] ?? default` in TypeScript. */
  function GetOr<K, V>(m: map<K, V>, k: K, default: V): V
  {
    if k in m then m[k] else default
  }

  predicate Distinct<T(==)>(s: seq<T>)
  {
    forall i, j :: 0 <= i < j < |s| ==> s[i] != s[j]
  }

  /** The elements of `s` that satisfy `p`, in their original order. */
  function Filter<T(!new)>(s: seq<T>, p: T -> bool): (r: seq<T>)
    ensures |r| <= |s|
    ensures forall x :: x in r <==> x in s && p(x)
    ensures multiset(r) <= multiset(s)
  {
    if s == [] then []
    else
      assert s == [s[0]] + s[1..];
      if p(s[0]) then [s[0]] + Filter(s[1..], p) else Filter(s[1..], p)
  }

  lemma FilterConcat<T(!new)>(a: seq<T>, b: seq<T>, p: T -> bool)
    ensures Filter(a + b, p) == Filter(a, p) + Filter(b, p)
  {
    if a == [] {
      assert a + b == b;
    } else {
      assert (a + b)[1..] == a[1..] + b;
      FilterConcat(a[1..], b, p);
    }
  }

  /** Literal sequences built by concatenation. */
  lemma Pair<T>(a: T, b: T)
    ensures [a] + [b] == [a, b]
  {
  }

  lemma Triple<T>(a: T, b: T, c: T)
    ensures [a, b] + [c] == [a, b, c] && [a] + [b, c] == [a, b, c]
  {
  }

  lemma Regroup<T>(a: seq<T>, b: seq<T>, c: seq<T>)
    ensures a + (b + c) == (a + b) + c
  {
  }

  lemma FilterOne<T(!new)>(x: T, p: T -> bool)
    ensures Filter([x], p) == if p(x) then [x] else []
  {
    assert [x][1..] == [];
  }

  lemma FilterDistinct<T(!new)>(s: seq<T>, p: T -> bool)
    requires Distinct(s)
    ensures Distinct(Filter(s, p))
  {
    if s != [] {
      FilterDistinct(s[1..], p);
    }
  }

  /** A filter every element passes keeps the sequence whole. */
  lemma {:induction false} FilterAll<T(!new)>(s: seq<T>, p: T -> bool)
    requires forall i :: 0 <= i < |s| ==> p(s[i])
    ensures Filter(s, p) == s
    decreases |s|
  {
    if s != [] {
      assert forall i :: 0 <= i < |s[1..]| ==> p(s[1..][i]) by {
        forall i | 0 <= i < |s[1..]|
          ensures p(s[1..][i])
        {
          assert s[1..][i] == s[i + 1];
        }
      }
      FilterAll(s[1..], p);
      assert p(s[0]) && s == [s[0]] + s[1..];
    }
  }

  lemma DistinctAppend<T>(a: seq<T>, b: seq<T>)
    requires Distinct(a) && Distinct(b)
    requires forall i, j :: 0 <= i < |a| && 0 <= j < |b| ==> a[i] != b[j]
    ensures Distinct(a + b)
  {
    forall i, j | 0 <= i < j < |a + b|
      ensures (a + b)[i] != (a + b)[j]
    {
      if j < |a| {
        assert (a + b)[i] == a[i] && (a + b)[j] == a[j];
      } else if i < |a| {
        assert (a + b)[i] == a[i] && (a + b)[j] == b[j - |a|];
      } else {
        assert (a + b)[i] == b[i - |a|] && (a + b)[j] == b[j - |a|];
      }
    }
  }

  /** `s` with every occurrence of `x` removed. */
  function RemoveElem<T(==,!new)>(s: seq<T>, x: T): (r: seq<T>)
    ensures forall y :: y in r <==> y in s && y != x
    ensures Distinct(s) ==> Distinct(r)
  {
    if s == [] then []
    else if s[0] == x then RemoveElem(s[1..], x)
    else
      var r := RemoveElem(s[1..], x);
      DistinctCons(s[0], r);
      [s[0]] + r
  }

  lemma DistinctCons<T>(a: T, r: seq<T>)
    ensures a !in r && Distinct(r) ==> Distinct([a] + r)
  {
    if a !in r && Distinct(r) {
      forall i, j | 0 <= i < j < |[a] + r|
        ensures ([a] + r)[i] != ([a] + r)[j]
      {
        if i > 0 {
          assert ([a] + r)[i] == r[i - 1] && ([a] + r)[j] == r[j - 1];
        } else {
          assert ([a] + r)[j] == r[j - 1];
        }
      }
    }
  }

  /** `s` without the elements of `drop`, in order. */
  function DropAll<T(==,!new)>(s: seq<T>, drop: set<T>): (r: seq<T>)
    ensures forall x :: x in r <==> x in s && x !in drop
    ensures Distinct(s) ==> Distinct(r)
  {
    if s == [] then []
    else if s[0] in drop then DropAll(s[1..], drop)
    else
      var r := DropAll(s[1..], drop);
      DistinctCons(s[0], r);
      [s[0]] + r
  }

  /** Dropping one more element afterwards is dropping it with the rest. */
  lemma {:induction false} RemoveAfterDrop<T(!new)>(s: seq<T>, drop: set<T>, x: T)
    ensures RemoveElem(DropAll(s, drop), x) == DropAll(s, drop + {x})
  {
    if s != [] {
      RemoveAfterDrop(s[1..], drop, x);
    }
  }

  /** An insertion-ordered dictionary: `keys` lists each key once, in the
    * order it was first inserted, and `vals` holds the values. Assigning an
    * existing key keeps its position; a new key goes last. */
  datatype Dict<K(==,!new), V> = Dict(keys: seq<K>, vals: map<K, V>)
  {
    predicate Valid()
    {
      Distinct(keys) && (forall k :: k in vals ==> k in keys) && (forall k :: k in keys ==> k in vals)
    }

    static function Empty(): (d: Dict<K, V>)
      ensures d.Valid() && d.vals == map[] && d.keys == []
    {
      Dict([], map[])
    }

    /** `d[k] = v` */
    function Put(k: K, v: V): (d: Dict<K, V>)
      requires Valid()
      ensures d.Valid()
      ensures d.vals == vals[k := v]
      ensures k in vals ==> d.keys == keys
      ensures k !in vals ==> d.keys == keys + [k]
    {
      if k in vals then Dict(keys, vals[k := v]) else Dict(keys + [k], vals[k := v])
    }

    /** `del d[k]` (a missing key is left alone) */
    function Delete(k: K): (d: Dict<K, V>)
      requires Valid()
      ensures d.Valid()
      ensures d.vals == vals - {k}
      ensures d.keys == RemoveElem(keys, k)
    {
      Dict(RemoveElem(keys, k), vals - {k})
    }

    /** The dictionary without the keys in `drop`, the others in order. */
    function Without(drop: set<K>): (d: Dict<K, V>)
      requires Valid()
      ensures d.Valid()
      ensures d.vals == vals - drop
      ensures d.keys == DropAll(keys, drop)
    {
      Dict(DropAll(keys, drop), vals - drop)
    }

    /** Whether the entry under `k` is there and satisfies `p`. */
    function EntryTest(p: (K, V) -> bool): K -> bool
    {
      (k: K) => k in vals && p(k, vals[k])
    }

    /** The entries that satisfy `p`, in order:
      * `Object.fromEntries(Object.entries(d).filter(p))`. */
    function Select(p: (K, V) -> bool): (d: Dict<K, V>)
      requires Valid()
      ensures d.Valid()
      ensures forall k :: k in d.vals <==> k in vals && p(k, vals[k])
      ensures forall k :: k in d.vals ==> d.vals[k] == vals[k]
      ensures d.keys == Filter(keys, EntryTest(p))
    {
      FilterDistinct(keys, EntryTest(p));
      Dict(Filter(keys, EntryTest(p)), map k | k in vals && p(k, vals[k]) :: vals[k])
    }

    /** `{k: f(k, v) for k, v in d.items()}`: same keys, same order. */
    function Map<W>(f: (K, V) -> W): (d: Dict<K, W>)
      requires Valid()
      ensures d.Valid()
      ensures d.keys == keys
      ensures forall k :: k in vals ==> k in d.vals && d.vals[k] == f(k, vals[k])
    {
      Dict(keys, map k | k in vals :: f(k, vals[k]))
    }

    /** `list(d.values())` */
    function Values(): (r: seq<V>)
      requires Valid()
      ensures |r| == |keys|
      ensures forall i :: 0 <= i < |keys| ==> r[i] == vals[keys[i]]
    {
      seq(|keys|, i requires 0 <= i < |keys| => vals[keys[i]])
    }
  }

  /** Dropping nothing changes nothing. */
  lemma {:induction false} DropNothing<T(!new)>(s: seq<T>)
    ensures DropAll(s, {}) == s
  {
    if s != [] {
      DropNothing(s[1..]);
    }
  }

  lemma WithoutNothing<K(!new), V>(d: Dict<K, V>)
    requires d.Valid()
    ensures d.Without({}) == d
  {
    DropNothing(d.keys);
  }

  /** Deleting a key after dropping a set of keys drops both. */
  lemma WithoutDelete<K(!new), V>(d: Dict<K, V>, drop: set<K>, x: K)
    requires d.Valid()
    ensures d.Without(drop).Delete(x) == d.Without(drop + {x})
  {
    RemoveAfterDrop(d.keys, drop, x);
    SubtractTwice(d.vals, drop, x);
  }

  lemma SubtractTwice<K, V>(m: map<K, V>, drop: set<K>, x: K)
    ensures (m - drop) - {x} == m - (drop + {x})
  {
  }

  /** The comprehension `{key(x): val(x) for x in xs}`: a key's position is
    * that of its first element, its value that of its last. */
  function Comprehend<T, K(==,!new), V>(xs: seq<T>, key: T -> K, val: T -> V): (d: Dict<K, V>)
    ensures d.Valid()
  {
    if xs == [] then Dict.Empty()
    else
      var x := xs[|xs| - 1];
      Comprehend(xs[..|xs| - 1], key, val).Put(key(x), val(x))
  }

  /** The keys of a comprehension are the keys of its elements. */
  lemma {:induction false} ComprehendKeys<T, K(!new), V>(xs: seq<T>, key: T -> K, val: T -> V, k: K)
    ensures k in Comprehend(xs, key, val).vals <==> exists i :: 0 <= i < |xs| && key(xs[i]) == k
  {
    if xs != [] {
      var init := xs[..|xs| - 1];
      ComprehendKeys(init, key, val, k);
      if exists i :: 0 <= i < |init| && key(init[i]) == k {
        var i :| 0 <= i < |init| && key(init[i]) == k;
        assert xs[i] == init[i];
      }
      if exists i :: 0 <= i < |xs| && key(xs[i]) == k {
        var i :| 0 <= i < |xs| && key(xs[i]) == k;
        if i < |init| {
          assert init[i] == xs[i];
        }
      }
    }
  }

  /** The value under a key is that of the last element with that key. */
  lemma {:induction false} ComprehendLastWins<T, K(!new), V>(xs: seq<T>, key: T -> K, val: T -> V, i: nat)
    requires i < |xs|
    requires forall j :: i < j < |xs| ==> key(xs[j]) != key(xs[i])
    ensures key(xs[i]) in Comprehend(xs, key, val).vals
    ensures Comprehend(xs, key, val).vals[key(xs[i])] == val(xs[i])
  {
    var init := xs[..|xs| - 1];
    if i < |xs| - 1 {
      assert init[i] == xs[i];
      forall j | i < j < |init|
        ensures key(init[j]) != key(init[i])
      {
        assert init[j] == xs[j];
      }
      ComprehendLastWins(init, key, val, i);
    }
  }
}
