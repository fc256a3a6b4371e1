/** The browser-side history of started simulations: entries saved in
  * local storage under `simulation[N]`, read back at start-up, and a store
  * that adds and finishes entries and tells its subscribers. */
module History {
  import opened Common
  import opened Text

  /** A saved simulation. Dates are milliseconds since the epoch, the
    * number `+date` gives. */
  datatype Entry = Entry(createdAt: int, finishedAt: Option<int>, displayName: string, id: string)

  /** An entry with the number of the storage key it lives under. */
  datatype IndexedEntry = IndexedEntry(entry: Entry, index: nat)

  /** What the store starts from: its entries and the next free number. */
  datatype Context = Context(entries: seq<IndexedEntry>, nextIndex: nat)

  /** `Entry.safeParse(JSON.parse(value))`: text that is not JSON makes
    * `JSON.parse` throw; JSON that does not fit the schema is a failed
    * parse. */
  datatype Decoded = NotJson | Mismatch | Parsed(entry: Entry)

  type Decoder = string -> Decoded

  const Prefix := "simulation["

  /** `` `simulation[${n}]` `` */
  function IndexKey(n: nat): string
  {
    Prefix + NatToString(n) + "]"
  }

  /** `key.match(/^simulation\[(\d+)]$/)`, and `+keyMatch[1]` when it
    * matches. */
  function KeyIndex(key: string): Option<nat>
  {
    if |key| > |Prefix| + 1 && key[..|Prefix|] == Prefix && key[|key| - 1] == ']' &&
       AllDigits(key[|Prefix|..|key| - 1])
    then Some(DigitsValue(key[|Prefix|..|key| - 1]))
    else None
  }

  /** The key an entry is written under is read back as its number. */
  lemma KeyIndexOfIndexKey(n: nat)
    ensures KeyIndex(IndexKey(n)) == Some(n)
  {
    var key := IndexKey(n);
    var digits := NatToString(n);
    assert key[..|Prefix|] == Prefix;
    assert key[|Prefix|..|key| - 1] == digits;
    DigitsOfNatToString(n);
  }

  /** What reading the keys has found so far: the parsed entries in key
    * order, the next free number, the keys to delete, and whether
    * `JSON.parse` has thrown. */
  datatype Scan = Scan(entries: seq<IndexedEntry>, nextIndex: nat, rejected: set<string>, thrown: bool)

  const Start := Scan([], 0, {}, false)

  /** `if (index >= nextIndex) nextIndex = index + 1` */
  function Bump(nextIndex: nat, index: nat): (r: nat)
    ensures index < r && nextIndex <= r
    ensures r == nextIndex || r == index + 1
  {
    if index >= nextIndex then index + 1 else nextIndex
  }

  /** The loop of `getFromStorage` over the keys still to visit. */
  function ScanFrom(keys: seq<string>, vals: map<string, string>, decode: Decoder, acc: Scan): Scan
    decreases |keys|
  {
    if keys == [] then acc
    else
      var key := keys[0];
      match KeyIndex(key)
      case None => ScanFrom(keys[1..], vals, decode, acc)
      case Some(index) =>
        var next := Bump(acc.nextIndex, index);
        match decode(GetOr(vals, key, ""))
        case NotJson => Scan(acc.entries, next, acc.rejected, true)
        case Mismatch => ScanFrom(keys[1..], vals, decode, Scan(acc.entries, next, acc.rejected + {key}, acc.thrown))
        case Parsed(e) => ScanFrom(keys[1..], vals, decode, Scan(acc.entries + [IndexedEntry(e, index)], next, acc.rejected, acc.thrown))
  }

  /** The keys whose text fits no entry and is deleted. */
  function Rejected(keys: seq<string>, vals: map<string, string>, decode: Decoder): set<string>
  {
    set key | key in keys && KeyIndex(key).Some? && decode(GetOr(vals, key, "")) == Mismatch
  }

  /** A storage key's number counts toward the next free number whether
    * or not its entry parses: when no `JSON.parse` threw, the next number
    * is above every key's number, and it is 0 or one more than some key's
    * number. */
  lemma ScanNextIndex(keys: seq<string>, vals: map<string, string>, decode: Decoder, acc: Scan)
    requires !acc.thrown
    ensures var r := ScanFrom(keys, vals, decode, acc);
            !r.thrown ==>
              acc.nextIndex <= r.nextIndex &&
              (forall i :: 0 <= i < |keys| && KeyIndex(keys[i]).Some? ==> KeyIndex(keys[i]).value < r.nextIndex) &&
              (r.nextIndex == acc.nextIndex || exists i :: 0 <= i < |keys| && KeyIndex(keys[i]) == Some(r.nextIndex - 1))
  {
    ScanRises(keys, vals, decode, acc);
    ScanAbove(keys, vals, decode, acc);
    ScanWitness(keys, vals, decode, acc);
  }

  lemma {:induction false} ScanRises(keys: seq<string>, vals: map<string, string>, decode: Decoder, acc: Scan)
    requires !acc.thrown
    ensures var r := ScanFrom(keys, vals, decode, acc);
            !r.thrown ==> acc.nextIndex <= r.nextIndex
    decreases |keys|
  {
    if keys != [] {
      var key := keys[0];
      match KeyIndex(key)
      case None =>
        ScanRises(keys[1..], vals, decode, acc);
      case Some(index) =>
        var next := Bump(acc.nextIndex, index);
        match decode(GetOr(vals, key, ""))
        case NotJson =>
        case Mismatch =>
          ScanRises(keys[1..], vals, decode, Scan(acc.entries, next, acc.rejected + {key}, acc.thrown));
        case Parsed(e) =>
          ScanRises(keys[1..], vals, decode, Scan(acc.entries + [IndexedEntry(e, index)], next, acc.rejected, acc.thrown));
    }
  }

  lemma {:induction false} ScanAbove(keys: seq<string>, vals: map<string, string>, decode: Decoder, acc: Scan)
    requires !acc.thrown
    ensures var r := ScanFrom(keys, vals, decode, acc);
            !r.thrown ==> forall i :: 0 <= i < |keys| && KeyIndex(keys[i]).Some? ==> KeyIndex(keys[i]).value < r.nextIndex
    decreases |keys|
  {
    if keys != [] {
      var key := keys[0];
      var r := ScanFrom(keys, vals, decode, acc);
      match KeyIndex(key)
      case None =>
        ScanAbove(keys[1..], vals, decode, acc);
        if !r.thrown {
          AboveShift(keys, r.nextIndex);
        }
      case Some(index) =>
        var next := Bump(acc.nextIndex, index);
        match decode(GetOr(vals, key, ""))
        case NotJson =>
        case Mismatch =>
          var acc' := Scan(acc.entries, next, acc.rejected + {key}, acc.thrown);
          ScanAbove(keys[1..], vals, decode, acc');
          ScanRises(keys[1..], vals, decode, acc');
          if !r.thrown {
            AboveShift(keys, r.nextIndex);
          }
        case Parsed(e) =>
          var acc' := Scan(acc.entries + [IndexedEntry(e, index)], next, acc.rejected, acc.thrown);
          ScanAbove(keys[1..], vals, decode, acc');
          ScanRises(keys[1..], vals, decode, acc');
          if !r.thrown {
            AboveShift(keys, r.nextIndex);
          }
    }
  }

  /** A bound on the first key's number and on the later keys' numbers is
    * a bound on every key's number. */
  lemma AboveShift(keys: seq<string>, n: nat)
    requires keys != []
    requires KeyIndex(keys[0]).Some? ==> KeyIndex(keys[0]).value < n
    requires forall i :: 0 <= i < |keys[1..]| && KeyIndex(keys[1..][i]).Some? ==> KeyIndex(keys[1..][i]).value < n
    ensures forall i :: 0 <= i < |keys| && KeyIndex(keys[i]).Some? ==> KeyIndex(keys[i]).value < n
  {
    forall i | 0 <= i < |keys| && KeyIndex(keys[i]).Some?
      ensures KeyIndex(keys[i]).value < n
    {
      if i > 0 {
        assert keys[i] == keys[1..][i - 1];
      }
    }
  }

  lemma {:induction false} ScanWitness(keys: seq<string>, vals: map<string, string>, decode: Decoder, acc: Scan)
    requires !acc.thrown
    ensures var r := ScanFrom(keys, vals, decode, acc);
            !r.thrown ==>
              r.nextIndex == acc.nextIndex || exists i :: 0 <= i < |keys| && KeyIndex(keys[i]) == Some(r.nextIndex - 1)
    decreases |keys|
  {
    if keys != [] {
      var key := keys[0];
      match KeyIndex(key)
      case None =>
        ScanWitness(keys[1..], vals, decode, acc);
        ShiftExists(keys, ScanFrom(keys, vals, decode, acc).nextIndex);
      case Some(index) =>
        var next := Bump(acc.nextIndex, index);
        match decode(GetOr(vals, key, ""))
        case NotJson =>
        case Mismatch =>
          ScanWitness(keys[1..], vals, decode, Scan(acc.entries, next, acc.rejected + {key}, acc.thrown));
          ShiftExists(keys, ScanFrom(keys, vals, decode, acc).nextIndex);
        case Parsed(e) =>
          ScanWitness(keys[1..], vals, decode, Scan(acc.entries + [IndexedEntry(e, index)], next, acc.rejected, acc.thrown));
          ShiftExists(keys, ScanFrom(keys, vals, decode, acc).nextIndex);
    }
  }

  /** A key found among the later keys is found among all of them. */
  lemma ShiftExists(keys: seq<string>, n: nat)
    requires keys != []
    ensures (exists i :: 0 <= i < |keys[1..]| && KeyIndex(keys[1..][i]) == Some(n - 1)) ==>
              exists i :: 0 <= i < |keys| && KeyIndex(keys[i]) == Some(n - 1)
  {
    if exists i :: 0 <= i < |keys[1..]| && KeyIndex(keys[1..][i]) == Some(n - 1) {
      var i :| 0 <= i < |keys[1..]| && KeyIndex(keys[1..][i]) == Some(n - 1);
      assert keys[i + 1] == keys[1..][i];
    }
  }

  /** The entries returned are exactly those of the matching keys whose
    * text parses, each with its key's number. */
  lemma {:induction false} ScanEntries(keys: seq<string>, vals: map<string, string>, decode: Decoder, acc: Scan, x: IndexedEntry)
    requires !acc.thrown
    ensures var r := ScanFrom(keys, vals, decode, acc);
            !r.thrown ==>
              (x in r.entries <==>
                 x in acc.entries ||
                 exists i :: 0 <= i < |keys| && KeyIndex(keys[i]) == Some(x.index) && decode(GetOr(vals, keys[i], "")) == Parsed(x.entry))
    decreases |keys|
  {
    if keys != [] {
      var key := keys[0];
      var later := ScanFrom(keys, vals, decode, acc);
      var found := exists i :: 0 <= i < |keys| && KeyIndex(keys[i]) == Some(x.index) && decode(GetOr(vals, keys[i], "")) == Parsed(x.entry);
      var foundLater := exists i :: 0 <= i < |keys[1..]| && KeyIndex(keys[1..][i]) == Some(x.index) &&
                                   decode(GetOr(vals, keys[1..][i], "")) == Parsed(x.entry);
      var here := KeyIndex(key) == Some(x.index) && decode(GetOr(vals, key, "")) == Parsed(x.entry);
      assert found <==> here || foundLater by {
        if found {
          var i :| 0 <= i < |keys| && KeyIndex(keys[i]) == Some(x.index) && decode(GetOr(vals, keys[i], "")) == Parsed(x.entry);
          if i > 0 {
            assert keys[1..][i - 1] == keys[i];
          }
        }
        if foundLater {
          var i :| 0 <= i < |keys[1..]| && KeyIndex(keys[1..][i]) == Some(x.index) &&
                   decode(GetOr(vals, keys[1..][i], "")) == Parsed(x.entry);
          assert keys[i + 1] == keys[1..][i];
        }
      }
      match KeyIndex(key)
      case None =>
        ScanEntries(keys[1..], vals, decode, acc, x);
      case Some(index) =>
        var next := Bump(acc.nextIndex, index);
        match decode(GetOr(vals, key, ""))
        case NotJson =>
        case Mismatch =>
          ScanEntries(keys[1..], vals, decode, Scan(acc.entries, next, acc.rejected + {key}, acc.thrown), x);
        case Parsed(e) =>
          ScanEntries(keys[1..], vals, decode, Scan(acc.entries + [IndexedEntry(e, index)], next, acc.rejected, acc.thrown), x);
    }
  }

  /** The keys deleted are exactly the matching keys whose text does not
    * fit the schema. */
  lemma {:induction false} ScanRejected(keys: seq<string>, vals: map<string, string>, decode: Decoder, acc: Scan)
    requires !acc.thrown
    ensures var r := ScanFrom(keys, vals, decode, acc);
            !r.thrown ==> r.rejected == acc.rejected + Rejected(keys, vals, decode)
    decreases |keys|
  {
    if keys != [] {
      var key := keys[0];
      assert keys == [key] + keys[1..];
      assert Rejected(keys, vals, decode) ==
             (if KeyIndex(key).Some? && decode(GetOr(vals, key, "")) == Mismatch then {key} else {}) + Rejected(keys[1..], vals, decode);
      match KeyIndex(key)
      case None =>
        ScanRejected(keys[1..], vals, decode, acc);
      case Some(index) =>
        var next := Bump(acc.nextIndex, index);
        match decode(GetOr(vals, key, ""))
        case NotJson =>
        case Mismatch =>
          ScanRejected(keys[1..], vals, decode, Scan(acc.entries, next, acc.rejected + {key}, acc.thrown));
        case Parsed(e) =>
          ScanRejected(keys[1..], vals, decode, Scan(acc.entries + [IndexedEntry(e, index)], next, acc.rejected, acc.thrown));
    }
  }

  /** Oldest first. */
  predicate SortedByCreated(es: seq<IndexedEntry>)
  {
    forall i, j :: 0 <= i < j < |es| ==> es[i].entry.createdAt <= es[j].entry.createdAt
  }

  /** Putting an entry in front of a sorted sequence not older than it. */
  lemma ConsSorted(y: IndexedEntry, rest: seq<IndexedEntry>, tail: seq<IndexedEntry>, x: IndexedEntry)
    requires SortedByCreated(rest) && multiset(rest) == multiset(tail) + multiset{x}
    requires y.entry.createdAt <= x.entry.createdAt
    requires forall e :: e in tail ==> y.entry.createdAt <= e.entry.createdAt
    ensures SortedByCreated([y] + rest)
  {
    forall e | e in rest
      ensures y.entry.createdAt <= e.entry.createdAt
    {
      assert e in multiset(rest);
    }
    var r := [y] + rest;
    forall i, j | 0 <= i < j < |r|
      ensures r[i].entry.createdAt <= r[j].entry.createdAt
    {
      assert r[j] == rest[j - 1];
      if i > 0 {
        assert r[i] == rest[i - 1];
      }
    }
  }

  /** `x` placed after every entry not younger than it. */
  function InsertByCreated(x: IndexedEntry, s: seq<IndexedEntry>): (r: seq<IndexedEntry>)
    requires SortedByCreated(s)
    ensures SortedByCreated(r)
    ensures multiset(r) == multiset(s) + multiset{x}
    decreases |s|
  {
    if s == [] then [x]
    else if s[0].entry.createdAt <= x.entry.createdAt then
      var rest := InsertByCreated(x, s[1..]);
      assert s == [s[0]] + s[1..];
      ConsSorted(s[0], rest, s[1..], x);
      [s[0]] + rest
    else
      [x] + s
  }

  /** `entries.sort((lhs, rhs) => +lhs.createdAt - +rhs.createdAt)`: a
    * stable sort, oldest first. */
  function SortByCreated(es: seq<IndexedEntry>): (r: seq<IndexedEntry>)
    ensures SortedByCreated(r)
    ensures multiset(r) == multiset(es)
    decreases |es|
  {
    if es == [] then []
    else
      assert es == es[..|es| - 1] + [es[|es| - 1]];
      InsertByCreated(es[|es| - 1], SortByCreated(es[..|es| - 1]))
  }

  /** The `Record<string, string>` of local storage. */
  class Storage {
    var items: Dict<string, string>

    ghost predicate Valid()
      reads this
    {
      items.Valid()
    }

    constructor(items: Dict<string, string>)
      requires items.Valid()
      ensures Valid() && this.items == items
    {
      this.items := items;
    }
  }

  /** A key that is not `simulation[N]` is passed over. */
  lemma ScanSkip(keys: seq<string>, vals: map<string, string>, decode: Decoder, acc: Scan)
    requires keys != [] && KeyIndex(keys[0]).None?
    ensures ScanFrom(keys, vals, decode, acc) == ScanFrom(keys[1..], vals, decode, acc)
  {
  }

  /** A matching key whose text is not JSON ends the scan. */
  lemma ScanThrow(keys: seq<string>, vals: map<string, string>, decode: Decoder, acc: Scan, index: nat)
    requires keys != [] && KeyIndex(keys[0]) == Some(index) && decode(GetOr(vals, keys[0], "")) == NotJson
    ensures ScanFrom(keys, vals, decode, acc) == Scan(acc.entries, Bump(acc.nextIndex, index), acc.rejected, true)
  {
  }

  /** A matching key whose text does not fit is rejected. */
  lemma ScanReject(keys: seq<string>, vals: map<string, string>, decode: Decoder, acc: Scan, index: nat)
    requires keys != [] && KeyIndex(keys[0]) == Some(index) && decode(GetOr(vals, keys[0], "")) == Mismatch
    ensures ScanFrom(keys, vals, decode, acc) ==
            ScanFrom(keys[1..], vals, decode, Scan(acc.entries, Bump(acc.nextIndex, index), acc.rejected + {keys[0]}, acc.thrown))
  {
  }

  /** A matching key whose text parses is kept. */
  lemma ScanKeep(keys: seq<string>, vals: map<string, string>, decode: Decoder, acc: Scan, index: nat, e: Entry)
    requires keys != [] && KeyIndex(keys[0]) == Some(index) && decode(GetOr(vals, keys[0], "")) == Parsed(e)
    ensures ScanFrom(keys, vals, decode, acc) ==
            ScanFrom(keys[1..], vals, decode, Scan(acc.entries + [IndexedEntry(e, index)], Bump(acc.nextIndex, index), acc.rejected, acc.thrown))
  {
  }

  /** `getFromStorage(storage)`: reads every `simulation[N]` key, deletes
    * those whose text does not fit, and returns the rest oldest first with
    * the next free number. `None` is the exception `JSON.parse` throws on
    * text that is not JSON; the deletions before it have happened. */
  method GetFromStorage(storage: Storage, decode: Decoder) returns (r: Option<Context>)
    requires storage.Valid()
    modifies storage
    ensures storage.Valid()
    ensures var s := ScanFrom(old(storage.items.keys), old(storage.items.vals), decode, Start);
            storage.items == old(storage.items).Without(s.rejected) &&
            r == if s.thrown then None else Some(Context(SortByCreated(s.entries), s.nextIndex))
  {
    var entries, nextIndex, thrown, rejected := ScanStorage(storage, decode);
    if thrown {
      r := None;
    } else {
      r := Some(Context(SortByCreated(entries), nextIndex));
    }
  }

  /** The loop of `getFromStorage`: visits the keys in order, deleting the
    * rejected ones, and stops at the first text that is not JSON. */
  method ScanStorage(storage: Storage, decode: Decoder)
    returns (entries: seq<IndexedEntry>, nextIndex: nat, thrown: bool, ghost rejected: set<string>)
    requires storage.Valid()
    modifies storage
    ensures storage.Valid()
    ensures ScanFrom(old(storage.items.keys), old(storage.items.vals), decode, Start) == Scan(entries, nextIndex, rejected, thrown)
    ensures storage.items == old(storage.items).Without(rejected)
  {
    var keys := storage.items.keys;
    ghost var items0 := storage.items;
    ghost var vals := items0.vals;
    ghost var whole := ScanFrom(keys, vals, decode, Start);
    entries, nextIndex, thrown, rejected := [], 0, false, {};
    WithoutNothing(items0);
    assert keys[0..] == keys;
    var i := 0;
    while i < |keys|
      invariant 0 <= i <= |keys|
      invariant Removed(storage.items, items0, rejected)
      invariant forall j :: i <= j < |keys| ==> keys[j] !in rejected
      invariant whole == ScanFrom(keys[i..], vals, decode, Scan(entries, nextIndex, rejected, false))
      decreases |keys| - i
    {
      entries, nextIndex, thrown, rejected := VisitKey(storage, decode, keys[i], entries, nextIndex, items0, rejected, keys[i..]);
      if thrown {
        WithoutRejected(items0, rejected, storage.items);
        return;
      }
      assert keys[i..][1..] == keys[i + 1..];
      i := i + 1;
    }
    assert keys[i..] == [];
    WithoutRejected(items0, rejected, storage.items);
  }

  /** The storage has lost exactly the keys in `rejected`. */
  ghost predicate Removed(items: Dict<string, string>, items0: Dict<string, string>, rejected: set<string>)
  {
    items0.Valid() && items.Valid() && items.vals == items0.vals - rejected && items.keys == DropAll(items0.keys, rejected)
  }

  /** One turn of the loop in `getFromStorage`: the key under `key`,
    * which is the first of `keys`. */
  method VisitKey(storage: Storage, decode: Decoder, key: string, entries: seq<IndexedEntry>, nextIndex: nat,
                  ghost items0: Dict<string, string>, ghost rejected: set<string>, ghost keys: seq<string>)
    returns (entries': seq<IndexedEntry>, nextIndex': nat, thrown: bool, ghost rejected': set<string>)
    requires Removed(storage.items, items0, rejected)
    requires keys != [] && keys[0] == key && key in items0.vals && key !in rejected
    modifies storage
    ensures Removed(storage.items, items0, rejected')
    ensures rejected' == rejected || rejected' == rejected + {key}
    ensures ScanFrom(keys, items0.vals, decode, Scan(entries, nextIndex, rejected, false)) ==
            if thrown then Scan(entries', nextIndex', rejected', true)
            else ScanFrom(keys[1..], items0.vals, decode, Scan(entries', nextIndex', rejected', false))
  {
    entries', nextIndex', thrown, rejected' := entries, nextIndex, false, rejected;
    var acc := Scan(entries, nextIndex, rejected, false);
    var m := KeyIndex(key);
    if m.None? {
      ScanSkip(keys, items0.vals, decode, acc);
      return;
    }
    var index := m.value;
    var value := storage.items.vals[key];
    assert value == GetOr(items0.vals, key, "");
    var d := decode(value);
    if d.NotJson? {
      ScanThrow(keys, items0.vals, decode, acc, index);
      thrown := true;
    } else if d.Parsed? {
      ScanKeep(keys, items0.vals, decode, acc, index, d.entry);
      entries' := entries + [IndexedEntry(d.entry, index)];
    } else {
      ScanReject(keys, items0.vals, decode, acc, index);
      RemoveAfterDrop(items0.keys, rejected, key);
      storage.items := storage.items.Delete(key);
      rejected' := rejected + {key};
    }
    nextIndex' := Bump(nextIndex, index);
  }

  lemma WithoutRejected(items0: Dict<string, string>, rejected: set<string>, items: Dict<string, string>)
    requires Removed(items, items0, rejected)
    ensures items == items0.Without(rejected)
  {
  }

  /** A callback handed to `subscribe`, by identity. */
  type Listener = nat

  /** Every entry's number is below the next free one. */
  predicate IndicesBelow(entries: seq<IndexedEntry>, nextIndex: nat)
  {
    forall i :: 0 <= i < |entries| ==> entries[i].index < nextIndex
  }

  /** The position of the first entry with this id that has not finished,
    * if there is one. */
  function FirstUnfinished(entries: seq<IndexedEntry>, id: string): (r: Option<nat>)
    ensures r.Some? ==> r.value < |entries| && entries[r.value].entry.id == id && entries[r.value].entry.finishedAt.None? &&
                        forall j :: 0 <= j < r.value ==> !(entries[j].entry.id == id && entries[j].entry.finishedAt.None?)
    ensures r.None? ==> forall j :: 0 <= j < |entries| ==> !(entries[j].entry.id == id && entries[j].entry.finishedAt.None?)
    decreases |entries|
  {
    if entries == [] then None
    else if entries[0].entry.id == id && entries[0].entry.finishedAt.None? then Some(0)
    else
      match FirstUnfinished(entries[1..], id)
      case None => None
      case Some(k) => Some(k + 1)
  }

  /** The entry with its finishing time set. */
  function Finished(e: IndexedEntry, now: int): IndexedEntry
  {
    e.(entry := e.entry.(finishedAt := Some(now)))
  }

  /** `ContextStore`: the entries, the next free number, the subscribers
    * (a `Set`, so each once and in the order added), the storage it
    * writes to, and the calls it has made to subscribers so far. */
  class ContextStore {
    var entries: seq<IndexedEntry>
    var nextIndex: nat
    var listeners: seq<Listener>
    var calls: seq<Listener>
    const storage: Storage

    ghost predicate Valid()
      reads this, storage
    {
      storage.Valid() && Distinct(listeners)
    }

    constructor(ctx: Context, storage: Storage)
      requires storage.Valid()
      ensures Valid()
      ensures entries == ctx.entries && nextIndex == ctx.nextIndex && this.storage == storage
      ensures listeners == [] && calls == []
    {
      entries := ctx.entries;
      nextIndex := ctx.nextIndex;
      this.storage := storage;
      listeners := [];
      calls := [];
    }

    /** `addEntry(entry)`: appends the entry under the next free number,
      * writes it to that number's key, moves the number on by one and
      * calls every subscriber. */
    method AddEntry(entry: Entry, stringify: Entry -> string)
      requires Valid()
      modifies this, storage
      ensures Valid()
      ensures entries == old(entries) + [IndexedEntry(entry, old(nextIndex))]
      ensures nextIndex == old(nextIndex) + 1
      ensures storage.items == old(storage.items).Put(IndexKey(old(nextIndex)), stringify(entry))
      ensures listeners == old(listeners) && calls == old(calls) + listeners
      ensures IndicesBelow(old(entries), old(nextIndex)) ==>
                IndicesBelow(entries, nextIndex) && forall i :: 0 <= i < |old(entries)| ==> old(entries)[i].index != old(nextIndex)
    {
      entries := entries + [IndexedEntry(entry, nextIndex)];
      storage.items := storage.items.Put(IndexKey(nextIndex), stringify(entry));
      nextIndex := nextIndex + 1;
      calls := calls + listeners;
    }

    /** `finalizeEntry(id)`: the first entry with this id that has not
      * finished gets `now` as its finishing time, is written back to its
      * key, and the subscribers are called; with no such entry nothing
      * changes. */
    method FinalizeEntry(id: string, now: int, stringify: IndexedEntry -> string)
      requires Valid()
      modifies this, storage
      ensures Valid()
      ensures nextIndex == old(nextIndex) && listeners == old(listeners)
      ensures match FirstUnfinished(old(entries), id)
              case None =>
                entries == old(entries) && storage.items == old(storage.items) && calls == old(calls)
              case Some(k) =>
                var done := Finished(old(entries)[k], now);
                entries == old(entries)[k := done] &&
                storage.items == old(storage.items).Put(IndexKey(done.index), stringify(done)) &&
                calls == old(calls) + listeners
    {
      var i := 0;
      while i < |entries|
        invariant 0 <= i <= |entries|
        invariant forall j :: 0 <= j < i ==> !(entries[j].entry.id == id && entries[j].entry.finishedAt.None?)
        decreases |entries| - i
      {
        var entry := entries[i];
        if entry.entry.id != id {
          i := i + 1;
          continue;
        }
        if entry.entry.finishedAt.Some? {
          i := i + 1;
          continue;
        }
        var done := Finished(entry, now);
        entries := entries[i := done];
        storage.items := storage.items.Put(IndexKey(done.index), stringify(done));
        calls := calls + listeners;
        assert FirstUnfinished(old(entries), id) == Some(i);
        return;
      }
      assert FirstUnfinished(entries, id).None?;
    }

    /** `subscribe(callable)`: adds the subscriber (once). */
    method Subscribe(l: Listener)
      requires Valid()
      modifies this
      ensures Valid()
      ensures listeners == if l in old(listeners) then old(listeners) else old(listeners) + [l]
      ensures entries == old(entries) && nextIndex == old(nextIndex) && calls == old(calls)
    {
      if l !in listeners {
        DistinctCons(l, []);
        listeners := listeners + [l];
        assert Distinct(listeners) by {
          forall i, j | 0 <= i < j < |listeners|
            ensures listeners[i] != listeners[j]
          {
            if j == |listeners| - 1 {
              assert listeners[i] in old(listeners);
            }
          }
        }
      }
    }

    /** The function `subscribe` returns: deletes exactly that
      * subscriber. */
    method Unsubscribe(l: Listener)
      requires Valid()
      modifies this
      ensures Valid()
      ensures listeners == RemoveElem(old(listeners), l)
      ensures entries == old(entries) && nextIndex == old(nextIndex) && calls == old(calls)
    {
      listeners := RemoveElem(listeners, l);
    }
  }

  /** Unsubscribing a new subscriber leaves the subscribers as they were. */
  lemma {:induction false} SubscribeThenUnsubscribe(ls: seq<Listener>, l: Listener)
    requires l !in ls
    ensures RemoveElem(ls + [l], l) == ls
    decreases |ls|
  {
    if ls == [] {
      assert [l][1..] == [];
    } else {
      assert (ls + [l])[1..] == ls[1..] + [l];
      SubscribeThenUnsubscribe(ls[1..], l);
      assert ls == [ls[0]] + ls[1..];
    }
  }

  /** The ordering test: three entries stored under `simulation[1]`,
    * `simulation[5]` and `simulation[10]`, created in 2022, 2023 and 2021,
    * come back oldest first with 11 as the next free number. */
  lemma ScanExample(vals: map<string, string>, decode: Decoder, e1: Entry, e5: Entry, e10: Entry)
    requires decode(GetOr(vals, IndexKey(1), "")) == Parsed(e1)
    requires decode(GetOr(vals, IndexKey(5), "")) == Parsed(e5)
    requires decode(GetOr(vals, IndexKey(10), "")) == Parsed(e10)
    ensures ScanFrom([IndexKey(1), IndexKey(5), IndexKey(10)], vals, decode, Start) ==
            Scan([IndexedEntry(e1, 1), IndexedEntry(e5, 5), IndexedEntry(e10, 10)], 11, {}, false)
  {
    KeyIndexOfIndexKey(1);
    KeyIndexOfIndexKey(5);
    KeyIndexOfIndexKey(10);
    ScanThree(IndexKey(1), IndexKey(5), IndexKey(10), vals, decode, e1, e5, e10);
  }

  lemma ScanThree(k1: string, k5: string, k10: string, vals: map<string, string>, decode: Decoder, e1: Entry, e5: Entry, e10: Entry)
    requires KeyIndex(k1) == Some(1) && KeyIndex(k5) == Some(5) && KeyIndex(k10) == Some(10)
    requires decode(GetOr(vals, k1, "")) == Parsed(e1)
    requires decode(GetOr(vals, k5, "")) == Parsed(e5)
    requires decode(GetOr(vals, k10, "")) == Parsed(e10)
    ensures ScanFrom([k1, k5, k10], vals, decode, Start) ==
            Scan([IndexedEntry(e1, 1), IndexedEntry(e5, 5), IndexedEntry(e10, 10)], 11, {}, false)
  {
    var one := Scan([IndexedEntry(e1, 1)], 2, {}, false);
    var two := Scan([IndexedEntry(e1, 1), IndexedEntry(e5, 5)], 6, {}, false);
    var three := Scan([IndexedEntry(e1, 1), IndexedEntry(e5, 5), IndexedEntry(e10, 10)], 11, {}, false);
    Pair(IndexedEntry(e1, 1), IndexedEntry(e5, 5));
    Triple(IndexedEntry(e1, 1), IndexedEntry(e5, 5), IndexedEntry(e10, 10));
    KeepStep([k1, k5, k10], [k5, k10], vals, decode, Start, one, 1, e1);
    KeepStep([k5, k10], [k10], vals, decode, one, two, 5, e5);
    KeepStep([k10], [], vals, decode, two, three, 10, e10);
  }

  /** One kept entry of a literal scan, with the state after it named. */
  /** The order of the keys does not matter for the next index: keys 10
    * then 1 give the entries in key order and next index 11. */
  lemma ScanOrderExample(vals: map<string, string>, decode: Decoder, e10: Entry, e1: Entry)
    requires decode(GetOr(vals, IndexKey(10), "")) == Parsed(e10)
    requires decode(GetOr(vals, IndexKey(1), "")) == Parsed(e1)
    ensures ScanFrom([IndexKey(10), IndexKey(1)], vals, decode, Start) ==
            Scan([IndexedEntry(e10, 10), IndexedEntry(e1, 1)], 11, {}, false)
  {
    KeyIndexOfIndexKey(10);
    KeyIndexOfIndexKey(1);
    var k10, k1 := IndexKey(10), IndexKey(1);
    var one := Scan([IndexedEntry(e10, 10)], 11, {}, false);
    var two := Scan([IndexedEntry(e10, 10), IndexedEntry(e1, 1)], 11, {}, false);
    assert [IndexedEntry(e10, 10)] + [IndexedEntry(e1, 1)] == [IndexedEntry(e10, 10), IndexedEntry(e1, 1)];
    KeepStep([k10, k1], [k1], vals, decode, Start, one, 10, e10);
    KeepStep([k1], [], vals, decode, one, two, 1, e1);
  }

  lemma KeepStep(keys: seq<string>, rest: seq<string>, vals: map<string, string>, decode: Decoder,
                 acc: Scan, next: Scan, index: nat, e: Entry)
    requires keys != [] && rest == keys[1..]
    requires KeyIndex(keys[0]) == Some(index) && decode(GetOr(vals, keys[0], "")) == Parsed(e)
    requires next == Scan(acc.entries + [IndexedEntry(e, index)], Bump(acc.nextIndex, index), acc.rejected, acc.thrown)
    ensures ScanFrom(keys, vals, decode, acc) == ScanFrom(rest, vals, decode, next)
  {
    ScanKeep(keys, vals, decode, acc, index, e);
  }

  lemma SortExample(a: IndexedEntry, b: IndexedEntry, c: IndexedEntry)
    requires c.entry.createdAt < a.entry.createdAt < b.entry.createdAt
    ensures SortByCreated([a, b, c]) == [c, a, b]
  {
    Triple(a, b, c);
    Triple(c, a, b);
    SortTwo(a, b);
    SortSnoc([a, b], c);
    InsertFront(c, [a, b]);
  }

  lemma SortTwo(a: IndexedEntry, b: IndexedEntry)
    requires a.entry.createdAt <= b.entry.createdAt
    ensures SortByCreated([a, b]) == [a, b]
  {
    Pair(a, b);
    SortOne(a);
    SortSnoc([a], b);
    InsertLast(b, [a]);
  }

  lemma SortOne(a: IndexedEntry)
    ensures SortByCreated([a]) == [a]
  {
    assert [a][..0] == [];
  }

  /** An entry no older than the only one goes after it. */
  lemma InsertLast(x: IndexedEntry, s: seq<IndexedEntry>)
    requires |s| == 1 && s[0].entry.createdAt <= x.entry.createdAt
    ensures InsertByCreated(x, s) == s + [x]
  {
    assert s[1..] == [];
  }

  lemma SortSnoc(es: seq<IndexedEntry>, x: IndexedEntry)
    ensures SortByCreated(es + [x]) == InsertByCreated(x, SortByCreated(es))
  {
    var s := es + [x];
    assert s[..|s| - 1] == es && s[|s| - 1] == x;
  }

  lemma InsertFront(x: IndexedEntry, s: seq<IndexedEntry>)
    requires SortedByCreated(s) && s != [] && x.entry.createdAt < s[0].entry.createdAt
    ensures InsertByCreated(x, s) == [x] + s
  {
  }

  /** A key that is not `simulation[N]`, such as `dummyData`, is passed
    * over: storage holding only such keys gives no entries and 0. */
  lemma {:induction false} UnrelatedKeysIgnored(keys: seq<string>, vals: map<string, string>, decode: Decoder, acc: Scan)
    requires forall i :: 0 <= i < |keys| ==> KeyIndex(keys[i]).None?
    ensures ScanFrom(keys, vals, decode, acc) == acc
    decreases |keys|
  {
    if keys != [] {
      UnrelatedKeysIgnored(keys[1..], vals, decode, acc);
    }
  }

  /** What the warning in `getFromStorage` evidently intends for any text
    * that cannot be read back: it counts as a failed parse, so the key is
    * deleted instead of `JSON.parse` throwing. */
  function Lenient(decode: Decoder): Decoder
  {
    (value: string) => if decode(value).NotJson? then Mismatch else decode(value)
  }

  /** As written, one saved simulation whose text is not JSON makes
    * `getFromStorage` (and the module that builds the store at load time)
    * throw. */
  lemma NotJsonThrows(decode: Decoder, value: string)
    requires decode(value) == NotJson
    ensures ScanFrom([IndexKey(0)], map[IndexKey(0) := value], decode, Start).thrown
  {
    KeyIndexOfIndexKey(0);
    ScanThrow([IndexKey(0)], map[IndexKey(0) := value], decode, Start, 0);
  }

  /** With the lenient reading no key makes the scan throw. */
  lemma {:induction false} LenientNeverThrows(keys: seq<string>, vals: map<string, string>, decode: Decoder, acc: Scan)
    requires !acc.thrown
    ensures !ScanFrom(keys, vals, Lenient(decode), acc).thrown
    decreases |keys|
  {
    if keys != [] {
      var key := keys[0];
      match KeyIndex(key)
      case None =>
        LenientNeverThrows(keys[1..], vals, decode, acc);
      case Some(index) =>
        var next := Bump(acc.nextIndex, index);
        match Lenient(decode)(GetOr(vals, key, ""))
        case NotJson =>
        case Mismatch =>
          LenientNeverThrows(keys[1..], vals, decode, Scan(acc.entries, next, acc.rejected + {key}, acc.thrown));
        case Parsed(e) =>
          LenientNeverThrows(keys[1..], vals, decode, Scan(acc.entries + [IndexedEntry(e, index)], next, acc.rejected, acc.thrown));
    }
  }

  /** With the lenient reading the keys deleted are the matching keys
    * whose text is not JSON or does not fit the schema. */
  lemma LenientRejects(keys: seq<string>, vals: map<string, string>, decode: Decoder)
    ensures Rejected(keys, vals, Lenient(decode)) ==
            set key | key in keys && KeyIndex(key).Some? && !decode(GetOr(vals, key, "")).Parsed?
  {
  }

  /** `ContextStore.fromStorage(storage)` as written: `None` is the exception
    * `JSON.parse` throws out of `getFromStorage`, which no store survives;
    * the keys deleted before it stay deleted. */
  method FromStorageAsWritten(storage: Storage, decode: Decoder) returns (store: Option<ContextStore>)
    requires storage.Valid()
    modifies storage
    ensures var s := ScanFrom(old(storage.items.keys), old(storage.items.vals), decode, Start);
            storage.items == old(storage.items).Without(s.rejected) &&
            (store.None? <==> s.thrown) &&
            (store.Some? ==> (fresh(store.value) && store.value.Valid() && store.value.storage == storage &&
              store.value.entries == SortByCreated(s.entries) && store.value.nextIndex == s.nextIndex &&
              store.value.listeners == [] && store.value.calls == []))
  {
    var ctx := GetFromStorage(storage, decode);
    if ctx.None? {
      return None;
    }
    var built := new ContextStore(ctx.value, storage);
    store := Some(built);
  }

  /** `ContextStore.fromStorage(storage)`, reading leniently: it always
    * builds a store, from the scan with text that is not JSON deleted. */
  method FromStorage(storage: Storage, decode: Decoder) returns (store: ContextStore)
    requires storage.Valid()
    modifies storage
    ensures var s := ScanFrom(old(storage.items.keys), old(storage.items.vals), Lenient(decode), Start);
            storage.items == old(storage.items).Without(s.rejected) &&
            fresh(store) && store.Valid() && store.storage == storage &&
            store.entries == SortByCreated(s.entries) && store.nextIndex == s.nextIndex &&
            store.listeners == [] && store.calls == []
  {
    LenientNeverThrows(storage.items.keys, storage.items.vals, decode, Start);
    var ctx := GetFromStorage(storage, Lenient(decode));
    store := new ContextStore(ctx.value, storage);
  }
}
