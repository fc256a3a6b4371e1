/** The run statuses of a batch of simulations: the counts per status in
  * the header and one row per status in the grid. */
module Statuses {
  import opened Common
  import opened Text

  datatype StatusKind = Starting | Pending | Done | Failed

  /** The part of a `Status` the component reads. */
  datatype Status = Status(status: StatusKind)

  /** How many of `ss` have status `k`. */
  function CountOf(ss: seq<Status>, k: StatusKind): (n: nat)
    ensures n <= |ss|
  {
    if ss == [] then 0
    else CountOf(ss[..|ss| - 1], k) + (if ss[|ss| - 1].status == k then 1 else 0)
  }

  datatype Buckets = Buckets(starting: nat, pending: nat, done: nat, failed: nat)

  function Total(b: Buckets): nat
  {
    b.starting + b.pending + b.done + b.failed
  }

  /** The header's counters: one increment of the matching bucket per
    * status. */
  method CountBuckets(statuses: Dict<string, Status>) returns (b: Buckets)
    requires statuses.Valid()
    ensures var vs := statuses.Values();
            b == Buckets(CountOf(vs, Starting), CountOf(vs, Pending), CountOf(vs, Done), CountOf(vs, Failed))
    ensures Total(b) == |statuses.keys|
  {
    var vs := statuses.Values();
    b := Buckets(0, 0, 0, 0);
    var i := 0;
    while i < |vs|
      invariant 0 <= i <= |vs|
      invariant b == Buckets(CountOf(vs[..i], Starting), CountOf(vs[..i], Pending),
                             CountOf(vs[..i], Done), CountOf(vs[..i], Failed))
      invariant Total(b) == i
    {
      assert vs[..i + 1][..i] == vs[..i];
      match vs[i].status {
        case Starting => b := b.(starting := b.starting + 1);
        case Pending => b := b.(pending := b.pending + 1);
        case Done => b := b.(done := b.done + 1);
        case Failed => b := b.(failed := b.failed + 1);
      }
      i := i + 1;
    }
    assert vs[..i] == vs;
  }

  /** The four counts always add up to the number of statuses. */
  lemma {:induction false} CountsAddUp(ss: seq<Status>)
    ensures CountOf(ss, Starting) + CountOf(ss, Pending) + CountOf(ss, Done) + CountOf(ss, Failed) == |ss|
    decreases |ss|
  {
    if ss != [] {
      CountsAddUp(ss[..|ss| - 1]);
    }
  }

  /** A grid row; `modelId` is `undefined` for a key without ":". */
  datatype Row = Row(id: string, experimentName: string, modelId: Option<string>, status: StatusKind)

  /** The row of one status, keyed "experiment:model". */
  function RowOf(key: string, s: Status): Row
  {
    var parts := Split(key, ':');
    Row(key, parts[0], if |parts| > 1 then Some(parts[1]) else None, s.status)
  }

  /** `createRows(statuses)` */
  function CreateRows(statuses: Dict<string, Status>): (rows: seq<Row>)
    requires statuses.Valid()
    ensures |rows| == |statuses.keys|
    ensures forall i :: 0 <= i < |rows| ==>
              rows[i].id == statuses.keys[i] && rows[i].status == statuses.vals[statuses.keys[i]].status
  {
    seq(|statuses.keys|, i requires 0 <= i < |statuses.keys| =>
      RowOf(statuses.keys[i], statuses.vals[statuses.keys[i]]))
  }

  /** The experiment name is the text before the first ":"; the model id
    * is the text between the first and the second, and there is one
    * exactly when the key has a ":". */
  lemma RowOfSpec(key: string, s: Status)
    ensures var row := RowOf(key, s);
            var i := IndexOf(key, ':');
            row.experimentName == key[..i] &&
            (row.modelId.Some? <==> i < |key|) &&
            (i < |key| ==> row.modelId.value == key[i + 1..][..IndexOf(key[i + 1..], ':')])
  {
    var i := IndexOf(key, ':');
    if i < |key| {
      var rest := key[i + 1..];
      var j := IndexOf(rest, ':');
      assert Split(key, ':') == [key[..i]] + Split(rest, ':');
      if j == |rest| {
        assert Split(rest, ':') == [rest];
        assert rest[..j] == rest;
      }
    }
  }
}
