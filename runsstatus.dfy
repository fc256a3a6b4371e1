/** The details grid of a lab result's simulation runs, built from three
  * parallel, possibly missing, arrays. */
module RunsStatus {
  import opened Common

  datatype Row = Row(id: nat, modelId: string, experimentName: string, status: string)

  /** `arr?.length ?? 0` */
  function Len(arr: Option<seq<string>>): nat
  {
    match arr
    case None => 0
    case Some(a) => |a|
  }

  /** `arr?.[index] ?? ""` */
  function At(arr: Option<seq<string>>, index: nat): (r: string)
    ensures index < Len(arr) ==> r == arr.value[index]
    ensures index >= Len(arr) ==> r == ""
  {
    match arr
    case None => ""
    case Some(a) => if index < |a| then a[index] else ""
  }

  function Max3(a: nat, b: nat, c: nat): (m: nat)
    ensures m >= a && m >= b && m >= c
    ensures m == a || m == b || m == c
  {
    if a >= b && a >= c then a else if b >= c then b else c
  }

  /** `createRows(modelId, experimentName, simulationStatus)` */
  function CreateRows(modelId: Option<seq<string>>, experimentName: Option<seq<string>>,
                      simulationStatus: Option<seq<string>>): (rows: seq<Row>)
    ensures Len(modelId) == 0 && Len(experimentName) == 0 && Len(simulationStatus) == 0 ==> rows == []
    ensures |rows| == Max3(Len(modelId), Len(experimentName), Len(simulationStatus))
    ensures forall i :: 0 <= i < |rows| ==>
              rows[i] == Row(i, At(modelId, i), At(experimentName, i), At(simulationStatus, i))
  {
    if Len(modelId) == 0 && Len(experimentName) == 0 && Len(simulationStatus) == 0 then []
    else
      var maxLength := Max3(Len(modelId), Len(experimentName), Len(simulationStatus));
      seq(maxLength, i requires 0 <= i < maxLength =>
        Row(i, At(modelId, i), At(experimentName, i), At(simulationStatus, i)))
  }

  /** Each array present at an index is copied into that row unchanged, and
    * only the shorter arrays leave "" behind. */
  lemma CopiedUnchanged(modelId: Option<seq<string>>, experimentName: Option<seq<string>>,
                        simulationStatus: Option<seq<string>>, i: nat)
    requires i < |CreateRows(modelId, experimentName, simulationStatus)|
    ensures var row := CreateRows(modelId, experimentName, simulationStatus)[i];
            (i < Len(modelId) ==> row.modelId == modelId.value[i]) &&
            (i < Len(experimentName) ==> row.experimentName == experimentName.value[i]) &&
            (i < Len(simulationStatus) ==> row.status == simulationStatus.value[i]) &&
            (row.modelId != "" ==> i < Len(modelId)) &&
            (row.experimentName != "" ==> i < Len(experimentName)) &&
            (row.status != "" ==> i < Len(simulationStatus))
  {
  }
}
