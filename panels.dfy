/** JSON values and the result panels an adapter can return beside its
  * final concentrations. */
module Panels {

  /** A JSON value. */
  datatype Json =
    | JNull
    | JBool(b: bool)
    | JNumber(n: real)
    | JString(s: string)
    | JArray(items: seq<Json>)
    | JObject(fields: map<string, Json>)

  /** A result panel: a `JsonResult` (type "json"), a `TextResult`
    * (type "text"), or a panel of another type, which has no `json`
    * attribute. */
  datatype Panel =
    | JsonPanel(json: Json)
    | TextPanel(text: string)
    | OtherPanel(kind: string)
}
