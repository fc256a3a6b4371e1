/** The tab title of a result panel. */
module PanelName {
  import opened Common

  /** The fields of a panel the title depends on: its `type` and its
    * nullable `label`. */
  datatype Panel = Panel(kind: string, panelLabel: Option<string>)

  /** JavaScript truthiness of the label: present and not empty. */
  predicate HasLabel(p: Panel)
  {
    p.panelLabel.Some? && p.panelLabel.value != ""
  }

  /** The title each type falls back to; the table's is its own. */
  function Fallback(kind: string): string
  {
    if kind == "text" then "Text"
    else if kind == "json" then "JSON"
    else if kind == "reaction_paths" then "Reactions"
    else if kind == "table" then "Table data"
    else "(Unknown panel)"
  }

  /** `getPanelName(panel)` as written: a truthy label wins; a table falls
    * to `label ?? "Table data"`, which keeps a label that is present but
    * empty. */
  function GetPanelNameAsWritten(p: Panel): (r: string)
    ensures HasLabel(p) ==> r == p.panelLabel.value
    ensures !HasLabel(p) && (p.kind != "table" || p.panelLabel.None?) ==> r == Fallback(p.kind)
    ensures !HasLabel(p) && p.kind == "table" && p.panelLabel.Some? ==> r == ""
  {
    if HasLabel(p) then p.panelLabel.value
    else if p.kind == "text" then "Text"
    else if p.kind == "json" then "JSON"
    else if p.kind == "reaction_paths" then "Reactions"
    else if p.kind == "table" then (match p.panelLabel case Some(l) => l case None => "Table data")
    else "(Unknown panel)"
  }

  /** A table panel whose label is the empty text gets an empty title. */
  lemma EmptyTableLabelAsWritten()
    ensures GetPanelNameAsWritten(Panel("table", Some(""))) == ""
  {
  }

  /** `getPanelName(panel)` with the table case falling back to "Table
    * data" like the other types: a label that is not empty wins, and
    * otherwise the type decides. */
  function GetPanelName(p: Panel): (r: string)
    ensures r != ""
    ensures HasLabel(p) ==> r == p.panelLabel.value
    ensures !HasLabel(p) ==> r == Fallback(p.kind)
  {
    if HasLabel(p) then p.panelLabel.value else Fallback(p.kind)
  }

  /** The two agree everywhere except on a table with an empty label. */
  lemma AsWrittenAgrees(p: Panel)
    ensures GetPanelNameAsWritten(p) == GetPanelName(p) <==> !(p.kind == "table" && p.panelLabel == Some(""))
  {
  }

  /** The fallbacks of the four known types, and of any other. */
  lemma Fallbacks(kind: string)
    ensures Fallback("text") == "Text" && Fallback("json") == "JSON"
    ensures Fallback("reaction_paths") == "Reactions" && Fallback("table") == "Table data"
    ensures kind !in {"text", "json", "reaction_paths", "table"} ==> Fallback(kind) == "(Unknown panel)"
  {
  }
}
