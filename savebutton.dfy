/** The decision rule of the "Save simulation" button: its tooltip, whether
  * it is disabled, and its colour. */
module SaveButton {
  import opened Text

  const Saving := "Saving simulation, please wait..."
  const NoProject := "Please select a project to save the simulation."
  const BadName := "Please enter a valid simulation name."
  const Ready := "Ready to save the simulation."

  /** `Boolean(simulationName && simulationName.trim())` */
  predicate ValidName(name: string)
  {
    name != "" && Strip(name, IsJsSpace) != ""
  }

  /** Trimming leaves something exactly when some character is not white
    * space. */
  lemma ValidNameSpec(name: string)
    ensures ValidName(name) <==> exists i :: 0 <= i < |name| && !IsJsSpace(name[i])
  {
    StripLeftEmpty(name);
    var l := StripLeft(name, IsJsSpace);
    if l != [] {
      StripRightKeeps(l);
    }
  }

  lemma {:induction false} StripLeftEmpty(s: string)
    ensures StripLeft(s, IsJsSpace) == [] <==> forall i :: 0 <= i < |s| ==> IsJsSpace(s[i])
    decreases |s|
  {
    if s != [] && IsJsSpace(s[0]) {
      StripLeftEmpty(s[1..]);
      assert forall i :: 1 <= i < |s| ==> s[i] == s[1..][i - 1];
    }
  }

  lemma {:induction false} StripRightKeeps(s: string)
    requires s != [] && !IsJsSpace(s[0])
    ensures StripRight(s, IsJsSpace) != []
    decreases |s|
  {
    if |s| > 1 && IsJsSpace(s[|s| - 1]) {
      StripRightKeeps(s[..|s| - 1]);
    }
  }

  datatype ButtonState = ButtonState(tooltip: string, disabled: bool, color: string)

  /** The button for the given props; a missing project is the empty id. */
  function SaveButtonState(isSaved: bool, name: string, projectId: string, isSaving: bool): (b: ButtonState)
    ensures b.tooltip == if isSaving then Saving
                         else if projectId == "" then NoProject
                         else if !ValidName(name) then BadName
                         else Ready
    ensures b.disabled <==> !ValidName(name) || projectId == "" || isSaved
    ensures b.color == "primary" <==> !isSaved
  {
    var tooltip := if isSaving then Saving
                   else if projectId == "" then NoProject
                   else if !ValidName(name) then BadName
                   else Ready;
    ButtonState(tooltip, !ValidName(name) || projectId == "" || isSaved, if !isSaved then "primary" else "secondary")
  }

  /** The tooltip reads "ready" exactly when nothing is saving, a project is
    * chosen and the name has a character that is not white space; the
    * button is then enabled unless the simulation is already saved. */
  lemma ReadyWhen(isSaved: bool, name: string, projectId: string, isSaving: bool)
    ensures var b := SaveButtonState(isSaved, name, projectId, isSaving);
            (b.tooltip == Ready <==>
               !isSaving && projectId != "" && exists i :: 0 <= i < |name| && !IsJsSpace(name[i])) &&
            (b.tooltip == Ready ==> b.disabled == isSaved)
  {
    ValidNameSpec(name);
    assert |Ready| != |Saving| && |Ready| != |NoProject| && |Ready| != |BadName|;
  }

  /** A name of white space only keeps the button disabled. */
  lemma BlankNameDisables(isSaved: bool, name: string, projectId: string, isSaving: bool)
    requires forall i :: 0 <= i < |name| ==> IsJsSpace(name[i])
    ensures SaveButtonState(isSaved, name, projectId, isSaving).disabled
  {
    ValidNameSpec(name);
  }

  /** Saving in progress does not by itself disable the button. */
  lemma SavingDoesNotDisable(name: string, projectId: string)
    requires ValidName(name) && projectId != ""
    ensures var b := SaveButtonState(false, name, projectId, true);
            b.tooltip == Saving && !b.disabled
  {
  }
}
