/**
 * The two questions `workspace.py` asks around a build: where to build (`choose_workspace`) and what to do with a
 * finished build (`finalize_workspace`).  The git status check and the menu and prompt answers are parameters.
 */
module WorkspaceChoices {
  import opened Wrappers

  /** `WorkspaceMode`. */
  datatype WorkspaceMode = Isolated | Direct

  /** `WorkspaceChoice`. */
  datatype WorkspaceChoice = Merge | Review | Test | Later

  /** How `choose_workspace` ends: with a mode, or by `sys.exit(code)` when the user cancels. */
  datatype ChooseOutcome = Mode(mode: WorkspaceMode) | Exit(code: int)

  /**
   * `choose_workspace`: forced modes first (isolated before direct), then the non-interactive default, then
   * unsaved work, which always means an isolated workspace once the user has pressed Enter; otherwise the menu
   * answer `"direct"` picks direct mode and any other answer isolation.  `interrupted` says that the Enter prompt
   * was answered with Ctrl-C, `menu` is what the menu returned (`None` when the user quit it).
   */
  function ChooseWorkspace(forceIsolated: bool, forceDirect: bool, autoContinue: bool, hasUnsaved: bool,
                           interrupted: bool, menu: Option<string>): (r: ChooseOutcome)
    ensures r.Exit? ==> r.code == 0
  {
    if forceIsolated then Mode(Isolated)
    else if forceDirect then Mode(Direct)
    else if autoContinue then Mode(Isolated)
    else if hasUnsaved then (if interrupted then Exit(0) else Mode(Isolated))
    else if menu.None? then Exit(0)
    else if menu.value == "direct" then Mode(Direct)
    else Mode(Isolated)
  }

  /** Which inputs reach the menu at all. */
  predicate AsksMenu(forceIsolated: bool, forceDirect: bool, autoContinue: bool, hasUnsaved: bool) {
    !forceIsolated && !forceDirect && !autoContinue && !hasUnsaved
  }

  /**
   * Direct mode is used only when asked for: by `force_direct` without `force_isolated`, or by the menu answer
   * `"direct"` when the menu is shown.  Everything else that does not cancel is isolated.
   */
  lemma DirectOnlyWhenAsked(forceIsolated: bool, forceDirect: bool, autoContinue: bool, hasUnsaved: bool,
                            interrupted: bool, menu: Option<string>)
    ensures ChooseWorkspace(forceIsolated, forceDirect, autoContinue, hasUnsaved, interrupted, menu) == Mode(Direct)
      <==> ((!forceIsolated && forceDirect)
            || (AsksMenu(forceIsolated, forceDirect, autoContinue, hasUnsaved) && menu == Some("direct")))
  {
  }

  /** `choose_workspace` exits only when the user cancels a prompt it actually showed. */
  lemma ChooseExitsOnlyOnCancel(forceIsolated: bool, forceDirect: bool, autoContinue: bool, hasUnsaved: bool,
                                interrupted: bool, menu: Option<string>)
    ensures ChooseWorkspace(forceIsolated, forceDirect, autoContinue, hasUnsaved, interrupted, menu).Exit? <==>
      && !forceIsolated && !forceDirect && !autoContinue
      && (if hasUnsaved then interrupted else menu.None?)
  {
  }

  /** Unsaved work is never built on directly unless direct mode is forced. */
  lemma UnsavedWorkIsolated(forceIsolated: bool, forceDirect: bool, autoContinue: bool, interrupted: bool,
                            menu: Option<string>)
    requires !forceDirect || forceIsolated
    ensures ChooseWorkspace(forceIsolated, forceDirect, autoContinue, true, interrupted, menu) != Mode(Direct)
  {
  }

  /**
   * `finalize_workspace`: without a worktree manager (a direct build) the changes are already merged; in
   * non-interactive mode the choice is left for later; otherwise the menu answer decides, and anything but
   * `"test"`, `"merge"` or `"review"` means later.
   */
  function FinalizeWorkspace(hasManager: bool, autoContinue: bool, menu: Option<string>): (r: WorkspaceChoice)
    ensures !hasManager ==> r == Merge
  {
    if !hasManager then Merge
    else if autoContinue then Later
    else if menu == Some("test") then Test
    else if menu == Some("merge") then Merge
    else if menu == Some("review") then Review
    else Later
  }

  /** Each choice, and exactly the inputs that lead to it. */
  lemma FinalizeChoices(hasManager: bool, autoContinue: bool, menu: Option<string>)
    ensures FinalizeWorkspace(hasManager, autoContinue, menu) == Merge <==>
      !hasManager || (!autoContinue && menu == Some("merge"))
    ensures FinalizeWorkspace(hasManager, autoContinue, menu) == Test <==>
      hasManager && !autoContinue && menu == Some("test")
    ensures FinalizeWorkspace(hasManager, autoContinue, menu) == Review <==>
      hasManager && !autoContinue && menu == Some("review")
    ensures FinalizeWorkspace(hasManager, autoContinue, menu) == Later <==>
      hasManager && (autoContinue || menu !in {Some("test"), Some("merge"), Some("review")})
  {
  }
}
