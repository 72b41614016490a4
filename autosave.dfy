/**
 * The save policy of a CSV view: the autosave flag the handlers read, the
 * autosave toggle the user sees, and the save button's disabled flag, with
 * each handler's decision to ask the host to save the file.
 */
module AutoSave {

  datatype Controls = Controls(autoSave: bool, toggleShown: bool, saveDisabled: bool)

  /**
   * The controls agree with each other: the toggle shows the flag the
   * handlers act on, and the save button is enabled exactly when autosave
   * is off.
   */
  predicate Consistent(c: Controls)
  {
    c.toggleShown == c.autoSave && c.saveDisabled == c.autoSave
  }

  /**
   * The controls after the view's constructor as written: the flag is set
   * to true, then overwritten with the toggle's value read before the toggle
   * is switched on; the toggle then shows on, and the save button, which
   * reads the toggle, starts disabled.
   */
  function InitialControlsAsWritten(toggleInitial: bool): (c: Controls)
    ensures Consistent(c) <==> toggleInitial
    ensures c.toggleShown && c.saveDisabled
  {
    Controls(toggleInitial, true, true)
  }

  /** The controls the constructor evidently means to produce: autosave on everywhere. */
  function InitialControls(): (c: Controls)
    ensures Consistent(c) && c.autoSave
  {
    Controls(true, true, true)
  }

  /** With a toggle that starts off, the constructor leaves autosave off behind a toggle that shows it on, and no way to save. */
  lemma InitialControlsDisagree()
    ensures var c := InitialControlsAsWritten(false);
      !Consistent(c) && !RequestAutoSave(c) && c.saveDisabled
    ensures InitialControlsAsWritten(true) == InitialControls()
  {
  }

  /** The user flips the autosave toggle to `value`; its handler sets the flag and disables or enables the save button to match. */
  function AfterToggle(c: Controls, value: bool): (c': Controls)
    ensures Consistent(c') && c'.autoSave == value
  {
    Controls(value, value, value)
  }

  /** Whether `requestAutoSave` asks the host to save. */
  function RequestAutoSave(c: Controls): bool
  {
    c.autoSave
  }

  /**
   * Whether the save button's click handler asks the host to save: whenever
   * the view shows a file (without one, building the "Saving ..." notice
   * from the file's name throws before the save is requested).
   */
  function SaveClick(hasFile: bool): bool
  {
    hasFile
  }

  /**
   * Whether `hotChange` asks the host to save, as written: it returns early
   * for changes made by loading and whenever autosave is on, and otherwise
   * defers to `requestAutoSave`, which saves only when autosave is on.
   */
  function HotChangeAsWritten(c: Controls, source: string): (save: bool)
    ensures !save
  {
    if source == "loadData" || c.autoSave then false else RequestAutoSave(c)
  }

  /** What `hotChange` evidently means: every change not made by loading is handed to `requestAutoSave`. */
  function HotChange(c: Controls, source: string): (save: bool)
    ensures source == "loadData" ==> !save
  {
    if source == "loadData" then false else RequestAutoSave(c)
  }

  /** With consistent controls exactly one way of saving is offered: autosave or the save button. */
  lemma ExactlyOneSavePath(c: Controls)
    requires Consistent(c)
    ensures RequestAutoSave(c) != !c.saveDisabled
  {
  }

  /** With the intended handler, an edit in a view showing a file is either saved at once or the save button is there to save it. */
  lemma EditsAlwaysSavable(c: Controls, source: string)
    requires Consistent(c) && source != "loadData"
    ensures HotChange(c, source) || (!c.saveDisabled && SaveClick(true))
  {
  }

  /** As written, an edit with autosave on is neither saved nor savable with the (disabled) save button. */
  lemma EditLostAsWritten()
    ensures var c := AfterToggle(InitialControls(), true);
      Consistent(c) && !HotChangeAsWritten(c, "edit") && c.saveDisabled
    ensures HotChange(AfterToggle(InitialControls(), true), "edit")
  {
  }
}
