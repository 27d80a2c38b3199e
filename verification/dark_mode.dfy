/** The theme toggle (components/DarkModeToggle.tsx): the component's
    `isDark` flag, the `dark` class on the document element, and the `theme`
    entry of local storage. */
module DarkModeToggle {
  import opened Common

  /** The three pieces of state the toggle reads and writes. */
  datatype Theme = Theme(isDark: bool, htmlDark: bool, stored: Option<string>)

  /** `!savedTheme`: no entry, or an empty one. */
  predicate Unset(saved: Option<string>)
  {
    saved.None? || saved.value == ""
  }

  /** The mount effect. The component starts light (`useState(false)`); the
      effect reads the stored theme and the system preference and switches to
      dark when asked to. It only ever adds the class and never writes
      storage. */
  function Mount(htmlDark: bool, stored: Option<string>, prefersDark: bool): (r: Theme)
    ensures r.stored == stored
    ensures htmlDark ==> r.htmlDark
    ensures r.isDark ==> r.htmlDark
    ensures stored == Some("dark") ==> r.isDark
    ensures !Unset(stored) && stored != Some("dark") ==> !r.isDark && r.htmlDark == htmlDark
    ensures Unset(stored) ==> r.isDark == prefersDark
    ensures !r.isDark ==> r.htmlDark == htmlDark
  {
    if stored == Some("dark") || (Unset(stored) && prefersDark) then
      Theme(true, true, stored)
    else
      Theme(false, htmlDark, stored)
  }

  /** The class and the stored theme agree with the flag. */
  predicate Consistent(t: Theme)
  {
    t.htmlDark == t.isDark && t.stored == Some(if t.isDark then "dark" else "light")
  }

  /** `toggleDark`: flip the flag; going dark adds the class and stores "dark",
      going light removes it and stores "light". */
  function Toggle(t: Theme): (r: Theme)
    ensures r.isDark == !t.isDark
    ensures r.isDark ==> r.htmlDark && r.stored == Some("dark")
    ensures !r.isDark ==> !r.htmlDark && r.stored == Some("light")
  {
    if !t.isDark then Theme(true, true, Some("dark"))
    else Theme(false, false, Some("light"))
  }

  /** Whatever the state before, a toggle leaves it consistent. */
  lemma ToggleConsistent(t: Theme)
    ensures Consistent(Toggle(t))
  {
  }

  /** Toggling twice restores the flag and sets the class to match it; from a
      consistent state it restores everything. */
  lemma ToggleTwice(t: Theme)
    ensures Toggle(Toggle(t)).isDark == t.isDark
    ensures Toggle(Toggle(t)).htmlDark == t.isDark
    ensures Consistent(t) ==> Toggle(Toggle(t)) == t
  {
  }

  /** A choice made with the toggle survives a reload: mounting again with the
      stored theme resolves to the same mode, whatever the system prefers. */
  lemma ToggleSurvivesReload(t: Theme, htmlDark: bool, prefersDark: bool)
    ensures Mount(htmlDark, Toggle(t).stored, prefersDark).isDark == Toggle(t).isDark
  {
  }
}
