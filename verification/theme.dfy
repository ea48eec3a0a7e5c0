/**
 * Dark mode: the page's dark class, the switch controls that mirror it and
 * the "theme" entry of the browser's local storage.
 */
module Theme {
  import opened Wrappers

  /** `dark` is the body's dark-mode class, `switchOn` the state of the
      dark-mode switches, `stored` the persisted "theme" entry (None if unset). */
  datatype ThemeState = ThemeState(dark: bool, switchOn: bool, stored: Option<string>)

  /** The stored string for a mode. */
  function ThemeName(dark: bool): (name: string)
    ensures name == "dark" || name == "light"
    ensures (name == "dark") == dark
  {
    if dark then "dark" else "light"
  }

  /** Body, switch and storage all agree. */
  predicate Consistent(t: ThemeState) {
    t.switchOn == t.dark && t.stored == Some(ThemeName(t.dark))
  }

  /** `aplicarTemaAlCargar` (after the self-running snippet at the top of the
      script): dark exactly when the stored theme is "dark"; storage is only read. */
  function ApplySavedTheme(stored: Option<string>): (t: ThemeState)
    ensures t.stored == stored
    ensures t.dark <==> stored == Some("dark")
    ensures t.switchOn == t.dark
  {
    var dark := stored == Some("dark");
    ThemeState(dark, dark, stored)
  }

  /** `toggleDarkMode`: flips the mode, stores its name and sets every switch to match. */
  function ToggleDarkMode(t: ThemeState): (t': ThemeState)
    ensures t'.dark == !t.dark
    ensures Consistent(t')
  {
    var dark := !t.dark;
    ThemeState(dark, dark, Some(ThemeName(dark)))
  }

  /** After a toggle, reloading the page restores exactly the toggled state. */
  lemma ToggleSurvivesReload(t: ThemeState)
    ensures ApplySavedTheme(ToggleDarkMode(t).stored) == ToggleDarkMode(t)
  {
  }

  /** Toggling twice restores the mode, and restores everything once the state is consistent. */
  lemma ToggleTwice(t: ThemeState)
    ensures ToggleDarkMode(ToggleDarkMode(t)).dark == t.dark
    ensures Consistent(t) ==> ToggleDarkMode(ToggleDarkMode(t)) == t
  {
  }
}
