// The colour theme (components/theme/ThemeProvider.tsx): dark by default, a
// saved choice adopted when the provider mounts, and every later change
// written to local storage and to the document's data-theme attribute.
module ThemeProvider {
  import opened Wrappers

  datatype Theme = Dark | Light

  function ThemeName(t: Theme): string { if t == Dark then "dark" else "light" }

  /** The saved text, if it names a theme. */
  function SavedTheme(saved: Option<string>): (r: Option<Theme>)
    ensures r.Some? <==> saved == Some("dark") || saved == Some("light")
    ensures r.Some? ==> saved == Some(ThemeName(r.value))
  {
    if saved == Some("dark") then Some(Dark)
    else if saved == Some("light") then Some(Light)
    else None
  }

  /** Writing a theme's name and reading it back gives the theme. */
  lemma SavedThemeRoundTrip(t: Theme)
    ensures SavedTheme(Some(ThemeName(t))) == Some(t)
  {
  }

  /** toggleTheme's step: dark becomes light and anything else dark. */
  function Toggled(t: Theme): (r: Theme)
    ensures r != t
  {
    if t == Dark then Light else Dark
  }

  /** Toggling twice comes back to the start; light is reached exactly from dark. */
  lemma ToggleTwice(t: Theme)
    ensures Toggled(Toggled(t)) == t
    ensures Toggled(t) == Light <==> t == Dark
  {
  }

  class ThemeState {
    var theme: Theme
    var mounted: bool
    /** Local storage under the theme key. */
    var stored: Option<string>
    /** The document's data-theme attribute, None before it is first set. */
    var attribute: Option<string>

    /** The state before the mount effect: dark and not mounted. */
    constructor (stored: Option<string>)
      ensures theme == Dark && !mounted && this.stored == stored && attribute == None
    {
      theme := Dark;
      mounted := false;
      this.stored := stored;
      attribute := None;
    }

    /**
     * The mount effect and then the save effect it triggers: a saved
     * 'dark' or 'light' is adopted (anything else leaves the theme as it
     * is), then the theme is written to storage and to the attribute.
     */
    method Mount()
      modifies this
      ensures SavedTheme(old(stored)).Some? ==> theme == SavedTheme(old(stored)).value
      ensures SavedTheme(old(stored)).None? ==> theme == old(theme)
      ensures mounted && stored == Some(ThemeName(theme)) && attribute == Some(ThemeName(theme))
    {
      var saved := SavedTheme(stored);
      if saved.Some? {
        theme := saved.value;
        attribute := Some(ThemeName(saved.value));
      } else {
        attribute := Some("dark");
      }
      mounted := true;
      Persist();
    }

    /** The save effect: once mounted, the theme goes to the attribute and to storage. */
    method Persist()
      modifies this
      ensures mounted ==> stored == Some(ThemeName(theme)) && attribute == Some(ThemeName(theme))
      ensures !mounted ==> stored == old(stored) && attribute == old(attribute)
      ensures theme == old(theme) && mounted == old(mounted)
    {
      if !mounted {
        return;
      }
      attribute := Some(ThemeName(theme));
      stored := Some(ThemeName(theme));
    }

    /** setTheme, followed by the save effect. */
    method SetTheme(t: Theme)
      modifies this
      ensures theme == t && mounted == old(mounted)
      ensures mounted ==> stored == Some(ThemeName(t)) && attribute == Some(ThemeName(t))
      ensures !mounted ==> stored == old(stored) && attribute == old(attribute)
    {
      theme := t;
      Persist();
    }

    /** toggleTheme, followed by the save effect. */
    method ToggleTheme()
      modifies this
      ensures theme == Toggled(old(theme)) && mounted == old(mounted)
      ensures mounted ==> stored == Some(ThemeName(theme)) && attribute == Some(ThemeName(theme))
      ensures !mounted ==> stored == old(stored) && attribute == old(attribute)
    {
      theme := Toggled(theme);
      Persist();
    }
  }
}
