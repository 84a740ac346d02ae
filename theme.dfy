/**
 * lib/ThemeContext.tsx: the light/dark theme. The state, the entry in local
 * storage and the `dark` class on the document root are kept together.
 */
module Theme {

  import opened Wrappers

  datatype ThemeName = Light | Dark

  const StorageKey := "eonite-theme"

  function Name(theme: ThemeName): (name: string) {
    match theme
    case Light => "light"
    case Dark => "dark"
  }

  /** A stored value counts only if it is exactly "light" or "dark". */
  function ParseSaved(saved: Option<string>): (theme: Option<ThemeName>)
    ensures theme.Some? <==> saved == Some("light") || saved == Some("dark")
    ensures theme.Some? ==> Name(theme.value) == saved.value
  {
    if saved == Some("light") then Some(Light)
    else if saved == Some("dark") then Some(Dark)
    else None
  }

  /** What `setTheme` stores is read back as the same theme. */
  lemma ParseSavedName(theme: ThemeName)
    ensures ParseSaved(Some(Name(theme))) == Some(theme)
  {
  }

  /** The other theme. */
  function Toggled(theme: ThemeName): (t: ThemeName)
    ensures t != theme
  {
    if theme == Light then Dark else Light
  }

  /** Toggling twice gives back the theme. */
  lemma ToggleTwice(theme: ThemeName)
    ensures Toggled(Toggled(theme)) == theme
  {
  }

  /** The theme chosen on mount: a valid saved value wins over the system preference. */
  function MountTheme(saved: Option<string>, prefersDark: bool): (theme: ThemeName)
    ensures ParseSaved(saved).Some? ==> theme == ParseSaved(saved).value
    ensures ParseSaved(saved).None? ==> (theme == Dark <==> prefersDark)
  {
    match ParseSaved(saved)
    case Some(t) => t
    case None => if prefersDark then Dark else Light
  }

  class ThemeProvider {
    var theme: ThemeName
    var storage: map<string, string>
    /** Whether the document root carries the `dark` class. */
    var darkClass: bool

    /** The document's class follows the theme. */
    predicate Valid()
      reads this
    {
      darkClass <==> theme == Dark
    }

    /**
     * The initial state: `document` is `None` on the server, where the theme is
     * light, and otherwise tells whether the root already has the `dark` class.
     */
    constructor (document: Option<bool>, storage: map<string, string>)
      ensures Valid() && this.storage == storage
      ensures theme == if document == Some(true) then Dark else Light
    {
      theme := if document == Some(true) then Dark else Light;
      darkClass := document == Some(true);
      this.storage := storage;
    }

    /** `applyTheme`: add or remove the `dark` class. */
    method ApplyTheme(newTheme: ThemeName)
      modifies this
      ensures darkClass <==> newTheme == Dark
      ensures theme == old(theme) && storage == old(storage)
    {
      darkClass := newTheme == Dark;
    }

    /** `setTheme`: switch, remember and apply. */
    method SetTheme(newTheme: ThemeName)
      modifies this
      ensures Valid()
      ensures theme == newTheme
      ensures storage == old(storage)[StorageKey := Name(newTheme)]
    {
      theme := newTheme;
      storage := storage[StorageKey := Name(newTheme)];
      ApplyTheme(newTheme);
    }

    /** `toggleTheme`: set the other theme. */
    method ToggleTheme()
      modifies this
      ensures Valid()
      ensures theme == Toggled(old(theme))
      ensures storage == old(storage)[StorageKey := Name(theme)]
    {
      SetTheme(if theme == Light then Dark else Light);
    }

    /**
     * The mount effect: adopt the saved theme, or the system preference when
     * nothing valid is saved; apply it only if it differs, and store nothing.
     */
    method Mount(prefersDark: bool)
      requires Valid()
      modifies this
      ensures Valid()
      ensures theme == MountTheme(if StorageKey in storage then Some(storage[StorageKey]) else None, prefersDark)
      ensures storage == old(storage)
      ensures theme == old(theme) ==> darkClass == old(darkClass)
    {
      var saved := ParseSaved(if StorageKey in storage then Some(storage[StorageKey]) else None);
      if saved.Some? {
        if saved.value != theme {
          theme := saved.value;
          ApplyTheme(saved.value);
        }
      } else {
        var systemTheme := if prefersDark then Dark else Light;
        if systemTheme != theme {
          theme := systemTheme;
          ApplyTheme(systemTheme);
        }
      }
    }
  }

  /** Toggling twice restores the theme and leaves it stored. */
  method ToggleTwiceRestores(provider: ThemeProvider)
    modifies provider
    ensures provider.Valid() && provider.theme == old(provider.theme)
    ensures provider.storage == old(provider.storage)[StorageKey := Name(old(provider.theme))]
  {
    provider.ToggleTheme();
    provider.ToggleTheme();
    ToggleTwice(old(provider.theme));
  }
}
