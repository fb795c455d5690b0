/**
 * Theme resolution and application (src/theme.ts). The stored theme wins
 * when it is valid, then the dark-mode media signal, then light; applying
 * a theme leaves exactly one of the two theme classes on the document root.
 */
module Theme {
  import opened Optional
  import opened WebStorage

  /** `Theme = 'light' | 'dark'` (the `WebTheme` enum has the same two members). */
  datatype Theme = Light | Dark

  /** The string a theme is stored as. */
  function ThemeName(t: Theme): string
  {
    match t
    case Light => "light"
    case Dark => "dark"
  }

  const LightClass: string := "theme-light"
  const DarkClass: string := "theme-dark"

  /** The root class that marks a theme. */
  function ThemeClass(t: Theme): string
  {
    match t
    case Light => LightClass
    case Dark => DarkClass
  }

  /**
   * `readStoredTheme`: the stored value if it is exactly `"light"` or
   * `"dark"`; nothing when there is no window or the value is anything else.
   */
  function ReadStoredTheme(hasWindow: bool, raw: Option<string>): (r: Option<Theme>)
    ensures r.Some? <==> hasWindow && (raw == Some("light") || raw == Some("dark"))
    ensures r.Some? ==> raw == Some(ThemeName(r.value))
  {
    if !hasWindow then None
    else if raw == Some("light") then Some(Light)
    else if raw == Some("dark") then Some(Dark)
    else None
  }

  /**
   * The decision chain of `initTheme`: a stored theme, else the media signal
   * when `matchMedia` is available, else light.
   */
  function ResolveTheme(stored: Option<Theme>, mediaAvailable: bool, prefersDark: bool): (t: Theme)
    ensures stored.Some? ==> t == stored.value
    ensures stored.None? && mediaAvailable ==> (t == Dark <==> prefersDark)
    ensures stored.None? && !mediaAvailable ==> t == Light
  {
    if stored.Some? then stored.value
    else if mediaAvailable then (if prefersDark then Dark else Light)
    else Light
  }

  /** The root class list after `applyTheme(t)` on a document. */
  function AppliedClasses(classes: set<string>, t: Theme): (r: set<string>)
    ensures LightClass in r <==> t == Light
    ensures DarkClass in r <==> t == Dark
    ensures forall c :: c != LightClass && c != DarkClass ==> (c in r <==> c in classes)
  {
    classes - {LightClass, DarkClass} + {ThemeClass(t)}
  }

  /** Applying the same theme twice is the same as applying it once. */
  lemma AppliedClassesIdempotent(classes: set<string>, t: Theme)
    ensures AppliedClasses(AppliedClasses(classes, t), t) == AppliedClasses(classes, t)
  {
  }

  /** A theme written by `setTheme` is read back and chosen by the next `initTheme`, whatever the media signal. */
  lemma StoredThemeWins(t: Theme, mediaAvailable: bool, prefersDark: bool)
    ensures ResolveTheme(ReadStoredTheme(true, Some(ThemeName(t))), mediaAvailable, prefersDark) == t
  {
  }

  /** The page: the browser capabilities as constants, the local storage and the root's class list. */
  class Page {
    /** `typeof window !== 'undefined'` */
    const hasWindow: bool
    /** `typeof document !== 'undefined'` */
    const hasDocument: bool
    /** `'matchMedia' in window` */
    const hasMatchMedia: bool
    /** `window.matchMedia('(prefers-color-scheme: dark)').matches` */
    const prefersDark: bool
    const storage: LocalStorage
    /** `document.documentElement.classList` */
    var rootClasses: set<string>

    constructor (hasWindow: bool, hasDocument: bool, hasMatchMedia: bool, prefersDark: bool,
                 storage: LocalStorage, rootClasses: set<string>)
      ensures this.hasWindow == hasWindow && this.hasDocument == hasDocument
      ensures this.hasMatchMedia == hasMatchMedia && this.prefersDark == prefersDark
      ensures this.storage == storage && this.rootClasses == rootClasses
    {
      this.hasWindow := hasWindow;
      this.hasDocument := hasDocument;
      this.hasMatchMedia := hasMatchMedia;
      this.prefersDark := prefersDark;
      this.storage := storage;
      this.rootClasses := rootClasses;
    }

    /** `applyTheme`: removes both theme classes, then adds the one for `t`; without a document it does nothing. */
    method ApplyTheme(t: Theme)
      modifies this`rootClasses
      ensures hasDocument ==> rootClasses == AppliedClasses(old(rootClasses), t)
      ensures !hasDocument ==> rootClasses == old(rootClasses)
    {
      if !hasDocument {
        return;
      }
      rootClasses := rootClasses - {LightClass, DarkClass};
      match t
      case Light => rootClasses := rootClasses + {LightClass};
      case Dark => rootClasses := rootClasses + {DarkClass};
    }

    /** `initTheme`: resolves the theme, applies it and returns the theme it applied. */
    method InitTheme() returns (t: Theme)
      modifies this`rootClasses
      ensures t == ResolveTheme(ReadStoredTheme(hasWindow, storage.theme), hasWindow && hasMatchMedia, prefersDark)
      ensures hasDocument ==> rootClasses == AppliedClasses(old(rootClasses), t)
      ensures !hasDocument ==> rootClasses == old(rootClasses)
    {
      var stored := ReadStoredTheme(hasWindow, storage.theme);
      t := ResolveTheme(stored, hasWindow && hasMatchMedia, prefersDark);
      ApplyTheme(t);
    }

    /** `setTheme`: stores the theme when there is a window, then applies it. */
    method SetTheme(t: Theme)
      modifies this`rootClasses, storage`theme
      ensures hasWindow ==> storage.theme == Some(ThemeName(t))
      ensures !hasWindow ==> storage.theme == old(storage.theme)
      ensures hasDocument ==> rootClasses == AppliedClasses(old(rootClasses), t)
      ensures !hasDocument ==> rootClasses == old(rootClasses)
    {
      if hasWindow {
        storage.theme := Some(ThemeName(t));
      }
      ApplyTheme(t);
    }
  }

  /** With a window, `setTheme(t)` followed by `initTheme()` returns `t`, and the root keeps exactly `t`'s class. */
  method SetThenInit(page: Page, t: Theme) returns (r: Theme)
    requires page.hasWindow
    modifies page`rootClasses, page.storage`theme
    ensures r == t
    ensures page.hasDocument ==> page.rootClasses == AppliedClasses(old(page.rootClasses), t)
  {
    page.SetTheme(t);
    r := page.InitTheme();
    StoredThemeWins(t, page.hasWindow && page.hasMatchMedia, page.prefersDark);
    AppliedClassesIdempotent(old(page.rootClasses), t);
  }
}
