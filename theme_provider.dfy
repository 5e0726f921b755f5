/** The theme provider: the chosen theme (restored from storage), the
    resolved light-or-dark theme, and the class it puts on the document's
    root and body elements. The operating system's dark-mode preference is
    a parameter. */
module ThemeProvider {
  import opened Wrappers
  import opened Browser

  const Light: string := "light"
  const Dark: string := "dark"
  const System: string := "system"

  /** The provider's defaults: storage key, theme, and system themes on. */
  const DefaultStorageKey: string := "collabity-theme"
  const DefaultTheme: string := System
  const DefaultEnableSystem: bool := true

  /** The three themes the provider offers (storage may hold any string,
      which is read back unchecked). */
  predicate IsTheme(t: string) {
    t == Light || t == Dark || t == System
  }

  /** The initial theme: the stored one when there is one, else the
      default. */
  function InitialTheme(storage: map<string, string>, storageKey: string, defaultTheme: string): (t: string)
    ensures storageKey in storage ==> t == storage[storageKey]
    ensures storageKey !in storage ==> t == defaultTheme
  {
    GetItem(storage, storageKey).GetOr(defaultTheme)
  }

  /** The resolved theme: the system preference for "system" when system
      themes are enabled; otherwise "dark" exactly for "dark". */
  function Resolve(theme: string, enableSystem: bool, systemDark: bool): (r: string)
    ensures r == Light || r == Dark
    ensures theme == System && enableSystem ==> (r == Dark <==> systemDark)
    ensures !(theme == System && enableSystem) ==> (r == Dark <==> theme == Dark)
  {
    if theme == System && enableSystem then (if systemDark then Dark else Light)
    else if theme == Dark then Dark else Light
  }

  /** The theme `toggleTheme` switches to. */
  function Toggled(theme: string): (t: string)
    ensures t == Light || t == Dark
    ensures t == Light <==> theme == Dark
  {
    if theme == Dark then Light else Dark
  }

  /** Toggling twice from light or dark comes back; from "system" it lands
      on light. */
  lemma ToggleTwice(theme: string)
    ensures theme == Light || theme == Dark ==> Toggled(Toggled(theme)) == theme
    ensures theme == System ==> Toggled(theme) == Dark && Toggled(Toggled(theme)) == Light
  {
  }

  /** `appliedTheme`. */
  function Applied(theme: string, resolvedTheme: string): string {
    if theme == System then resolvedTheme else theme
  }

  /** ASCII whitespace as the DOM defines it: tab, line feed, form feed,
      carriage return and space. */
  predicate IsAsciiWhitespace(c: char) {
    c == '\t' || c == '\n' || c == '\U{000C}' || c == '\r' || c == ' '
  }

  /** A string `classList.add` accepts: non-empty and without ASCII
      whitespace. It throws on any other (a SyntaxError for "", an
      InvalidCharacterError for whitespace). */
  predicate IsClassToken(t: string) {
    t != "" && forall i :: 0 <= i < |t| ==> !IsAsciiWhitespace(t[i])
  }

  /** An element's classes after the light and dark classes are removed and
      the applied one is added; when `add` throws, only the removal has
      happened. */
  function WithThemeClass(classes: set<string>, applied: string): (r: set<string>)
    ensures IsClassToken(applied) ==> applied in r
    ensures !IsClassToken(applied) ==> r == classes - {Light, Dark}
    ensures forall c :: c in r && c != applied ==> c in classes && c != Light && c != Dark
    ensures forall c :: c in classes && c != Light && c != Dark ==> c in r
  {
    if IsClassToken(applied) then classes - {Light, Dark} + {applied} else classes - {Light, Dark}
  }

  /** A stored theme that is "" or holds whitespace (read back unchecked) is
      applied as is, so the effect throws after removing the light and dark
      classes, and the element is left with neither. */
  lemma StoredMalformedThemeLeavesNoThemeClass(storage: map<string, string>, storageKey: string, defaultTheme: string,
                                               resolvedTheme: string, classes: set<string>)
    requires storageKey in storage && !IsClassToken(storage[storageKey])
    ensures var r := WithThemeClass(classes, Applied(InitialTheme(storage, storageKey, defaultTheme), resolvedTheme));
      Light !in r && Dark !in r
  {
    var t := InitialTheme(storage, storageKey, defaultTheme);
    assert t == storage[storageKey];
    assert t != System by {
      assert IsClassToken(System) by {
        assert forall i :: 0 <= i < |System| ==> !IsAsciiWhitespace(System[i]);
      }
    }
  }

  /** For any offered theme the applied class is the resolved theme, so
      exactly one of light and dark ends up on the element. */
  lemma AppliedIsResolved(theme: string, enableSystem: bool, systemDark: bool, classes: set<string>)
    requires IsTheme(theme)
    ensures var r := Resolve(theme, enableSystem, systemDark);
      Applied(theme, r) == r &&
      (Light in WithThemeClass(classes, r) <==> r == Light) &&
      (Dark in WithThemeClass(classes, r) <==> r == Dark)
  {
  }

  /** `ThemeProvider`'s state, with its window (for storage) and the class
      lists of the root and body elements. */
  class Provider {
    const enableSystem: bool
    const storageKey: string
    const win: Window
    var theme: string
    var resolvedTheme: string
    var rootClasses: set<string>
    var bodyClasses: set<string>

    /** The resolved theme is light or dark. */
    predicate Valid()
      reads this
    {
      resolvedTheme == Light || resolvedTheme == Dark
    }

    /** The initial state, before the effects run. */
    constructor (win: Window, defaultTheme: string, enableSystem: bool, storageKey: string,
                 systemDark: bool, rootClasses: set<string>, bodyClasses: set<string>)
      ensures this.win == win && this.enableSystem == enableSystem && this.storageKey == storageKey
      ensures theme == InitialTheme(win.storage, storageKey, defaultTheme)
      ensures resolvedTheme == Resolve(theme, enableSystem, systemDark)
      ensures this.rootClasses == rootClasses && this.bodyClasses == bodyClasses
      ensures Valid()
    {
      this.win := win;
      this.enableSystem := enableSystem;
      this.storageKey := storageKey;
      var t := GetItem(win.storage, storageKey).GetOr(defaultTheme);
      theme := t;
      resolvedTheme := Resolve(t, enableSystem, systemDark);
      this.rootClasses := rootClasses;
      this.bodyClasses := bodyClasses;
    }

    /** `setTheme(next)`: change the state and store the choice. */
    method SetTheme(next: string)
      modifies this, win
      ensures theme == next && win.storage == old(win.storage)[storageKey := next]
      ensures win.navigations == old(win.navigations)
      ensures resolvedTheme == old(resolvedTheme) && rootClasses == old(rootClasses) && bodyClasses == old(bodyClasses)
    {
      theme := next;
      win.SetItem(storageKey, next);
    }

    /** `toggleTheme()`. */
    method ToggleTheme()
      modifies this, win
      ensures theme == Toggled(old(theme)) && win.storage == old(win.storage)[storageKey := theme]
      ensures win.navigations == old(win.navigations)
      ensures resolvedTheme == old(resolvedTheme) && rootClasses == old(rootClasses) && bodyClasses == old(bodyClasses)
    {
      SetTheme(if theme == Dark then Light else Dark);
    }

    /** The effect that follows the theme (and, for "system", the system
        preference's change events). */
    method SyncResolvedTheme(systemDark: bool)
      modifies this
      ensures resolvedTheme == Resolve(theme, enableSystem, systemDark) && Valid()
      ensures theme == old(theme) && rootClasses == old(rootClasses) && bodyClasses == old(bodyClasses)
    {
      if theme == System && enableSystem {
        resolvedTheme := if systemDark then Dark else Light;
      } else {
        resolvedTheme := if theme == Dark then Dark else Light;
      }
    }

    /** The effect that puts the applied theme's class on the root and body
        elements. `thrown` reports that `root.classList.add` threw, which
        happens after both removals and before either class is added. */
    method ApplyThemeClass() returns (thrown: bool)
      modifies this
      ensures thrown <==> !IsClassToken(Applied(theme, resolvedTheme))
      ensures rootClasses == WithThemeClass(old(rootClasses), Applied(theme, resolvedTheme))
      ensures bodyClasses == WithThemeClass(old(bodyClasses), Applied(theme, resolvedTheme))
      ensures theme == old(theme) && resolvedTheme == old(resolvedTheme)
    {
      var applied := if theme == System then resolvedTheme else theme;
      rootClasses := rootClasses - {Light, Dark};
      bodyClasses := bodyClasses - {Light, Dark};
      if !IsClassToken(applied) {
        return true;
      }
      rootClasses := rootClasses + {applied};
      bodyClasses := bodyClasses + {applied};
      thrown := false;
    }

    /** A render's two effects in order; `thrown` as for `ApplyThemeClass`. */
    method RunEffects(systemDark: bool) returns (thrown: bool)
      modifies this
      ensures resolvedTheme == Resolve(theme, enableSystem, systemDark) && Valid() && theme == old(theme)
      ensures thrown <==> !IsClassToken(Applied(theme, resolvedTheme))
      ensures rootClasses == WithThemeClass(old(rootClasses), Applied(theme, resolvedTheme))
      ensures bodyClasses == WithThemeClass(old(bodyClasses), Applied(theme, resolvedTheme))
    {
      SyncResolvedTheme(systemDark);
      thrown := ApplyThemeClass();
    }
  }

  /** A chosen theme is the one restored on the next load. */
  lemma ChoiceRestored(storage: map<string, string>, storageKey: string, next: string, defaultTheme: string)
    ensures InitialTheme(storage[storageKey := next], storageKey, defaultTheme) == next
  {
  }
}
