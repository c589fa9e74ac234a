/** The colour theme: 'dark', 'light' or 'system', kept in browser storage and
    applied as a class on the document's root element. */
module ThemeContext {
  import opened Wrappers
  import opened Seqs

  /** A theme name. The stored value is read back unchecked, so any string can
      reach the state. */
  type Theme = string

  const OutsideProviderMessage := "useTheme must be used within a ThemeProvider"

  predicate IsTheme(t: Theme) {
    t == "dark" || t == "light" || t == "system"
  }

  /** The stored theme when there is a non-empty one, else the default. */
  function InitialTheme(storage: map<string, string>, key: string, defaultTheme: Theme): (t: Theme)
    ensures key in storage && storage[key] != "" ==> t == storage[key]
    ensures !(key in storage && storage[key] != "") ==> t == defaultTheme
  {
    if key in storage && storage[key] != "" then storage[key] else defaultTheme
  }

  /** A theme that was set is the one read back on the next load. */
  lemma SetThemeSurvivesReload(storage: map<string, string>, key: string, t: Theme, defaultTheme: Theme)
    requires t != ""
    ensures InitialTheme(storage[key := t], key, defaultTheme) == t
  {
  }

  /** The class a theme puts on the root: the media-query answer for 'system',
      the theme's own name otherwise. */
  function ResolvedClass(theme: Theme, prefersDark: bool): (c: string)
    ensures theme == "system" ==> c == (if prefersDark then "dark" else "light")
    ensures theme != "system" ==> c == theme
  {
    if theme == "system" then (if prefersDark then "dark" else "light") else theme
  }

  /** `classList.add`: a token already present stays where it is, a new one
      goes at the end. */
  function AddToken(classes: seq<string>, token: string): (r: seq<string>)
    ensures token in r
    ensures token in classes ==> r == classes
    ensures token !in classes ==> r == classes + [token]
  {
    if token in classes then classes else classes + [token]
  }

  /** `classList.remove('light', 'dark')`. */
  function RemoveModeClasses(classes: seq<string>): (r: seq<string>)
    ensures "light" !in r && "dark" !in r
  {
    var once := Without(classes, "light");
    assert multiset(Without(once, "dark"))["light"] == multiset(once)["light"] == 0;
    Without(once, "dark")
  }

  /** The root's classes after the theme effect has run. */
  function ApplyClasses(classes: seq<string>, theme: Theme, prefersDark: bool): (r: seq<string>)
    ensures ResolvedClass(theme, prefersDark) in r
    ensures "light" in r ==> ResolvedClass(theme, prefersDark) == "light"
    ensures "dark" in r ==> ResolvedClass(theme, prefersDark) == "dark"
  {
    AddToken(RemoveModeClasses(classes), ResolvedClass(theme, prefersDark))
  }

  /** For the three themes the root ends with exactly one of 'light' and
      'dark': the one the theme resolves to. */
  lemma ExactlyOneModeClass(classes: seq<string>, theme: Theme, prefersDark: bool)
    requires IsTheme(theme)
    ensures var r := ApplyClasses(classes, theme, prefersDark);
      ResolvedClass(theme, prefersDark) in r && (("light" in r) != ("dark" in r))
  {
    var kept := RemoveModeClasses(classes);
    var c := ResolvedClass(theme, prefersDark);
    assert c == "light" || c == "dark";
    assert ApplyClasses(classes, theme, prefersDark) == kept + [c];
  }

  /** Every other class of the root is kept, as often as it was there. */
  lemma OtherClassesKept(classes: seq<string>, theme: Theme, prefersDark: bool, c: string)
    requires c != "light" && c != "dark" && c != ResolvedClass(theme, prefersDark)
    ensures multiset(ApplyClasses(classes, theme, prefersDark))[c] == multiset(classes)[c]
  {
    var once := Without(classes, "light");
    var kept := Without(once, "dark");
    assert multiset(once)[c] == multiset(classes)[c];
    assert multiset(kept)[c] == multiset(once)[c];
    if ResolvedClass(theme, prefersDark) !in kept {
      assert multiset(kept + [ResolvedClass(theme, prefersDark)]) == multiset(kept) + multiset{ResolvedClass(theme, prefersDark)};
    }
  }

  /** Running the effect a second time changes nothing. */
  lemma ApplyIdempotent(classes: seq<string>, theme: Theme, prefersDark: bool)
    ensures ApplyClasses(ApplyClasses(classes, theme, prefersDark), theme, prefersDark) ==
            ApplyClasses(classes, theme, prefersDark)
  {
    var c := ResolvedClass(theme, prefersDark);
    var kept := RemoveModeClasses(classes);
    var once := AddToken(kept, c);
    if c == "light" || c == "dark" {
      assert once == kept + [c];
      WithoutConcat(kept, [c], "light");
      WithoutConcat(Without(kept, "light"), Without([c], "light"), "dark");
      assert Without(Without([c], "light"), "dark") == [];
      assert RemoveModeClasses(once) == kept;
    } else {
      assert "light" !in once && "dark" !in once;
      assert RemoveModeClasses(once) == once;
    }
  }

  /** A root list without repeats keeps none after the effect. */
  lemma ApplyKeepsDistinct(classes: seq<string>, theme: Theme, prefersDark: bool)
    requires NoDuplicates(classes)
    ensures NoDuplicates(ApplyClasses(classes, theme, prefersDark))
  {
    var once := Without(classes, "light");
    WithoutKeepsDistinct(classes, "light");
    WithoutKeepsDistinct(once, "dark");
    var kept := Without(once, "dark");
    var c := ResolvedClass(theme, prefersDark);
    if c !in kept {
      AppendNoDuplicates(kept, c);
    }
  }

  /** The header's switch: 'dark' becomes 'light', anything else 'dark'. */
  function ToggledTheme(theme: Theme): (t: Theme)
    ensures t == "dark" || t == "light"
    ensures t == "light" <==> theme == "dark"
  {
    if theme == "dark" then "light" else "dark"
  }

  /** Between 'dark' and 'light' the switch undoes itself; from 'system' it
      takes two presses to come back to 'dark', never to 'system'. */
  lemma ToggleRoundTrip(theme: Theme)
    ensures theme == "dark" || theme == "light" ==> ToggledTheme(ToggledTheme(theme)) == theme
    ensures theme != "dark" && theme != "light" ==> ToggledTheme(ToggledTheme(theme)) == "light"
  {
  }

  /** Pressing the switch always changes the root's mode class to the other one,
      whatever the system prefers: the toggle never picks 'system'. */
  lemma ToggleFlipsModeClass(classes: seq<string>, theme: Theme, prefersDark: bool)
    requires IsTheme(theme)
    ensures var before := ApplyClasses(classes, theme, prefersDark);
      var after := ApplyClasses(before, ToggledTheme(theme), prefersDark);
      ("dark" in after) <==> theme != "dark"
  {
    var before := ApplyClasses(classes, theme, prefersDark);
    ExactlyOneModeClass(before, ToggledTheme(theme), prefersDark);
  }

  /** What `useTheme` hands out. */
  datatype ThemeState = ThemeState(theme: Theme)

  /** `useTheme`: the provider's state, or the error it throws outside one. */
  function UseTheme(context: Option<ThemeState>): (r: Result<ThemeState, string>)
    ensures context.None? <==> r.Failure?
    ensures r.Failure? ==> r.error == OutsideProviderMessage
    ensures context.Some? ==> r == Success(context.value)
  {
    if context.None? then Failure(OutsideProviderMessage) else Success(context.value)
  }

  class ThemeProvider {
    const storageKey: string
    var theme: Theme
    var storage: map<string, string>
    var rootClasses: seq<string>

    /** Reads the stored theme, then runs the effect once on mount. */
    constructor (initialStorage: map<string, string>, key: string, defaultTheme: Theme,
                 initialClasses: seq<string>, prefersDark: bool)
      ensures storageKey == key && storage == initialStorage
      ensures theme == InitialTheme(initialStorage, key, defaultTheme)
      ensures rootClasses == ApplyClasses(initialClasses, theme, prefersDark)
    {
      storageKey := key;
      storage := initialStorage;
      theme := InitialTheme(initialStorage, key, defaultTheme);
      rootClasses := initialClasses;
      new;
      ApplyTheme(prefersDark);
    }

    /** The effect: drop both mode classes, then add the resolved one. */
    method ApplyTheme(prefersDark: bool)
      modifies this`rootClasses
      ensures rootClasses == ApplyClasses(old(rootClasses), theme, prefersDark)
    {
      rootClasses := Without(rootClasses, "light");
      rootClasses := Without(rootClasses, "dark");
      if theme == "system" {
        var systemTheme := if prefersDark then "dark" else "light";
        rootClasses := AddToken(rootClasses, systemTheme);
        return;
      }
      rootClasses := AddToken(rootClasses, theme);
    }

    /** Stores the theme and makes it current. The effect reruns only when the
        theme actually changed. */
    method SetTheme(t: Theme, prefersDark: bool)
      modifies this`storage, this`theme, this`rootClasses
      ensures storage == old(storage)[storageKey := t] && theme == t
      ensures t != old(theme) ==> rootClasses == ApplyClasses(old(rootClasses), t, prefersDark)
      ensures t == old(theme) ==> rootClasses == old(rootClasses)
    {
      storage := storage[storageKey := t];
      if t != theme {
        theme := t;
        ApplyTheme(prefersDark);
      }
    }
  }
}
