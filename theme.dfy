/** The colour theme switcher: the `data-theme` attribute of the document
    element and the theme remembered in localStorage. */
module Theme {
  import opened Wrappers

  /** Kept outside the `usmc-spb-` prefix, so clearing package storage keeps it. */
  const StorageKey: string := "usmc-tools-theme"
  const Themes: seq<string> := ["dark", "light", "night"]
  const DefaultTheme: string := "dark"

  /** `Array.prototype.indexOf`: the first position of `x`, or -1. */
  function IndexOf(s: seq<string>, x: string): (r: int)
    ensures -1 <= r < |s|
    ensures r == -1 <==> x !in s
    ensures r >= 0 ==> s[r] == x && x !in s[..r]
  {
    if s == [] then -1
    else if s[0] == x then 0
    else
      var i := IndexOf(s[1..], x);
      if i == -1 then -1 else i + 1
  }

  /** The theme `cycle()` moves to from `current`. */
  function NextTheme(current: string): (r: string)
    ensures r in Themes
    ensures current !in Themes ==> r == DefaultTheme
    ensures current in Themes ==> r != current
  {
    Themes[(IndexOf(Themes, current) + 1) % |Themes|]
  }

  /** Cycling goes dark, light, night and back to dark. */
  lemma CycleOrder()
    ensures NextTheme("dark") == "light"
    ensures NextTheme("light") == "night"
    ensures NextTheme("night") == "dark"
  {
  }

  /** Three cycles from any known theme come back to it. */
  lemma ThreeCyclesReturn(t: string)
    requires t in Themes
    ensures NextTheme(NextTheme(NextTheme(t))) == t
  {
    CycleOrder();
  }

  class ThemeManager {
    /** The `data-theme` attribute; None when it is absent. */
    var dataTheme: Option<string>
    /** `localStorage.getItem(STORAGE_KEY)`. */
    var saved: Option<string>

    constructor (saved: Option<string>)
      ensures this.saved == saved && dataTheme == None
    {
      this.saved := saved;
      dataTheme := None;
    }

    /** `getCurrent()`: the attribute, or dark when it is absent or empty. */
    function GetCurrent(): (r: string)
      reads this
      ensures r == DefaultTheme || Some(r) == dataTheme
      ensures dataTheme.None? || dataTheme == Some("") ==> r == DefaultTheme
      ensures dataTheme.Some? && dataTheme.value != "" ==> r == dataTheme.value
    {
      if dataTheme.Some? && dataTheme.value != "" then dataTheme.value else DefaultTheme
    }

    /** `setTheme(theme)`: sets the attribute and remembers the theme. */
    method SetTheme(theme: string)
      modifies this
      ensures dataTheme == Some(theme) && saved == Some(theme)
    {
      dataTheme := Some(theme);
      saved := Some(theme);
    }

    /** `init()`: restores a remembered known theme, and otherwise starts dark. */
    method Init()
      modifies this
      ensures old(saved).Some? && old(saved).value in Themes ==> dataTheme == old(saved)
      ensures !(old(saved).Some? && old(saved).value in Themes) ==> dataTheme == Some(DefaultTheme)
      ensures saved == dataTheme && GetCurrent() in Themes
    {
      if saved.Some? && saved.value != "" && saved.value in Themes {
        SetTheme(saved.value);
      } else {
        SetTheme(DefaultTheme);
      }
    }

    /** `cycle()`: moves to the next theme; an unknown current theme moves to dark. */
    method Cycle()
      modifies this
      ensures dataTheme == Some(NextTheme(old(GetCurrent()))) && saved == dataTheme
      ensures GetCurrent() in Themes
    {
      var current := GetCurrent();
      var nextIndex := (IndexOf(Themes, current) + 1) % |Themes|;
      SetTheme(Themes[nextIndex]);
    }

    /** `toggle()`: the same as `cycle()`. */
    method Toggle()
      modifies this
      ensures dataTheme == Some(NextTheme(old(GetCurrent()))) && saved == dataTheme
    {
      Cycle();
    }
  }
}
