/** The dark-mode flag of the workspace: read from the stored `theme` value
    when the workspace mounts, written back (together with the root element's
    `dark` class) after every change, and negated by the sidebar's toggle. */
module Theme {
  import opened Wrappers

  /** The stored text for a flag: `"dark"` or `"light"`. */
  function ThemeValue(isDark: bool): (value: string)
    ensures value == "dark" <==> isDark
    ensures value == "light" <==> !isDark
  {
    if isDark then "dark" else "light"
  }

  /** The initial flag: on exactly when the stored value is the text written
      for dark mode; a missing value, `"light"` or any other text gives light
      mode. */
  function InitialDarkMode(stored: Option<string>): (isDark: bool)
    ensures isDark <==> stored == Some(ThemeValue(true))
    ensures stored.None? || stored == Some(ThemeValue(false)) ==> !isDark
  {
    stored == Some("dark")
  }

  /** Reading back the value written for a flag gives the flag. */
  lemma ThemeRoundTrip(isDark: bool)
    ensures InitialDarkMode(Some(ThemeValue(isDark))) == isDark
  {
  }

  /** The stored value determines the flag: two flags with the same stored
      text are equal. */
  lemma ThemeValueInjective(a: bool, b: bool)
    requires ThemeValue(a) == ThemeValue(b)
    ensures a == b
  {
  }

  /** The workspace's theme state. */
  class ThemeState {
    /** `isDarkMode`. */
    var isDarkMode: bool
    /** The stored `theme` value; `None` when it was never written. */
    var storedTheme: Option<string>
    /** Whether the root element carries the `dark` class. */
    var rootDark: bool

    /** After the effect has run, storage and the root element follow the flag. */
    ghost predicate Valid()
      reads this
    {
      storedTheme == Some(ThemeValue(isDarkMode)) && rootDark == isDarkMode
    }

    /** Mounting: the flag is read from the stored value, then the effect
        writes the flag back (so anything but `"dark"` is replaced by
        `"light"`). */
    constructor (stored: Option<string>)
      ensures Valid()
      ensures isDarkMode == InitialDarkMode(stored)
      ensures stored == Some("dark") || stored == Some("light") ==> storedTheme == stored
    {
      var isDark := stored == Some("dark");
      isDarkMode := isDark;
      storedTheme := Some(ThemeValue(isDark));
      rootDark := isDark;
    }

    /** `toggleDarkMode`, followed by the effect that persists the new flag. */
    method ToggleDarkMode()
      requires Valid()
      modifies this
      ensures Valid()
      ensures isDarkMode == !old(isDarkMode)
    {
      isDarkMode := !isDarkMode;
      storedTheme := Some(ThemeValue(isDarkMode));
      rootDark := isDarkMode;
    }
  }

  /** Toggling twice gives back the flag, the stored value and the root
      element's class. */
  method ToggleTwice(state: ThemeState)
    requires state.Valid()
    modifies state
    ensures state.Valid()
    ensures state.isDarkMode == old(state.isDarkMode)
    ensures state.storedTheme == old(state.storedTheme) && state.rootDark == old(state.rootDark)
  {
    state.ToggleDarkMode();
    state.ToggleDarkMode();
  }

  /** A reload after a toggle starts in the toggled mode. */
  method ReloadAfterToggle(state: ThemeState) returns (reloaded: ThemeState)
    requires state.Valid()
    modifies state
    ensures fresh(reloaded) && reloaded.Valid()
    ensures reloaded.isDarkMode == !old(state.isDarkMode)
    ensures reloaded.storedTheme == state.storedTheme
  {
    state.ToggleDarkMode();
    ThemeRoundTrip(state.isDarkMode);
    reloaded := new ThemeState(state.storedTheme);
  }
}
