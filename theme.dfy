/**
 The theme container (app/context/ThemeContext.tsx): a three-valued mode that
 the user sets or cycles, resolved against the colour scheme the device reports
 to a concrete light or dark theme, which selects the palette.
 */
module Theme {
  import opened Collections

  /** `'light' | 'dark' | 'auto'`. */
  datatype ThemeMode = LightMode | DarkMode | AutoMode

  /** The resolved theme, `'light' | 'dark'`. */
  datatype Scheme = Light | Dark

  /** Which of the two colour tables is in use. */
  datatype Palette = LightColors | DarkColors

  /**
   What `useColorScheme()` reports: `None` for null, otherwise the string the
   platform gives (normally "light" or "dark").
   */
  type SystemScheme = Option<string>

  /** `getActiveTheme`: only `auto` consults the device, and only "dark" gives dark. */
  function ActiveTheme(mode: ThemeMode, system: SystemScheme): (t: Scheme)
    ensures mode == AutoMode ==> (t == Dark <==> system == Some("dark"))
    ensures mode == LightMode ==> t == Light
    ensures mode == DarkMode ==> t == Dark
  {
    match mode
    case AutoMode => if system == Some("dark") then Dark else Light
    case LightMode => Light
    case DarkMode => Dark
  }

  /** `theme === 'dark' ? darkColors : lightColors`. */
  function PaletteOf(t: Scheme): (p: Palette)
    ensures p == DarkColors <==> t == Dark
  {
    if t == Dark then DarkColors else LightColors
  }

  /** The step `toggleTheme` applies: auto, then light, then dark, then auto again. */
  function Toggled(mode: ThemeMode): (next: ThemeMode)
    ensures next != mode
    ensures next == AutoMode <==> mode == DarkMode
  {
    match mode
    case AutoMode => LightMode
    case LightMode => DarkMode
    case DarkMode => AutoMode
  }

  /** The mode after `k` toggles. */
  function Toggles(mode: ThemeMode, k: nat): ThemeMode
    decreases k
  {
    if k == 0 then mode else Toggles(Toggled(mode), k - 1)
  }

  /** A toggle always changes the mode, and never lands back after two. */
  lemma ToggleMoves(mode: ThemeMode)
    ensures Toggled(mode) != mode
    ensures Toggled(Toggled(mode)) != mode
    ensures Toggled(Toggled(Toggled(mode))) == mode
  {
  }

  /** Toggling has period three: only the number of toggles modulo 3 matters. */
  lemma {:induction false} TogglesPeriodic(mode: ThemeMode, k: nat)
    ensures Toggles(mode, k) == Toggles(mode, k % 3)
    decreases k
  {
    if k >= 3 {
      ToggleMoves(mode);
      calc {
        Toggles(mode, k);
        Toggles(Toggled(mode), k - 1);
        Toggles(Toggled(Toggled(mode)), k - 2);
        Toggles(Toggled(Toggled(Toggled(mode))), k - 3);
        Toggles(mode, k - 3);
      }
      TogglesPeriodic(mode, k - 3);
    }
  }

  /** Toggling visits every mode within three presses. */
  lemma TogglesReachAll(from: ThemeMode, to: ThemeMode)
    ensures exists k :: 0 <= k < 3 && Toggles(from, k) == to
  {
    if to == from {
      assert Toggles(from, 0) == to;
    } else if to == Toggled(from) {
      assert Toggles(from, 1) == to;
    } else {
      assert Toggles(from, 2) == to;
    }
  }

  /** Outside `auto` the device's scheme has no influence on the theme. */
  lemma FixedModeIgnoresSystem(mode: ThemeMode, s1: SystemScheme, s2: SystemScheme)
    requires mode != AutoMode
    ensures ActiveTheme(mode, s1) == ActiveTheme(mode, s2)
  {
  }

  /** The palette is the dark one exactly when dark mode is chosen or auto follows a dark device. */
  lemma PaletteChoice(mode: ThemeMode, system: SystemScheme)
    ensures PaletteOf(ActiveTheme(mode, system)) == DarkColors <==>
            mode == DarkMode || (mode == AutoMode && system == Some("dark"))
  {
  }

  /** The container: the `themeMode` state cell, initially `auto`. */
  class ThemeProvider {
    var themeMode: ThemeMode

    constructor ()
      ensures themeMode == AutoMode
    {
      themeMode := AutoMode;
    }

    method SetThemeMode(mode: ThemeMode)
      modifies this
      ensures themeMode == mode
    {
      themeMode := mode;
    }

    method ToggleTheme()
      modifies this
      ensures themeMode == Toggled(old(themeMode))
      ensures themeMode != old(themeMode)
    {
      if themeMode == AutoMode {
        themeMode := LightMode;
      } else if themeMode == LightMode {
        themeMode := DarkMode;
      } else {
        themeMode := AutoMode;
      }
    }

    /** `theme`, recomputed from the current mode and the device's scheme. */
    function CurrentTheme(system: SystemScheme): (t: Scheme)
      reads this
      ensures themeMode == AutoMode ==> (t == Dark <==> system == Some("dark"))
      ensures themeMode == LightMode ==> t == Light
      ensures themeMode == DarkMode ==> t == Dark
    {
      ActiveTheme(themeMode, system)
    }

    /** `colors`. */
    function Colors(system: SystemScheme): (p: Palette)
      reads this
      ensures p == DarkColors <==> themeMode == DarkMode || (themeMode == AutoMode && system == Some("dark"))
    {
      PaletteOf(CurrentTheme(system))
    }
  }

  /** Three presses of the toggle bring any starting mode back. */
  method ToggleThrice(provider: ThemeProvider)
    modifies provider
    ensures provider.themeMode == old(provider.themeMode)
  {
    provider.ToggleTheme();
    provider.ToggleTheme();
    provider.ToggleTheme();
  }
}
