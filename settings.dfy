/**
 * SettingsScreen: the appearance settings. The values themselves live in the
 * app shell, which seeds them from preferences (writing them back is not part
 * of this model); the screen shows them, opens the theme dialog, and passes
 * each choice up.
 *
 * Colours are 32-bit ARGB values written as unsigned numbers.
 */
module SettingsScreen {
  import opened Common
  import opened AppShell

  /** The label of a theme mode; anything but "light" and "dark" reads as the system default. */
  function FormatThemeName(mode: string): (name: string)
    ensures name == "Light" <==> mode == "light"
    ensures name == "Dark" <==> mode == "dark"
    ensures name == "System Default" <==> mode != "light" && mode != "dark"
  {
    if mode == "light" then "Light"
    else if mode == "dark" then "Dark"
    else "System Default"
  }

  /**
   * The name shown for a mode describes the theme the shell applies for it:
   * "Light" never dark, "Dark" always dark, "System Default" following the
   * system — the two fallbacks agree on every other string.
   */
  lemma ThemeNameDescribesTheme(mode: string)
    ensures FormatThemeName(mode) == "Light" <==> !IsDarkTheme(mode, true)
    ensures FormatThemeName(mode) == "Dark" <==> IsDarkTheme(mode, false)
    ensures FormatThemeName(mode) == "System Default" <==> IsDarkTheme(mode, true) && !IsDarkTheme(mode, false)
  {
  }

  datatype ThemeOption = ThemeOption(name: string, mode: string)

  /** The dialog's three rows, top to bottom. */
  const THEME_OPTIONS: seq<ThemeOption> := [
    ThemeOption("System Default", "system"),
    ThemeOption("Light", "light"),
    ThemeOption("Dark", "dark")
  ]

  /** A row is highlighted when its mode is the current one. */
  predicate IsSelected(option: ThemeOption, currentMode: string) {
    option.mode == currentMode
  }

  /** The rows highlighted for a current mode. */
  function SelectedRows(currentMode: string): set<int> {
    set k | 0 <= k < |THEME_OPTIONS| && IsSelected(THEME_OPTIONS[k], currentMode)
  }

  /**
   * At most one row is highlighted, and one is exactly when the mode is one of
   * the three; that row carries the same name the settings item shows.
   */
  lemma AtMostOneThemeSelected(currentMode: string)
    ensures |SelectedRows(currentMode)| <= 1
    ensures |SelectedRows(currentMode)| == 1 <==> currentMode in {"system", "light", "dark"}
    ensures forall k :: k in SelectedRows(currentMode) ==> THEME_OPTIONS[k].name == FormatThemeName(currentMode)
  {
    if currentMode == "system" {
      assert SelectedRows(currentMode) == {0};
    } else if currentMode == "light" {
      assert SelectedRows(currentMode) == {1};
    } else if currentMode == "dark" {
      assert SelectedRows(currentMode) == {2};
    } else {
      assert SelectedRows(currentMode) == {};
    }
  }

  /** The accent swatches, left to right. */
  const APP_COLORS: seq<nat> := [
    0xFF2D31FA, 0xFF6750A4, 0xFF006D44, 0xFF7A5900,
    0xFFB3261E, 0xFF944B00, 0xFF006874, 0xFF984061
  ]

  /** The accent used until one is chosen (the first swatch, blue). */
  const SEED_BLUE: nat := 0xFF2D31FA

  /** The swatches checked for the current accent: the ones equal to it, so at most one. */
  lemma AtMostOneSwatchSelected(selected: nat, i: int, j: int)
    requires 0 <= i < j < |APP_COLORS|
    ensures !(APP_COLORS[i] == selected && APP_COLORS[j] == selected)
  {
  }

  /** The appearance settings the shell holds, and whether the theme dialog is open. */
  class AppearanceSettings {
    var themeMode: string
    var useDynamicColors: bool
    var useAmoled: bool
    var customColor: nat
    var showThemeDialog: bool

    /** The saved values, each replaced by its default when absent: "system", wallpaper colours on, AMOLED off, blue. */
    constructor(savedTheme: Option<string>, savedDynamic: Option<bool>, savedAmoled: Option<bool>, savedColor: Option<nat>)
      ensures themeMode == (if savedTheme.Some? then savedTheme.value else "system")
      ensures useDynamicColors == (if savedDynamic.Some? then savedDynamic.value else true)
      ensures useAmoled == (if savedAmoled.Some? then savedAmoled.value else false)
      ensures customColor == (if savedColor.Some? then savedColor.value else SEED_BLUE)
      ensures !showThemeDialog
    {
      themeMode := if savedTheme.Some? then savedTheme.value else "system";
      useDynamicColors := if savedDynamic.Some? then savedDynamic.value else true;
      useAmoled := if savedAmoled.Some? then savedAmoled.value else false;
      customColor := if savedColor.Some? then savedColor.value else SEED_BLUE;
      showThemeDialog := false;
    }

    /** The value shown on the "App Theme" item. */
    function ThemeItemValue(): string
      reads this
    {
      FormatThemeName(themeMode)
    }

    /** The accent picker is offered only while wallpaper colours are off. */
    predicate AccentPickerVisible()
      reads this
    {
      !useDynamicColors
    }

    /** Tapping "App Theme" opens the dialog. */
    method OpenThemeDialog()
      modifies this
      ensures showThemeDialog
      ensures themeMode == old(themeMode) && useDynamicColors == old(useDynamicColors)
      ensures useAmoled == old(useAmoled) && customColor == old(customColor)
    {
      showThemeDialog := true;
    }

    /** Choosing a row passes its mode up, which becomes the theme, and closes the dialog. */
    method SelectTheme(option: ThemeOption)
      modifies this
      ensures themeMode == option.mode && !showThemeDialog
      ensures useDynamicColors == old(useDynamicColors)
      ensures useAmoled == old(useAmoled) && customColor == old(customColor)
    {
      themeMode := option.mode;
      showThemeDialog := false;
    }

    /** Cancel, or tapping outside, closes the dialog and changes nothing else. */
    method DismissThemeDialog()
      modifies this
      ensures !showThemeDialog
      ensures themeMode == old(themeMode) && useDynamicColors == old(useDynamicColors)
      ensures useAmoled == old(useAmoled) && customColor == old(customColor)
    {
      showThemeDialog := false;
    }

    /** The wallpaper-colours switch; turning it off reveals the accent picker. */
    method SetDynamicColors(enabled: bool)
      modifies this
      ensures useDynamicColors == enabled
      ensures AccentPickerVisible() <==> !enabled
      ensures themeMode == old(themeMode) && showThemeDialog == old(showThemeDialog)
      ensures useAmoled == old(useAmoled) && customColor == old(customColor)
    {
      useDynamicColors := enabled;
    }

    method SetAmoled(enabled: bool)
      modifies this
      ensures useAmoled == enabled
      ensures themeMode == old(themeMode) && showThemeDialog == old(showThemeDialog)
      ensures useDynamicColors == old(useDynamicColors) && customColor == old(customColor)
    {
      useAmoled := enabled;
    }

    /** Tapping a swatch makes it the accent. */
    method SelectColor(k: int)
      requires 0 <= k < |APP_COLORS|
      modifies this
      ensures customColor == APP_COLORS[k]
      ensures themeMode == old(themeMode) && showThemeDialog == old(showThemeDialog)
      ensures useDynamicColors == old(useDynamicColors) && useAmoled == old(useAmoled)
    {
      customColor := APP_COLORS[k];
    }
  }

  /** After choosing a row, the settings item shows that row's label and only that row is highlighted. */
  lemma ChosenRowIsShown(k: int)
    requires 0 <= k < |THEME_OPTIONS|
    ensures FormatThemeName(THEME_OPTIONS[k].mode) == THEME_OPTIONS[k].name
    ensures SelectedRows(THEME_OPTIONS[k].mode) == {k}
  {
    AtMostOneThemeSelected(THEME_OPTIONS[k].mode);
    assert k in SelectedRows(THEME_OPTIONS[k].mode);
  }
}
