/** The settings record and the operations of the settings context. The
    browser's colour-scheme preference is a parameter; persistence and the
    DOM class toggling are not modelled. */
module Settings {
  import opened Common

  datatype Theme = Light | Dark | SystemTheme
  datatype Density = Comfortable | Compact

  datatype Settings = Settings(
    theme: Theme,
    enableNotifications: bool,
    playSound: bool,
    soundVolume: int,
    layoutDensity: Density,
    sidebarCollapsed: bool)

  const Defaults: Settings := Settings(SystemTheme, true, true, 70, Comfortable, false)

  /** `Partial<Settings>`: an absent key is `None`. */
  datatype Patch = Patch(
    theme: Option<Theme>,
    enableNotifications: Option<bool>,
    playSound: Option<bool>,
    soundVolume: Option<int>,
    layoutDensity: Option<Density>,
    sidebarCollapsed: Option<bool>)

  const EmptyPatch: Patch := Patch(None, None, None, None, None, None)

  function Pick<T>(o: Option<T>, fallback: T): T {
    if o.Some? then o.value else fallback
  }

  /** `updateSettings(u)`: `{ ...prev, ...u }`. */
  function UpdateSettings(s: Settings, u: Patch): (r: Settings)
    ensures u.theme.Some? ==> r.theme == u.theme.value
    ensures u.theme.None? ==> r.theme == s.theme
    ensures u.enableNotifications.Some? ==> r.enableNotifications == u.enableNotifications.value
    ensures u.enableNotifications.None? ==> r.enableNotifications == s.enableNotifications
    ensures u.playSound.Some? ==> r.playSound == u.playSound.value
    ensures u.playSound.None? ==> r.playSound == s.playSound
    ensures u.soundVolume.Some? ==> r.soundVolume == u.soundVolume.value
    ensures u.soundVolume.None? ==> r.soundVolume == s.soundVolume
    ensures u.layoutDensity.Some? ==> r.layoutDensity == u.layoutDensity.value
    ensures u.layoutDensity.None? ==> r.layoutDensity == s.layoutDensity
    ensures u.sidebarCollapsed.Some? ==> r.sidebarCollapsed == u.sidebarCollapsed.value
    ensures u.sidebarCollapsed.None? ==> r.sidebarCollapsed == s.sidebarCollapsed
  {
    Settings(
      Pick(u.theme, s.theme),
      Pick(u.enableNotifications, s.enableNotifications),
      Pick(u.playSound, s.playSound),
      Pick(u.soundVolume, s.soundVolume),
      Pick(u.layoutDensity, s.layoutDensity),
      Pick(u.sidebarCollapsed, s.sidebarCollapsed))
  }

  function Prefer<T>(later: Option<T>, earlier: Option<T>): Option<T> {
    if later.Some? then later else earlier
  }

  /** `{ ...u, ...v }`: the later patch wins key by key. */
  function MergePatches(u: Patch, v: Patch): Patch {
    Patch(
      Prefer(v.theme, u.theme),
      Prefer(v.enableNotifications, u.enableNotifications),
      Prefer(v.playSound, u.playSound),
      Prefer(v.soundVolume, u.soundVolume),
      Prefer(v.layoutDensity, u.layoutDensity),
      Prefer(v.sidebarCollapsed, u.sidebarCollapsed))
  }

  /** Two updates in a row are one update with the merged patch. */
  lemma UpdatesCompose(s: Settings, u: Patch, v: Patch)
    ensures UpdateSettings(UpdateSettings(s, u), v) == UpdateSettings(s, MergePatches(u, v))
  {
  }

  /** An empty patch changes nothing, and applying a patch twice is
      applying it once. */
  lemma UpdateIdentityAndIdempotence(s: Settings, u: Patch)
    ensures UpdateSettings(s, EmptyPatch) == s
    ensures UpdateSettings(UpdateSettings(s, u), u) == UpdateSettings(s, u)
  {
  }

  /** `resetSettings`: the defaults, whatever was stored. */
  function ResetSettings(s: Settings): (r: Settings)
    ensures r.theme == SystemTheme && r.enableNotifications && r.playSound
    ensures r.soundVolume == 70 && r.layoutDensity == Comfortable && !r.sidebarCollapsed
  {
    Defaults
  }

  /** Resetting forgets every earlier update. */
  lemma ResetForgetsUpdates(s: Settings, u: Patch)
    ensures ResetSettings(UpdateSettings(s, u)) == ResetSettings(s)
    ensures UpdateSettings(ResetSettings(s), EmptyPatch) == Defaults
  {
  }

  /** `setTheme(t)`. */
  function SetTheme(s: Settings, t: Theme): (r: Settings)
    ensures r.theme == t
    ensures r.(theme := s.theme) == s
  {
    s.(theme := t)
  }

  lemma SetThemeIsThemeOnlyUpdate(s: Settings, t: Theme)
    ensures SetTheme(s, t) == UpdateSettings(s, EmptyPatch.(theme := Some(t)))
  {
  }

  /** `getAppliedTheme`: without a window the stored theme decides (system
      reads as light); with one, "system" follows the colour-scheme query. */
  function AppliedTheme(theme: Theme, hasWindow: bool, systemDark: bool): (r: Theme)
    ensures r != SystemTheme
    ensures theme != SystemTheme ==> r == theme
    ensures theme == SystemTheme ==> (r == Dark <==> hasWindow && systemDark)
  {
    if !hasWindow then (if theme.Dark? then Dark else Light)
    else if theme.SystemTheme? then (if systemDark then Dark else Light)
    else if theme.Dark? then Dark
    else Light
  }

  function Opposite(t: Theme): Theme {
    if t == Dark then Light else Dark
  }

  /** `toggleTheme`, with `systemDark` standing for a window whose
      colour-scheme query matches dark (false when there is no window). */
  function ToggleTheme(s: Settings, systemDark: bool): (r: Settings)
    ensures r.theme != SystemTheme
    ensures r.(theme := s.theme) == s
  {
    var current := if s.theme.SystemTheme? then (if systemDark then Dark else Light) else s.theme;
    var next := if current.Dark? then Light else Dark;
    s.(theme := next)
  }

  /** The toggle always lands on the opposite of the theme on screen. */
  lemma ToggleFlipsAppliedTheme(s: Settings, systemDark: bool)
    ensures ToggleTheme(s, systemDark).theme == Opposite(AppliedTheme(s.theme, true, systemDark))
    ensures AppliedTheme(ToggleTheme(s, systemDark).theme, true, systemDark)
      != AppliedTheme(s.theme, true, systemDark)
  {
  }

  /** Toggling an explicit theme twice restores it; from "system" two
      toggles land on the theme the system preference showed. */
  lemma ToggleTwice(s: Settings, systemDark: bool, laterDark: bool)
    ensures s.theme != SystemTheme ==> ToggleTheme(ToggleTheme(s, systemDark), laterDark) == s
    ensures s.theme == SystemTheme ==>
      ToggleTheme(ToggleTheme(s, systemDark), laterDark).theme == AppliedTheme(SystemTheme, true, systemDark)
  {
  }

  /** `Math.max(0, Math.min(100, v))` for an integer `v`. */
  function ClampVolume(v: int): (r: int)
    ensures 0 <= r <= 100
    ensures 0 <= v <= 100 ==> r == v
    ensures v < 0 ==> r == 0
    ensures v > 100 ==> r == 100
  {
    if v < 0 then 0 else if v > 100 then 100 else v
  }

  /** `setSoundVolume(v)` for a finite volume `v = num / den`: the value is
      rounded to the nearest integer (halves up, as `Math.round` does) and
      then clamped to [0, 100]. */
  function SetSoundVolume(s: Settings, num: int, den: int): (r: Settings)
    requires den > 0
    ensures 0 <= r.soundVolume <= 100
    ensures 2 * num < den ==> r.soundVolume == 0
    ensures 2 * num >= 199 * den ==> r.soundVolume == 100
    ensures den <= 2 * num < 199 * den ==>
      den * (2 * r.soundVolume - 1) <= 2 * num < den * (2 * r.soundVolume + 1)
    ensures den == 1 && 0 <= num <= 100 ==> r.soundVolume == num
    ensures r.(soundVolume := s.soundVolume) == s
  {
    var rounded := RoundDiv(num, den);
    assert 2 * num < den ==> rounded <= 0 by {
      if 2 * num < den && rounded >= 1 { MulMonotone(den, 1, 2 * rounded - 1); }
    }
    assert 2 * num >= 199 * den ==> rounded >= 100 by {
      if 2 * num >= 199 * den && rounded <= 99 { MulMonotone(den, 2 * rounded + 1, 199); }
    }
    assert den <= 2 * num < 199 * den ==> 1 <= rounded <= 99 by {
      if den <= 2 * num < 199 * den {
        if rounded <= 0 { MulMonotone(den, 2 * rounded + 1, 1); }
        if rounded >= 100 { MulMonotone(den, 199, 2 * rounded - 1); }
      }
    }
    s.(soundVolume := ClampVolume(rounded))
  }

  /** Clamping is idempotent: setting the stored volume again changes nothing. */
  lemma SetSoundVolumeIdempotent(s: Settings, num: int, den: int)
    requires den > 0
    ensures SetSoundVolume(SetSoundVolume(s, num, den), SetSoundVolume(s, num, den).soundVolume, 1)
      == SetSoundVolume(s, num, den)
  {
  }
}
