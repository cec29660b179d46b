/**
 * The pure theme helpers over key/value preference records: the current theme,
 * find-or-draft, and the record that flips the theme.
 */
module ThemeRules {
  import opened Wrappers
  import opened Sequences
  import opened UserPreferenceTypes
  import ThemeHook

  const ThemeKey: string := "theme"
  const DefaultTheme: string := "light"

  predicate IsThemeEntry(e: Entry) {
    e.key == ThemeKey
  }

  predicate NoThemeEntry(pref: PreferenceDto) {
    forall i :: 0 <= i < |pref.preferences| ==> pref.preferences[i].key != ThemeKey
  }

  /** The value of the first `theme` entry of the record, `"light"` when there is no record or no such entry. */
  function ComputeTheme(preference: Option<PreferenceDto>): (r: string)
    ensures preference.None? ==> r == DefaultTheme
    ensures preference.Some? && NoThemeEntry(preference.value) ==> r == DefaultTheme
    ensures r != DefaultTheme ==> preference.Some? && Entry(ThemeKey, r) in preference.value.preferences
  {
    if preference.None? then DefaultTheme
    else
      match Find(preference.value.preferences, IsThemeEntry)
      case Some(e) => e.value
      case None => DefaultTheme
  }

  /** When the record has a `theme` entry, the first one decides the theme. */
  lemma ComputeThemeTakesEntry(pref: PreferenceDto, i: nat)
    requires i < |pref.preferences| && pref.preferences[i].key == ThemeKey
    requires forall j :: 0 <= j < i ==> pref.preferences[j].key != ThemeKey
    ensures ComputeTheme(Some(pref)) == pref.preferences[i].value
  {
  }

  predicate HasThemeGroup(p: PreferenceDto) {
    p.group == ThemeGroup
  }

  /** The first stored `theme` record, else an empty draft; an error without a user. */
  function ComputeThemePreference(userData: Option<User>, userPreferences: seq<PreferenceDto>): (r: Result<PreferenceDto>)
    ensures r.Err? <==> userData.None?
    ensures r.Err? ==> r.message == ThemeHook.MissingUserMessage
    ensures r.Ok? ==> r.value.group == ThemeGroup
  {
    if userData.None? then Err(ThemeHook.MissingUserMessage)
    else
      match Find(userPreferences, HasThemeGroup)
      case Some(existing) => Ok(existing)
      case None => Ok(PreferenceDto(None, ThemeGroup, userData.value.id, []))
  }

  /** The first record of the group is returned as it is. */
  lemma ComputeThemePreferenceExisting(user: User, prefs: seq<PreferenceDto>, i: nat)
    requires i < |prefs| && prefs[i].group == ThemeGroup
    requires forall j :: 0 <= j < i ==> prefs[j].group != ThemeGroup
    ensures ComputeThemePreference(Some(user), prefs) == Ok(prefs[i])
  {
  }

  /** Without a record of the group, the result is the empty, unsaved draft for this user. */
  lemma ComputeThemePreferenceDraft(user: User, prefs: seq<PreferenceDto>)
    requires forall i :: 0 <= i < |prefs| ==> prefs[i].group != ThemeGroup
    ensures ComputeThemePreference(Some(user), prefs) == Ok(PreferenceDto(None, ThemeGroup, user.id, []))
  {
  }

  /** The record that flips `theme`: its entries become the single flipped `theme` entry; id, group and user are kept. */
  function GetUpdateThemeDto(theme: Theme, existingPreference: PreferenceDto): (r: PreferenceDto)
    ensures r.id == existingPreference.id && r.group == existingPreference.group && r.user == existingPreference.user
    ensures |r.preferences| == 1 && r.preferences[0].key == ThemeKey
    ensures r.preferences[0].value != ThemeName(theme)
    ensures r.preferences[0].value in {"light", "dark"}
  {
    existingPreference.(preferences := [Entry(ThemeKey, ThemeName(ThemeHook.Toggled(theme)))])
  }

  /**
   * Feeding the derived theme back in: the updated record derives the flipped theme,
   * and updating it again derives the original theme with the other fields unchanged.
   */
  lemma UpdateThemeIsInvolution(theme: Theme, pref: PreferenceDto)
    ensures ComputeTheme(Some(GetUpdateThemeDto(theme, pref))) == ThemeName(ThemeHook.Toggled(theme))
    ensures var twice := GetUpdateThemeDto(ThemeHook.Toggled(theme), GetUpdateThemeDto(theme, pref));
      && ComputeTheme(Some(twice)) == ThemeName(theme)
      && twice == pref.(preferences := [Entry(ThemeKey, ThemeName(theme))])
  {
  }
}
