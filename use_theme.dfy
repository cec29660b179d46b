/**
 * The theme hook: the user's `theme` record (or an unsaved light draft) and the
 * record that `toggleTheme` submits, which flips light and dark and keeps the rest.
 * The hook keeps no state of its own, so both are functions of the current user and
 * the fetched preferences.
 */
module ThemeHook {
  import opened Wrappers
  import opened Sequences
  import opened UserPreferenceTypes
  import opened PreferenceClient

  const MissingUserMessage: string := "Cannot use theme preference without user"

  predicate IsThemeGroup(p: UserPreference) {
    p.Group() == ThemeGroup
  }

  /** `themePreference`: the first stored `theme` record, else a light draft; an error without a user. */
  function FindOrDraft(userData: Option<User>, data: Option<seq<UserPreference>>): (r: Result<UserPreference>)
    ensures r.Err? <==> userData.None?
    ensures r.Err? ==> r.message == MissingUserMessage
    ensures r.Ok? ==> r.value.ThemePreference?
  {
    if userData.None? then Err(MissingUserMessage)
    else
      var existing := if data.Some? then Find(data.value, IsThemeGroup) else None;
      if existing.Some? then
        GroupDiscriminates(existing.value, existing.value);
        Ok(existing.value)
      else Ok(ThemePreference(None, userData.value.id, Light))
  }

  /** An existing record is returned unchanged: the first one whose group is `theme`. */
  lemma FindOrDraftReturnsFirstExisting(user: User, data: seq<UserPreference>, i: nat)
    requires i < |data| && data[i].ThemePreference?
    requires forall j :: 0 <= j < i ==> !data[j].ThemePreference?
    ensures FindOrDraft(Some(user), Some(data)) == Ok(data[i])
  {
  }

  /** Without a stored record the result is the draft: this group, the user's id, light, no id. */
  lemma FindOrDraftBuildsDraft(user: User, data: Option<seq<UserPreference>>)
    requires data.Some? ==> forall i :: 0 <= i < |data.value| ==> !data.value[i].ThemePreference?
    ensures FindOrDraft(Some(user), data) == Ok(ThemePreference(None, user.id, Light))
  {
  }

  /** The flipped theme: light when it is dark, dark otherwise. */
  function Toggled(t: Theme): (r: Theme)
    ensures r != t
  {
    if t == Dark then Light else Dark
  }

  /** Flipping twice gives the theme back. */
  lemma ToggledTwice(t: Theme)
    ensures Toggled(Toggled(t)) == t
  {
  }

  /** `toggleTheme`: the record submitted for upsert, with the theme flipped and every other field kept. */
  function ToggleTheme(userData: Option<User>, data: Option<seq<UserPreference>>): (submitted: Result<UserPreference>)
    ensures submitted.Err? <==> userData.None?
    ensures submitted.Err? ==> submitted.message == MissingUserMessage
    ensures submitted.Ok? ==>
      var current := FindOrDraft(userData, data).value;
      && submitted.value.ThemePreference?
      && submitted.value.id == current.id
      && submitted.value.user == current.user
      && submitted.value.theme != current.theme
  {
    var current := FindOrDraft(userData, data);
    if current.Err? then Err(current.message)
    else Ok(current.value.(theme := Toggled(current.value.theme)))
  }

  /** Once the submitted record is what the server returns, toggling again submits the original record. */
  lemma ToggleThemeTwice(user: User, data: Option<seq<UserPreference>>)
    ensures var once := ToggleTheme(Some(user), data).value;
      ToggleTheme(Some(user), Some([once])) == FindOrDraft(Some(user), data)
  {
  }

  /**
   * The toggle goes through the upsert client: a PATCH addressed to the stored record
   * when it has an id, a POST to the collection for the draft, carrying the flipped record.
   */
  lemma ToggleThemeRoutes(user: User, data: Option<seq<UserPreference>>)
    ensures var current := FindOrDraft(Some(user), data).value;
      var req := UpsertRequest(ToggleTheme(Some(user), data).value);
      && (req.verb == Patch <==> HasId(current))
      && (req.verb == Patch ==> TargetId(req.url) == current.id)
      && (req.verb == Post ==> req.url == CollectionUrl)
      && req.body == Some(current.(theme := Toggled(current.theme)))
  {
  }
}
