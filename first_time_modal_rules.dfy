/**
 * The pure first-time-modal helpers over key/value preference records: find-or-draft,
 * which single modal is open now, and the record that closes a modal for good.
 * A modal is dismissed for good by an entry `{key: modal, value: "true"}`.
 */
module FirstTimeModalRules {
  import opened Wrappers
  import opened Sequences
  import opened UserPreferenceTypes
  import FirstTimeModalHook

  const DismissedValue: string := "true"

  predicate HasFirstTimeModalGroup(p: PreferenceDto) {
    p.group == FirstTimeModalGroup
  }

  /** The first stored `first-time-modal` record, else a draft; an error without a user. */
  function ComputeFirstTimeModalPreference(userData: Option<User>, userPreferences: seq<PreferenceDto>)
    : (r: Result<PreferenceDto>)
    ensures r.Err? <==> userData.None?
    ensures r.Err? ==> r.message == FirstTimeModalHook.MissingUserMessage
    ensures r.Ok? ==> r.value.group == FirstTimeModalGroup
  {
    if userData.None? then Err(FirstTimeModalHook.MissingUserMessage)
    else
      match Find(userPreferences, HasFirstTimeModalGroup)
      case Some(existing) => Ok(existing)
      case None => Ok(PreferenceDto(None, FirstTimeModalGroup, userData.value.id, []))
  }

  /** The first record of the group is returned as it is. */
  lemma ComputeFirstTimeModalPreferenceExisting(user: User, prefs: seq<PreferenceDto>, i: nat)
    requires i < |prefs| && prefs[i].group == FirstTimeModalGroup
    requires forall j :: 0 <= j < i ==> prefs[j].group != FirstTimeModalGroup
    ensures ComputeFirstTimeModalPreference(Some(user), prefs) == Ok(prefs[i])
  {
  }

  /** Without a record of the group, the result is the empty, unsaved draft for this user. */
  lemma ComputeFirstTimeModalPreferenceDraft(user: User, prefs: seq<PreferenceDto>)
    requires forall i :: 0 <= i < |prefs| ==> prefs[i].group != FirstTimeModalGroup
    ensures ComputeFirstTimeModalPreference(Some(user), prefs) == Ok(PreferenceDto(None, FirstTimeModalGroup, user.id, []))
  {
  }

  /** `m` is dismissed for good by an entry of the record. */
  predicate PermanentlyDismissed(pref: PreferenceDto, m: ModalId)
    ensures PermanentlyDismissed(pref, m) <==>
      exists i :: 0 <= i < |pref.preferences| && pref.preferences[i].key == m && pref.preferences[i].value == DismissedValue
  {
    Entry(m, DismissedValue) in pref.preferences
  }

  /** `m` may be shown: not dismissed for good and not closed for the session. */
  predicate Eligible(pref: PreferenceDto, temporarilyClosed: seq<ModalId>, m: ModalId)
    ensures !Eligible(pref, temporarilyClosed, m) <==> PermanentlyDismissed(pref, m) || m in temporarilyClosed
    ensures Eligible(pref, temporarilyClosed, m) ==> forall e :: e in pref.preferences && e.key == m ==> e.value != DismissedValue
  {
    !PermanentlyDismissed(pref, m) && m !in temporarilyClosed
  }

  /**
   * The one modal to show now: nothing while loading, otherwise the first eligible
   * known modal in precedence order, or nothing when every known modal is closed.
   */
  function ComputeCurrentlyOpenedModalType(isLoading: bool, pref: PreferenceDto, temporarilyClosed: seq<ModalId>)
    : (r: Option<ModalId>)
    ensures isLoading ==> r.None?
    ensures r.Some? ==> r.value in AllKnownModals && Eligible(pref, temporarilyClosed, r.value)
    ensures r.Some? ==>
      exists i :: 0 <= i < |AllKnownModals| && AllKnownModals[i] == r.value &&
        forall j :: 0 <= j < i ==> !Eligible(pref, temporarilyClosed, AllKnownModals[j])
    ensures !isLoading ==> (r.None? <==> forall m :: m in AllKnownModals ==> !Eligible(pref, temporarilyClosed, m))
  {
    if isLoading then None
    else
      var r := Find(AllKnownModals, m => Eligible(pref, temporarilyClosed, m));
      r
  }

  /** `balances` comes first: whenever it is eligible, it is the modal shown. */
  lemma FirstKnownModalShownFirst(pref: PreferenceDto, temporarilyClosed: seq<ModalId>)
    requires Eligible(pref, temporarilyClosed, "balances")
    ensures ComputeCurrentlyOpenedModalType(false, pref, temporarilyClosed) == Some("balances")
  {
  }

  /** With `balances` dismissed for good and nothing else closed, `scheduled-payment` is shown. */
  lemma DismissedBalancesShowsScheduledPayment(pref: PreferenceDto)
    requires pref.preferences == [Entry("balances", DismissedValue)]
    ensures ComputeCurrentlyOpenedModalType(false, pref, []) == Some("scheduled-payment")
  {
  }

  /** A modal closed by either mechanism is never the one returned. */
  lemma ClosedModalNeverShown(isLoading: bool, pref: PreferenceDto, temporarilyClosed: seq<ModalId>, m: ModalId)
    requires PermanentlyDismissed(pref, m) || m in temporarilyClosed
    ensures ComputeCurrentlyOpenedModalType(isLoading, pref, temporarilyClosed) != Some(m)
  {
  }

  /**
   * Closing the modal now shown, for the session or for good, moves on to a modal
   * later in precedence order, or to none: an earlier modal never reappears.
   */
  lemma ClosingShownModalAdvances(pref: PreferenceDto, temporarilyClosed: seq<ModalId>, i: nat)
    requires i < |AllKnownModals|
    requires ComputeCurrentlyOpenedModalType(false, pref, temporarilyClosed) == Some(AllKnownModals[i])
    ensures var next := ComputeCurrentlyOpenedModalType(false, pref, temporarilyClosed + [AllKnownModals[i]]);
      next.Some? ==> next.value in AllKnownModals[i + 1..]
    ensures var next := ComputeCurrentlyOpenedModalType(false, GetCloseForeverDto(AllKnownModals[i], pref), temporarilyClosed);
      next.Some? ==> next.value in AllKnownModals[i + 1..]
  {
  }

  /** The record that closes `modalId` for good: every field and entry kept, one dismissal entry appended. */
  function GetCloseForeverDto(modalId: ModalId, existingPreference: PreferenceDto): (r: PreferenceDto)
    ensures r.id == existingPreference.id && r.group == existingPreference.group && r.user == existingPreference.user
    ensures |r.preferences| == |existingPreference.preferences| + 1
    ensures r.preferences[..|existingPreference.preferences|] == existingPreference.preferences
    ensures r.preferences[|existingPreference.preferences|] == Entry(modalId, DismissedValue)
  {
    existingPreference.(preferences := existingPreference.preferences + [Entry(modalId, DismissedValue)])
  }

  /** After closing for good, the modal is dismissed, and so is every modal dismissed before. */
  lemma CloseForeverDismisses(modalId: ModalId, pref: PreferenceDto, m: ModalId)
    ensures PermanentlyDismissed(GetCloseForeverDto(modalId, pref), modalId)
    ensures PermanentlyDismissed(pref, m) ==> PermanentlyDismissed(GetCloseForeverDto(modalId, pref), m)
    ensures PermanentlyDismissed(GetCloseForeverDto(modalId, pref), m) ==> PermanentlyDismissed(pref, m) || m == modalId
  {
  }

  /** Closing the same modal twice keeps both entries: there is no deduplication. */
  lemma CloseForeverTwiceKeepsDuplicate(modalId: ModalId, pref: PreferenceDto)
    ensures var twice := GetCloseForeverDto(modalId, GetCloseForeverDto(modalId, pref));
      |twice.preferences| == |pref.preferences| + 2 &&
      twice.preferences[|pref.preferences|] == twice.preferences[|pref.preferences| + 1] == Entry(modalId, DismissedValue)
  {
  }
}
