/**
 * The first-time-modal hook: it derives the user's `first-time-modal` record (or an
 * unsaved draft), tells for every known modal whether it may still be shown, and
 * dismisses a modal either for good (by submitting an updated record) or for the
 * rest of the session (by appending it to `temporarilyClosed`).
 */
module FirstTimeModalHook {
  import opened Wrappers
  import opened Sequences
  import opened UserPreferenceTypes
  import opened PreferenceClient

  const MissingUserMessage: string := "Cannot use first time modal preference without user"

  predicate IsFirstTimeModalGroup(p: UserPreference) {
    p.Group() == FirstTimeModalGroup
  }

  /** The record a user starts from when none is stored. */
  function Draft(user: User): UserPreference {
    FirstTimeModalPreference(None, user.id, [])
  }

  /**
   * The `first-time-modal` record of the current user: the first fetched record of
   * that group, or a draft when there is none (or the data is still loading); an
   * error when there is no user.
   */
  function FindOrDraft(userData: Option<User>, data: Option<seq<UserPreference>>): (r: Result<UserPreference>)
    ensures r.Err? <==> userData.None?
    ensures r.Err? ==> r.message == MissingUserMessage
    ensures r.Ok? ==> r.value.FirstTimeModalPreference?
  {
    if userData.None? then Err(MissingUserMessage)
    else
      var existing := if data.Some? then Find(data.value, IsFirstTimeModalGroup) else None;
      if existing.Some? then
        GroupDiscriminates(existing.value, existing.value);
        Ok(existing.value)
      else Ok(Draft(userData.value))
  }

  /** An existing record is returned unchanged: the first one whose group is `first-time-modal`. */
  lemma FindOrDraftReturnsFirstExisting(user: User, data: seq<UserPreference>, i: nat)
    requires i < |data| && data[i].FirstTimeModalPreference?
    requires forall j :: 0 <= j < i ==> !data[j].FirstTimeModalPreference?
    ensures FindOrDraft(Some(user), Some(data)) == Ok(data[i])
  {
  }

  /** Without a stored record the result is the draft: this group, the user's id, nothing seen, no id. */
  lemma FindOrDraftBuildsDraft(user: User, data: Option<seq<UserPreference>>)
    requires data.Some? ==> forall i :: 0 <= i < |data.value| ==> !data.value[i].FirstTimeModalPreference?
    ensures FindOrDraft(Some(user), data) == Ok(FirstTimeModalPreference(None, user.id, []))
    ensures FindOrDraft(Some(user), data).value.Group() == FirstTimeModalGroup
  {
  }

  /** Whether modal `m` may still be shown: it is neither seen for good nor closed for the session. */
  predicate Eligible(seen: seq<ModalId>, temporarilyClosed: seq<ModalId>, m: ModalId) {
    m !in seen && m !in temporarilyClosed
  }

  /** The reduce that builds the modal map: one entry per modal in `modals`, added to `acc`. */
  function ReduceEligibility(modals: seq<ModalId>, seen: seq<ModalId>, temporarilyClosed: seq<ModalId>,
                             acc: map<ModalId, bool>): (r: map<ModalId, bool>)
    ensures r.Keys == acc.Keys + set m | m in modals
    ensures forall m :: m in modals ==> r[m] == Eligible(seen, temporarilyClosed, m)
    ensures forall m :: m in acc && m !in modals ==> r[m] == acc[m]
    decreases |modals|
  {
    if modals == [] then acc
    else
      var m := modals[0];
      ReduceEligibility(modals[1..], seen, temporarilyClosed, acc[m := Eligible(seen, temporarilyClosed, m)])
  }

  /** The modal map: exactly one entry per known modal, true iff that modal is eligible. */
  function ModalMap(seen: seq<ModalId>, temporarilyClosed: seq<ModalId>): (r: map<ModalId, bool>)
    ensures r.Keys == set m | m in AllKnownModals
    ensures forall m :: m in AllKnownModals ==> (r[m] <==> m !in seen && m !in temporarilyClosed)
  {
    ReduceEligibility(AllKnownModals, seen, temporarilyClosed, map[])
  }

  /** A temporarily closed modal stays hidden whatever is seen later and whatever else is closed later. */
  lemma ClosedModalStaysHidden(seen: seq<ModalId>, closed: seq<ModalId>, later: seq<ModalId>, m: ModalId)
    requires m in AllKnownModals && m in closed
    ensures !ModalMap(seen, closed + later)[m]
  {
  }

  /** A modal seen for good stays hidden whatever else is seen or closed. */
  lemma SeenModalStaysHidden(seen: seq<ModalId>, more: seq<ModalId>, closed: seq<ModalId>, m: ModalId)
    requires m in AllKnownModals && m in seen
    ensures !ModalMap(seen + more, closed)[m]
  {
  }

  /**
   * The hook's state: the inputs it observes (the current user and the fetched
   * preferences, absent while loading) and the session-only list of modals closed
   * temporarily.
   */
  class FirstTimeModal {
    var userData: Option<User>
    var data: Option<seq<UserPreference>>
    var temporarilyClosed: seq<ModalId>

    constructor (userData: Option<User>, data: Option<seq<UserPreference>>)
      ensures this.userData == userData && this.data == data
      ensures temporarilyClosed == []
    {
      this.userData := userData;
      this.data := data;
      temporarilyClosed := [];
    }

    /** `firstTimeModalPreference`: the stored record or a draft. */
    function Preference(): (r: Result<UserPreference>)
      reads this
      ensures r.Err? <==> userData.None?
      ensures r.Ok? ==> r.value.FirstTimeModalPreference?
    {
      FindOrDraft(userData, data)
    }

    /** `isModalMap`: per known modal, whether it may be shown; an error without a user. */
    function IsModalMap(): (r: Result<map<ModalId, bool>>)
      reads this
      ensures r.Err? <==> userData.None?
      ensures r.Ok? ==> r.value.Keys == set m | m in AllKnownModals
      ensures r.Ok? ==> forall m :: m in AllKnownModals ==>
        (r.value[m] <==> m !in Preference().value.seenModals && m !in temporarilyClosed)
    {
      var pref := Preference();
      if pref.Err? then Err(pref.message)
      else Ok(ModalMap(pref.value.seenModals, temporarilyClosed))
    }

    /**
     * `closeForever`: the record submitted for upsert. It is the current record with
     * `modalId` appended to `seenModals` (no deduplication); the hook's own state is
     * not changed.
     */
    method CloseForever(modalId: ModalId) returns (submitted: Result<UserPreference>)
      ensures submitted.Err? <==> userData.None?
      ensures submitted.Err? ==> submitted.message == MissingUserMessage
      ensures submitted.Ok? ==>
        var current := Preference().value;
        && submitted.value.FirstTimeModalPreference?
        && submitted.value.id == current.id
        && submitted.value.user == current.user
        && submitted.value.seenModals == current.seenModals + [modalId]
      ensures submitted.Ok? ==> (UpsertRequest(submitted.value).verb == Patch <==> HasId(Preference().value))
      ensures submitted.Ok? && modalId in AllKnownModals ==>
        !ModalMap(submitted.value.seenModals, temporarilyClosed)[modalId]
    {
      var current := Preference();
      if current.Err? {
        submitted := Err(current.message);
      } else {
        var p := current.value;
        submitted := Ok(p.(seenModals := p.seenModals + [modalId]));
      }
    }

    /** `closeTemporarily`: append `modalId` to the session list; nothing else changes. */
    method CloseTemporarily(modalId: ModalId)
      modifies this`temporarilyClosed
      ensures temporarilyClosed == old(temporarilyClosed) + [modalId]
      ensures Preference() == old(Preference())
      ensures modalId in AllKnownModals && IsModalMap().Ok? ==> !IsModalMap().value[modalId]
    {
      temporarilyClosed := temporarilyClosed + [modalId];
    }

    /** The preferences query delivers new data (a refetch); the session list is kept. */
    method ReceiveData(newData: Option<seq<UserPreference>>)
      modifies this`data
      ensures data == newData
      ensures forall m :: m in AllKnownModals && m in temporarilyClosed && IsModalMap().Ok? ==>
        !IsModalMap().value[m]
    {
      data := newData;
    }
  }

  /** A session: a closed modal remains hidden across further closes and refetches. */
  method SessionKeepsClosedModalsHidden(user: User, first: seq<UserPreference>, second: seq<UserPreference>)
    returns (shown: Result<map<ModalId, bool>>)
    ensures shown.Ok? && shown.value.Keys == set m | m in AllKnownModals
    ensures forall m :: m in AllKnownModals ==> !shown.value[m]
  {
    var hook := new FirstTimeModal(Some(user), Some(first));
    hook.CloseTemporarily("balances");
    hook.ReceiveData(Some(second));
    hook.CloseTemporarily("scheduled-payment");
    shown := hook.IsModalMap();
  }
}
