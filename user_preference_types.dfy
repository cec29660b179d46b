/**
 * The user and preference records the preference layer works on.
 *
 * `UserPreference` is the tagged union of the hooks: each variant fixes its `group`
 * discriminator. Its `id` is optional because the hooks also build unsaved drafts
 * (`Optional<UserPreference, 'id'>`); records returned by the server carry one.
 *
 * `PreferenceDto` is the key/value shape `{ id?, group, user, preferences: [{key, value}] }`
 * used by the pure helpers that the unit tests specify.
 */
module UserPreferenceTypes {
  import opened Wrappers

  /** The current user as the identity provider resolves it. */
  datatype User = User(id: string)

  /** A modal identifier. The list of known modals is not declared `as const`, so its element type is `string`. */
  type ModalId = string

  /** Every modal the application knows, in precedence order. */
  const AllKnownModals: seq<ModalId> := ["balances", "scheduled-payment"]

  const FirstTimeModalGroup: string := "first-time-modal"
  const ThemeGroup: string := "theme"
  const PreferredPaymentGroup: string := "preferred-payment"

  datatype Theme = Light | Dark

  datatype PaymentMethod = BalancesMethod | CreditCard | WireTransfer

  datatype UserPreference =
    | FirstTimeModalPreference(id: Option<string>, user: string, seenModals: seq<ModalId>)
    | ThemePreference(id: Option<string>, user: string, theme: Theme)
    | PreferredPaymentPreference(id: Option<string>, user: string, preferredPaymentMethod: PaymentMethod)
  {
    /** The `group` discriminator of the record. */
    function Group(): (g: string)
      ensures g in {FirstTimeModalGroup, ThemeGroup, PreferredPaymentGroup}
    {
      match this
      case FirstTimeModalPreference(_, _, _) => FirstTimeModalGroup
      case ThemePreference(_, _, _) => ThemeGroup
      case PreferredPaymentPreference(_, _, _) => PreferredPaymentGroup
    }
  }

  /** One `{key, value}` entry of a key/value preference record. */
  datatype Entry = Entry(key: string, value: string)

  /** A key/value preference record; `id` is absent on a draft that was never saved. */
  datatype PreferenceDto = PreferenceDto(id: Option<string>, group: string, user: string, preferences: seq<Entry>)

  /** The string a theme is stored as. */
  function ThemeName(t: Theme): (s: string)
    ensures s == "light" <==> t == Light
    ensures s == "dark" <==> t == Dark
  {
    match t
    case Light => "light"
    case Dark => "dark"
  }

  /** The `group` string decides the variant: equal groups means the same variant, and each group names one variant. */
  lemma GroupDiscriminates(p: UserPreference, q: UserPreference)
    ensures p.Group() == q.Group() <==>
      (p.FirstTimeModalPreference? && q.FirstTimeModalPreference?) ||
      (p.ThemePreference? && q.ThemePreference?) ||
      (p.PreferredPaymentPreference? && q.PreferredPaymentPreference?)
    ensures p.Group() == FirstTimeModalGroup <==> p.FirstTimeModalPreference?
    ensures p.Group() == ThemeGroup <==> p.ThemePreference?
    ensures p.Group() == PreferredPaymentGroup <==> p.PreferredPaymentPreference?
  {
  }

  /** The known modals are exactly the two declared ones and none is listed twice, so precedence is well defined. */
  lemma KnownModalsOrder()
    ensures |AllKnownModals| == 2
    ensures AllKnownModals[0] == "balances" && AllKnownModals[1] == "scheduled-payment"
    ensures forall i, j :: 0 <= i < j < |AllKnownModals| ==> AllKnownModals[i] != AllKnownModals[j]
  {
  }
}
