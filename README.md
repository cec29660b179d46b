# User-preference derivation layer, modelled in Dafny

This project models the client-side preference logic of a small Vue application.
The logic decides:

- which stored preference record a user works from: the stored one, or an unsaved draft;
- which first-time modal may be shown, and which one is shown now;
- how a modal is dismissed for good (a persisted record) or for the session (an in-memory list);
- how the light/dark theme is derived and toggled;
- which HTTP request an upsert issues, and how a list of fetched records is narrowed to one user;
- how the character listing's filter object becomes its cache key.

Modules, one per source file or shared concept:

| file | module | models |
|---|---|---|
| `wrappers.dfy` | `Wrappers` | optional values and thrown errors (`Option`, `Result`) |
| `sequences.dfy` | `Sequences` | `Array.prototype.find` and `filter` |
| `user_preference_types.dfy` | `UserPreferenceTypes` | the `UserPreference` tagged union, the known modals, the key/value record shape |
| `use_first_time_modal.dfy` | `FirstTimeModalHook` | the first-time-modal hook, as a class with its session state |
| `first_time_modal_rules.dfy` | `FirstTimeModalRules` | the first-time-modal helpers specified by the unit tests |
| `use_theme.dfy` | `ThemeHook` | the theme hook |
| `theme_rules.dfy` | `ThemeRules` | the theme helpers specified by the unit tests |
| `get_user_preferences.dfy` | `PreferenceClient` | the not-ok check, the user filter and the POST/PATCH choice |
| `use_characters.dfy` | `CharacterQuery` | `filterKey` and the query key of the character listing |

The source has two shapes of the preference rules, and both are modelled.

- **Hook code.** The hooks work on typed records. A `first-time-modal` record has a `seenModals` list; a `theme` record has a `theme` field.
  - `UserPreference` is the tagged union of these records. Its `group` is fixed by the variant.
  - `FirstTimeModalHook.FirstTimeModal` is a class. Its fields are the observed user, the fetched preferences (absent while loading) and the session-only `temporarilyClosed` list.
  - `closeTemporarily` appends to that list. `closeForever` returns the record it submits for upsert.
- **Unit tests.** The tests specify helpers over key/value records, `{group, user, preferences: [{key, value}]}`.
  - A modal is dismissed for good by the entry `{key: modal, value: "true"}`.
  - These helpers are not in the hook files. They are modelled from the tests, as pure functions over `PreferenceDto`.

Modelling decisions:

- Records are values. A record's `id` is optional, because drafts have none.
- An upsert treats a missing id and the empty id alike, as `!userPreference.id` does.
- A request is a value: method, URL, headers and body.
- Responses and decoded JSON lists are inputs.
- `allKnownModals` is not declared `as const`, so `KnownModal` is `string`. Modal ids are therefore strings, and the list `["balances", "scheduled-payment"]` fixes their precedence.
- The hook imports a `KnownModals` enumeration that the types file does not declare. The import at src/user-preferences/use-first-time-modal.ts:2 is `import type`, so the name is erased on compilation, and `Object.values(KnownModals)` at line 35 would throw a `ReferenceError` whenever the modal map is read after the user check. This is read from the code, not executed. The model follows the evident intent and builds the modal map over `allKnownModals`.

## Model

| member | source | states |
|---|---|---|
| `Sequences.Find` | src/user-preferences/use-first-time-modal.ts:18-20 | `find` returns nothing iff no element matches; otherwise a matching element of the list, with no match before it |
| `Sequences.FindFirstMatch` | src/user-preferences/use-theme.ts:17-19 | the first matching element is exactly what `find` returns |
| `Sequences.Filter` | src/fetch/get-user-preferences.ts:22 | the result keeps every matching element with its multiplicity and nothing else |
| `Sequences.FilterConcat` | src/fetch/get-user-preferences.ts:22 | filtering preserves the relative order of the kept elements |
| `UserPreferenceTypes.UserPreference.Group` | src/user-preferences/user-preference.types.ts:12-33 | every record's group is one of `first-time-modal`, `theme`, `preferred-payment` |
| `UserPreferenceTypes.GroupDiscriminates` | src/user-preferences/user-preference.types.ts:12-33 | the group string names exactly one variant, and equal groups mean the same variant |
| `UserPreferenceTypes.KnownModalsOrder` | src/user-preferences/user-preference.types.ts:9 | the known modals are `balances` then `scheduled-payment`, with no repeat |
| `UserPreferenceTypes.ThemeName` | src/user-preferences/user-preference.types.ts:23 | a theme is stored as `"light"` or `"dark"`, one string per theme |
| `FirstTimeModalHook.FindOrDraft` | src/user-preferences/use-first-time-modal.ts:14-29 | fails with the no-user message iff there is no user; otherwise always a `first-time-modal` record |
| `FirstTimeModalHook.FindOrDraftReturnsFirstExisting` | src/user-preferences/use-first-time-modal.ts:18-23 | the first stored `first-time-modal` record is returned unchanged |
| `FirstTimeModalHook.FindOrDraftBuildsDraft` | src/user-preferences/use-first-time-modal.ts:24-28 | with no such record, or while loading, the result is the draft with the user's id, no seen modals and no id |
| `FirstTimeModalHook.ReduceEligibility` | src/user-preferences/use-first-time-modal.ts:35-43 | the reduce adds exactly one entry per modal, true iff the modal is neither seen nor temporarily closed, and keeps other entries |
| `FirstTimeModalHook.ModalMap` | src/user-preferences/use-first-time-modal.ts:31-44 | the map's keys are exactly the known modals, each true iff it is neither seen nor temporarily closed |
| `FirstTimeModalHook.ClosedModalStaysHidden` | src/user-preferences/use-first-time-modal.ts:54-56 | a temporarily closed modal stays false whatever is seen or closed later |
| `FirstTimeModalHook.SeenModalStaysHidden` | src/user-preferences/use-first-time-modal.ts:40 | a modal seen for good stays false whatever else is seen or closed |
| `FirstTimeModalHook.FirstTimeModal.constructor` | src/user-preferences/use-first-time-modal.ts:11 | the hook starts with nothing temporarily closed |
| `FirstTimeModalHook.FirstTimeModal.Preference` | src/user-preferences/use-first-time-modal.ts:14-29 | the derived record is a `first-time-modal` record exactly when there is a user |
| `FirstTimeModalHook.FirstTimeModal.IsModalMap` | src/user-preferences/use-first-time-modal.ts:31-44 | one entry per known modal, true iff neither in `seenModals` nor in `temporarilyClosed`; an error without a user |
| `FirstTimeModalHook.FirstTimeModal.CloseForever` | src/user-preferences/use-first-time-modal.ts:46-52 | submits the current record with the modal appended to `seenModals`; id, group and user are kept; the modal is then ineligible; PATCH iff the record has an id |
| `FirstTimeModalHook.FirstTimeModal.CloseTemporarily` | src/user-preferences/use-first-time-modal.ts:54-56 | appends the modal to `temporarilyClosed`; the derived record is unchanged and the modal's map entry becomes false |
| `FirstTimeModalHook.FirstTimeModal.ReceiveData` | src/hooks/use-user-preferences.ts:20-25 | a refetch replaces the data and keeps every temporarily closed modal hidden |
| `FirstTimeModalHook.SessionKeepsClosedModalsHidden` | src/user-preferences/use-first-time-modal.ts:54-56 | a session that closes both modals temporarily, with a refetch between the closes, ends with every known modal hidden |
| `FirstTimeModalRules.ComputeFirstTimeModalPreference` | src/user-preferences/use-first-time-modal.test.ts:16-26 | fails with the no-user message iff there is no user; otherwise a record of the `first-time-modal` group |
| `FirstTimeModalRules.ComputeFirstTimeModalPreferenceExisting` | src/user-preferences/use-first-time-modal.test.ts:28-42 | the first stored record of the group is returned as is |
| `FirstTimeModalRules.ComputeFirstTimeModalPreferenceDraft` | src/user-preferences/use-first-time-modal.test.ts:44-55 | with no such record the result is `{group: first-time-modal, user: id, preferences: []}` without an id |
| `FirstTimeModalRules.PermanentlyDismissed` | src/user-preferences/use-first-time-modal.test.ts:86-100 | a modal is dismissed for good iff some entry has its key and the value `"true"` |
| `FirstTimeModalRules.Eligible` | src/user-preferences/use-first-time-modal.test.ts:86-111 | a modal is ineligible iff it is dismissed for good or temporarily closed |
| `FirstTimeModalRules.ComputeCurrentlyOpenedModalType` | src/user-preferences/use-first-time-modal.test.ts:58-127 | nothing while loading; otherwise an eligible known modal with every earlier one ineligible, and nothing iff all are closed |
| `FirstTimeModalRules.FirstKnownModalShownFirst` | src/user-preferences/use-first-time-modal.test.ts:75-84 | whenever `balances` is eligible it is the modal shown |
| `FirstTimeModalRules.DismissedBalancesShowsScheduledPayment` | src/user-preferences/use-first-time-modal.test.ts:86-100 | with `balances` dismissed for good and nothing closed, `scheduled-payment` is shown |
| `FirstTimeModalRules.ClosedModalNeverShown` | src/user-preferences/use-first-time-modal.test.ts:86-111 | a modal dismissed for good or temporarily closed is never returned |
| `FirstTimeModalRules.ClosingShownModalAdvances` | src/user-preferences/use-first-time-modal.test.ts:113-127 | closing the shown modal either way moves to a later modal in precedence order, or to none |
| `FirstTimeModalRules.GetCloseForeverDto` | src/user-preferences/use-first-time-modal.test.ts:130-186 | id, group, user and every entry are kept, and exactly one `{modal, "true"}` entry is appended |
| `FirstTimeModalRules.CloseForeverDismisses` | src/user-preferences/use-first-time-modal.test.ts:131-148 | after closing for good the modal is dismissed, earlier dismissals remain, and no other modal becomes dismissed |
| `FirstTimeModalRules.CloseForeverTwiceKeepsDuplicate` | src/user-preferences/use-first-time-modal.test.ts:130-186 | closing the same modal twice leaves two entries: there is no deduplication, the key/value analogue of the `seenModals` append at use-first-time-modal.ts:46-51 |
| `ThemeHook.FindOrDraft` | src/user-preferences/use-theme.ts:13-28 | fails with the no-user message iff there is no user; otherwise always a `theme` record |
| `ThemeHook.FindOrDraftReturnsFirstExisting` | src/user-preferences/use-theme.ts:17-22 | the first stored `theme` record is returned unchanged |
| `ThemeHook.FindOrDraftBuildsDraft` | src/user-preferences/use-theme.ts:23-27 | with no such record the result is the light draft with the user's id and no id |
| `ThemeHook.Toggled` | src/user-preferences/use-theme.ts:33 | the toggled theme always differs from the current one |
| `ThemeHook.ToggledTwice` | src/user-preferences/use-theme.ts:33 | toggling twice gives the theme back |
| `ThemeHook.ToggleTheme` | src/user-preferences/use-theme.ts:30-35 | the submitted record is the current one with the other theme; id and user kept; an error without a user |
| `ThemeHook.ToggleThemeTwice` | src/user-preferences/use-theme.ts:31-34 | toggling again, once the submitted record is stored, submits the original record |
| `ThemeHook.ToggleThemeRoutes` | src/user-preferences/use-theme.ts:31-34 | the toggle is a PATCH to the stored record's id when it has one, else a POST to the collection, carrying the flipped record |
| `ThemeRules.ComputeTheme` | src/user-preferences/use-theme.test.ts:8-31 | `"light"` without a record or without a `theme` entry; any other result is the value of a `theme` entry |
| `ThemeRules.ComputeThemeTakesEntry` | src/user-preferences/use-theme.test.ts:23-30 | with a `theme` entry, the first one's value is the theme |
| `ThemeRules.ComputeThemePreference` | src/user-preferences/use-theme.test.ts:33-43 | fails with the no-user message iff there is no user; otherwise a record of the `theme` group |
| `ThemeRules.ComputeThemePreferenceExisting` | src/user-preferences/use-theme.test.ts:45-59 | the first stored record of the group is returned as is |
| `ThemeRules.ComputeThemePreferenceDraft` | src/user-preferences/use-theme.test.ts:61-72 | with no such record the result is `{group: theme, user: id, preferences: []}` without an id |
| `ThemeRules.GetUpdateThemeDto` | src/user-preferences/use-theme.test.ts:75-131 | id, group and user kept; the entries become one `theme` entry holding the other theme's name |
| `ThemeRules.UpdateThemeIsInvolution` | src/user-preferences/use-theme.test.ts:76-112 | the update derives the flipped theme, and updating again derives the original theme with the other fields unchanged |
| `PreferenceClient.ThrowIfNotOk` | src/fetch/get-user-preferences.ts:4-14 | an error with the given message iff the response is not ok; an ok response passes through unchanged |
| `PreferenceClient.GetUserPreferences` | src/fetch/get-user-preferences.ts:18-23 | the not-ok error, or exactly the fetched records of the user, each with its multiplicity |
| `PreferenceClient.GetUserPreferencesKeepsOrder` | src/fetch/get-user-preferences.ts:22 | the user's records keep their original order |
| `PreferenceClient.HasId` | src/fetch/get-user-preferences.ts:27 | a missing id and the empty id both count as no id; otherwise the id is a non-empty string |
| `PreferenceClient.UpsertRequest` | src/fetch/get-user-preferences.ts:25-44 | exactly one request: POST iff the id is missing or empty, PATCH otherwise; the body is the record unmodified, sent as JSON |
| `PreferenceClient.TargetId` | src/fetch/get-user-preferences.ts:37 | an id read back from a URL is the segment after the collection URL |
| `PreferenceClient.UpsertRequestTargetsRecord` | src/fetch/get-user-preferences.ts:27-43 | a POST goes to the collection URL and addresses no record; a PATCH addresses exactly the record's id |
| `PreferenceClient.Upsert` | src/fetch/get-user-preferences.ts:34-43 | the upsert fails iff the response is not ok, with the POST or PATCH message of the branch taken |
| `CharacterQuery.NatToString` | src/characters/use-characters.ts:10 | a non-negative number is written as its decimal numeral: non-empty digits that denote it, with no leading zero unless it is 0 |
| `CharacterQuery.NumberToString` | src/characters/use-characters.ts:10 | a safe integer is written as its decimal numeral, preceded by `-` when negative, and never contains the entry separator `.` |
| `CharacterQuery.NumberToStringSign` | src/characters/use-characters.ts:10 | a number is written with a leading `-` iff it is negative |
| `CharacterQuery.NatToStringInjective` | src/characters/use-characters.ts:10 | distinct non-negative numbers are written differently |
| `CharacterQuery.NumberToStringInjective` | src/characters/use-characters.ts:10 | distinct numbers are written differently |
| `CharacterQuery.RenderValue` | src/characters/use-characters.ts:10 | a number becomes its numeral (so non-empty and `.`-free), text is kept as is, and a missing value becomes `"undefined"` |
| `CharacterQuery.RenderEntry` | src/characters/use-characters.ts:10 | the entry reads as the field name, then `-`, then the rendered value |
| `CharacterQuery.RenderEntrySeparatorFree` | src/characters/use-characters.ts:10 | an entry whose value has no `.` renders without `.` |
| `CharacterQuery.RenderEntryInjective` | src/characters/use-characters.ts:10 | a well-typed entry can be read back from its rendering |
| `CharacterQuery.FilterKey` | src/characters/use-characters.ts:8-12 | no entries give `""`; one entry gives exactly its rendering; otherwise the key starts with the first entry's rendering |
| `CharacterQuery.JoinTwo` | src/characters/use-characters.ts:11 | two parts are joined as first, separator, second |
| `CharacterQuery.FilterKeyCollides` | src/characters/use-characters.ts:8-15 | two different well-typed filter states, `{name: "a.status-b"}` and `{name: "a", status: "b"}`, get the same query key |
| `CharacterQuery.SpreadQueryKey` | src/user-preferences/characters/use-characters.ts:13 | the corrected key: the spread shape of that line, `characters` followed by one element per entry of the filter object, rendered and in order |
| `CharacterQuery.SpreadQueryKeyIdentifiesFilters` | src/user-preferences/characters/use-characters.ts:13 | well-typed filter states share a corrected key iff they are equal |
| `CharacterQuery.RenderedEntries` | src/characters/use-characters.ts:9-10 | one `key-value` string per filter entry, in entry order |
| `CharacterQuery.QueryKey` | src/characters/use-characters.ts:15 | the query key is exactly `['characters', filterKey]` |
| `CharacterQuery.QueryKeyIdentifiesFilterKey` | src/characters/use-characters.ts:14-16 | two filter states share a query key iff their filter keys are equal |
| `CharacterQuery.InitialFilterKeyIsEmpty` | src/characters/use-characters.ts:7-12 | the filters start empty, so the initial filter key is `""` |
| `CharacterQuery.SplitJoinRoundTrip` | src/characters/use-characters.ts:11 | splitting on the separator undoes the join when no part contains it |
| `CharacterQuery.JoinSeparatorCount` | src/characters/use-characters.ts:11 | joining n separator-free parts inserts exactly n - 1 separators |
| `CharacterQuery.FilterKeyListsEntries` | src/characters/use-characters.ts:8-12 | with no `.` in text values, the key splits back into the rendered entries in order and holds n - 1 separators |

## Findings

| source | as written | input that shows it | evidently intended | confidence | as-written member | corrected member |
|---|---|---|---|---|---|---|
| src/characters/use-characters.ts:8-15 | the entries are joined with `.` into one string, and that string is the cache key | `{name: "a.status-b"}` and `{name: "a", status: "b"}` both give `['characters', 'name-a.status-b']`, so one filter state can be served the other's cached list | distinct filter states get distinct keys, for example a key of the spread shape of src/user-preferences/characters/use-characters.ts:13, `['characters', ...entries]`, built from the entries of `filters.value` | not executed; high that the keys collide | `CharacterQuery.FilterKeyCollides` | `CharacterQuery.SpreadQueryKeyIdentifiesFilters` |

`CharacterQuery.QueryKey` keeps the joined form, because that is what the listing uses. `CharacterQuery.SpreadQueryKey` is the corrected key. It takes only the spread shape from the older hook. That hook is no working precedent: its line 9 lists the entries of the ref object itself rather than of `filters.value`, and line 13 reads `filterKeys.value` once, when the query options are built. It tells apart every two well-typed filter states: every value present, a number for `page`, text for the other fields. A missing value and the text `"undefined"` still render alike.

## Left out

- HTTP and JSON are left out: `fetch`, the GET request that lists the records, the JSON encoding of the body, response decoding and the `console.error` log of the status and body. Upsert requests are values. A response is reduced to its `ok` flag, and decoded lists are inputs.
- Vue reactivity and TanStack Query wiring are left out: `computed`, `ref`, `useQuery`, `useMutation` and async ordering. Derivations are functions of the current inputs. A refetch is modelled only as `ReceiveData`, which replaces the hook's data.
- The store's response to an upsert is left out: the server-side insert or update, and the id it assigns. `CloseForever` and `ToggleTheme` return the record they submit.
- Identity is left out: `src/hooks/use-auth.ts` and `src/hooks/use-user.ts` read and write browser storage. The current user is an input (`Option<User>`).
- The older character hook under `src/user-preferences/characters/` is left out as an operation; only the spread shape of its query key (line 13) is borrowed for `CharacterQuery.SpreadQueryKey`. `getCharacters` is left out. So are application bootstrap and lint configuration.
- No code path hides every remaining modal after one permanent close, so no such mode is modelled.
- Nothing in the client enforces one record per user and group. The model, like the hooks, takes the first record of the group.
- The payment record declares only `preferredPaymentMethod` (src/user-preferences/user-preference.types.ts:30), and the model has only that field.
- CharacterQuery.NumberToString: numbers are modelled as safe integers (magnitude at most 2^53 - 1). In that range `${value}` writes plain decimal digits. Larger numbers are written inexactly, and numbers from 1e21 up in exponent form (`1.5e+21`, which contains `.`). The model does not capture either, nor non-integral numbers.
- Filter values are modelled as safe integers, text or `undefined`.
- `Object.entries` order is taken as the order of the given entries. Insertion order is the order `Object.entries` uses for these non-numeric keys.
- The record id is put into the PATCH URL without URL-encoding, exactly as the template string does.
- The unit tests import the helper functions from the hook files, which do not define them. The helpers are modelled from the tests.
- The two shapes disagree on the theme draft. The hook's draft carries `theme: 'light'`, while the draft the unit tests expect (src/user-preferences/use-theme.test.ts:61-72) has `preferences: []`. Each shape is modelled as written.
- The PATCH failure message keeps the source's wording, "could now update user preferences".
