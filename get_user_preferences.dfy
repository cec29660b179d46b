/**
 * The preference store client as values: the requests it issues, the not-ok check it
 * applies to every response, the filter by user applied to the fetched list, and the
 * rule that routes an upsert to POST (no id) or PATCH (an id).
 */
module PreferenceClient {
  import opened Wrappers
  import opened Sequences
  import opened UserPreferenceTypes

  const BaseUrl: string := "http://localhost:3000"
  const CollectionUrl: string := BaseUrl + "/user-preferences"

  const GetFailedMessage: string := "could not get user preferences"
  const PostFailedMessage: string := "Could not post user preferences"
  const PatchFailedMessage: string := "could now update user preferences"

  datatype HttpMethod = Post | Patch
  datatype Header = Header(name: string, value: string)

  /** A request; its body is the record that is serialised to JSON. */
  datatype Request = Request(verb: HttpMethod, url: string, headers: seq<Header>, body: Option<UserPreference>)

  /** The part of a response the client decides on. */
  datatype Response = Response(ok: bool)

  const JsonHeaders: seq<Header> := [Header("Content-Type", "application/json")]

  /** A response that is not ok becomes an error with `message`; an ok response passes through unchanged. */
  function ThrowIfNotOk(message: string, response: Response): (r: Result<Response>)
    ensures r.Ok? <==> response.ok
    ensures r.Ok? ==> r.value == response
    ensures r.Err? ==> r.message == message
  {
    if !response.ok then Err(message) else Ok(response)
  }

  /**
   * `getUserPreferences`: the not-ok check on the list response, then the decoded
   * records (`fetched`) restricted to those of `userId`.
   */
  function GetUserPreferences(userId: string, response: Response, fetched: seq<UserPreference>)
    : (r: Result<seq<UserPreference>>)
    ensures r.Err? <==> !response.ok
    ensures r.Err? ==> r.message == GetFailedMessage
    ensures r.Ok? ==> forall i :: 0 <= i < |r.value| ==> r.value[i].user == userId
    ensures r.Ok? ==> forall p :: multiset(r.value)[p] == if p.user == userId then multiset(fetched)[p] else 0
  {
    var checked := ThrowIfNotOk(GetFailedMessage, response);
    if checked.Err? then Err(checked.message)
    else Ok(Filter(fetched, (p: UserPreference) => p.user == userId))
  }

  /** The user's records keep their relative order: the result for `a + b` is the result for `a`, then for `b`. */
  lemma GetUserPreferencesKeepsOrder(userId: string, response: Response, a: seq<UserPreference>, b: seq<UserPreference>)
    requires response.ok
    ensures GetUserPreferences(userId, response, a + b).value ==
            GetUserPreferences(userId, response, a).value + GetUserPreferences(userId, response, b).value
  {
    FilterConcat(a, b, (p: UserPreference) => p.user == userId);
  }

  /** The record has an id in the sense of `!userPreference.id`: present and not the empty string. */
  predicate HasId(p: UserPreference)
    ensures p.id.None? ==> !HasId(p)
    ensures p.id == Some("") ==> !HasId(p)
    ensures HasId(p) ==> p.id.Some? && |p.id.value| > 0
  {
    p.id.Some? && p.id.value != ""
  }

  /** `upsertUserPreference`: the one request issued, a POST to the collection or a PATCH to the record. */
  function UpsertRequest(p: UserPreference): (req: Request)
    ensures req.verb == Post <==> !HasId(p)
    ensures req.verb == Patch <==> HasId(p)
    ensures req.body == Some(p) && req.headers == JsonHeaders
  {
    if !HasId(p) then Request(Post, CollectionUrl, JsonHeaders, Some(p))
    else Request(Patch, CollectionUrl + "/" + p.id.value, JsonHeaders, Some(p))
  }

  /** The record id a request URL addresses: the segment after the collection URL, if any. */
  function TargetId(url: string): (id: Option<string>)
    ensures id.Some? ==> url == CollectionUrl + "/" + id.value
  {
    var prefix := CollectionUrl + "/";
    if prefix <= url then Some(url[|prefix|..]) else None
  }

  /** A POST addresses the collection itself and a PATCH addresses exactly the record's id. */
  lemma UpsertRequestTargetsRecord(p: UserPreference)
    ensures UpsertRequest(p).verb == Post ==> UpsertRequest(p).url == CollectionUrl && TargetId(UpsertRequest(p).url).None?
    ensures UpsertRequest(p).verb == Patch ==> TargetId(UpsertRequest(p).url) == p.id
  {
  }

  /** The outcome of an upsert: the response checked with the message of the branch taken. */
  function Upsert(p: UserPreference, response: Response): (r: Result<Response>)
    ensures r.Ok? <==> response.ok
    ensures r.Ok? ==> r.value == response
    ensures r.Err? ==> r.message == if HasId(p) then PatchFailedMessage else PostFailedMessage
  {
    if !HasId(p) then ThrowIfNotOk(PostFailedMessage, response)
    else ThrowIfNotOk(PatchFailedMessage, response)
  }
}
