/**
 * `NotificationsProvider`: the notifications state, its reducer, and the effect that keeps the
 * state in step with the fetched notifications (or clears it when there is no token).
 */
module Notifications {
  import opened Common

  datatype Notification = Notification(pk: Option<string>, sk: Option<string>, message: Option<string>, timestamp: Option<int>)

  /** The error slot starts as `false`, is reset to `null` by a fetch, and otherwise holds the error. */
  datatype ErrorSlot = NoErrorYet | Cleared | Failed(error: string)

  datatype State = State(notifications: seq<Notification>, isFetching: bool, error: ErrorSlot)

  const Initial := State([], false, NoErrorYet)

  datatype Action =
    | FetchStart
    | FetchSuccess(payload: seq<Notification>)
    | FetchError(failure: ErrorSlot)
    | Clear
    | Unknown(kind: string)

  /** `notificationsReducer`. */
  function Reduce(s: State, a: Action): (r: State)
    ensures a.FetchStart? ==> r == State(s.notifications, true, Cleared)
    ensures a.FetchSuccess? ==> r == State(a.payload, false, Cleared)
    ensures a.FetchError? ==> r == State(s.notifications, false, a.failure)
    ensures a.Clear? ==> r == Initial
    ensures a.Unknown? ==> r == s
    ensures !a.FetchSuccess? && !a.Clear? ==> r.notifications == s.notifications
  {
    match a
    case FetchStart => s.(isFetching := true, error := Cleared)
    case FetchSuccess(p) => s.(isFetching := false, notifications := p, error := Cleared)
    case FetchError(e) => s.(isFetching := false, error := e)
    case Clear => Initial
    case Unknown(_) => s
  }

  /** What the notifications query reports: the list (None when it is not an array), the fetching flag, the error. */
  datatype Raw = Raw(notifications: Option<seq<Notification>>, isFetching: bool, error: Option<string>)

  /** The provider works only with a token that is a non-empty string. */
  function ShouldFetch(idToken: Option<string>): (r: bool)
    ensures idToken.None? || idToken == Some("") ==> !r
    ensures idToken.Some? && idToken.value != "" ==> r
  {
    TruthyStr(idToken)
  }

  /**
   * The syncing effect: without a token it clears a state that is not the initial one; with a
   * token it starts a fetch when the query starts fetching, else takes over a changed list, else
   * records a new error.
   */
  function Effect(idToken: Option<string>, raw: Raw, s: State): (r: Option<Action>)
    ensures !ShouldFetch(idToken) ==> (r.Some? <==> s != Initial) && (r.Some? ==> r.value == Clear)
    ensures ShouldFetch(idToken) ==> r != Some(Clear)
    ensures r == Some(FetchStart) <==> ShouldFetch(idToken) && raw.isFetching && !s.isFetching
    ensures r.Some? && r.value.FetchSuccess? ==> raw.notifications == Some(r.value.payload) && r.value.payload != s.notifications
    ensures r.Some? && r.value.FetchError? ==> raw.error.Some? && r.value.failure == Failed(raw.error.value) &&
                                               s.error != r.value.failure
  {
    if !ShouldFetch(idToken) then
      if |s.notifications| != 0 || s.isFetching || s.error != NoErrorYet then Some(Clear) else None
    else if raw.isFetching && !s.isFetching then Some(FetchStart)
    else if raw.notifications.Some? && raw.notifications.value != s.notifications then Some(FetchSuccess(raw.notifications.value))
    else if TruthyStr(raw.error) && s.error != Failed(raw.error.value) then Some(FetchError(Failed(raw.error.value)))
    else None
  }

  /** Applies the effect's action, if any. */
  function Step(idToken: Option<string>, raw: Raw, s: State): State {
    match Effect(idToken, raw, s)
    case None => s
    case Some(a) => Reduce(s, a)
  }

  /** Without a token one run of the effect reaches the initial state, and the next run does nothing. */
  lemma LogoutClears(idToken: Option<string>, raw: Raw, s: State)
    requires !ShouldFetch(idToken)
    ensures Step(idToken, raw, s) == Initial
    ensures Effect(idToken, raw, Step(idToken, raw, s)).None?
  {
  }

  /** Once the fetched list has been taken over (and the query is idle without an error), the effect is quiet. */
  lemma SyncSettles(idToken: Option<string>, list: seq<Notification>, s: State)
    requires ShouldFetch(idToken)
    ensures var raw := Raw(Some(list), false, None);
            var t := Step(idToken, raw, s);
            t.notifications == list && Effect(idToken, raw, t).None?
  {
  }

  /** A fetch resets the error to `null`, so the state is no longer the initial one even with no notifications. */
  lemma FetchLeavesInitial(s: State)
    ensures Reduce(s, FetchStart) != Initial
    ensures Reduce(Initial, FetchSuccess([])) != Initial
  {
  }
}
