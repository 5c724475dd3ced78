/**
 * `useCreateBet`: placing a bet. The request's outcome is a parameter; the model decides whether a
 * request is made, which toast is shown, what is returned or rethrown, and the hook's state after.
 */
module CreateBet {
  import opened Common
  import opened Text

  datatype ResponseData = ResponseData(pointsWagered: Option<int>)

  datatype ErrorData = ErrorData(error: Option<string>, message: Option<string>, pointsWagered: Option<int>)

  /** What the POST ended in: a response, an HTTP error with a body, or an error without a response. */
  datatype RequestResult =
    | Ok(data: ResponseData)
    | HttpError(status: int, body: ErrorData, errMessage: Option<string>)
    | NoResponse(errMessage: Option<string>)

  datatype Toast = Success(text: string) | Failure(text: string)

  /** The call resolves with the response data or rejects with the error's message. */
  datatype Settled = Resolved(data: ResponseData) | Rejected(errMessage: Option<string>)

  datatype Outcome = Outcome(requestSent: bool, toast: Toast, settled: Settled, loading: bool, error: Option<string>)

  const AuthRequired := "Authentication required"
  const FailedToPlace := "Failed to place bet"

  /** How a template literal prints an optional number. */
  function NumberText(n: Option<int>): string {
    if n.Some? then IntToString(n.value) else "undefined"
  }

  function TextOf(s: Option<string>): string {
    if s.Some? then s.value else "undefined"
  }

  /** The 409 text: the conflicting points when the server sends a non-zero number, else "duplicate". */
  function ConflictText(pointsWagered: Option<int>): string {
    ConflictHead + (if TruthyInt(pointsWagered) then IntToString(pointsWagered.value) else "duplicate") + ConflictTail
  }

  const ConflictHead := "You already have a "
  const ConflictTail := "-point bet in this room"

  /** The toast text for an HTTP error, by status and, for 400, by the server's error code. */
  function HttpErrorText(status: int, body: ErrorData): (r: string)
    ensures status == 409 ==> r == ConflictText(body.pointsWagered)
    ensures status == 401 ==> r == "Please log in to place bets"
    ensures status == 500 ==> r == "Server error - please try again later"
    ensures status !in {400, 401, 409, 500} ==> r == FailedToPlace
    ensures status == 400 && body.error == Some("Invalid points wagered") ==> r == "Points wagered must be 1, 2, or 3"
    ensures status == 400 && body.error == Some("Invalid game status") ==> r == "Cannot bet on this game - betting is closed"
    ensures status == 400 && body.error == Some("Invalid bet type") ==>
              |"Invalid bet: "| <= |r| && r[..|"Invalid bet: "|] == "Invalid bet: " && r[|"Invalid bet: "|..] == TextOf(body.message)
    ensures status == 400 && body.error !in {Some("Invalid game status"), Some("Invalid points wagered"), Some("Invalid bet type")} ==>
              r == StrOr(body.message, "Invalid bet data")
  {
    if status == 409 then ConflictText(body.pointsWagered)
    else if status == 400 then
      if body.error == Some("Invalid game status") then "Cannot bet on this game - betting is closed"
      else if body.error == Some("Invalid points wagered") then "Points wagered must be 1, 2, or 3"
      else if body.error == Some("Invalid bet type") then "Invalid bet: " + TextOf(body.message)
      else StrOr(body.message, "Invalid bet data")
    else if status == 401 then "Please log in to place bets"
    else if status == 500 then "Server error - please try again later"
    else FailedToPlace
  }

  /** A duplicate-points conflict names the points when the server sends a non-zero number, else says "duplicate". */
  lemma ConflictNamesPoints(p: int)
    ensures p != 0 ==> HttpErrorText(409, ErrorData(None, None, Some(p))) == ConflictHead + IntToString(p) + ConflictTail
    ensures HttpErrorText(409, ErrorData(None, None, Some(0))) == ConflictHead + "duplicate" + ConflictTail
    ensures HttpErrorText(409, ErrorData(None, None, None)) == ConflictHead + "duplicate" + ConflictTail
  {
  }

  /**
   * `createBet`: without a token nothing is sent and the call fails with "Authentication required";
   * a response is returned with a success toast; every error shows an error toast, records the
   * error's message and is rethrown. Loading is off again on every path.
   */
  function Create(idToken: Option<string>, result: RequestResult): (r: Outcome)
    ensures !r.loading
    ensures r.requestSent <==> TruthyStr(idToken)
    ensures !TruthyStr(idToken) ==> r.toast == Failure(AuthRequired) && r.settled == Rejected(Some(AuthRequired)) &&
                                    r.error == Some(AuthRequired)
    ensures r.settled.Resolved? <==> TruthyStr(idToken) && result.Ok?
    ensures r.settled.Resolved? ==> r.settled.data == result.data && r.toast.Success? && r.error.None?
    ensures r.settled.Rejected? ==> r.toast.Failure? && r.error == r.settled.errMessage
    ensures TruthyStr(idToken) && result.HttpError? ==>
              r.toast == Failure(HttpErrorText(result.status, result.body)) && r.error == result.errMessage
    ensures TruthyStr(idToken) && result.NoResponse? ==>
              r.toast == Failure(StrOr(result.errMessage, FailedToPlace)) && r.error == result.errMessage
  {
    if !TruthyStr(idToken) then
      Outcome(false, Failure(AuthRequired), Rejected(Some(AuthRequired)), false, Some(AuthRequired))
    else
      match result
      case Ok(data) =>
        Outcome(true, Success("Successfully placed " + NumberText(data.pointsWagered) + "-point bet!"), Resolved(data), false, None)
      case HttpError(status, body, m) =>
        Outcome(true, Failure(HttpErrorText(status, body)), Rejected(m), false, m)
      case NoResponse(m) =>
        Outcome(true, Failure(StrOr(m, FailedToPlace)), Rejected(m), false, m)
  }

  /** Only a response resolves the call: any status error is a failure, whatever its code. */
  lemma EveryErrorRethrown(idToken: Option<string>, status: int, body: ErrorData, m: Option<string>)
    ensures Create(idToken, HttpError(status, body, m)).settled.Rejected?
    ensures Create(idToken, NoResponse(m)).settled.Rejected?
  {
  }
}
