/**
 * `CreateRoom`: the form's validation rules and the room payload built from valid form values.
 * Dates are instants in milliseconds since the epoch; the payload carries whole seconds.
 */
module CreateRoom {
  import opened Common

  const NameMin := 3
  const NameMax := 50

  const NameRequired := "Please enter a room name"
  const NameTooShort := "Room name must be at least 3 characters"
  const NameTooLong := "Room name cannot exceed 50 characters"
  const LeaguesRequired := "Please select at least one league"
  const StartRequired := "Please select a start date"
  const EndRequired := "Please select an end date"
  const DateOrder := "Start date must be before end date"

  datatype FormValues = FormValues(
    roomName: Option<string>,
    description: Option<string>,
    leagues: Option<seq<string>>,
    isPublic: Option<bool>,
    startDate: Option<int>,
    endDate: Option<int>)

  /** `validateDateRange`: rejects only when both dates are chosen and the start is after the end. */
  function ValidateDateRange(startDate: Option<int>, endDate: Option<int>): (r: Option<string>)
    ensures r.Some? <==> startDate.Some? && endDate.Some? && startDate.value > endDate.value
    ensures r.Some? ==> r.value == DateOrder
  {
    if startDate.Some? && endDate.Some? && startDate.value > endDate.value then Some(DateOrder) else None
  }

  /** A start on the same instant as the end passes the range check. */
  lemma SameDayPasses(d: int)
    ensures ValidateDateRange(Some(d), Some(d)).None?
  {
  }

  /** The room name rules: required, then at least 3 and at most 50 characters. */
  function NameErrors(name: Option<string>): (r: seq<string>)
    ensures r == [] <==> name.Some? && NameMin <= |name.value| <= NameMax
    ensures |r| <= 1
    ensures name.None? || name == Some("") ==> r == [NameRequired]
  {
    if name.None? || |name.value| == 0 then [NameRequired]
    else if |name.value| < NameMin then [NameTooShort]
    else if |name.value| > NameMax then [NameTooLong]
    else []
  }

  /** The form's errors, field by field; a date field also carries the range check. */
  function Errors(v: FormValues): (r: seq<string>)
    ensures r == [] <==> v.roomName.Some? && NameMin <= |v.roomName.value| <= NameMax &&
                         v.leagues.Some? && |v.leagues.value| > 0 &&
                         v.startDate.Some? && v.endDate.Some? && v.startDate.value <= v.endDate.value
  {
    NameErrors(v.roomName) +
    (if v.leagues.None? || |v.leagues.value| == 0 then [LeaguesRequired] else []) +
    (if v.startDate.None? then [StartRequired] else []) +
    (if v.endDate.None? then [EndRequired] else []) +
    (match ValidateDateRange(v.startDate, v.endDate) case Some(e) => [e, e] case None => [])
  }

  /** `dayjs(d).unix()`: whole seconds, rounded down. */
  function UnixSeconds(ms: int): (r: int)
    ensures r * 1000 <= ms < r * 1000 + 1000
  {
    ms / 1000
  }

  /** Rounding to seconds never reverses two instants. */
  lemma UnixSecondsMonotone(a: int, b: int)
    requires a <= b
    ensures UnixSeconds(a) <= UnixSeconds(b)
  {
  }

  datatype RoomData = RoomData(
    roomName: Option<string>,
    description: Option<string>,
    leagues: Option<seq<string>>,
    isPublic: bool,
    startDate: Option<int>,
    endDate: Option<int>)

  /** `roomData`: an empty description becomes null, visibility defaults to private, dates become seconds. */
  function ToRoomData(v: FormValues): (r: RoomData)
    ensures r.roomName == v.roomName && r.leagues == v.leagues
    ensures r.description.Some? <==> TruthyStr(v.description)
    ensures r.description.Some? ==> r.description == v.description
    ensures r.isPublic <==> v.isPublic == Some(true)
    ensures r.startDate.Some? <==> v.startDate.Some?
    ensures r.endDate.Some? <==> v.endDate.Some?
    ensures r.startDate.Some? ==> r.startDate.value * 1000 <= v.startDate.value < r.startDate.value * 1000 + 1000
    ensures r.endDate.Some? ==> r.endDate.value * 1000 <= v.endDate.value < r.endDate.value * 1000 + 1000
  {
    RoomData(
      v.roomName,
      if TruthyStr(v.description) then v.description else None,
      v.leagues,
      v.isPublic.Some? && v.isPublic.value,
      if v.startDate.Some? then Some(UnixSeconds(v.startDate.value)) else None,
      if v.endDate.Some? then Some(UnixSeconds(v.endDate.value)) else None)
  }

  /** The form only submits without errors; the payload then follows from the values. */
  function Submit(v: FormValues): (r: Option<RoomData>)
    ensures r.Some? <==> Errors(v) == []
    ensures r.Some? ==> r.value == ToRoomData(v)
  {
    if Errors(v) == [] then Some(ToRoomData(v)) else None
  }

  /** A submitted room has a valid name, at least one league, and both dates, start not after end. */
  lemma SubmittedRoomIsWellFormed(v: FormValues)
    requires Submit(v).Some?
    ensures var d := Submit(v).value;
            d.roomName.Some? && NameMin <= |d.roomName.value| <= NameMax &&
            d.leagues.Some? && |d.leagues.value| > 0 &&
            d.startDate.Some? && d.endDate.Some? && d.startDate.value <= d.endDate.value
  {
    UnixSecondsMonotone(v.startDate.value, v.endDate.value);
  }
}
