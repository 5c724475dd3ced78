/**
 * `createHandlers`, the second copy of the room page's selection handlers, written out as its own
 * transitions and proved to agree with `createRoomHandlers` on every input.
 */
module RoomUtils {
  import opened Common
  import opened Selection
  import RoomHandlers

  function HandleWeekChange(st: PageState, newWeek: int): (r: PageState)
    ensures r.bets == map[] && r.week == newWeek
  {
    PageState(newWeek, st.year, st.seasonType, map[])
  }

  function HandleYearChange(st: PageState, newYear: int): (r: PageState)
    ensures r.bets == map[] && r.year == newYear
  {
    PageState(st.week, newYear, st.seasonType, map[])
  }

  function HandleSeasonTypeChange(st: PageState, newSeasonType: int): (r: PageState)
    ensures r.bets == map[] && r.seasonType == newSeasonType
  {
    PageState(st.week, st.year, newSeasonType, map[])
  }

  /** Toggle with the three-game cap: a fourth distinct game is rejected and the map is unchanged. */
  function HandleGameSelect(m: Selections, id: GameId): (r: Update)
    ensures id !in m && |m| >= MaxSelections ==> r.bets == m && r.limitWarning
    ensures id !in m && |m| < MaxSelections ==> r.bets == m[id := DefaultEntry]
    ensures id in m ==> r.bets == m - {id}
  {
    if id in m then
      var newBets := map k | k in m && k != id :: m[k];
      Update(newBets, false)
    else if |m| >= 3 then
      Update(m, true)
    else
      Update(m[id := Entry(Some("spread"), Some(Named("home")), Some(1))], false)
  }

  /** Bet type change: `teamChoice` resets to "home" or "over", `points` is kept. */
  function HandleBetTypeChange(m: Selections, id: GameId, betType: string): (r: Selections)
    ensures id in r && r[id].betType == Some(betType) && r[id].teamChoice.Some?
    ensures r[id].teamChoice.value == Named(FirstChoice(betType))
    ensures id in m ==> r[id].points == m[id].points
  {
    var prev := if id in m then m[id] else Entry(None, None, None);
    m[id := Entry(Some(betType), Some(Named(if betType == "spread" then "home" else "over")), prev.points)]
  }

  function HandleTeamChoiceChange(m: Selections, id: GameId, choice: ChoiceValue): (r: Selections)
    ensures id in r && r[id].teamChoice == Some(choice)
  {
    var prev := if id in m then m[id] else Entry(None, None, None);
    m[id := Entry(prev.betType, Some(choice), prev.points)]
  }

  /** Points outside 1..3 are ignored. */
  function HandlePointsChange(m: Selections, id: GameId, points: int): (r: Selections)
    ensures !(points >= 1 && points <= 3) ==> r == m
    ensures points >= 1 && points <= 3 ==> id in r && r[id].points == Some(points)
  {
    if points >= 1 && points <= 3 then
      var prev := if id in m then m[id] else Entry(None, None, None);
      m[id := Entry(prev.betType, prev.teamChoice, Some(points))]
    else
      m
  }

  function HandleClearBets(m: Selections): (r: Selections)
    ensures r == map[]
  {
    map[]
  }

  /** Both copies of the handlers compute the same next state from every input. */
  lemma HandlersAgree(st: PageState, m: Selections, id: GameId, betType: string,
                      choice: ChoiceValue, points: int, n: int)
    ensures HandleWeekChange(st, n) == RoomHandlers.WeekChange(st, n)
    ensures HandleYearChange(st, n) == RoomHandlers.YearChange(st, n)
    ensures HandleSeasonTypeChange(st, n) == RoomHandlers.SeasonTypeChange(st, n)
    ensures HandleGameSelect(m, id) == RoomHandlers.GameSelect(m, id)
    ensures HandleBetTypeChange(m, id, betType) == RoomHandlers.BetTypeChange(m, id, betType)
    ensures HandleTeamChoiceChange(m, id, choice) == RoomHandlers.TeamChoiceChange(m, id, choice)
    ensures HandlePointsChange(m, id, points) == RoomHandlers.PointsChange(m, id, points)
    ensures HandleClearBets(m) == RoomHandlers.ClearBets(m)
  {
    if id in m {
      assert HandleGameSelect(m, id).bets == m - {id};
    }
  }
}
