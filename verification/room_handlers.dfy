/**
 * The selection-store transitions of `createRoomHandlers`: period changes that wipe the selection,
 * the three-game toggle, and the per-entry bet type, team and points setters.
 */
module RoomHandlers {
  import opened Common
  import opened Selection

  /** A new week wipes the selection; year and season type are kept. */
  function WeekChange(st: PageState, newWeek: int): (r: PageState)
    ensures r.week == newWeek && r.year == st.year && r.seasonType == st.seasonType
    ensures r.bets == map[]
  {
    st.(week := newWeek, bets := map[])
  }

  /** A new year wipes the selection; week and season type are kept. */
  function YearChange(st: PageState, newYear: int): (r: PageState)
    ensures r.year == newYear && r.week == st.week && r.seasonType == st.seasonType
    ensures r.bets == map[]
  {
    st.(year := newYear, bets := map[])
  }

  /** A new season type wipes the selection; week and year are kept. */
  function SeasonTypeChange(st: PageState, newSeasonType: int): (r: PageState)
    ensures r.seasonType == newSeasonType && r.week == st.week && r.year == st.year
    ensures r.bets == map[]
  {
    st.(seasonType := newSeasonType, bets := map[])
  }

  /**
   * Toggling a game: a selected game is removed; an unselected one is added with the default
   * entry unless three games are already selected, in which case nothing changes and the
   * warning is raised.
   */
  function GameSelect(m: Selections, id: GameId): (r: Update)
    ensures id in m ==> id !in r.bets && !r.limitWarning
    ensures forall k :: k != id ==> (k in r.bets <==> k in m)
    ensures forall k :: k != id && k in m ==> r.bets[k] == m[k]
    ensures id !in m ==> (r.bets == m <==> |m| >= MaxSelections)
    ensures id !in m ==> (r.limitWarning <==> |m| >= MaxSelections)
    ensures id !in m && |m| < MaxSelections ==> id in r.bets && r.bets[id] == DefaultEntry
    ensures |r.bets| <= |m| || |r.bets| <= MaxSelections
  {
    if id in m then
      Update(m - {id}, false)
    else if |m| >= MaxSelections then
      Update(m, true)
    else
      Update(m[id := DefaultEntry], false)
  }

  /**
   * Changing the bet type sets `betType`, resets `teamChoice` to the type's first choice and keeps
   * `points` (absent for a game that was not selected); no other game changes.
   */
  function BetTypeChange(m: Selections, id: GameId, betType: string): (r: Selections)
    ensures id in r && r[id].betType == Some(betType)
    ensures r[id].teamChoice == Some(Named(if betType == "spread" then "home" else "over"))
    ensures r[id].points == (if id in m then m[id].points else None)
    ensures forall k :: k != id ==> (k in r <==> k in m)
    ensures forall k :: k != id && k in m ==> r[k] == m[k]
  {
    var old_ := if id in m then m[id] else Entry(None, None, None);
    m[id := old_.(betType := Some(betType), teamChoice := Some(Named(FirstChoice(betType))))]
  }

  /** Changing the team stores the handler's value as `teamChoice` and keeps the other fields. */
  function TeamChoiceChange(m: Selections, id: GameId, choice: ChoiceValue): (r: Selections)
    ensures id in r && r[id].teamChoice == Some(choice)
    ensures id in m ==> r[id].betType == m[id].betType && r[id].points == m[id].points
    ensures id !in m ==> r[id].betType.None? && r[id].points.None?
    ensures forall k :: k != id ==> (k in r <==> k in m)
    ensures forall k :: k != id && k in m ==> r[k] == m[k]
  {
    var old_ := if id in m then m[id] else Entry(None, None, None);
    m[id := old_.(teamChoice := Some(choice))]
  }

  /** Points outside 1..3 are ignored; otherwise only that entry's `points` changes. */
  function PointsChange(m: Selections, id: GameId, points: int): (r: Selections)
    ensures !ValidPoints(points) ==> r == m
    ensures ValidPoints(points) ==> id in r && r[id].points == Some(points)
    ensures ValidPoints(points) && id in m ==>
              r[id].betType == m[id].betType && r[id].teamChoice == m[id].teamChoice
    ensures forall k :: k != id ==> (k in r <==> k in m)
    ensures forall k :: k != id && k in m ==> r[k] == m[k]
  {
    if ValidPoints(points) then
      var old_ := if id in m then m[id] else Entry(None, None, None);
      m[id := old_.(points := Some(points))]
    else
      m
  }

  /** `handleClearBets`. */
  function ClearBets(m: Selections): (r: Selections)
    ensures |r| == 0
  {
    map[]
  }

  // ----- action sequences -----

  datatype Action =
    | ChangeWeek(week: int)
    | ChangeYear(year: int)
    | ChangeSeasonType(seasonType: int)
    | SelectGame(id: GameId)
    | SetBetType(id: GameId, betType: string)
    | SetTeamChoice(id: GameId, choice: ChoiceValue)
    | SetPoints(id: GameId, points: int)
    | Clear

  function Apply(st: PageState, a: Action): PageState {
    match a
    case ChangeWeek(w) => WeekChange(st, w)
    case ChangeYear(y) => YearChange(st, y)
    case ChangeSeasonType(t) => SeasonTypeChange(st, t)
    case SelectGame(id) => st.(bets := GameSelect(st.bets, id).bets)
    case SetBetType(id, t) => st.(bets := BetTypeChange(st.bets, id, t))
    case SetTeamChoice(id, c) => st.(bets := TeamChoiceChange(st.bets, id, c))
    case SetPoints(id, p) => st.(bets := PointsChange(st.bets, id, p))
    case Clear => st.(bets := ClearBets(st.bets))
  }

  function Run(st: PageState, acts: seq<Action>): PageState
    decreases |acts|
  {
    if |acts| == 0 then st else Run(Apply(st, acts[0]), acts[1..])
  }

  /** The entry setters are only ever aimed at a game that is currently selected. */
  predicate TargetsSelected(st: PageState, a: Action) {
    match a
    case SetBetType(id, _) => id in st.bets
    case SetTeamChoice(id, _) => id in st.bets
    case SetPoints(id, _) => id in st.bets
    case _ => true
  }

  predicate Targeted(st: PageState, acts: seq<Action>)
    decreases |acts|
  {
    |acts| == 0 || (TargetsSelected(st, acts[0]) && Targeted(Apply(st, acts[0]), acts[1..]))
  }

  lemma SelectKeepsWellformed(m: Selections, id: GameId)
    requires Wellformed(m)
    ensures Wellformed(GameSelect(m, id).bets)
  {
    if id in m {
      assert GameSelect(m, id).bets == m - {id};
    }
  }

  lemma BetTypeKeepsWellformed(m: Selections, id: GameId, t: string)
    requires Wellformed(m) && id in m
    ensures Wellformed(BetTypeChange(m, id, t))
  {
    assert BetTypeChange(m, id, t).Keys == m.Keys;
  }

  lemma TeamChoiceKeepsWellformed(m: Selections, id: GameId, c: ChoiceValue)
    requires Wellformed(m) && id in m
    ensures Wellformed(TeamChoiceChange(m, id, c))
  {
    assert TeamChoiceChange(m, id, c).Keys == m.Keys;
  }

  lemma PointsKeepWellformed(m: Selections, id: GameId, p: int)
    requires Wellformed(m) && id in m
    ensures Wellformed(PointsChange(m, id, p))
  {
    assert PointsChange(m, id, p).Keys == m.Keys;
  }

  /** One handler call keeps the store well-formed when the setters target selected games. */
  lemma ApplyKeepsWellformed(st: PageState, a: Action)
    requires Wellformed(st.bets) && TargetsSelected(st, a)
    ensures Wellformed(Apply(st, a).bets)
  {
    match a
    case SelectGame(id) => SelectKeepsWellformed(st.bets, id);
    case SetBetType(id, t) => BetTypeKeepsWellformed(st.bets, id, t);
    case SetTeamChoice(id, c) => TeamChoiceKeepsWellformed(st.bets, id, c);
    case SetPoints(id, p) => PointsKeepWellformed(st.bets, id, p);
    case _ =>
  }

  /**
   * Cap invariant: any run of handler calls whose setters target selected games keeps at most
   * three selections, each complete with points in 1..3.
   */
  lemma {:induction false} RunKeepsWellformed(st: PageState, acts: seq<Action>)
    requires Wellformed(st.bets) && Targeted(st, acts)
    ensures Wellformed(Run(st, acts).bets)
    decreases |acts|
  {
    if |acts| > 0 {
      ApplyKeepsWellformed(st, acts[0]);
      RunKeepsWellformed(Apply(st, acts[0]), acts[1..]);
    }
  }

  function ToggleAll(m: Selections, ids: seq<GameId>): Selections
    decreases |ids|
  {
    if |ids| == 0 then m else ToggleAll(GameSelect(m, ids[0]).bets, ids[1..])
  }

  /** Toggling alone never takes the store above three games, whatever the ids. */
  lemma {:induction false} ToggleAllCapped(m: Selections, ids: seq<GameId>)
    requires |m| <= MaxSelections
    ensures |ToggleAll(m, ids)| <= MaxSelections
    decreases |ids|
  {
    if |ids| > 0 {
      ToggleAllCapped(GameSelect(m, ids[0]).bets, ids[1..]);
    }
  }

  /**
   * Without the targeting precondition the cap fails: the points setter on an unselected game
   * adds a fourth, partial entry.
   */
  lemma UntargetedSetterBreaksCap()
    ensures var m := map["a" := DefaultEntry, "b" := DefaultEntry, "c" := DefaultEntry];
            |PointsChange(m, "d", 2)| == 4 && !CompleteEntry(PointsChange(m, "d", 2)["d"])
  {
    var m := map["a" := DefaultEntry, "b" := DefaultEntry, "c" := DefaultEntry];
    assert m.Keys == {"a", "b", "c"};
    assert PointsChange(m, "d", 2).Keys == {"a", "b", "c", "d"};
  }
}
