/**
 * The in-progress bet selection of the room page: a map from game id to a partially built bet.
 * Entries are partial records because the bet-type, team and points handlers copy
 * `selectedBets[gameId]`, which is `undefined` for a game that was never selected.
 */
module Selection {
  import opened Common

  type GameId = string

  /**
   * What the team handler stores as `teamChoice`: the plain strings the defaults use ("home",
   * "over"), or the objects the game card passes (`{teamChoice, takenLine}` for spread bets,
   * `{overUnderChoice}` otherwise). Lines are in tenths of a point.
   */
  datatype ChoiceValue =
    | Named(side: string)
    | SpreadPick(teamChoice: string, takenLine: Option<int>)
    | TotalPick(overUnderChoice: string)

  datatype Entry = Entry(betType: Option<string>, teamChoice: Option<ChoiceValue>, points: Option<int>)

  type Selections = map<GameId, Entry>

  const MaxSelections: nat := 3

  /** The entry a freshly selected game receives. */
  const DefaultEntry: Entry := Entry(Some("spread"), Some(Named("home")), Some(1))

  /** The first team choice for a bet type: "home" for spread bets, "over" for anything else. */
  function FirstChoice(betType: string): string {
    if betType == "spread" then "home" else "over"
  }

  predicate ValidPoints(p: int) {
    1 <= p <= 3
  }

  /** A complete entry: every field set and the points in 1..3. */
  predicate CompleteEntry(e: Entry) {
    e.betType.Some? && e.teamChoice.Some? && e.points.Some? && ValidPoints(e.points.value)
  }

  /** The store invariant the page relies on: at most three games, each with a complete entry. */
  predicate Wellformed(m: Selections) {
    |m| <= MaxSelections && forall k :: k in m ==> CompleteEntry(m[k])
  }

  /** The page state the room handlers write: the selected period and the selection map. */
  datatype PageState = PageState(week: int, year: int, seasonType: int, bets: Selections)

  /** The value a handler hands to `setSelectedBets`, and whether it raised the three-game warning. */
  datatype Update = Update(bets: Selections, limitWarning: bool)
}
