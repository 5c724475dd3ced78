/**
 * `ScoreDisplay` (room variant): whether scores are shown, the total score, the status text, and
 * the WIN/LOSS context for a finished game's over/under or spread bet. Lines and spreads are in
 * tenths of a point; scores are whole points.
 */
module ScoreDisplay {
  import opened Common
  import opened Text
  import SpreadUtils

  datatype Status = Status(state: Option<string>, completed: bool, detail: Option<string>)
  datatype TeamScore = TeamScore(score: Option<int>)
  datatype GameStatus = GameStatus(status: Status, homeTeam: Option<TeamScore>, awayTeam: Option<TeamScore>)

  datatype GameBet = GameBet(
    betType: Option<string>,
    totalValue: Option<int>,
    overUnderChoice: Option<string>,
    spreadValue: Option<int>,
    teamChoice: Option<string>)

  datatype ScoredBet = ScoredBet(gameStatus: Option<GameStatus>, gameBet: Option<GameBet>)

  predicate IsLive(s: Status) {
    s.state == Some("in")
  }

  predicate IsCompleted(s: Status) {
    s.state == Some("post") || s.completed
  }

  /** Scores are shown once there is a status with both teams and the game has left "pre". */
  predicate ShowsScores(bet: ScoredBet) {
    bet.gameStatus.Some? && bet.gameStatus.value.homeTeam.Some? && bet.gameStatus.value.awayTeam.Some? &&
    bet.gameStatus.value.status.state != Some("pre")
  }

  /** `totalScore`: a missing score counts as 0. */
  function TotalScore(g: GameStatus): (r: int)
    requires g.homeTeam.Some? && g.awayTeam.Some?
    ensures r == OrZero(g.awayTeam.value.score) + OrZero(g.homeTeam.value.score)
    ensures g.homeTeam.value.score.None? ==> r == OrZero(g.awayTeam.value.score)
    ensures g.awayTeam.value.score.None? ==> r == OrZero(g.homeTeam.value.score)
  {
    (if g.awayTeam.value.score.Some? then g.awayTeam.value.score.value else 0) +
    (if g.homeTeam.value.score.Some? then g.homeTeam.value.score.value else 0)
  }

  /** `getStatusText`: "LIVE" outranks "FINAL", which outranks the status detail. */
  function StatusText(s: Status): (r: string)
    ensures IsLive(s) ==> r == "LIVE"
    ensures !IsLive(s) && IsCompleted(s) ==> r == "FINAL"
    ensures !IsLive(s) && !IsCompleted(s) ==> r == StrOr(s.detail, "")
  {
    if IsLive(s) then "LIVE"
    else if IsCompleted(s) then "FINAL"
    else if TruthyStr(s.detail) then s.detail.value else ""
  }

  /** A number of tenths as JavaScript prints the number: "45.5", "7", "-3.5". */
  function NumText(t: int): (r: string)
    ensures |r| > 0
    ensures t < 0 <==> r[0] == '-'
  {
    if t < 0 then "-" + SpreadUtils.AbsText(-t) else SpreadUtils.AbsText(t)
  }

  datatype ResultContext = ResultContext(text: string, win: bool)

  function Outcome(win: bool): string {
    if win then "WIN" else "LOSS"
  }

  /** An over pick wins above the line, any other pick below it; landing exactly on the line loses. */
  function OverUnderWins(totalScore: int, line: int, choice: string): (r: bool)
    ensures totalScore * 10 == line ==> !r
    ensures Lower(choice) == "over" ==> (r <==> totalScore * 10 > line)
    ensures Lower(choice) != "over" ==> (r <==> totalScore * 10 < line)
  {
    if Lower(choice) == "over" then totalScore * 10 > line else totalScore * 10 < line
  }

  /** Over and under on the same line never both win, and off the line exactly one of them does. */
  lemma OverUnderExclusive(totalScore: int, line: int)
    ensures !(OverUnderWins(totalScore, line, "over") && OverUnderWins(totalScore, line, "under"))
    ensures totalScore * 10 != line ==> OverUnderWins(totalScore, line, "over") || OverUnderWins(totalScore, line, "under")
  {
    assert Lower("over") == "over";
    assert Lower("under") != "over" by {
      assert Lower("under")[0] == 'u';
    }
  }

  // ----- spread grading -----

  /** The margin of the picked side: its score minus the opponent's; none when a score is missing (NaN). */
  function PickMargin(g: GameStatus, teamChoice: string): (r: Option<int>)
    requires g.homeTeam.Some? && g.awayTeam.Some?
    ensures r.Some? <==> g.homeTeam.value.score.Some? && g.awayTeam.value.score.Some?
    ensures r.Some? && Lower(teamChoice) == "home" ==> r.value == g.homeTeam.value.score.value - g.awayTeam.value.score.value
    ensures r.Some? && Lower(teamChoice) != "home" ==> r.value == g.awayTeam.value.score.value - g.homeTeam.value.score.value
  {
    var home := g.homeTeam.value.score;
    var away := g.awayTeam.value.score;
    if home.None? || away.None? then None
    else if Lower(teamChoice) == "home" then Some(home.value - away.value)
    else Some(away.value - home.value)
  }

  /**
   * The comparison as written: the pick wins when its margin exceeds the stored spread value. This
   * is the covering rule with the line's sign turned around.
   */
  function SpreadWinsAsWritten(margin: int, spread: int): (r: bool)
    ensures r == SpreadCovers(margin, -spread)
    ensures spread < 0 && margin < 0 && margin * 10 > spread ==> r
  {
    margin * 10 > spread
  }

  /**
   * As written, a pick of the favourite at -3 wins even when the favourite loses by 2: the margin
   * -2 exceeds -3. The line's sign is ignored instead of being added to the margin.
   */
  lemma FavoriteLosingOutrightWinsAsWritten()
    ensures SpreadWinsAsWritten(-2, -30)
    ensures !SpreadCovers(-2, -30)
  {
  }

  /** As written, an underdog at +7 that loses by 3 covers the spread and still grades as a loss. */
  lemma UnderdogCoveringLosesAsWritten()
    ensures !SpreadWinsAsWritten(-3, 70)
    ensures SpreadCovers(-3, 70)
  {
  }

  /**
   * The intended rule: the pick covers when its margin plus its line (negative for the favourite)
   * is positive; exactly on the number is not a win.
   */
  function SpreadCovers(margin: int, line: int): (r: bool)
    ensures line <= 0 && r ==> margin > 0
    ensures line >= 0 && margin > 0 ==> r
    ensures r <==> margin * 10 > -line
  {
    margin * 10 + line > 0
  }

  /** Both sides of one game, with mirrored lines: never both cover, and off the number exactly one does. */
  lemma SpreadSidesComplement(margin: int, line: int)
    ensures !(SpreadCovers(margin, line) && SpreadCovers(-margin, -line))
    ensures margin * 10 + line != 0 ==> SpreadCovers(margin, line) || SpreadCovers(-margin, -line)
  {
  }

  /** A larger margin never turns a covering pick into a losing one. */
  lemma SpreadCoversMonotone(m1: int, m2: int, line: int)
    requires m1 <= m2 && SpreadCovers(m1, line)
    ensures SpreadCovers(m2, line)
  {
  }

  /** Whether a result is shown at all: asked for, a game bet, a finished game, and the bet's own fields truthy. */
  predicate HasResult(bet: ScoredBet, showBetResult: bool)
    requires ShowsScores(bet)
  {
    showBetResult && bet.gameBet.Some? && IsCompleted(bet.gameStatus.value.status) &&
    var gb := bet.gameBet.value;
    (gb.betType == Some("over_under") && TruthyInt(gb.totalValue) && TruthyStr(gb.overUnderChoice)) ||
    (gb.betType == Some("spread") && TruthyInt(gb.spreadValue) && TruthyStr(gb.teamChoice))
  }

  /** `getBetResultContext`, with the spread verdict `covers(margin, spread)` passed in. */
  function ResultWith(bet: ScoredBet, showBetResult: bool, covers: (int, int) -> bool): (r: Option<ResultContext>)
    requires ShowsScores(bet)
    ensures r.Some? <==> HasResult(bet, showBetResult)
    ensures r.Some? && bet.gameBet.value.betType == Some("over_under") ==>
              r.value.win == OverUnderWins(TotalScore(bet.gameStatus.value), bet.gameBet.value.totalValue.value,
                                           bet.gameBet.value.overUnderChoice.value)
    ensures r.Some? && bet.gameBet.value.betType == Some("spread") ==>
              var m := PickMargin(bet.gameStatus.value, bet.gameBet.value.teamChoice.value);
              r.value.win == (m.Some? && covers(m.value, bet.gameBet.value.spreadValue.value))
  {
    var g := bet.gameStatus.value;
    if !showBetResult || bet.gameBet.None? || !IsCompleted(g.status) then None
    else
      var gb := bet.gameBet.value;
      if gb.betType == Some("over_under") then
        if TruthyInt(gb.totalValue) && TruthyStr(gb.overUnderChoice) then
          var win := OverUnderWins(TotalScore(g), gb.totalValue.value, gb.overUnderChoice.value);
          Some(ResultContext(Upper(gb.overUnderChoice.value) + " " + NumText(gb.totalValue.value) + " → " + Outcome(win), win))
        else None
      else if gb.betType == Some("spread") then
        if TruthyInt(gb.spreadValue) && TruthyStr(gb.teamChoice) then
          var m := PickMargin(g, gb.teamChoice.value);
          var win := m.Some? && covers(m.value, gb.spreadValue.value);
          Some(ResultContext(Upper(gb.teamChoice.value) + " " + SpreadUtils.FormatTenths(gb.spreadValue.value) + " → " + Outcome(win), win))
        else None
      else None
  }

  /**
   * `getBetResultContext` as written: only with `showBetResult`, a game bet and a finished game;
   * over/under needs a truthy line and choice, spread a truthy spread and team. A spread pick wins
   * when its margin exceeds the stored spread; a missing score makes the margin NaN, which loses.
   */
  function BetResultContext(bet: ScoredBet, showBetResult: bool): (r: Option<ResultContext>)
    requires ShowsScores(bet)
    ensures r.Some? <==> HasResult(bet, showBetResult)
    ensures r.Some? ==> showBetResult && bet.gameBet.Some? && IsCompleted(bet.gameStatus.value.status)
    ensures r.Some? ==> bet.gameBet.value.betType == Some("over_under") || bet.gameBet.value.betType == Some("spread")
    ensures r.Some? && bet.gameBet.value.betType == Some("over_under") ==>
              r.value.win == OverUnderWins(TotalScore(bet.gameStatus.value), bet.gameBet.value.totalValue.value,
                                           bet.gameBet.value.overUnderChoice.value)
    ensures r.Some? && bet.gameBet.value.betType == Some("spread") ==>
              var m := PickMargin(bet.gameStatus.value, bet.gameBet.value.teamChoice.value);
              r.value.win == (m.Some? && m.value * 10 > bet.gameBet.value.spreadValue.value)
  {
    ResultWith(bet, showBetResult, SpreadWinsAsWritten)
  }

  /** The same context graded by the covering rule, with the stored spread as the picked side's line. */
  function BetResultContextIntended(bet: ScoredBet, showBetResult: bool): (r: Option<ResultContext>)
    requires ShowsScores(bet)
    ensures r.Some? <==> HasResult(bet, showBetResult)
    ensures r.Some? && bet.gameBet.value.betType == Some("over_under") ==>
              r.value.win == OverUnderWins(TotalScore(bet.gameStatus.value), bet.gameBet.value.totalValue.value,
                                           bet.gameBet.value.overUnderChoice.value)
    ensures r.Some? && bet.gameBet.value.betType == Some("spread") ==>
              var m := PickMargin(bet.gameStatus.value, bet.gameBet.value.teamChoice.value);
              r.value.win == (m.Some? && m.value * 10 + bet.gameBet.value.spreadValue.value > 0)
  {
    ResultWith(bet, showBetResult, SpreadCovers)
  }

  /**
   * The two gradings agree on whether there is a result and on every over/under bet; on a spread
   * bet the as-written verdict is the intended verdict for the opposite line.
   */
  lemma GradingsRelated(bet: ScoredBet, showBetResult: bool)
    requires ShowsScores(bet)
    ensures BetResultContext(bet, showBetResult).Some? == BetResultContextIntended(bet, showBetResult).Some?
    ensures BetResultContext(bet, showBetResult).Some? && bet.gameBet.value.betType == Some("over_under") ==>
              BetResultContext(bet, showBetResult) == BetResultContextIntended(bet, showBetResult)
    ensures BetResultContext(bet, showBetResult).Some? && bet.gameBet.value.betType == Some("spread") ==>
              var gb := bet.gameBet.value;
              var flipped := ScoredBet(bet.gameStatus, Some(gb.(spreadValue := Some(-gb.spreadValue.value))));
              BetResultContext(bet, showBetResult).value.win == BetResultContextIntended(flipped, showBetResult).value.win
  {
  }

  /** A -3 favourite that lost 17-19: the component shows a WIN, the covering rule a LOSS. */
  lemma LosingFavoriteShownAsWin()
    ensures var g := GameStatus(Status(Some("post"), true, None), Some(TeamScore(Some(17))), Some(TeamScore(Some(19))));
            var bet := ScoredBet(Some(g), Some(GameBet(Some("spread"), None, None, Some(-30), Some("home"))));
            BetResultContext(bet, true).Some? && BetResultContext(bet, true).value.win &&
            BetResultContextIntended(bet, true).Some? && !BetResultContextIntended(bet, true).value.win
  {
    assert Lower("home") == "home";
  }

  /** The context's text ends in the outcome it reports. */
  lemma ResultTextEndsWithOutcome(bet: ScoredBet, showBetResult: bool)
    requires ShowsScores(bet)
    ensures var r := BetResultContext(bet, showBetResult);
            r.Some? ==> Suffix(r.value.text, |Outcome(r.value.win)|) == Outcome(r.value.win)
  {
  }

  /** A zero spread or line is falsy in the source, so such bets get no result at all. */
  lemma ZeroLineHasNoResult(g: GameStatus, gb: GameBet)
    requires g.homeTeam.Some? && g.awayTeam.Some? && g.status.state != Some("pre")
    requires gb.spreadValue == Some(0) && gb.totalValue == Some(0)
    ensures BetResultContext(ScoredBet(Some(g), Some(gb)), true).None?
  {
  }

  datatype ScoreView = ScoreView(totalScore: int, statusText: string, result: Option<ResultContext>)

  /** What the component renders: nothing without status and both teams or before kick-off. */
  function View(bet: ScoredBet, showBetResult: bool): (r: Option<ScoreView>)
    ensures r.None? <==> bet.gameStatus.None? || bet.gameStatus.value.homeTeam.None? ||
                         bet.gameStatus.value.awayTeam.None? || bet.gameStatus.value.status.state == Some("pre")
    ensures r.Some? && !showBetResult ==> r.value.result.None?
    ensures r.Some? && IsLive(bet.gameStatus.value.status) ==> r.value.statusText == "LIVE"
    ensures r.Some? && !IsCompleted(bet.gameStatus.value.status) ==> r.value.result.None?
  {
    if !ShowsScores(bet) then None
    else
      var g := bet.gameStatus.value;
      Some(ScoreView(TotalScore(g), StatusText(g.status), BetResultContext(bet, showBetResult)))
  }
}
