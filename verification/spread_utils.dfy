/**
 * `computeDisplayedSpread`: the spread a bettor took, as a signed display string ("+8.5", "-3",
 * "0") relative to the team they picked, or "TBD" when no usable number is stored.
 * Spreads are integers in tenths of a point, so rounding to the nearest tenth is the identity.
 */
module SpreadUtils {
  import opened Common
  import opened Text

  /** A stored spread: null/undefined, a number (or numeric string) in tenths, or text that is not a number. */
  datatype RawValue = Missing | Num(tenths: int) | NotANumber

  datatype GameBet = GameBet(spreadValue: RawValue, teamChoice: Option<string>)
  datatype OddsSnapshot = OddsSnapshot(spread: RawValue, favoredTeam: Option<string>)
  datatype Bet = Bet(gameBet: Option<GameBet>, oddsSnapshot: Option<OddsSnapshot>)

  const Tbd: string := "TBD"

  function Abs(x: int): nat {
    if x < 0 then -x else x
  }

  /** `bet.game_bet?.spread_value ?? bet.odds_snapshot?.spread`: only null/undefined falls through. */
  function RawSpread(bet: Bet): (r: RawValue)
    ensures bet.gameBet.Some? && !bet.gameBet.value.spreadValue.Missing? ==> r == bet.gameBet.value.spreadValue
    ensures (bet.gameBet.None? || bet.gameBet.value.spreadValue.Missing?) ==>
              r == (if bet.oddsSnapshot.Some? then bet.oddsSnapshot.value.spread else Missing)
  {
    if bet.gameBet.Some? && !bet.gameBet.value.spreadValue.Missing? then bet.gameBet.value.spreadValue
    else if bet.oddsSnapshot.Some? then bet.oddsSnapshot.value.spread
    else Missing
  }

  /** The side the raw sign implies: negative means home, positive means away, zero means none. */
  function InferFavored(v: int): (r: Option<string>)
    ensures r.Some? <==> v != 0
    ensures r == Some("home") <==> v < 0
  {
    if v < 0 then Some("home") else if v > 0 then Some("away") else None
  }

  /** The favoured side: an explicit (non-empty) `favoredTeam`, lower-cased, overrides the sign. */
  function Favored(bet: Bet, v: int): (r: Option<string>)
    ensures bet.oddsSnapshot.Some? && TruthyStr(bet.oddsSnapshot.value.favoredTeam) ==>
              r == Some(Lower(bet.oddsSnapshot.value.favoredTeam.value))
    ensures !(bet.oddsSnapshot.Some? && TruthyStr(bet.oddsSnapshot.value.favoredTeam)) ==>
              r == InferFavored(v)
  {
    if bet.oddsSnapshot.Some? && TruthyStr(bet.oddsSnapshot.value.favoredTeam) then
      Some(Lower(bet.oddsSnapshot.value.favoredTeam.value))
    else InferFavored(v)
  }

  /** The bettor's team choice when it is set and non-empty. */
  function Choice(bet: Bet): Option<string> {
    if bet.gameBet.Some? && TruthyStr(bet.gameBet.value.teamChoice) then bet.gameBet.value.teamChoice
    else None
  }

  /**
   * The signed line in tenths before formatting. With a pick: minus the magnitude for the favoured
   * side, plus it otherwise. Without a pick: the raw value with its own sign.
   */
  function SignedLine(bet: Bet, v: int): (r: int)
    ensures Abs(r) == Abs(v)
    ensures Choice(bet).None? ==> r == v
    ensures Choice(bet).Some? && Favored(bet, v).Some? ==>
              (r < 0 <==> Choice(bet).value == Favored(bet, v).value && v != 0)
    ensures Choice(bet).Some? ==> r >= 0 || Favored(bet, v).Some?
  {
    var magnitude: int := Abs(v);
    match Choice(bet)
    case Some(teamChoice) =>
      var favored := Favored(bet, v);
      if favored.Some? then
        (if teamChoice == favored.value then -magnitude else magnitude)
      else
        var inferredFav := InferFavored(v);
        if inferredFav.Some? && teamChoice == inferredFav.value then -magnitude else magnitude
    case None =>
      if v < 0 then -magnitude else magnitude
  }

  /** Digits of a non-negative number of tenths: no decimal point when integral, one decimal otherwise. */
  function AbsText(a: nat): (r: string)
    ensures |r| > 0 && IsDigit(r[0])
    ensures a % 10 == 0 ==> AllDigits(r)
    ensures a % 10 != 0 ==> |r| >= 3 && r[|r| - 2] == '.' && r[|r| - 1] == DigitChar(a % 10) &&
                            AllDigits(r[..|r| - 2])
  {
    if a % 10 != 0 then
      var whole := NatToString(a / 10);
      var r := whole + "." + [DigitChar(a % 10)];
      assert r[..|r| - 2] == whole;
      r
    else NatToString(a / 10)
  }

  /** "+" for positive, "-" for negative, no sign for zero. */
  function FormatTenths(t: int): (r: string)
    ensures |r| > 0
    ensures t > 0 <==> r[0] == '+'
    ensures t < 0 <==> r[0] == '-'
    ensures t == 0 ==> r == "0"
  {
    var absStr := AbsText(Abs(t));
    if t > 0 then "+" + absStr
    else if t < 0 then "-" + absStr
    else absStr
  }

  /** `computeDisplayedSpread(bet)`. */
  function DisplayedSpread(bet: Option<Bet>): (r: string)
    ensures bet.None? ==> r == Tbd
    ensures bet.Some? ==> (r == Tbd <==> !RawSpread(bet.value).Num?)
    ensures bet.Some? && RawSpread(bet.value).Num? ==>
              ParseTenths(r) == Some(SignedLine(bet.value, RawSpread(bet.value).tenths))
  {
    if bet.None? then Tbd
    else
      match RawSpread(bet.value)
      case Missing => Tbd
      case NotANumber => Tbd
      case Num(v) =>
        var t := SignedLine(bet.value, v);
        ParseFormatTenths(t);
        FormatTenths(t)
  }

  // ----- reading a displayed spread back -----

  /** Reads "d+" or "d+.d" as a number of tenths. */
  function ParseUnsignedTenths(s: string): Option<nat> {
    if |s| >= 3 && s[|s| - 2] == '.' && IsDigit(s[|s| - 1]) && AllDigits(s[..|s| - 2]) then
      Some(ParseDigits(s[..|s| - 2]) * 10 + (s[|s| - 1] as int - '0' as int))
    else if |s| > 0 && AllDigits(s) then Some(ParseDigits(s) * 10)
    else None
  }

  /** Reads an optionally signed display string as a number of tenths. */
  function ParseTenths(s: string): Option<int> {
    if |s| > 0 && (s[0] == '+' || s[0] == '-') then
      match ParseUnsignedTenths(s[1..])
      case Some(a) => Some(if s[0] == '-' then -(a as int) else a as int)
      case None => None
    else
      match ParseUnsignedTenths(s)
      case Some(a) => Some(a as int)
      case None => None
  }

  lemma ParseAbsText(a: nat)
    ensures ParseUnsignedTenths(AbsText(a)) == Some(a)
  {
    var d := NatToString(a / 10);
    ParseNatToString(a / 10);
    if a % 10 != 0 {
      var s := d + "." + [DigitChar(a % 10)];
      assert s[..|s| - 2] == d;
    }
  }

  /** Formatting loses nothing: reading the string back gives the same number of tenths. */
  lemma ParseFormatTenths(t: int)
    ensures ParseTenths(FormatTenths(t)) == Some(t)
  {
    ParseAbsText(Abs(t));
    var absStr := AbsText(Abs(t));
    if t != 0 {
      var sign := if t > 0 then "+" else "-";
      assert (sign + absStr)[1..] == absStr;
    }
  }

  /** "TBD" never reads as a number, so it cannot be confused with a displayed spread. */
  lemma TbdIsNotANumber()
    ensures ParseTenths(Tbd) == None
  {
  }

  /**
   * The side-relative sign: with a pick and a non-zero spread, the pick of the favoured side shows
   * a leading "-" and any other pick a leading "+".
   */
  lemma PickSign(bet: Bet, favored: string)
    requires RawSpread(bet).Num? && RawSpread(bet).tenths != 0
    requires Choice(bet).Some? && Favored(bet, RawSpread(bet).tenths) == Some(favored)
    ensures DisplayedSpread(Some(bet))[0] == (if Choice(bet).value == favored then '-' else '+')
  {
  }

  /** Half-point lines keep their half point: -3.5 on the favourite shows as "-3.5". */
  lemma HalfPointRoundTrip()
    ensures FormatTenths(-35) == "-3.5"
    ensures FormatTenths(70) == "+7" && FormatTenths(-70) == "-7"
  {
  }

  /** Magnitude 7 with the home side favoured: "-7" for a home pick, "+7" for an away pick. */
  lemma HomeFavoredScenario()
    ensures DisplayedSpread(Some(Bet(Some(GameBet(Num(70), Some("home"))),
                                     Some(OddsSnapshot(Missing, Some("home")))))) == "-7"
    ensures DisplayedSpread(Some(Bet(Some(GameBet(Num(70), Some("away"))),
                                     Some(OddsSnapshot(Missing, Some("home")))))) == "+7"
  {
    var home := Bet(Some(GameBet(Num(70), Some("home"))), Some(OddsSnapshot(Missing, Some("home"))));
    var away := Bet(Some(GameBet(Num(70), Some("away"))), Some(OddsSnapshot(Missing, Some("home"))));
    assert Favored(home, 70) == Some("home") && Favored(away, 70) == Some("home") by {
      LowerHome();
    }
    assert SignedLine(home, 70) == -70 && SignedLine(away, 70) == 70;
    assert AbsText(70) == "7" by {
      assert NatToString(7) == "7";
    }
  }

  lemma LowerHome()
    ensures Lower("home") == "home"
  {
  }

  lemma LowerAway()
    ensures Lower("away") == "away"
  {
  }
}
