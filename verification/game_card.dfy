/**
 * `GameCard`: whether a game can be picked, the per-side spread lines and their text, the value
 * the team radio hands to the page, and the state of the three point buttons.
 */
module GameCard {
  import opened Common
  import opened Text
  import SpreadUtils
  import Selection
  import Collections

  /** The fields of a game the card's logic reads. `spread` is in tenths of a point. */
  datatype Game = Game(
    gameId: string,
    spread: SpreadUtils.RawValue,
    spreadDetails: Option<string>,
    statusState: Option<string>,
    favoredTeam: Option<string>)

  /** `hasValidSpread`: a spread that is not null/undefined and non-empty spread details. */
  predicate HasValidSpread(g: Game) {
    !g.spread.Missing? && TruthyStr(g.spreadDetails)
  }

  /** `isGameSelectable`; a click on the card selects the game exactly when this holds. */
  function IsGameSelectable(canSelect: bool, g: Game): (r: bool)
    ensures r ==> g.statusState == Some("pre") && !g.spread.Missing?
    ensures r <==> canSelect && g.statusState == Some("pre") && !g.spread.Missing? &&
                   g.spreadDetails.Some? && g.spreadDetails.value != ""
  {
    canSelect && g.statusState.Some? && g.statusState.value == "pre" && HasValidSpread(g)
  }

  /** A side's line: none without a spread, NaN for a non-numeric spread, otherwise tenths. */
  datatype Line = NoLine | LineNaN | LineNum(tenths: int)

  function SideLine(g: Game, side: string): (r: Line)
    ensures g.spread.Missing? <==> r.NoLine?
    ensures g.spread.NotANumber? <==> r.LineNaN?
    ensures g.spread.Num? ==> r.LineNum? && SpreadUtils.Abs(r.tenths) == SpreadUtils.Abs(g.spread.tenths)
    ensures g.spread.Num? && g.spread.tenths != 0 ==> (r.tenths < 0 <==> g.favoredTeam == Some(side))
  {
    match g.spread
    case Missing => NoLine
    case NotANumber => LineNaN
    case Num(v) =>
      var spreadAbs: int := SpreadUtils.Abs(v);
      if g.favoredTeam == Some(side) then LineNum(-spreadAbs) else LineNum(spreadAbs)
  }

  /** `homeLine`. */
  function HomeLine(g: Game): Line {
    SideLine(g, "home")
  }

  /** `awayLine`. */
  function AwayLine(g: Game): Line {
    SideLine(g, "away")
  }

  /** With a named favourite the two sides mirror each other: the favourite gives the points, the other side gets them. */
  lemma SidesMirror(g: Game)
    requires g.spread.Num?
    requires g.favoredTeam == Some("home") || g.favoredTeam == Some("away")
    ensures HomeLine(g).LineNum? && AwayLine(g).LineNum?
    ensures HomeLine(g).tenths + AwayLine(g).tenths == 0
    ensures g.favoredTeam == Some("home") ==> HomeLine(g).tenths <= 0
    ensures g.favoredTeam == Some("away") ==> AwayLine(g).tenths <= 0
  {
  }

  /** Any other `favoredTeam` (missing, or spelled "Home") shows both sides getting the points. */
  lemma UnknownFavoriteBothPositive(g: Game)
    requires g.spread.Num?
    requires g.favoredTeam != Some("home") && g.favoredTeam != Some("away")
    ensures HomeLine(g) == AwayLine(g) == LineNum(SpreadUtils.Abs(g.spread.tenths))
  {
  }

  /** `n.toFixed(1)` for a number of tenths. */
  function Fixed1(t: int): (r: string)
    ensures |r| >= 3 && r[|r| - 2] == '.'
    ensures t < 0 <==> r[0] == '-'
  {
    var a := SpreadUtils.Abs(t);
    (if t < 0 then "-" else "") + NatToString(a / 10) + "." + [DigitChar(a % 10)]
  }

  /** `fmtLine`: "" without a line, a "+" before positive lines, one decimal always. */
  function FmtLine(l: Line): (r: string)
    ensures l.NoLine? <==> r == ""
    ensures l.LineNaN? ==> r == "NaN"
    ensures l.LineNum? ==> |r| >= 3 && r[|r| - 2] == '.'
    ensures l.LineNum? ==> (l.tenths > 0 <==> r[0] == '+') && (l.tenths < 0 <==> r[0] == '-')
  {
    match l
    case NoLine => ""
    case LineNaN => "NaN"
    case LineNum(t) => if t > 0 then "+" + Fixed1(t) else Fixed1(t)
  }

  lemma ParseFixed1Magnitude(a: nat)
    ensures var s := NatToString(a / 10) + "." + [DigitChar(a % 10)];
            SpreadUtils.ParseUnsignedTenths(s) == Some(a)
  {
    var q, m := a / 10, a % 10;
    var d := NatToString(q);
    var c := DigitChar(m);
    var s := d + "." + [c];
    assert s[..|s| - 2] == d && s[|s| - 2] == '.' && s[|s| - 1] == c;
    assert c as int - '0' as int == m;
    ParseNatToString(q);
    assert SpreadUtils.ParseUnsignedTenths(s) == Some(q * 10 + m);
  }

  lemma ParseSigned(m: string, a: nat)
    requires SpreadUtils.ParseUnsignedTenths(m) == Some(a) && |m| > 0 && IsDigit(m[0])
    ensures SpreadUtils.ParseTenths(m) == Some(a)
    ensures SpreadUtils.ParseTenths("+" + m) == Some(a)
    ensures SpreadUtils.ParseTenths("-" + m) == Some(-(a as int))
  {
    assert ("+" + m)[1..] == m;
    assert ("-" + m)[1..] == m;
  }

  /** The radio label's line reads back to the line it was made from. */
  lemma FmtLineRoundTrip(t: int)
    ensures SpreadUtils.ParseTenths(FmtLine(LineNum(t))) == Some(t)
  {
    var a := SpreadUtils.Abs(t);
    var m := NatToString(a / 10) + "." + [DigitChar(a % 10)];
    assert SpreadUtils.ParseUnsignedTenths(m) == Some(a) by {
      ParseFixed1Magnitude(a);
    }
    assert IsDigit(m[0]) by {
      assert m[0] == NatToString(a / 10)[0];
    }
    ParseSigned(m, a);
    if t > 0 {
      assert FmtLine(LineNum(t)) == "+" + m by {
        assert Fixed1(t) == m;
      }
    } else if t < 0 {
      assert FmtLine(LineNum(t)) == "-" + m;
    } else {
      assert FmtLine(LineNum(t)) == m;
    }
  }

  /**
   * A selectable game offers both sides a line in the radio labels, and a spread pick of either
   * side stores a line exactly when the spread is numeric.
   */
  lemma SelectableGameHasLines(canSelect: bool, g: Game, side: string)
    requires IsGameSelectable(canSelect, g)
    ensures !HomeLine(g).NoLine? && !AwayLine(g).NoLine?
    ensures FmtLine(HomeLine(g)) != "" && FmtLine(AwayLine(g)) != ""
    ensures TeamChange(Some("spread"), g, side).takenLine.Some? <==> g.spread.Num?
  {
  }

  /** The line stored with a spread pick: a NaN line is stored as no line. */
  function StoredLine(l: Line): Option<int> {
    if l.LineNum? then Some(l.tenths) else None
  }

  /**
   * `handleTeamChange(val)`: for a spread bet the side and the line of that side, otherwise the
   * over/under choice.
   */
  function TeamChange(betType: Option<string>, g: Game, val: string): (r: Selection.ChoiceValue)
    ensures betType == Some("spread") ==> r.SpreadPick? && r.teamChoice == val
    ensures betType != Some("spread") ==> r == Selection.TotalPick(val)
    ensures betType == Some("spread") && val == "home" ==> r.takenLine == StoredLine(HomeLine(g))
    ensures betType == Some("spread") && val != "home" ==> r.takenLine == StoredLine(AwayLine(g))
  {
    if betType == Some("spread") then
      var takenLine := if val == "home" then HomeLine(g) else AwayLine(g);
      Selection.SpreadPick(val, StoredLine(takenLine))
    else Selection.TotalPick(val)
  }

  /**
   * The line a spread pick stores is the signed line the bets table later shows for the same
   * game, side and favourite, whenever the favourite is spelled "home" or "away".
   */
  lemma TakenLineMatchesDisplayedSpread(g: Game, side: string)
    requires g.spread.Num?
    requires side == "home" || side == "away"
    requires g.favoredTeam == Some("home") || g.favoredTeam == Some("away")
    ensures var pick := TeamChange(Some("spread"), g, side);
            var bet := SpreadUtils.Bet(Some(SpreadUtils.GameBet(g.spread, Some(side))),
                                       Some(SpreadUtils.OddsSnapshot(g.spread, g.favoredTeam)));
            pick.takenLine == Some(SpreadUtils.SignedLine(bet, g.spread.tenths)) &&
            SpreadUtils.ParseTenths(SpreadUtils.DisplayedSpread(Some(bet))) == pick.takenLine
  {
    var bet := SpreadUtils.Bet(Some(SpreadUtils.GameBet(g.spread, Some(side))),
                               Some(SpreadUtils.OddsSnapshot(g.spread, g.favoredTeam)));
    var v := g.spread.tenths;
    var expected: int := if g.favoredTeam == Some(side) then -(SpreadUtils.Abs(v) as int) else SpreadUtils.Abs(v);
    assert TeamChange(Some("spread"), g, side).takenLine == Some(expected) by {
      assert side == "home" ==> SideLine(g, side) == HomeLine(g);
      assert side != "home" ==> SideLine(g, side) == AwayLine(g);
    }
    assert SpreadUtils.SignedLine(bet, v) == expected by {
      assert SpreadUtils.Choice(bet) == Some(side);
      assert SpreadUtils.Favored(bet, v) == g.favoredTeam by {
        SpreadUtils.LowerHome();
        SpreadUtils.LowerAway();
      }
    }
    assert SpreadUtils.RawSpread(bet) == g.spread;
  }


  // ----- point buttons -----

  /** The state of one point button: disabled or not, and its title text ("" for none). */
  datatype PointButton = PointButton(disabled: bool, title: string)

  const UsedThisWeek: string := " points already used this week"
  const InAnotherBet: string := " points already selected in another bet"

  predicate ListIncludes(l: Option<seq<int>>, p: int) {
    l.Some? && p in l.value
  }

  /**
   * The button for `points`: the current value is never disabled; another value is disabled when
   * it was already used this week or is chosen in another bet of this session.
   */
  function PointButtonState(points: int, current: Option<int>, weeklyTaken: Option<seq<int>>,
                            duplicates: Option<seq<int>>): (r: PointButton)
    ensures current == Some(points) ==> !r.disabled
    ensures r.disabled <==> current != Some(points) &&
                            (ListIncludes(weeklyTaken, points) || ListIncludes(duplicates, points))
    ensures r.title == "" <==> !ListIncludes(weeklyTaken, points) && !ListIncludes(duplicates, points)
  {
    var isCurrent := current == Some(points);
    var isWeeklyTaken := ListIncludes(weeklyTaken, points);
    var isSessionDup := !isWeeklyTaken && ListIncludes(duplicates, points);
    var disabled := !isCurrent && (isWeeklyTaken || isSessionDup);
    var title :=
      if isWeeklyTaken then IntToString(points) + UsedThisWeek
      else if isSessionDup then IntToString(points) + InAnotherBet
      else "";
    PointButton(disabled, title)
  }

  /**
   * The tooltip the button shows: only a disabled button is wrapped in one, so the current value
   * shows none even when its points were used this week.
   */
  function ShownTooltip(points: int, current: Option<int>, weeklyTaken: Option<seq<int>>,
                        duplicates: Option<seq<int>>): (r: Option<string>)
    ensures r.Some? <==> current != Some(points) &&
                         (ListIncludes(weeklyTaken, points) || ListIncludes(duplicates, points))
    ensures r.Some? ==> r.value != ""
    ensures current == Some(points) ==> r.None?
  {
    var b := PointButtonState(points, current, weeklyTaken, duplicates);
    if b.disabled then Some(b.title) else None
  }

  /** A tooltip names the reason: this week's earlier bets take precedence over the session's duplicates. */
  lemma TooltipReason(points: int, current: Option<int>, weeklyTaken: Option<seq<int>>, duplicates: Option<seq<int>>)
    ensures var t := PointButtonState(points, current, weeklyTaken, duplicates).title;
            (ListIncludes(weeklyTaken, points) ==> Includes(t, UsedThisWeek)) &&
            (!ListIncludes(weeklyTaken, points) && ListIncludes(duplicates, points) ==> Includes(t, InAnotherBet))
  {
    var n := IntToString(points);
    if ListIncludes(weeklyTaken, points) {
      IncludesConcat(n, UsedThisWeek, "");
      assert n + UsedThisWeek + "" == n + UsedThisWeek;
    } else if ListIncludes(duplicates, points) {
      IncludesConcat(n, InAnotherBet, "");
      assert n + InAnotherBet + "" == n + InAnotherBet;
    }
  }

  /** The buttons offer 1, 2 and 3; the ones a user can press are the free values and the current one. */
  function PressablePoints(current: Option<int>, weeklyTaken: Option<seq<int>>, duplicates: Option<seq<int>>): (r: seq<int>)
    ensures forall p :: p in r <==> Selection.ValidPoints(p) && !PointButtonState(p, current, weeklyTaken, duplicates).disabled
  {
    var offered := [1, 2, 3];
    assert forall p :: p in offered <==> Selection.ValidPoints(p);
    Collections.Filter(offered, (p: int) => !PointButtonState(p, current, weeklyTaken, duplicates).disabled)
  }

  /** The conflict badge: a point value used earlier this week wins over a duplicate in this session. */
  function ConflictBadge(weeklyTaken: Option<seq<int>>, betPoints: Option<int>): (r: string)
    ensures r == "USED THIS WEEK" || r == "DUPLICATE"
    ensures r == "USED THIS WEEK" <==> betPoints.Some? && ListIncludes(weeklyTaken, betPoints.value)
  {
    if betPoints.Some? && ListIncludes(weeklyTaken, betPoints.value) then "USED THIS WEEK" else "DUPLICATE"
  }

  datatype Border = ConflictBorder | SelectedBorder | PlainBorder

  /** The card border: a points conflict outranks the selection highlight. */
  function CardBorder(hasConflictingPoints: bool, isSelected: bool): (r: Border)
    ensures r.ConflictBorder? <==> hasConflictingPoints
    ensures r.SelectedBorder? <==> !hasConflictingPoints && isSelected
  {
    if hasConflictingPoints then ConflictBorder else if isSelected then SelectedBorder else PlainBorder
  }

  // ----- header text -----

  datatype TeamRecord = TeamRecord(name: Option<string>, recordType: Option<string>, summary: Option<string>)

  predicate IsOverall(rec: TeamRecord) {
    rec.name == Some("overall") || rec.recordType == Some("total")
  }

  /** `getOverallRecord`: the summary of the first overall/total record, or "". */
  function OverallRecord(records: Option<seq<TeamRecord>>): (r: string)
    ensures records.None? ==> r == ""
    ensures records.Some? && (forall i :: 0 <= i < |records.value| ==> !IsOverall(records.value[i])) ==> r == ""
    ensures records.Some? ==>
              forall i :: (0 <= i < |records.value| && IsOverall(records.value[i]) &&
                           (forall j :: 0 <= j < i ==> !IsOverall(records.value[j]))) ==>
                r == StrOr(records.value[i].summary, "")
    ensures records.Some? && r != "" ==>
              exists i :: 0 <= i < |records.value| && IsOverall(records.value[i]) &&
                (forall j :: 0 <= j < i ==> !IsOverall(records.value[j])) &&
                records.value[i].summary == Some(r)
    decreases if records.Some? then |records.value| else 0
  {
    match records
    case None => ""
    case Some(rs) =>
      if |rs| == 0 then ""
      else if IsOverall(rs[0]) then StrOr(rs[0].summary, "")
      else
        var rest := OverallRecord(Some(rs[1..]));
        assert forall j :: 0 <= j < |rs| - 1 ==> rs[1..][j] == rs[j + 1];
        rest
  }

  datatype Venue = Venue(name: Option<string>, city: Option<string>, state: Option<string>)

  /** The venue line: "name, city[, state]", else the name, else "city[, state]"; none without name and city. */
  function VenueText(v: Option<Venue>): (r: Option<string>)
    ensures r.None? <==> v.None? || (!TruthyStr(v.value.name) && !TruthyStr(v.value.city))
    ensures r.Some? && TruthyStr(v.value.name) ==> Prefix(r.value, |v.value.name.value|) == v.value.name.value
    ensures r.Some? && TruthyStr(v.value.name) && !TruthyStr(v.value.city) ==> r.value == v.value.name.value
  {
    match v
    case None => None
    case Some(venue) =>
      if !TruthyStr(venue.name) && !TruthyStr(venue.city) then None
      else
        var stateSuffix := if TruthyStr(venue.state) then ", " + venue.state.value else "";
        if TruthyStr(venue.name) && TruthyStr(venue.city) then
          Some(venue.name.value + ", " + venue.city.value + stateSuffix)
        else if TruthyStr(venue.name) then Some(venue.name.value)
        else Some(StrOr(venue.city, "undefined") + stateSuffix)
  }
}
