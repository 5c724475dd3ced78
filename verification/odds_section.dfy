/**
 * `NFLOddsSection`: which games a user may pick, when a pick conflicts on points, when the two
 * submit buttons are enabled, the membership alert, and how the current week from the server
 * fills an unset season type or week.
 */
module OddsSection {
  import opened Common
  import opened Selection
  import RoomHandlers
  import GameCard
  import Text

  /** Per game: a selected game stays selectable, another one only below three picks; both need admin or member rights. */
  function CanSelect(selectedCount: int, isSelected: bool, isAdmin: bool, isMember: bool): (r: bool)
    ensures r ==> isAdmin || isMember
    ensures (isAdmin || isMember) && isSelected ==> r
    ensures !isSelected ==> (r <==> selectedCount < 3 && (isAdmin || isMember))
  {
    (selectedCount < 3 || isSelected) && (isAdmin || isMember)
  }

  /** `isSelected` for a game: its entry exists (entries are objects, so always truthy). */
  predicate IsSelected(bets: Selections, id: GameId) {
    id in bets
  }

  /** `hasConflictingPoints`: a selected game whose points are among the duplicated values. */
  function HasConflictingPoints(bets: Selections, id: GameId, duplicatePointValues: seq<int>): (r: bool)
    ensures r ==> id in bets && bets[id].points.Some?
    ensures r <==> id in bets && bets[id].points.Some? && bets[id].points.value in duplicatePointValues
  {
    IsSelected(bets, id) && bets[id].points.Some? && bets[id].points.value in duplicatePointValues
  }

  /**
   * A click the page allows never hits the three-game limit: when the card is selectable, toggling
   * it either removes it or adds it with the default entry.
   */
  lemma SelectableClickWithinCap(bets: Selections, id: GameId, isAdmin: bool, isMember: bool)
    requires CanSelect(|bets|, IsSelected(bets, id), isAdmin, isMember)
    ensures !RoomHandlers.GameSelect(bets, id).limitWarning
    ensures id !in bets ==> RoomHandlers.GameSelect(bets, id).bets == bets[id := DefaultEntry]
    ensures |RoomHandlers.GameSelect(bets, id).bets| <= MaxSelections || |RoomHandlers.GameSelect(bets, id).bets| < |bets|
  {
    var r := RoomHandlers.GameSelect(bets, id);
    if id in bets {
      assert r.bets == bets - {id};
      assert |bets - {id}| == |bets| - 1;
    }
  }

  /**
   * A click on a card the card itself reports selectable, with the page's permission, toggles the
   * game without the limit warning, and the picked game offers a line on both sides.
   */
  lemma SelectableCardClick(bets: Selections, g: GameCard.Game, isAdmin: bool, isMember: bool)
    requires GameCard.IsGameSelectable(CanSelect(|bets|, IsSelected(bets, g.gameId), isAdmin, isMember), g)
    ensures !RoomHandlers.GameSelect(bets, g.gameId).limitWarning
    ensures g.gameId !in bets ==> RoomHandlers.GameSelect(bets, g.gameId).bets == bets[g.gameId := DefaultEntry]
    ensures g.gameId in bets ==> g.gameId !in RoomHandlers.GameSelect(bets, g.gameId).bets
    ensures !GameCard.HomeLine(g).NoLine? && !GameCard.AwayLine(g).NoLine?
  {
    SelectableClickWithinCap(bets, g.gameId, isAdmin, isMember);
    GameCard.SelectableGameHasLines(CanSelect(|bets|, IsSelected(bets, g.gameId), isAdmin, isMember), g, "home");
  }

  /** The header's submit button: disabled without picks, with duplicate points, or for a non-member non-admin. */
  function HeaderSubmitDisabled(selectedCount: int, hasDuplicatePoints: bool, isAdmin: bool, isMember: bool): (r: bool)
    ensures !r <==> selectedCount != 0 && !hasDuplicatePoints && (isAdmin || isMember)
  {
    selectedCount == 0 || hasDuplicatePoints || (!isAdmin && !isMember)
  }

  /** The lower submit button: disabled without picks or with duplicate points; membership is not checked. */
  function LowerSubmitDisabled(selectedCount: int, hasDuplicatePoints: bool): (r: bool)
    ensures !r <==> selectedCount != 0 && !hasDuplicatePoints
  {
    hasDuplicatePoints || selectedCount == 0
  }

  /** The two buttons disagree exactly for a user who is neither admin nor member. */
  lemma SubmitButtonsDiffer(selectedCount: int, hasDuplicatePoints: bool, isAdmin: bool, isMember: bool)
    ensures LowerSubmitDisabled(selectedCount, hasDuplicatePoints) ==>
              HeaderSubmitDisabled(selectedCount, hasDuplicatePoints, isAdmin, isMember)
    ensures HeaderSubmitDisabled(selectedCount, hasDuplicatePoints, isAdmin, isMember) !=
              LowerSubmitDisabled(selectedCount, hasDuplicatePoints)
            <==> !isAdmin && !isMember && selectedCount != 0 && !hasDuplicatePoints
  {
  }

  /** The lower button's caption. */
  function PlaceLabel(selectedCount: nat, isBetCreating: bool): (r: string)
    ensures isBetCreating ==> r == "Placing Bets..."
    ensures !isBetCreating ==> |r| >= 10 && r[..6] == "Place " && (r[|r| - 1] == 's' <==> selectedCount != 1)
  {
    if isBetCreating then "Placing Bets..."
    else "Place " + Text.IntToString(selectedCount) + " Bet" + (if selectedCount != 1 then "s" else "")
  }

  datatype MembershipAlert = NoAlert | AccessDenied | MembershipPending | MemberAccessRequired

  /** The alert for a user who can place no bets; a denial outranks a pending request. */
  function MembershipAlertFor(isFetching: bool, isAdmin: bool, isMember: bool, isDenied: bool, isPending: bool): (r: MembershipAlert)
    ensures r.NoAlert? <==> isFetching || isAdmin || isMember
    ensures !r.NoAlert? ==> (r.AccessDenied? <==> isDenied)
    ensures !r.NoAlert? ==> (r.MembershipPending? <==> !isDenied && isPending)
  {
    if isFetching || isAdmin || isMember then NoAlert
    else if isDenied then AccessDenied
    else if isPending then MembershipPending
    else MemberAccessRequired
  }

  /** What the odds area shows. */
  datatype OddsPanels = OddsPanels(spinner: bool, errorAlert: bool, empty: bool, games: bool)

  function Panels(isFetching: bool, isError: bool, hasOdds: bool): (r: OddsPanels)
    ensures r.games ==> !r.spinner && !r.errorAlert && !r.empty
    ensures !isFetching && !isError ==> (r.games <==> !r.empty)
    ensures r.games <==> !isFetching && !isError && hasOdds
    ensures r.empty ==> !hasOdds
  {
    OddsPanels(isFetching, isError, !isFetching && !isError && !hasOdds, !isFetching && !isError && hasOdds)
  }

  // ----- defaults from the current week -----

  datatype CurrentWeekInfo = CurrentWeekInfo(seasonTypeValue: Option<int>, weekValue: Option<int>)

  datatype Period = Period(seasonType: Option<int>, week: Option<int>)

  /**
   * The effect that fills the selection from the server's current week: only when both server
   * values are truthy and one of the selected values is not; each setter only fills its own unset value.
   */
  function FillDefaults(p: Period, info: Option<CurrentWeekInfo>, hasTypeSetter: bool, hasWeekSetter: bool): (r: Period)
    ensures TruthyInt(p.seasonType) ==> r.seasonType == p.seasonType
    ensures TruthyInt(p.week) ==> r.week == p.week
    ensures r.seasonType != p.seasonType ==> hasTypeSetter && info.Some? && r.seasonType == info.value.seasonTypeValue
    ensures r.week != p.week ==> hasWeekSetter && info.Some? && r.week == info.value.weekValue
    ensures info.Some? && TruthyInt(info.value.seasonTypeValue) && TruthyInt(info.value.weekValue) ==>
              (hasTypeSetter ==> TruthyInt(r.seasonType)) && (hasWeekSetter ==> TruthyInt(r.week))
  {
    if info.Some? && TruthyInt(info.value.seasonTypeValue) && TruthyInt(info.value.weekValue) &&
       (!TruthyInt(p.seasonType) || !TruthyInt(p.week)) then
      Period(
        if !TruthyInt(p.seasonType) && hasTypeSetter then info.value.seasonTypeValue else p.seasonType,
        if !TruthyInt(p.week) && hasWeekSetter then info.value.weekValue else p.week)
    else p
  }

  /** The effect settles: running it again on its own result changes nothing. */
  lemma FillDefaultsIdempotent(p: Period, info: Option<CurrentWeekInfo>, hasTypeSetter: bool, hasWeekSetter: bool)
    ensures var once := FillDefaults(p, info, hasTypeSetter, hasWeekSetter);
            FillDefaults(once, info, hasTypeSetter, hasWeekSetter) == once
  {
  }
}
