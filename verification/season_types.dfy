/**
 * The season-type table (`NFL_SEASON_TYPES`) and its lookups: ids 1, 2 and 3 are preseason,
 * regular season and playoffs; every lookup of another id falls back to a fixed default.
 */
module SeasonTypes {
  import opened Common
  import opened Text

  datatype SeasonTypeInfo = SeasonTypeInfo(
    id: int,
    name: string,
    displayName: string,
    shortName: string,
    description: string,
    maxWeeks: nat,
    color: string,
    icon: string)

  const Preseason: SeasonTypeInfo :=
    SeasonTypeInfo(1, "preseason", "Preseason", "PRE", "NFL Preseason games", 4, "#52c41a", "\U{1F3C8}")
  const RegularSeason: SeasonTypeInfo :=
    SeasonTypeInfo(2, "regular_season", "Regular Season", "REG", "NFL Regular Season games", 18, "#1890ff", "\U{1F3C6}")
  const Postseason: SeasonTypeInfo :=
    SeasonTypeInfo(3, "postseason", "Playoffs", "POST", "NFL Playoff games", 4, "#f5222d", "\U{1F947}")

  /** The table keyed by id. */
  const Table: map<int, SeasonTypeInfo> := map[1 := Preseason, 2 := RegularSeason, 3 := Postseason]

  /** `getSeasonType`: the record for a known id, none otherwise. */
  function GetSeasonType(id: int): (r: Option<SeasonTypeInfo>)
    ensures r.Some? <==> 1 <= id <= 3
    ensures r.Some? ==> r.value.id == id && r.value.maxWeeks >= 1
  {
    if id in Table then Some(Table[id]) else None
  }

  /** `getSeasonTypeDisplayName`: "Unknown" for an unknown id. */
  function DisplayName(id: int): (r: string)
    ensures GetSeasonType(id).Some? ==> r == GetSeasonType(id).value.displayName
    ensures GetSeasonType(id).None? ==> r == "Unknown"
  {
    match GetSeasonType(id)
    case Some(t) => t.displayName
    case None => "Unknown"
  }

  /** `getSeasonTypeShortName`: "UNK" for an unknown id. */
  function ShortName(id: int): (r: string)
    ensures GetSeasonType(id).Some? ==> r == GetSeasonType(id).value.shortName
    ensures GetSeasonType(id).None? ==> r == "UNK"
  {
    match GetSeasonType(id)
    case Some(t) => t.shortName
    case None => "UNK"
  }

  /** `getSeasonTypeColor`: grey for an unknown id. */
  function Color(id: int): (r: string)
    ensures GetSeasonType(id).Some? ==> r == GetSeasonType(id).value.color
    ensures GetSeasonType(id).None? ==> r == "#d9d9d9"
  {
    match GetSeasonType(id)
    case Some(t) => t.color
    case None => "#d9d9d9"
  }

  /** `getSeasonTypeMaxWeeks`: 4, 18 and 4 weeks; 18 for an unknown id. */
  function MaxWeeks(id: int): (r: nat)
    ensures r == (if id == 1 || id == 3 then 4 else 18)
  {
    match GetSeasonType(id)
    case Some(t) => t.maxWeeks
    case None => 18
  }

  /** `isValidSeasonType`: the table has the id as a key. */
  predicate IsValidSeasonType(id: int) {
    id in Table
  }

  lemma ValidSeasonTypeIff(id: int)
    ensures IsValidSeasonType(id) <==> 1 <= id <= 3
    ensures !IsValidSeasonType(4) && !IsValidSeasonType(0)
  {
  }

  /**
   * `isValidWeekForSeasonType(week, id)`: a known id and a week in 1..maxWeeks. A missing or
   * zero week is rejected by the falsy check.
   */
  function IsValidWeekForSeasonType(week: Option<int>, id: int): (r: bool)
    ensures r <==> 1 <= id <= 3 && week.Some? && 1 <= week.value <= MaxWeeks(id)
  {
    if !IsValidSeasonType(id) then false
    else if !TruthyInt(week) || week.value < 1 then false
    else week.value <= MaxWeeks(id)
  }

  /** Week 19 of the regular season and week 5 of the playoffs are invalid; week 18 is the last valid one. */
  lemma WeekValidityExamples()
    ensures !IsValidWeekForSeasonType(Some(19), 2)
    ensures IsValidWeekForSeasonType(Some(18), 2)
    ensures !IsValidWeekForSeasonType(Some(5), 3)
    ensures !IsValidWeekForSeasonType(Some(1), 4)
    ensures !IsValidWeekForSeasonType(None, 1)
  {
  }

  /**
   * `getSeasonDisplayText(year, id, week)`: "<year> <display name>", followed by " Week <week>"
   * only for a truthy week; "<year> Season" for an unknown id.
   */
  function SeasonDisplayText(year: int, id: int, week: Option<int>): (r: string)
    ensures GetSeasonType(id).None? ==> r == IntToString(year) + " Season"
    ensures GetSeasonType(id).Some? && !TruthyInt(week) ==> r == IntToString(year) + " " + DisplayName(id)
    ensures GetSeasonType(id).Some? && TruthyInt(week) ==>
              r == IntToString(year) + " " + DisplayName(id) + " Week " + IntToString(week.value)
  {
    match GetSeasonType(id)
    case None => IntToString(year) + " Season"
    case Some(t) =>
      var text := IntToString(year) + " " + t.displayName;
      if TruthyInt(week) then text + " Week " + IntToString(week.value) else text
  }

  /** The display text starts with the year, which reads back unchanged. */
  lemma DisplayTextYear(year: int, id: int, week: Option<int>)
    ensures var r := SeasonDisplayText(year, id, week);
            var n := |IntToString(year)|;
            n < |r| && r[n] == ' ' && ParseInt(r[..n]) == Some(year)
  {
    var r := SeasonDisplayText(year, id, week);
    var y := IntToString(year);
    IntToStringRoundTrip(year);
    assert r[..|y|] == y;
  }

  /** `getAllSeasonTypes`: the records in key order 1, 2, 3. */
  function AllSeasonTypes(): (r: seq<SeasonTypeInfo>)
    ensures |r| == 3
    ensures forall i :: 0 <= i < |r| ==> r[i].id == i + 1 && GetSeasonType(i + 1) == Some(r[i])
  {
    [Table[1], Table[2], Table[3]]
  }

  datatype SelectOption = SelectOption(value: int, labelText: string, shortName: string, color: string, icon: string)

  /** `getSeasonTypeOptions`: one option per season type, whose value is the type's id. */
  function SeasonTypeOptions(): (r: seq<SelectOption>)
    ensures |r| == |AllSeasonTypes()|
    ensures forall i :: 0 <= i < |r| ==>
              r[i].value == i + 1 && r[i].labelText == DisplayName(i + 1) && r[i].shortName == ShortName(i + 1)
              && r[i].color == Color(i + 1)
    ensures forall i :: 0 <= i < |r| ==> IsValidSeasonType(r[i].value)
  {
    var all := AllSeasonTypes();
    seq(|all|, i requires 0 <= i < |all| =>
      SelectOption(all[i].id, all[i].displayName, all[i].shortName, all[i].color, all[i].icon))
  }

  /** The three display names differ from each other and from the "Unknown" fallback. */
  lemma DisplayNamesDistinct(a: int, b: int)
    requires 1 <= a <= 3 && 1 <= b <= 3 && a != b
    ensures DisplayName(a) != DisplayName(b)
    ensures DisplayName(a) != "Unknown"
  {
    assert Preseason.displayName[0] != RegularSeason.displayName[0];
    assert Postseason.displayName[1] != Preseason.displayName[1];
    assert Postseason.displayName[0] != RegularSeason.displayName[0];
  }
}
