/**
 * The derived data of `useGetNFLWeeksInRange`: when a fetch may run, and the year, season-type
 * and week lookups over the server's season summary.
 */
module WeeksInRange {
  import opened Common
  import opened Text
  import opened Sorting
  import opened Collections
  import SeasonTypes

  /** A date argument: absent, an epoch number, or a `Date`/string whose time (ms) may be invalid. */
  datatype DateArg = NoDate | EpochNumber(seconds: int) | DateValue(ms: Option<int>)

  /**
   * `startEpoch`/`endEpoch`: numbers are taken as they are, dates become whole seconds rounded
   * down. An invalid date gives NaN, which, like null, is `None` here.
   */
  function ToEpoch(a: DateArg): (r: Option<int>)
    ensures a.NoDate? || a == EpochNumber(0) ==> r.None?
    ensures a.EpochNumber? && a.seconds != 0 ==> r == Some(a.seconds)
    ensures a.DateValue? && a.ms.Some? ==> r.Some? && r.value * 1000 <= a.ms.value < r.value * 1000 + 1000
    ensures a.DateValue? && a.ms.None? ==> r.None?
  {
    match a
    case NoDate => None
    case EpochNumber(n) => if n == 0 then None else Some(n)
    case DateValue(ms) => if ms.Some? then Some(ms.value / 1000) else None
  }

  /** `shouldFetch`: both epochs truthy (0 counts as missing) and the range non-empty. */
  function ShouldFetch(startEpoch: Option<int>, endEpoch: Option<int>): (r: bool)
    ensures r ==> startEpoch.Some? && endEpoch.Some? && startEpoch.value != 0 && endEpoch.value != 0 && startEpoch.value < endEpoch.value
    ensures startEpoch == Some(0) || endEpoch == Some(0) ==> !r
  {
    TruthyInt(startEpoch) && TruthyInt(endEpoch) && startEpoch.value < endEpoch.value
  }

  /** A fetch needs both ends, neither of them 0, and the start strictly before the end. */
  lemma ShouldFetchIff(s: Option<int>, e: Option<int>)
    ensures ShouldFetch(s, e) <==> s.Some? && e.Some? && s.value != 0 && e.value != 0 && s.value < e.value
    ensures !ShouldFetch(Some(0), e) && !ShouldFetch(s, Some(0))
    ensures s.Some? && e.Some? && e.value <= s.value ==> !ShouldFetch(s, e)
  {
  }

  /** `queryParams`: empty unless a fetch may run. */
  function QueryParams(s: Option<int>, e: Option<int>): (r: string)
    ensures !ShouldFetch(s, e) ==> r == ""
    ensures ShouldFetch(s, e) ==> Prefix(r, 11) == "start_date=" && r != ""
  {
    if !ShouldFetch(s, e) then ""
    else "start_date=" + IntToString(s.value) + "&end_date=" + IntToString(e.value)
  }

  /** The query string reads back to the two epochs it was built from. */
  lemma QueryParamsRoundTrip(s: int, e: int)
    requires ShouldFetch(Some(s), Some(e))
    ensures var q := QueryParams(Some(s), Some(e));
            var a := IntToString(s);
            11 + |a| <= |q| &&
            ParseInt(q[11..11 + |a|]) == Some(s) &&
            ParseInt(q[11 + |a| + 10..]) == Some(e)
  {
    var q := QueryParams(Some(s), Some(e));
    var a := IntToString(s);
    var b := IntToString(e);
    assert q == "start_date=" + a + "&end_date=" + b;
    assert q[11..11 + |a|] == a;
    assert q[11 + |a| + 10..] == b;
    IntToStringRoundTrip(s);
    IntToStringRoundTrip(e);
  }

  /** The query runs only with a valid range and a signed-in user's token. */
  function Enabled(startEpoch: Option<int>, endEpoch: Option<int>, idToken: Option<string>): (r: bool)
    ensures r ==> QueryParams(startEpoch, endEpoch) != ""
    ensures r <==> ShouldFetch(startEpoch, endEpoch) && idToken.Some? && idToken.value != ""
  {
    ShouldFetch(startEpoch, endEpoch) && TruthyStr(idToken)
  }

  /** One entry of the server's `seasons_summary`. */
  datatype SummaryEntry = SummaryEntry(year: int, seasonType: int, seasonName: string, weeks: seq<int>)

  /** An entry of `availableSeasons`. */
  datatype Season = Season(year: int, seasonType: int, seasonName: string, availableWeeks: seq<int>, displayName: string)

  /** `availableSeasons`: one season per summary entry, with its display name; [] without a summary. */
  function AvailableSeasons(summary: Option<seq<SummaryEntry>>): (r: seq<Season>)
    ensures summary.None? ==> r == []
    ensures summary.Some? ==> |r| == |summary.value|
    ensures summary.Some? ==> forall i :: 0 <= i < |r| ==>
              r[i].year == summary.value[i].year && r[i].seasonType == summary.value[i].seasonType &&
              r[i].availableWeeks == summary.value[i].weeks &&
              r[i].displayName == IntToString(r[i].year) + " " + SeasonTypes.DisplayName(r[i].seasonType)
  {
    match summary
    case None => []
    case Some(entries) =>
      seq(|entries|, i requires 0 <= i < |entries| =>
        Season(entries[i].year, entries[i].seasonType, entries[i].seasonName, entries[i].weeks,
               IntToString(entries[i].year) + " " + SeasonTypes.DisplayName(entries[i].seasonType)))
  }

  // ----- years -----

  /** The year of every season, in order (`availableSeasons.map((season) => season.year)`). */
  function Years(seasons: seq<Season>): (r: seq<int>)
    ensures |r| == |seasons|
    ensures forall y :: y in r <==> exists k :: 0 <= k < |seasons| && seasons[k].year == y
  {
    var r := seq(|seasons|, k requires 0 <= k < |seasons| => seasons[k].year);
    assert forall k :: 0 <= k < |seasons| ==> r[k] == seasons[k].year;
    r
  }

  function Identity(y: int): int {
    y
  }

  /** `availableYears`: the distinct years, newest first. */
  function AvailableYears(seasons: seq<Season>): (r: seq<int>)
    ensures forall i, j :: 0 <= i < j < |r| ==> r[i] > r[j]
    ensures forall y :: y in r <==> exists k :: 0 <= k < |seasons| && seasons[k].year == y
  {
    var years := Distinct(Years(seasons));
    var sorted := SortDesc(years, Identity);
    DistinctStaysDistinct(years, sorted);
    sorted
  }

  lemma DistinctStaysDistinct(a: seq<int>, b: seq<int>)
    requires NoDuplicates(a)
    requires multiset(a) == multiset(b)
    requires SortedDesc(b, Identity)
    ensures forall i, j :: 0 <= i < j < |b| ==> b[i] > b[j]
    ensures forall y :: y in b <==> y in a
  {
    forall y ensures y in b <==> y in a {
      assert y in b <==> y in multiset(b);
      assert y in a <==> y in multiset(a);
    }
    forall i, j | 0 <= i < j < |b|
      ensures b[i] > b[j]
    {
      assert Identity(b[i]) >= Identity(b[j]);
      if b[i] == b[j] {
        assert multiset(b)[b[i]] >= 2 by {
          assert b == b[..i] + [b[i]] + b[i + 1..j] + [b[j]] + b[j + 1..];
        }
        NoDuplicatesCount(a, b[i]);
        assert false;
      }
    }
  }

  // ----- lookups -----

  datatype SeasonTypeEntry = SeasonTypeEntry(seasonType: int, seasonName: string, displayName: string, availableWeeks: seq<int>)

  function ToEntry(s: Season): SeasonTypeEntry {
    SeasonTypeEntry(s.seasonType, s.seasonName, SeasonTypes.DisplayName(s.seasonType), s.availableWeeks)
  }

  /** The seasons of year `y`, in input order. */
  function OfYear(seasons: seq<Season>, y: int): (r: seq<Season>)
    ensures |r| <= |seasons|
    ensures forall s :: s in r <==> s in seasons && s.year == y
    decreases |seasons|
  {
    if |seasons| == 0 then []
    else
      var rest := OfYear(seasons[1..], y);
      assert seasons == [seasons[0]] + seasons[1..];
      if seasons[0].year == y then [seasons[0]] + rest else rest
  }

  /** A single season is kept exactly when it is of the year. */
  lemma OfYearSingle(s: Season, y: int)
    ensures OfYear([s], y) == if s.year == y then [s] else []
  {
    assert [s][1..] == [];
  }

  /**
   * Selecting by year commutes with concatenation: the result keeps the input order and every
   * repeated season, so with `OfYearSingle` it determines `OfYear` on every list.
   */
  lemma {:induction false} OfYearAppend(a: seq<Season>, b: seq<Season>, y: int)
    ensures OfYear(a + b, y) == OfYear(a, y) + OfYear(b, y)
    decreases |a|
  {
    if |a| == 0 {
      assert a + b == b;
    } else {
      assert (a + b)[1..] == a[1..] + b;
      assert (a + b)[0] == a[0];
      OfYearAppend(a[1..], b, y);
    }
  }

  /** `getSeasonTypesForYear(year)`: the seasons of that year in input order; [] for a falsy year. */
  function SeasonTypesForYear(seasons: seq<Season>, year: Option<int>): (r: seq<SeasonTypeEntry>)
    ensures !TruthyInt(year) || |seasons| == 0 ==> r == []
    ensures TruthyInt(year) ==> |r| == |OfYear(seasons, year.value)|
    ensures TruthyInt(year) ==> forall i :: 0 <= i < |r| ==>
              exists s :: s in seasons && s.year == year.value && r[i] == ToEntry(s)
    ensures TruthyInt(year) ==> forall s :: s in seasons && s.year == year.value ==> ToEntry(s) in r
    ensures TruthyInt(year) ==> forall i :: 0 <= i < |r| ==> r[i] == ToEntry(OfYear(seasons, year.value)[i])
  {
    if |seasons| == 0 || !TruthyInt(year) then []
    else
      var matching := OfYear(seasons, year.value);
      var r := seq(|matching|, i requires 0 <= i < |matching| => ToEntry(matching[i]));
      forall i | 0 <= i < |r|
        ensures exists s :: s in seasons && s.year == year.value && r[i] == ToEntry(s)
      {
        assert matching[i] in matching;
        assert matching[i] in seasons && matching[i].year == year.value && r[i] == ToEntry(matching[i]);
      }
      assert forall s :: s in matching ==> ToEntry(s) in r by {
        forall s | s in matching ensures ToEntry(s) in r {
          var k :| 0 <= k < |matching| && matching[k] == s;
          assert r[k] == ToEntry(s);
        }
      }
      r
  }

  predicate Matches(s: Season, year: int, seasonType: int) {
    s.year == year && s.seasonType == seasonType
  }

  /** The index of the first season of that year and type (`Array.prototype.find`). */
  function FindFrom(seasons: seq<Season>, year: int, seasonType: int, from: nat): (r: Option<nat>)
    requires from <= |seasons|
    ensures r.Some? ==> from <= r.value < |seasons| && Matches(seasons[r.value], year, seasonType)
    ensures r.Some? ==> forall k :: from <= k < r.value ==> !Matches(seasons[k], year, seasonType)
    ensures r.None? ==> forall k :: from <= k < |seasons| ==> !Matches(seasons[k], year, seasonType)
    decreases |seasons| - from
  {
    if from == |seasons| then None
    else if Matches(seasons[from], year, seasonType) then Some(from)
    else FindFrom(seasons, year, seasonType, from + 1)
  }

  /**
   * `getWeeksForYearAndSeason(year, seasonType)`: the weeks of the first matching season, or []
   * when there is none or an argument is falsy.
   */
  function WeeksForYearAndSeason(seasons: seq<Season>, year: Option<int>, seasonType: Option<int>): (r: seq<int>)
    ensures !TruthyInt(year) || !TruthyInt(seasonType) ==> r == []
    ensures TruthyInt(year) && TruthyInt(seasonType) ==>
              ((forall k :: 0 <= k < |seasons| ==> !Matches(seasons[k], year.value, seasonType.value)) && r == []) ||
              (exists i :: 0 <= i < |seasons| && Matches(seasons[i], year.value, seasonType.value) &&
                 (forall k :: 0 <= k < i ==> !Matches(seasons[k], year.value, seasonType.value)) &&
                 r == seasons[i].availableWeeks)
  {
    if |seasons| == 0 || !TruthyInt(year) || !TruthyInt(seasonType) then []
    else
      match FindFrom(seasons, year.value, seasonType.value, 0)
      case Some(i) => seasons[i].availableWeeks
      case None => []
  }

  /** The combination the selectors offer: a year and season type that list the week. */
  predicate ValidCombination(seasons: seq<Season>, year: Option<int>, seasonType: Option<int>, week: int) {
    week in WeeksForYearAndSeason(seasons, year, seasonType)
  }

  /** `isValidCombination(year, seasonType, week)`: a scan of the available weeks. */
  method IsValidCombination(seasons: seq<Season>, year: Option<int>, seasonType: Option<int>, week: int)
    returns (r: bool)
    ensures r <==> ValidCombination(seasons, year, seasonType, week)
    ensures r ==> TruthyInt(year) && TruthyInt(seasonType) &&
                  exists k :: 0 <= k < |seasons| && Matches(seasons[k], year.value, seasonType.value)
  {
    var availableWeeks := WeeksForYearAndSeason(seasons, year, seasonType);
    r := false;
    var i := 0;
    while i < |availableWeeks|
      invariant 0 <= i <= |availableWeeks|
      invariant r <==> week in availableWeeks[..i]
    {
      if availableWeeks[i] == week {
        r := true;
      }
      assert availableWeeks[..i + 1] == availableWeeks[..i] + [availableWeeks[i]];
      i := i + 1;
    }
    assert availableWeeks[..i] == availableWeeks;
  }

  // ----- default selection -----

  /**
   * The order of the default-selection sort: newer year first, then regular season before the
   * other types, then the smaller type id.
   */
  predicate Precedes(a: Season, b: Season) {
    a.year > b.year ||
    (a.year == b.year &&
      ((a.seasonType == 2 && b.seasonType != 2) ||
       ((a.seasonType == 2) == (b.seasonType == 2) && a.seasonType < b.seasonType)))
  }

  /** The first season that no other season precedes (the head of the stable sort). */
  function Best(seasons: seq<Season>): (r: nat)
    requires |seasons| > 0
    ensures r < |seasons|
    ensures forall k :: 0 <= k < |seasons| ==> !Precedes(seasons[k], seasons[r])
    ensures forall k :: 0 <= k < r ==> Precedes(seasons[r], seasons[k])
    decreases |seasons|
  {
    if |seasons| == 1 then 0
    else
      var b := Best(seasons[..|seasons| - 1]);
      assert forall k :: 0 <= k < |seasons| - 1 ==> seasons[..|seasons| - 1][k] == seasons[k];
      if Precedes(seasons[|seasons| - 1], seasons[b]) then |seasons| - 1 else b
  }

  datatype Selection = Selection(year: int, seasonType: int, week: int)

  /**
   * `getDefaultSelection()`: none without seasons; otherwise the newest year, preferring the
   * regular season, then the smallest type, with the first available week or 1.
   */
  function DefaultSelection(seasons: seq<Season>): (r: Option<Selection>)
    ensures r.None? <==> |seasons| == 0
    ensures r.Some? ==> exists k :: 0 <= k < |seasons| && seasons[k].year == r.value.year && seasons[k].seasonType == r.value.seasonType
    ensures r.Some? ==> forall k :: 0 <= k < |seasons| ==> seasons[k].year <= r.value.year
    ensures r.Some? ==> forall k :: 0 <= k < |seasons| && seasons[k].year == r.value.year && seasons[k].seasonType == 2 ==>
              r.value.seasonType == 2
    ensures r.Some? && r.value.seasonType != 2 ==>
              forall k :: 0 <= k < |seasons| && seasons[k].year == r.value.year ==> r.value.seasonType <= seasons[k].seasonType
    ensures r.Some? ==> r.value.week >= 1 || r.value.week < 0
    ensures r.Some? ==> var b := seasons[Best(seasons)];
              r.value.year == b.year && r.value.seasonType == b.seasonType &&
              r.value.week == (if |b.availableWeeks| > 0 && b.availableWeeks[0] != 0 then b.availableWeeks[0] else 1)
  {
    if |seasons| == 0 then None
    else
      var first := seasons[Best(seasons)];
      var weeks := first.availableWeeks;
      Some(Selection(first.year, first.seasonType, if |weeks| > 0 && weeks[0] != 0 then weeks[0] else 1))
  }

  /** With 2024 preseason and regular season and 2023 playoffs available, the default is 2024 regular season week 1. */
  lemma DefaultSelectionExample()
    ensures DefaultSelection([Season(2024, 1, "preseason", [1, 2], "2024 Preseason"),
                              Season(2023, 3, "postseason", [1], "2023 Playoffs"),
                              Season(2024, 2, "regular_season", [], "2024 Regular Season")])
            == Some(Selection(2024, 2, 1))
  {
    var s := [Season(2024, 1, "preseason", [1, 2], "2024 Preseason"),
              Season(2023, 3, "postseason", [1], "2023 Playoffs"),
              Season(2024, 2, "regular_season", [], "2024 Regular Season")];
    assert Precedes(s[2], s[0]);
  }
}
