/**
 * Season and week resolution from a local date (`getCurrentNFLWeek` and its helpers): fixed
 * calendar windows for preseason, regular season and playoffs, a clamped week count inside each
 * window, an off-season fallback, and the step to the following week.
 */
module CurrentWeek {
  import opened Common
  import opened Text
  import opened Calendar
  import SeasonTypes

  /** The record `getCurrentNFLWeek` returns; `isOffSeason` is false where the source leaves it unset. */
  datatype NFLWeek = NFLWeek(
    seasonType: int,
    week: int,
    year: int,
    seasonName: string,
    displayName: string,
    isOffSeason: bool)

  /** `getNFLSeasonYear`: January to July still belong to the previous season. */
  function SeasonYear(d: Date): (r: int)
    requires Valid(d)
    ensures r == d.year || r == d.year - 1
  {
    if d.month <= 7 then d.year - 1 else d.year
  }

  /** The season year is the year of the latest August 1 at or before the date. */
  lemma SeasonYearStartsInAugust(d: Date)
    requires Valid(d)
    ensures var y := SeasonYear(d);
            Instant(Midnight(y, 8, 1)) <= Instant(d) < Instant(Midnight(y + 1, 8, 1))
  {
    var y := SeasonYear(d);
    var start, next := Midnight(y, 8, 1), Midnight(y + 1, 8, 1);
    assert Valid(start) && Valid(next);
    assert CalendarLe(start, d) && !CalendarLe(next, d);
    InstantLe(start, d);
    InstantGt(next, d);
  }

  function Min(a: int, b: int): int {
    if a < b then a else b
  }

  function Max(a: int, b: int): int {
    if a < b then b else a
  }

  /** `Math.min(Math.max(w, 1), hi)`. */
  function Clamp(w: int, hi: int): (r: int)
    requires hi >= 1
    ensures 1 <= r <= hi
    ensures 1 <= w <= hi ==> r == w
  {
    Min(Max(w, 1), hi)
  }

  /** `floor((now - start) / one week) + 1`, as a JavaScript number division rounded down. */
  function WeeksFromStart(now: int, start: int): int {
    (now - start) / MsPerWeek + 1
  }

  /** The midnight that opens a season type's window in season year `y`. */
  function WindowStart(seasonType: int, y: int): (r: Date)
    ensures Valid(r) && r.msOfDay == 0
  {
    if seasonType == 1 then Midnight(y, 8, 1)
    else if seasonType == 2 then Midnight(y, 9, 1)
    else Midnight(y + 1, 1, 8)
  }

  /** The midnight that closes a season type's window: the start of its last named day. */
  function WindowEnd(seasonType: int, y: int): (r: Date)
    ensures Valid(r) && r.msOfDay == 0
  {
    if seasonType == 1 then Midnight(y, 8, 31)
    else if seasonType == 2 then Midnight(y + 1, 1, 7)
    else Midnight(y + 1, 2, 14)
  }

  /** `now` lies inside the window, both ends inclusive. */
  predicate InWindow(now: int, seasonType: int, y: int) {
    Instant(WindowStart(seasonType, y)) <= now <= Instant(WindowEnd(seasonType, y))
  }

  /** The first of preseason, regular season and playoffs whose window holds the date; 0 if none. */
  function WindowOf(d: Date): (t: int)
    requires Valid(d)
    ensures 0 <= t <= 3
    ensures t != 0 ==> InWindow(Instant(d), t, SeasonYear(d))
  {
    var seasonYear := SeasonYear(d);
    var now := Instant(d);
    if InWindow(now, 1, seasonYear) then 1
    else if InWindow(now, 2, seasonYear) then 2
    else if InWindow(now, 3, seasonYear) then 3
    else 0
  }

  /** The clamp bound each branch of the source uses: 4, 18 and 4 weeks. */
  function WindowMaxWeeks(seasonType: int): int {
    if seasonType == 2 then 18 else 4
  }

  function InSeason(seasonType: int, week: int, year: int): (r: NFLWeek)
    ensures r.year == year && r.seasonType == seasonType && r.week == week && !r.isOffSeason
  {
    if seasonType == 1 then NFLWeek(1, week, year, "preseason", IntToString(year) + " " + "Preseason", false)
    else if seasonType == 2 then NFLWeek(2, week, year, "regular_season", IntToString(year) + " " + "Regular Season", false)
    else NFLWeek(seasonType, week, year, "postseason", IntToString(year) + " " + "Playoffs", false)
  }

  /** `getCurrentNFLWeek(date)`. */
  function Resolve(d: Date): (r: NFLWeek)
    requires Valid(d)
    ensures r.year == SeasonYear(d)
    ensures 1 <= r.seasonType <= 3 && 1 <= r.week <= SeasonTypes.MaxWeeks(r.seasonType)
    ensures r.isOffSeason ==> r.seasonType == 2 && r.week == 1
  {
    var year := d.year;
    var month := d.month;
    var seasonYear := SeasonYear(d);
    var seasonType := WindowOf(d);
    if seasonType != 0 then
      var weeksFromStart := WeeksFromStart(Instant(d), Instant(WindowStart(seasonType, seasonYear)));
      InSeason(seasonType, Clamp(weeksFromStart, WindowMaxWeeks(seasonType)), seasonYear)
    else
      var upcomingSeasonYear := if month >= 8 then year else year - 1;
      NFLWeek(2, 1, upcomingSeasonYear, "regular_season", IntToString(upcomingSeasonYear) + " " + "Regular Season", true)
  }

  /** The names the resolver writes agree with the season-type table. */
  lemma ResolveNamesMatchTable(d: Date)
    requires Valid(d)
    ensures var r := Resolve(d);
            SeasonTypes.GetSeasonType(r.seasonType).Some? &&
            r.seasonName == SeasonTypes.GetSeasonType(r.seasonType).value.name &&
            r.displayName == IntToString(r.year) + " " + SeasonTypes.DisplayName(r.seasonType)
  {
    var r := Resolve(d);
    if r.seasonType == 1 {
      assert SeasonTypes.GetSeasonType(1) == Some(SeasonTypes.Preseason);
    } else if r.seasonType == 2 {
      assert SeasonTypes.GetSeasonType(2) == Some(SeasonTypes.RegularSeason);
    } else {
      assert SeasonTypes.GetSeasonType(3) == Some(SeasonTypes.Postseason);
    }
  }

  // ----- the windows in calendar terms -----

  /** August 1 up to the midnight that starts August 31. */
  predicate InPreseasonWindow(d: Date) {
    d.month == 8 && (d.day < 31 || (d.day == 31 && d.msOfDay == 0))
  }

  /** September 1 up to the midnight that starts January 7. */
  predicate InRegularWindow(d: Date) {
    d.month >= 9 || (d.month == 1 && (d.day < 7 || (d.day == 7 && d.msOfDay == 0)))
  }

  /** January 8 up to the midnight that starts February 14. */
  predicate InPlayoffWindow(d: Date) {
    (d.month == 1 && d.day >= 8) || (d.month == 2 && (d.day < 14 || (d.day == 14 && d.msOfDay == 0)))
  }

  lemma PreseasonResolved(d: Date)
    requires Valid(d) && InPreseasonWindow(d)
    ensures WindowOf(d) == 1
  {
    var sy := SeasonYear(d);
    InstantLe(Midnight(sy, 8, 1), d);
    InstantLe(d, Midnight(sy, 8, 31));
  }

  lemma RegularResolved(d: Date)
    requires Valid(d) && InRegularWindow(d)
    ensures WindowOf(d) == 2
  {
    var sy := SeasonYear(d);
    InstantGt(d, Midnight(sy, 8, 31));
    InstantLe(Midnight(sy, 9, 1), d);
    InstantLe(d, Midnight(sy + 1, 1, 7));
  }

  lemma PlayoffsResolved(d: Date)
    requires Valid(d) && InPlayoffWindow(d)
    ensures WindowOf(d) == 3
  {
    var sy := SeasonYear(d);
    InstantGt(d, Midnight(sy, 8, 31));
    InstantGt(d, Midnight(sy + 1, 1, 7));
    InstantLe(Midnight(sy + 1, 1, 8), d);
    InstantLe(d, Midnight(sy + 1, 2, 14));
  }

  /** The later hours of August 31. */
  lemma LateAugustOff(d: Date)
    requires Valid(d) && d.month == 8 && !InPreseasonWindow(d)
    ensures WindowOf(d) == 0
  {
    var sy := SeasonYear(d);
    InstantGt(d, Midnight(sy, 8, 31));
    InstantGt(Midnight(sy, 9, 1), d);
    InstantGt(Midnight(sy + 1, 1, 8), d);
  }

  /** The later hours of January 7. */
  lemma LateJanuarySeventhOff(d: Date)
    requires Valid(d) && d.month == 1 && !InRegularWindow(d) && !InPlayoffWindow(d)
    ensures WindowOf(d) == 0
  {
    var sy := SeasonYear(d);
    InstantGt(d, Midnight(sy, 8, 31));
    InstantGt(d, Midnight(sy + 1, 1, 7));
    InstantGt(Midnight(sy + 1, 1, 8), d);
  }

  /** From the later hours of February 14 to the end of July. */
  lemma SpringOff(d: Date)
    requires Valid(d) && 2 <= d.month <= 7 && !InPlayoffWindow(d)
    ensures WindowOf(d) == 0
  {
    var sy := SeasonYear(d);
    InstantGt(d, Midnight(sy, 8, 31));
    InstantGt(d, Midnight(sy + 1, 1, 7));
    InstantGt(d, Midnight(sy + 1, 2, 14));
  }

  lemma OffSeasonResolved(d: Date)
    requires Valid(d) && !InPreseasonWindow(d) && !InRegularWindow(d) && !InPlayoffWindow(d)
    ensures WindowOf(d) == 0
  {
    if d.month == 8 {
      LateAugustOff(d);
    } else if d.month == 1 {
      LateJanuarySeventhOff(d);
    } else {
      SpringOff(d);
    }
  }

  /**
   * Each season type is resolved exactly on its calendar window, and every other moment of the
   * year (including the later hours of August 31, January 7 and February 14) is off-season.
   */
  lemma ResolveWindows(d: Date)
    requires Valid(d)
    ensures !Resolve(d).isOffSeason && Resolve(d).seasonType == 1 <==> InPreseasonWindow(d)
    ensures !Resolve(d).isOffSeason && Resolve(d).seasonType == 2 <==> InRegularWindow(d)
    ensures !Resolve(d).isOffSeason && Resolve(d).seasonType == 3 <==> InPlayoffWindow(d)
    ensures Resolve(d).isOffSeason <==> !InPreseasonWindow(d) && !InRegularWindow(d) && !InPlayoffWindow(d)
  {
    if InPreseasonWindow(d) {
      PreseasonResolved(d);
    } else if InRegularWindow(d) {
      RegularResolved(d);
    } else if InPlayoffWindow(d) {
      PlayoffsResolved(d);
    } else {
      OffSeasonResolved(d);
    }
  }

  /** From a midnight on or before the date, whole weeks of milliseconds are whole weeks of days. */
  lemma WeeksFromMidnight(d: Date, start: Date)
    requires Valid(d) && Valid(start) && start.msOfDay == 0 && Instant(start) <= Instant(d)
    ensures DayNumber(d) >= DayNumber(start)
    ensures WeeksFromStart(Instant(d), Instant(start)) == (DayNumber(d) - DayNumber(start)) / 7 + 1
  {
    WeeksElapsed(DayNumber(d) - DayNumber(start), d.msOfDay);
    assert Instant(d) - Instant(start) == (DayNumber(d) - DayNumber(start)) * MsPerDay + d.msOfDay;
  }

  /** Inside a window the week is the count of whole days since the window opened, over seven, plus one, capped. */
  lemma ResolveWeek(d: Date)
    requires Valid(d) && !Resolve(d).isOffSeason
    ensures var r := Resolve(d);
            var start := WindowStart(r.seasonType, r.year);
            DayNumber(d) >= DayNumber(start) &&
            r.week == Min((DayNumber(d) - DayNumber(start)) / 7 + 1, SeasonTypes.MaxWeeks(r.seasonType))
  {
    var r := Resolve(d);
    var start := WindowStart(r.seasonType, r.year);
    assert WindowOf(d) == r.seasonType;
    WeeksFromMidnight(d, start);
  }

  /** `isNFLSeason(date)`: the date falls inside one of the three windows. */
  function IsNFLSeason(d: Date): (r: bool)
    requires Valid(d)
    ensures r <==> InPreseasonWindow(d) || InRegularWindow(d) || InPlayoffWindow(d)
  {
    ResolveWindows(d);
    !Resolve(d).isOffSeason
  }

  // ----- the off-season year -----

  /** The year of the first September 1 at or after the date: the regular season that opens next. */
  function UpcomingSeasonYear(d: Date): (r: int)
    requires Valid(d)
    ensures r == d.year || r == d.year + 1
    ensures Instant(d) <= Instant(WindowStart(2, r))
    ensures Instant(WindowStart(2, r - 1)) < Instant(d)
  {
    var r := if CalendarLe(d, Midnight(d.year, 9, 1)) then d.year else d.year + 1;
    InstantOrder(d, Midnight(r, 9, 1));
    InstantOrder(d, Midnight(r - 1, 9, 1));
    r
  }

  /**
   * The off-season record as the source's comment describes it, "the upcoming regular season":
   * week 1 of the season whose September 1 has not yet come. In season it is `Resolve` unchanged.
   */
  function ResolveIntended(d: Date): (r: NFLWeek)
    requires Valid(d)
    ensures r.isOffSeason == Resolve(d).isOffSeason
    ensures !r.isOffSeason ==> r == Resolve(d)
    ensures r.isOffSeason ==> r.seasonType == 2 && r.week == 1 && r.year == UpcomingSeasonYear(d)
    ensures r.isOffSeason ==> Instant(d) <= Instant(WindowStart(2, r.year))
  {
    var current := Resolve(d);
    if current.isOffSeason then
      var y := UpcomingSeasonYear(d);
      NFLWeek(2, 1, y, "regular_season", IntToString(y) + " " + "Regular Season", true)
    else current
  }

  /**
   * As written, from February 14 to the end of July the off-season record names the regular season
   * that opened the previous September, one year behind the one that opens next.
   */
  lemma SpringOffSeasonNamesPastSeason(d: Date)
    requires Valid(d) && Resolve(d).isOffSeason && d.month <= 7
    ensures Instant(WindowStart(2, Resolve(d).year)) < Instant(d)
    ensures ResolveIntended(d).year == Resolve(d).year + 1
  {
    InstantOrder(d, Midnight(d.year - 1, 9, 1));
    InstantOrder(d, Midnight(d.year, 9, 1));
  }

  /** May 1 2025: the off-season record is week 1 of the 2024 regular season; the upcoming one is 2025. */
  lemma MayShowsLastSeason()
    ensures Resolve(Date(2025, 5, 1, 0)).isOffSeason
    ensures Resolve(Date(2025, 5, 1, 0)).year == 2024 && Resolve(Date(2025, 5, 1, 0)).week == 1
    ensures ResolveIntended(Date(2025, 5, 1, 0)).year == 2025
  {
    ResolveWindows(Date(2025, 5, 1, 0));
    SpringOffSeasonNamesPastSeason(Date(2025, 5, 1, 0));
  }

  // ----- the following week -----

  /** The week after `w`: the same record with the next week, or the first week of the next season type. */
  function Step(w: NFLWeek): (r: NFLWeek)
    ensures w.isOffSeason ==> r == w
    ensures !w.isOffSeason && w.week < SeasonTypes.MaxWeeks(w.seasonType) ==> r == w.(week := w.week + 1)
    ensures !w.isOffSeason && w.week >= SeasonTypes.MaxWeeks(w.seasonType) ==>
              r.week == 1 && !r.isOffSeason &&
              (w.seasonType == 1 ==> r.seasonType == 2 && r.year == w.year) &&
              (w.seasonType == 2 ==> r.seasonType == 3 && r.year == w.year) &&
              (w.seasonType != 1 && w.seasonType != 2 ==> r.seasonType == 1 && r.year == w.year + 1)
  {
    if w.isOffSeason then w
    else
      var maxWeeks := match SeasonTypes.GetSeasonType(w.seasonType)
                      case Some(t) => if t.maxWeeks != 0 then t.maxWeeks else 18
                      case None => 18;
      if w.week < maxWeeks then w.(week := w.week + 1)
      else if w.seasonType == 1 then
        w.(seasonType := 2, week := 1, seasonName := "regular_season",
           displayName := IntToString(w.year) + " Regular Season")
      else if w.seasonType == 2 then
        w.(seasonType := 3, week := 1, seasonName := "postseason",
           displayName := IntToString(w.year) + " Playoffs")
      else
        NFLWeek(1, 1, w.year + 1, "preseason", IntToString(w.year + 1) + " Preseason", false)
  }

  /** `getNextNFLWeek(date)`. */
  function NextNFLWeek(d: Date): (r: NFLWeek)
    requires Valid(d)
    ensures !IsNFLSeason(d) ==> r == Resolve(d) && r.isOffSeason && r.seasonType == 2 && r.week == 1
    ensures IsNFLSeason(d) ==> r == Step(Resolve(d)) && InSeasonWeek(r) && Key(r) > Key(Resolve(d))
  {
    var current := Resolve(d);
    if current.isOffSeason then current
    else
      StepAdvances(current);
      Step(current)
  }

  /** A position on the season timeline: year, then season type in order, then week. */
  function Key(w: NFLWeek): int {
    (w.year * 3 + (w.seasonType - 1)) * 100 + w.week
  }

  predicate InSeasonWeek(w: NFLWeek) {
    !w.isOffSeason && 1 <= w.seasonType <= 3 && 1 <= w.week <= SeasonTypes.MaxWeeks(w.seasonType)
  }

  /** An in-season step stays in season and moves strictly forward on the timeline. */
  lemma StepAdvances(w: NFLWeek)
    requires InSeasonWeek(w)
    ensures InSeasonWeek(Step(w))
    ensures Key(Step(w)) > Key(w)
  {
  }

  function StepN(w: NFLWeek, n: nat): NFLWeek {
    if n == 0 then w else Step(StepN(w, n - 1))
  }

  function RegularWeek(year: int, week: int): NFLWeek {
    NFLWeek(2, week, year, "regular_season", IntToString(year) + " Regular Season", false)
  }

  lemma {:induction false} RegularSeasonRun(year: int, k: nat)
    requires 1 <= k <= 18
    ensures StepN(RegularWeek(year, 1), k - 1) == RegularWeek(year, k)
  {
    if k > 1 {
      RegularSeasonRun(year, k - 1);
    }
  }

  /** Eighteen steps from regular-season week 1 reach playoff week 1 of the same season year. */
  lemma EighteenSteps(year: int)
    ensures var w := StepN(RegularWeek(year, 1), 18);
            w.seasonType == 3 && w.week == 1 && w.year == year && !w.isOffSeason
  {
    RegularSeasonRun(year, 18);
  }

  /** The selection the app starts from (`getDefaultNFLSelection`, with the clock read made a parameter). */
  datatype DefaultSelection = DefaultSelection(year: int, seasonType: int, week: int, isCurrentWeek: bool, displayText: string)

  function DefaultNFLSelection(d: Date): (r: DefaultSelection)
    requires Valid(d)
    ensures r.isCurrentWeek <==> IsNFLSeason(d)
    ensures !r.isCurrentWeek ==> r.seasonType == 2 && r.week == 1
    ensures r.year == SeasonYear(d)
    ensures r.seasonType == Resolve(d).seasonType && r.week == Resolve(d).week
    ensures r.displayText == Resolve(d).displayName
    ensures 1 <= r.seasonType <= 3 && 1 <= r.week <= SeasonTypes.MaxWeeks(r.seasonType)
  {
    var current := Resolve(d);
    DefaultSelection(current.year, current.seasonType, current.week, !current.isOffSeason, current.displayName)
  }

  /** Concrete dates: the first Sunday of regular season week 2 of 2024 and the off-season. */
  lemma ResolveExamples()
    ensures Resolve(Date(2024, 9, 8, 0)).seasonType == 2 && Resolve(Date(2024, 9, 8, 0)).week == 2
    ensures Resolve(Date(2025, 1, 7, 1)).isOffSeason && Resolve(Date(2025, 1, 7, 1)).year == 2024
    ensures Resolve(Date(2025, 1, 10, 0)).seasonType == 3 && Resolve(Date(2025, 1, 10, 0)).year == 2024
    ensures Resolve(Date(2025, 5, 1, 0)).isOffSeason && Resolve(Date(2025, 5, 1, 0)).year == 2024
  {
    ResolveWindows(Date(2024, 9, 8, 0));
    ResolveWeek(Date(2024, 9, 8, 0));
    ResolveWindows(Date(2025, 1, 7, 1));
    ResolveWindows(Date(2025, 1, 10, 0));
    ResolveWindows(Date(2025, 5, 1, 0));
  }
}
