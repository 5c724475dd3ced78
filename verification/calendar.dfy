/**
 * Proleptic Gregorian local dates and the millisecond instants a JavaScript `Date` compares by.
 * Local time has no daylight-saving shifts here, so a day is always 86 400 000 ms.
 */
module Calendar {

  const MsPerDay: int := 86400000
  const MsPerWeek: int := 7 * 86400000

  /** A local date and the milliseconds since its midnight; `month` and `day` are 1-based. */
  datatype Date = Date(year: int, month: int, day: int, msOfDay: int)

  predicate IsLeap(y: int) {
    y % 4 == 0 && (y % 100 != 0 || y % 400 == 0)
  }

  function YearLength(y: int): (r: int)
    ensures r == 365 || r == 366
  {
    if IsLeap(y) then 366 else 365
  }

  function DaysInMonth(y: int, m: int): (r: int)
    requires 1 <= m <= 12
    ensures 28 <= r <= 31
    ensures m == 2 ==> (r == 29 <==> IsLeap(y))
  {
    if m == 2 then (if IsLeap(y) then 29 else 28)
    else if m == 4 || m == 6 || m == 9 || m == 11 then 30
    else 31
  }

  predicate Valid(d: Date) {
    1 <= d.month <= 12 && 1 <= d.day <= DaysInMonth(d.year, d.month) && 0 <= d.msOfDay < MsPerDay
  }

  /** The midnight that starts a day. */
  function Midnight(y: int, m: int, day: int): Date {
    Date(y, m, day, 0)
  }

  /** Days in the months before `m` of year `y`. */
  function DaysBeforeMonth(y: int, m: int): (r: int)
    requires 1 <= m <= 12
    ensures r >= 0
    decreases m
  {
    if m == 1 then 0 else DaysBeforeMonth(y, m - 1) + DaysInMonth(y, m - 1)
  }

  /** Day number of January 1 of year `y`, counted from January 1 of year 0. */
  function YearStart(y: int): int
    decreases if y < 0 then -y else y
  {
    if y == 0 then 0
    else if y > 0 then YearStart(y - 1) + YearLength(y - 1)
    else YearStart(y + 1) - YearLength(y)
  }

  function DayNumber(d: Date): int
    requires Valid(d)
  {
    YearStart(d.year) + DaysBeforeMonth(d.year, d.month) + d.day - 1
  }

  /** The millisecond instant a `Date` compares and subtracts by. */
  function Instant(d: Date): int
    requires Valid(d)
  {
    DayNumber(d) * MsPerDay + d.msOfDay
  }

  /** Calendar order: year, then month, then day, then time of day. */
  predicate CalendarLe(a: Date, b: Date) {
    a.year < b.year || (a.year == b.year &&
      (a.month < b.month || (a.month == b.month &&
        (a.day < b.day || (a.day == b.day && a.msOfDay <= b.msOfDay)))))
  }

  // ----- the day count is consistent with the calendar -----

  lemma YearStartStep(y: int)
    ensures YearStart(y + 1) == YearStart(y) + YearLength(y)
  {
  }

  /** A whole year lies between the starts of any earlier and any later year. */
  lemma {:induction false} YearStartOrder(y1: int, y2: int)
    requires y1 < y2
    ensures YearStart(y1) + YearLength(y1) <= YearStart(y2)
    decreases y2 - y1
  {
    YearStartStep(y1);
    if y1 + 1 < y2 {
      YearStartOrder(y1 + 1, y2);
    }
  }

  /** Each month ends no later than any later month begins. */
  lemma {:induction false} MonthOrder(y: int, m1: int, m2: int)
    requires 1 <= m1 < m2 <= 12
    ensures DaysBeforeMonth(y, m1) + DaysInMonth(y, m1) <= DaysBeforeMonth(y, m2)
    decreases m2
  {
    if m1 + 1 < m2 {
      MonthOrder(y, m1, m2 - 1);
    }
  }

  /** December ends the year. */
  lemma YearEnd(y: int)
    ensures DaysBeforeMonth(y, 12) + DaysInMonth(y, 12) == YearLength(y)
  {
    assert DaysBeforeMonth(y, 3) == 31 + DaysInMonth(y, 2);
    assert DaysBeforeMonth(y, 6) == DaysBeforeMonth(y, 3) + 92;
    assert DaysBeforeMonth(y, 9) == DaysBeforeMonth(y, 6) + 92;
    assert DaysBeforeMonth(y, 12) == DaysBeforeMonth(y, 9) + 91;
  }

  /** A valid date's day number lies inside its year. */
  lemma DayInYear(d: Date)
    requires Valid(d)
    ensures YearStart(d.year) <= DayNumber(d) < YearStart(d.year) + YearLength(d.year)
  {
    YearEnd(d.year);
    if d.month < 12 {
      MonthOrder(d.year, d.month, 12);
    }
  }

  /** Instants order valid dates exactly as the calendar does. */
  lemma InstantOrder(a: Date, b: Date)
    requires Valid(a) && Valid(b)
    ensures Instant(a) <= Instant(b) <==> CalendarLe(a, b)
  {
    DayInYear(a);
    DayInYear(b);
    if a.year < b.year {
      YearStartOrder(a.year, b.year);
    } else if b.year < a.year {
      YearStartOrder(b.year, a.year);
    } else if a.month < b.month {
      MonthOrder(a.year, a.month, b.month);
    } else if b.month < a.month {
      MonthOrder(a.year, b.month, a.month);
    }
  }

  lemma InstantLe(a: Date, b: Date)
    requires Valid(a) && Valid(b) && CalendarLe(a, b)
    ensures Instant(a) <= Instant(b)
  {
    InstantOrder(a, b);
  }

  lemma InstantGt(a: Date, b: Date)
    requires Valid(a) && Valid(b) && !CalendarLe(a, b)
    ensures Instant(a) > Instant(b)
  {
    InstantOrder(a, b);
  }

  /** Whole weeks between two instants that start `days` apart, the later one `ms` into its day. */
  lemma WeeksElapsed(days: int, ms: int)
    requires days >= 0 && 0 <= ms < MsPerDay
    ensures (days * MsPerDay + ms) / MsPerWeek == days / 7
  {
    var q := days / 7;
    var rem := days % 7;
    assert days * MsPerDay + ms == q * MsPerWeek + (rem * MsPerDay + ms);
    assert 0 <= rem * MsPerDay + ms < MsPerWeek;
  }
}
