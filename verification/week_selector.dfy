/**
 * `WeekYearSelector`: changing the season type or the year keeps the selected week only while the
 * supplied validator still accepts the combination, and resets it to week 1 otherwise.
 */
module WeekSelector {
  import opened Common
  import WeeksInRange

  datatype Selected = Selected(seasonType: Option<int>, year: Option<int>, week: int)

  /** The optional `isValidCombination(year, seasonType, week)` prop. */
  type Validator = Option<(Option<int>, Option<int>, int) -> bool>

  /** Whether the validator, when there is one, rejects a combination. */
  predicate Rejects(valid: Validator, year: Option<int>, seasonType: Option<int>, week: int) {
    valid.Some? && !valid.value(year, seasonType, week)
  }

  /** `handleSeasonTypeChange(value)`: checked against the current year and the new type. */
  function SeasonTypeChange(sel: Selected, value: Option<int>, valid: Validator): (r: Selected)
    ensures r.seasonType == value && r.year == sel.year
    ensures r.week == sel.week || r.week == 1
    ensures valid.None? ==> r.week == sel.week
    ensures valid.Some? && r.week != 1 ==> valid.value(r.year, r.seasonType, r.week)
    ensures valid.Some? && valid.value(sel.year, value, sel.week) ==> r.week == sel.week
  {
    var week := if Rejects(valid, sel.year, value, sel.week) then 1 else sel.week;
    Selected(value, sel.year, week)
  }

  /** `handleYearChange(value)`: checked against the new year and the current type. */
  function YearChange(sel: Selected, value: Option<int>, valid: Validator): (r: Selected)
    ensures r.year == value && r.seasonType == sel.seasonType
    ensures r.week == sel.week || r.week == 1
    ensures valid.None? ==> r.week == sel.week
    ensures valid.Some? && r.week != 1 ==> valid.value(r.year, r.seasonType, r.week)
    ensures valid.Some? && valid.value(value, sel.seasonType, sel.week) ==> r.week == sel.week
  {
    var week := if Rejects(valid, value, sel.seasonType, sel.week) then 1 else sel.week;
    Selected(sel.seasonType, value, week)
  }

  /** The week select calls the setter directly, without validation. */
  function WeekChange(sel: Selected, value: int): (r: Selected)
    ensures r.week == value && r.year == sel.year && r.seasonType == sel.seasonType
  {
    sel.(week := value)
  }

  /**
   * With the weeks-in-range validator, a season-type or year change leaves a combination the
   * summary lists, unless the week fell back to 1; and when week 1 is listed the result is always listed.
   */
  lemma ChangesStayListed(seasons: seq<WeeksInRange.Season>, sel: Selected, value: Option<int>)
    ensures var valid: Validator := Some((y, t, w) => WeeksInRange.ValidCombination(seasons, y, t, w));
            var a := SeasonTypeChange(sel, value, valid);
            var b := YearChange(sel, value, valid);
            (WeeksInRange.ValidCombination(seasons, a.year, a.seasonType, a.week) || a.week == 1) &&
            (WeeksInRange.ValidCombination(seasons, b.year, b.seasonType, b.week) || b.week == 1) &&
            (WeeksInRange.ValidCombination(seasons, sel.year, value, 1) ==>
               WeeksInRange.ValidCombination(seasons, a.year, a.seasonType, a.week))
  {
  }

  /** A validator that accepts nothing forces week 1 on every change. */
  lemma RejectAllResets(sel: Selected, value: Option<int>)
    ensures SeasonTypeChange(sel, value, Some((y, t, w) => false)).week == 1
    ensures YearChange(sel, value, Some((y, t, w) => false)).week == 1
  {
  }
}
