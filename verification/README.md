# FortunasBet client core, modelled in Dafny

FortunasBet is a web client for weekly NFL pick'em rooms. Users join rooms, pick up to three games a
week against the spread or the total, and put 1, 2 or 3 points on each pick. This project models the
client's decision logic as pure Dafny functions and proves what that logic guarantees. It covers:

- **The season calendar.** It resolves a date to its season year, season type and week. It also
  models the season-type table, the week ranges the server offers, and the step to the next week.
- **The pick store.** It models the room page's handlers for week, year and season-type changes,
  game toggling with the three-game cap, bet type, team or over/under choice, points, and clearing.
  It shows that the two copies of these handlers agree. It proves that the store stays well-formed.
- **Spreads and the odds page.** It models how a stored spread becomes the signed line a bettor
  sees, the game card's lines, point buttons and badges, and the odds section's submit and alert
  rules.
- **Results.** It models score display and WIN/LOSS grading, the per-user statistics table, the
  leaderboard's competition places, and the running-total chart.
- **Membership.** It models status grouping and lookup, the admin actions and the requests they
  send, and room membership.
- **The rest of the core:** notifications (reducer, sync effect, flattening, acknowledgement), room
  creation and search, the profile update whitelist, the stage lookup, and bet creation's error
  texts.

Conventions used throughout:

- JavaScript's `null` and `undefined` are both `None` of `Common.Option`.
- Truthiness and `||` defaults are written out (`TruthyStr`, `TruthyInt`, `OrZero`, `StrOr`).
- Spreads, lines and totals are integers in tenths of a point.
- Dates are `Calendar.Date` values in local time. Instants are milliseconds.
- The current time is always a parameter.

## Model

| member | source | states |
|---|---|---|
| RoomHandlers.WeekChange | src/pages/rooms/roomHandlers.js:16-20 | a week change sets the week, keeps year and season type, and empties the pick store |
| RoomHandlers.YearChange | src/pages/rooms/roomHandlers.js:23-27 | a year change sets the year, keeps week and season type, and empties the pick store |
| RoomHandlers.SeasonTypeChange | src/pages/rooms/roomHandlers.js:30-37 | a season-type change sets the type, keeps week and year, and empties the pick store |
| RoomHandlers.GameSelect | src/pages/rooms/roomHandlers.js:40-60 | toggling a selected game removes it; an unselected game is added with the default pick only while fewer than three are selected, otherwise the store is unchanged and the limit warning fires; no other game's entry changes |
| RoomHandlers.BetTypeChange | src/pages/rooms/roomHandlers.js:63-73 | the entry takes the new bet type, its choice resets to "home" for spread and "over" otherwise, its points are kept, other entries are untouched |
| RoomHandlers.TeamChoiceChange | src/pages/rooms/roomHandlers.js:76-85 | only the targeted entry's choice changes; its type and points are kept |
| RoomHandlers.PointsChange | src/pages/rooms/roomHandlers.js:88-99 | points outside 1..3 leave the store as it was; valid points change only that entry's points |
| RoomHandlers.ClearBets | src/pages/rooms/roomHandlers.js:102-104 | clearing leaves no selected game |
| RoomHandlers.SelectKeepsWellformed | src/pages/rooms/roomHandlers.js:40-60 | toggling keeps the store within three games with well-formed entries |
| RoomHandlers.BetTypeKeepsWellformed | src/pages/rooms/roomHandlers.js:63-73 | a bet-type change on a selected game keeps the store well-formed |
| RoomHandlers.TeamChoiceKeepsWellformed | src/pages/rooms/roomHandlers.js:76-85 | a choice change on a selected game keeps the store well-formed |
| RoomHandlers.PointsKeepWellformed | src/pages/rooms/roomHandlers.js:88-99 | a points change on a selected game keeps the store well-formed |
| RoomHandlers.ApplyKeepsWellformed | src/pages/rooms/roomHandlers.js:16-104 | any single handler call keeps the store well-formed, as long as the entry setters target selected games |
| RoomHandlers.RunKeepsWellformed | src/pages/rooms/roomHandlers.js:16-104 | every sequence of handler calls whose setters target selected games keeps the store at three games or fewer, with well-formed entries |
| RoomHandlers.ToggleAllCapped | src/pages/rooms/roomHandlers.js:40-60 | any sequence of game toggles, on any ids, never takes the store above three games |
| RoomHandlers.UntargetedSetterBreaksCap | src/pages/rooms/roomHandlers.js:88-99 | the setters themselves do not enforce the cap: a points change on an unselected game creates a fourth entry |
| RoomUtils.HandleWeekChange | src/pages/rooms/Room/roomUtils.js:11-15 | the second copy of the week handler empties the store and sets the week |
| RoomUtils.HandleYearChange | src/pages/rooms/Room/roomUtils.js:16-20 | the second copy of the year handler empties the store and sets the year |
| RoomUtils.HandleSeasonTypeChange | src/pages/rooms/Room/roomUtils.js:21-28 | the second copy of the season-type handler empties the store and sets the type |
| RoomUtils.HandleGameSelect | src/pages/rooms/Room/roomUtils.js:29-48 | the second copy of the toggle removes a selected game, adds the default pick below the cap, and rejects a fourth game with the warning |
| RoomUtils.HandleBetTypeChange | src/pages/rooms/Room/roomUtils.js:49-58 | the second copy of the bet-type handler resets the choice to the type's first option and keeps the points |
| RoomUtils.HandleTeamChoiceChange | src/pages/rooms/Room/roomUtils.js:59-68 | the second copy of the choice handler stores the choice |
| RoomUtils.HandlePointsChange | src/pages/rooms/Room/roomUtils.js:69-79 | the second copy of the points handler ignores points outside 1..3 and stores valid ones |
| RoomUtils.HandleClearBets | src/pages/rooms/Room/roomUtils.js:80-82 | the second copy of clearing gives the empty store |
| RoomUtils.HandlersAgree | src/pages/rooms/Room/roomUtils.js:11-82 | both copies of the handlers compute the same next state from every input |
| SpreadUtils.RawSpread | src/utils/spreadUtils.js:6-7 | the game bet's own spread wins unless it is null or undefined, so a stored 0 is kept; only then does the odds snapshot's spread apply |
| SpreadUtils.InferFavored | src/utils/spreadUtils.js:13-17 | a negative raw spread means home is favoured, a positive one away, zero neither |
| SpreadUtils.Favored | src/utils/spreadUtils.js:11-17 | a non-empty favoured team, lower-cased, overrides the sign; otherwise the sign decides |
| SpreadUtils.SignedLine | src/utils/spreadUtils.js:19-38 | the displayed line keeps the spread's magnitude; with a pick and a known favourite the pick gives the points exactly when it is the favourite; without a pick the raw sign is kept |
| SpreadUtils.AbsText | src/utils/spreadUtils.js:41-45 | a non-negative number of tenths prints starting with a digit; a whole number of points prints digits only, a fractional one the whole part, a point and exactly one decimal digit |
| SpreadUtils.FormatTenths | src/utils/spreadUtils.js:41-48 | the display starts with "+" exactly for positive and "-" exactly for negative lines, and zero prints as "0" |
| SpreadUtils.DisplayedSpread | src/utils/spreadUtils.js:4-49 | "TBD" exactly when there is no bet or no numeric spread; otherwise the formatted signed line |
| SpreadUtils.ParseAbsText | src/utils/spreadUtils.js:41-48 | the unsigned text reads back to the number of tenths it printed |
| SpreadUtils.ParseFormatTenths | src/utils/spreadUtils.js:41-48 | formatting loses nothing: the signed display reads back to the same tenths |
| SpreadUtils.TbdIsNotANumber | src/utils/spreadUtils.js:5-9 | the "TBD" placeholder never reads as a number |
| SpreadUtils.PickSign | src/utils/spreadUtils.js:24-28 | a non-zero line shows "-" for a pick of the favourite and "+" for a pick of the other side |
| SpreadUtils.HalfPointRoundTrip | src/utils/spreadUtils.js:41-45 | half-point lines keep their half point ("-3.5"); whole lines print without a decimal ("+7", "-7") |
| SpreadUtils.HomeFavoredScenario | src/utils/spreadUtils.js:24-34 | with home favoured by 7, a home pick shows "-7" and an away pick "+7" |
| GameCard.IsGameSelectable | src/components/room/GameCard.js:37-41 | a game is selectable exactly when selection is allowed, the game has not started, and it has a spread (even a non-numeric one) with non-empty details |
| GameCard.SelectableGameHasLines | src/components/room/GameCard.js:37-61 | a selectable game labels both sides with a line, and a spread pick on it stores a line exactly when the spread is numeric |
| GameCard.SideLine | src/components/room/GameCard.js:44-61 | a side's line is absent without a spread and NaN for a non-numeric one; otherwise it has the spread's magnitude and is negative exactly for the named favourite |
| GameCard.SidesMirror | src/components/room/GameCard.js:44-61 | with "home" or "away" favoured, the two sides' lines sum to zero and the favourite's is not positive |
| GameCard.UnknownFavoriteBothPositive | src/components/room/GameCard.js:44-61 | with any other favoured team, including a capitalised one, both sides show the positive magnitude |
| GameCard.Fixed1 | src/components/room/GameCard.js:63-68 | one decimal always, with a leading "-" exactly for negative lines |
| GameCard.FmtLine | src/components/room/GameCard.js:63-68 | the radio label is "" exactly without a line and "NaN" for a NaN line; otherwise it has one decimal and "+" or "-" exactly by the line's sign |
| GameCard.FmtLineRoundTrip | src/components/room/GameCard.js:63-68 | the radio label reads back to the line it was made from |
| GameCard.TeamChange | src/components/room/GameCard.js:70-77 | a spread pick stores the chosen side with that side's line (a NaN line as none); any other pick stores the plain choice |
| GameCard.TakenLineMatchesDisplayedSpread | src/components/room/GameCard.js:70-77 | the line stored with a spread pick has the sign and digits the bet display later shows for it |
| GameCard.PointButtonState | src/components/room/GameCard.js:553-564 | a point button is disabled exactly when it is not the game's current points and the value is taken this week or duplicated; its title text is non-empty exactly when the value is taken or duplicated |
| GameCard.ShownTooltip | src/components/room/GameCard.js:553-591 | a tooltip is shown exactly on a disabled button, never on the current value, and it is never empty |
| GameCard.TooltipReason | src/components/room/GameCard.js:560-564 | the title names this week's earlier bets before a duplicate in this session |
| GameCard.PressablePoints | src/components/room/GameCard.js:553-558 | the pressable values are exactly those in 1..3 whose buttons are not disabled |
| GameCard.ConflictBadge | src/components/room/GameCard.js:134-136 | the badge says "USED THIS WEEK" exactly when the points were used earlier this week, else "DUPLICATE" |
| GameCard.CardBorder | src/components/room/GameCard.js:83-87 | a points conflict outranks the selection highlight |
| GameCard.OverallRecord | src/components/room/GameCard.js:30-35 | the record text is "" without records or without an overall/total record; otherwise it is the first such record's summary, or "" when that summary is missing or empty |
| GameCard.VenueText | src/components/room/GameCard.js:153-169 | no venue line exactly when there is neither a name nor a city; a named venue's line starts with its name |
| OddsSection.CanSelect | src/pages/rooms/Room/NFLOddsSection.js:258-260 | only admins and members may pick; a selected game stays pickable, another only below three picks |
| OddsSection.HasConflictingPoints | src/pages/rooms/Room/NFLOddsSection.js:261-262 | a game conflicts exactly when it is selected with points that are among the duplicated values |
| OddsSection.SelectableClickWithinCap | src/pages/rooms/Room/NFLOddsSection.js:258-260 | a click the page allows never raises the limit warning and keeps the store within the cap |
| OddsSection.SelectableCardClick | src/pages/rooms/Room/NFLOddsSection.js:258-260 | a click on a card that reports itself selectable under the page's permission toggles the game without the limit warning, and the game offers a line on both sides |
| OddsSection.HeaderSubmitDisabled | src/pages/rooms/Room/NFLOddsSection.js:113-117 | the header button is enabled exactly with picks, no duplicate points, and admin or member rights |
| OddsSection.LowerSubmitDisabled | src/pages/rooms/Room/NFLOddsSection.js:233 | the lower button is enabled exactly with picks and no duplicate points |
| OddsSection.SubmitButtonsDiffer | src/pages/rooms/Room/NFLOddsSection.js:113-117 | the two submit buttons disagree exactly for a user who is neither admin nor member |
| OddsSection.PlaceLabel | src/pages/rooms/Room/NFLOddsSection.js:239-241 | the caption reads "Placing Bets..." while creating, otherwise "Place …" pluralised unless exactly one pick |
| OddsSection.MembershipAlertFor | src/pages/rooms/Room/NFLOddsSection.js:136-152 | no alert while fetching or for admins and members; otherwise a denial outranks a pending request |
| OddsSection.Panels | src/pages/rooms/Room/NFLOddsSection.js:183-211 | games show exactly when fetched without error and odds exist; the spinner, error and empty states exclude them |
| OddsSection.FillDefaults | src/pages/rooms/Room/NFLOddsSection.js:73-93 | a truthy season type or week is never overwritten; a falsy one is filled from the current week only when its setter exists |
| OddsSection.FillDefaultsIdempotent | src/pages/rooms/Room/NFLOddsSection.js:73-93 | running the default-filling effect again on its result changes nothing |
| CurrentWeek.SeasonYear | src/config/nflCurrentWeek.js:32-42 | January to July belong to the previous season year |
| CurrentWeek.SeasonYearStartsInAugust | src/config/nflCurrentWeek.js:32-42 | the season year is the year of the latest August 1 on or before the date |
| CurrentWeek.Clamp | src/config/nflCurrentWeek.js:94-98 | a week count is clamped into 1..the window's maximum |
| CurrentWeek.WindowStart | src/config/nflCurrentWeek.js:57-60 | each window opens at local midnight of its first day (Aug 1, Sep 1, Jan 8 of the next year) |
| CurrentWeek.WindowEnd | src/config/nflCurrentWeek.js:62-124 | each window closes at the midnight that starts its last named day (Aug 31, Jan 7, Feb 14), after its start |
| CurrentWeek.WindowOf | src/config/nflCurrentWeek.js:62-124 | the resolved type is the first window holding the date, or none |
| CurrentWeek.Resolve | src/config/nflCurrentWeek.js:49-138 | the resolved season type is 1..3 with a week inside its maximum, or off-season with the season year |
| CurrentWeek.ResolveNamesMatchTable | src/config/nflCurrentWeek.js:12-24 | the names the resolver writes agree with the season-type table |
| CurrentWeek.PreseasonResolved | src/config/nflCurrentWeek.js:92-102 | a date in the August window resolves to preseason |
| CurrentWeek.RegularResolved | src/config/nflCurrentWeek.js:103-113 | a date from September 1 to the start of January 7 resolves to the regular season |
| CurrentWeek.PlayoffsResolved | src/config/nflCurrentWeek.js:114-124 | a date from January 8 to the start of February 14 resolves to the playoffs of the previous year's season |
| CurrentWeek.LateAugustOff | src/config/nflCurrentWeek.js:62-102 | the hours after midnight on August 31 are off-season |
| CurrentWeek.LateJanuarySeventhOff | src/config/nflCurrentWeek.js:103-124 | the hours after midnight on January 7 are off-season |
| CurrentWeek.SpringOff | src/config/nflCurrentWeek.js:125-136 | from after midnight on February 14 to the end of July is off-season |
| CurrentWeek.OffSeasonResolved | src/config/nflCurrentWeek.js:125-136 | off-season reports week 1 of the season year's regular season, flagged as off-season |
| CurrentWeek.ResolveWindows | src/config/nflCurrentWeek.js:62-136 | each season type is resolved exactly on its calendar window, and every other moment of the year is off-season |
| CurrentWeek.ResolveWeek | src/config/nflCurrentWeek.js:92-124 | inside a window, the week is the number of whole days since it opened, over seven, plus one, capped at the window's maximum |
| CurrentWeek.IsNFLSeason | src/config/nflCurrentWeek.js:161-164 | a date is in season exactly when it falls in one of the three windows |
| CurrentWeek.Step | src/config/nflCurrentWeek.js:182-216 | the next week moves up a week inside a type, or to week 1 of the next type, or from the playoffs to the next year's preseason |
| CurrentWeek.NextNFLWeek | src/config/nflCurrentWeek.js:171-218 | off-season returns the resolved record unchanged (week 1 of the season year's regular season, flagged off-season); in season, the step after the current week, which stays in season and moves forward on the timeline |
| CurrentWeek.UpcomingSeasonYear | src/config/nflCurrentWeek.js:126-127 | the upcoming season's year is the one whose September 1 is the first at or after the date |
| CurrentWeek.ResolveIntended | src/config/nflCurrentWeek.js:125-136 | off-season names week 1 of a regular season that has not yet opened; in season it agrees with the resolver |
| CurrentWeek.SpringOffSeasonNamesPastSeason | src/config/nflCurrentWeek.js:125-136 | from February to July the off-season record as written names a regular season that already opened, one year behind the upcoming one |
| CurrentWeek.MayShowsLastSeason | src/config/nflCurrentWeek.js:125-136 | May 1 2025 resolves to week 1 of the 2024 regular season; the upcoming one is 2025 |
| CurrentWeek.StepAdvances | src/config/nflCurrentWeek.js:182-216 | an in-season step stays in season and moves strictly forward on the season timeline |
| CurrentWeek.EighteenSteps | src/config/nflCurrentWeek.js:182-216 | eighteen steps from regular-season week 1 reach playoff week 1 of the same season |
| CurrentWeek.DefaultNFLSelection | src/config/nflCurrentWeek.js:144-154 | the starting selection carries the resolved year, season type, week and display text, is marked current exactly in season, and falls back to regular-season week 1 off-season |
| CurrentWeek.ResolveExamples | src/config/nflCurrentWeek.js:49-138 | concrete dates: a Sunday in September 2024 is regular-season week 2; May is off-season |
| SeasonTypes.GetSeasonType | src/config/nflSeasonTypes.js:44-46 | exactly the ids 1..3 have a record, with that id and at least one week |
| SeasonTypes.DisplayName | src/config/nflSeasonTypes.js:53-56 | a known type shows its name, an unknown one "Unknown" |
| SeasonTypes.ShortName | src/config/nflSeasonTypes.js:63-66 | a known type shows its short name, an unknown one "UNK" |
| SeasonTypes.Color | src/config/nflSeasonTypes.js:73-76 | a known type shows its colour, an unknown one grey |
| SeasonTypes.MaxWeeks | src/config/nflSeasonTypes.js:83-86 | 4 weeks for preseason and playoffs, 18 for everything else |
| SeasonTypes.ValidSeasonTypeIff | src/config/nflSeasonTypes.js:115-117 | a season type is valid exactly for ids 1..3 |
| SeasonTypes.IsValidWeekForSeasonType | src/config/nflSeasonTypes.js:125-131 | a week is valid exactly for a known type and 1..that type's maximum |
| SeasonTypes.WeekValidityExamples | src/config/nflSeasonTypes.js:125-131 | week 18 of the regular season is valid; week 19, playoff week 5, type 4 and a missing week are not |
| SeasonTypes.SeasonDisplayText | src/config/nflSeasonTypes.js:140-150 | "<year> Season" for an unknown type, the type's name added for a known one, and "Week n" added for a truthy week |
| SeasonTypes.DisplayTextYear | src/config/nflSeasonTypes.js:140-150 | the display text starts with the year, which reads back unchanged |
| SeasonTypes.AllSeasonTypes | src/config/nflSeasonTypes.js:92 | the three records in id order, each the table's record for its id |
| SeasonTypes.SeasonTypeOptions | src/config/nflSeasonTypes.js:100-108 | one option per season type, whose value is a valid type id |
| SeasonTypes.DisplayNamesDistinct | src/config/nflSeasonTypes.js:6-37 | the three display names differ from each other and from "Unknown" |
| WeeksInRange.ToEpoch | src/hooks/odds/useGetNFLWeeksInRange.js:14-31 | a missing date or a 0 is no epoch; a number is kept; a valid date is its whole seconds |
| WeeksInRange.ShouldFetchIff | src/hooks/odds/useGetNFLWeeksInRange.js:34-36 | a fetch needs both ends, neither 0, and the start strictly before the end |
| WeeksInRange.ShouldFetch | src/hooks/odds/useGetNFLWeeksInRange.js:34-36 | a fetch needs both epochs present and non-zero, the start before the end |
| WeeksInRange.Enabled | src/hooks/odds/useGetNFLWeeksInRange.js:70 | the query runs exactly with a fetchable range and a non-empty token, and then its query string is non-empty |
| WeeksInRange.QueryParams | src/hooks/odds/useGetNFLWeeksInRange.js:39-45 | the query is empty unless a fetch may run, else it starts "start_date=" |
| WeeksInRange.QueryParamsRoundTrip | src/hooks/odds/useGetNFLWeeksInRange.js:39-45 | the query string reads back to the two epochs it was built from |
| WeeksInRange.AvailableSeasons | src/hooks/odds/useGetNFLWeeksInRange.js:86-96 | one season per summary entry, with its year, type, weeks and display text; none without a summary |
| WeeksInRange.AvailableYears | src/hooks/odds/useGetNFLWeeksInRange.js:99-104 | the distinct years of the seasons, strictly newest first, and no others |
| WeeksInRange.OfYearSingle | src/hooks/odds/useGetNFLWeeksInRange.js:111-112 | one season is kept exactly when it is of the year |
| WeeksInRange.OfYearAppend | src/hooks/odds/useGetNFLWeeksInRange.js:111-112 | selecting by year commutes with concatenation, so input order and repeated seasons are kept |
| WeeksInRange.SeasonTypesForYear | src/hooks/odds/useGetNFLWeeksInRange.js:107-120 | for a truthy year, the i-th entry describes the i-th season of that year in input order, repeats included, and every such season appears; none for a falsy year |
| WeeksInRange.WeeksForYearAndSeason | src/hooks/odds/useGetNFLWeeksInRange.js:123-133 | the weeks of the first season matching the year and type; none for a falsy year or type or without a match |
| WeeksInRange.IsValidCombination | src/hooks/odds/useGetNFLWeeksInRange.js:136-141 | the scan accepts exactly the weeks the year and type list |
| WeeksInRange.Best | src/hooks/odds/useGetNFLWeeksInRange.js:144-166 | the season the sort puts first: no season precedes it and it precedes every earlier one |
| WeeksInRange.DefaultSelection | src/hooks/odds/useGetNFLWeeksInRange.js:144-166 | no default without seasons; otherwise the year and type of the season the sort puts first (latest year, regular season preferred, then the smallest type), with that season's first week when truthy, else 1 |
| WeeksInRange.DefaultSelectionExample | src/hooks/odds/useGetNFLWeeksInRange.js:144-166 | with 2024 preseason and regular season and 2023 playoffs, the default is 2024 regular season week 1 |
| WeekSelector.SeasonTypeChange | src/components/room/WeekYearSelector.js:21-31 | a type change keeps the week when the validator accepts it for the current year, otherwise week 1 |
| WeekSelector.YearChange | src/components/room/WeekYearSelector.js:34-44 | a year change keeps the week when the validator accepts it for the current type, otherwise week 1 |
| WeekSelector.WeekChange | src/components/room/WeekYearSelector.js:87 | the week select sets the week without validation |
| WeekSelector.ChangesStayListed | src/components/room/WeekYearSelector.js:21-44 | with the available-weeks validator, a kept week is one the new year and type list |
| WeekSelector.RejectAllResets | src/components/room/WeekYearSelector.js:21-44 | a validator that accepts nothing forces week 1 on every change |
| WeekHeader.PointsEarned | src/components/room/WeekHeader.js:11 | no bets earn 0; one bet earns its `total_points_earned`, missing as 0; non-negative bets earn a non-negative sum |
| WeekHeader.PointsEarnedAppend | src/components/room/WeekHeader.js:11 | the week's points split over any division of its bets |
| WeekHeader.Label | src/components/room/WeekHeader.js:12 | the label starts with the week and the points read back from its tail |
| WeekHeader.Render | src/components/room/WeekHeader.js:5-18 | the icon points down exactly when expanded, and the label shows the bets' points (0 when the prop is missing) |
| ScoreDisplay.TotalScore | src/components/room/ScoreDisplay.js:31 | the total counts a missing score as 0 |
| ScoreDisplay.StatusText | src/components/room/ScoreDisplay.js:33-37 | "LIVE" outranks "FINAL", which outranks the status detail |
| ScoreDisplay.NumText | src/components/room/ScoreDisplay.js:58 | a line prints with "-" exactly when it is negative |
| ScoreDisplay.OverUnderWins | src/components/room/ScoreDisplay.js:52-56 | an over wins above the line, any other choice below it, and a total on the line loses |
| ScoreDisplay.OverUnderExclusive | src/components/room/ScoreDisplay.js:52-56 | over and under never both win, and off the line one of them does |
| ScoreDisplay.PickMargin | src/components/room/ScoreDisplay.js:66-74 | the picked side's score minus the opponent's, and none when a score is missing |
| ScoreDisplay.FavoriteLosingOutrightWinsAsWritten | src/components/room/ScoreDisplay.js:75 | as written, a -3 favourite that loses by 2 grades as a win |
| ScoreDisplay.UnderdogCoveringLosesAsWritten | src/components/room/ScoreDisplay.js:75 | as written, a +7 underdog that loses by 3 grades as a loss |
| ScoreDisplay.SpreadCovers | src/components/room/ScoreDisplay.js:66-76 | a pick covers exactly when its margin plus its line is positive |
| ScoreDisplay.SpreadSidesComplement | src/components/room/ScoreDisplay.js:66-76 | the two sides of a game never both cover, and off the number one of them does |
| ScoreDisplay.SpreadCoversMonotone | src/components/room/ScoreDisplay.js:66-76 | a larger margin never turns a cover into a loss |
| ScoreDisplay.SpreadWinsAsWritten | src/components/room/ScoreDisplay.js:74-75 | the as-written comparison of margin and spread is the covering rule with the line's sign turned around, so a favourite losing outright can grade as a win |
| ScoreDisplay.BetResultContext | src/components/room/ScoreDisplay.js:46-83 | a result exists exactly when asked, with a game bet on a finished game and, for over/under, a truthy line and choice or, for spread, a truthy spread and team; over/under is graded by the over/under rule, spread by margin > spread with a missing score losing |
| ScoreDisplay.BetResultContextIntended | src/components/room/ScoreDisplay.js:46-83 | the same context with spread bets graded by the covering rule margin + line > 0 |
| ScoreDisplay.GradingsRelated | src/components/room/ScoreDisplay.js:66-76 | the shipped and intended gradings agree on whether a result exists and on every over/under bet; a spread verdict as shipped is the intended verdict for the opposite line |
| ScoreDisplay.LosingFavoriteShownAsWin | src/components/room/ScoreDisplay.js:74-77 | a -3 favourite that lost 17-19 is shown as WIN by the component and a LOSS by the covering rule |
| ScoreDisplay.ResultTextEndsWithOutcome | src/components/room/ScoreDisplay.js:57-79 | the result text ends in the verdict it reports |
| ScoreDisplay.ZeroLineHasNoResult | src/components/room/ScoreDisplay.js:52-65 | a zero spread or line is falsy, so such a bet gets no result |
| ScoreDisplay.View | src/components/room/ScoreDisplay.js:15-29 | nothing renders without a status and both teams, or before kick-off; a live game shows "LIVE"; an unfinished game has no result |
| BetsDisplay.UserBets | src/components/room/RoomBetsDisplay.js:96-128 | a user's bets are exactly the bets with that user's id |
| BetsDisplay.WonCount | src/components/room/RoomBetsDisplay.js:123-125 | the wins never exceed the bets counted |
| BetsDisplay.PositiveEarned | src/components/room/RoomBetsDisplay.js:118-120 | a bet adds its earned points only when they are positive |
| BetsDisplay.UserName | src/components/room/RoomBetsDisplay.js:99-100 | the profile name, else "User " and the id's last four characters, else "User ****" |
| BetsDisplay.UserColor | src/components/room/RoomBetsDisplay.js:101 | the profile colour, else a default |
| BetsDisplay.StatsAreUserTotals | src/components/room/RoomBetsDisplay.js:96-136 | a user's row counts that user's bets and wins, sums their positive points (never negative), and lists exactly their bets, newest first |
| BetsDisplay.UserStatsList | src/components/room/RoomBetsDisplay.js:91-142 | no rows without bets or users; otherwise rows ordered by points, most first |
| BetsDisplay.RowsAreStats | src/components/room/RoomBetsDisplay.js:91-142 | every row is its own user's statistics |
| BetsDisplay.RowsAreUsers | src/components/room/RoomBetsDisplay.js:91-142 | every user with a bet has exactly one row, and no other user has one |
| BetsDisplay.TotalBetsAddUp | src/components/room/RoomBetsDisplay.js:115 | the rows' bet counts add up to the number of bets |
| BetsDisplay.TotalPointsWagered | src/components/room/RoomBetsDisplay.js:245-247 | no bets wager 0; one bet wagers its `points_wagered`, missing as 0; non-negative wagers give a non-negative total (computed, never shown) |
| BetsDisplay.TotalPointsWageredAppend | src/components/room/RoomBetsDisplay.js:245-247 | the total splits over any division of the bets |
| BetsDisplay.AvatarFor | src/components/room/RoomBetsDisplay.js:55-75 | a known colour name, in any case, picks its style; anything else is black |
| BetsDisplay.AvatarCaseInsensitive | src/components/room/RoomBetsDisplay.js:55-75 | a colour and its lower case get the same style |
| BetsDisplay.StatusOf | src/components/room/RoomBetsDisplay.js:273-328 | another user's bet without game details is hidden; a bet without a result is active; "win", "loss" and "push" give WIN, LOSS and PUSH; any other truthy result is pending, and only such a result is |
| BetsDisplay.ShownWinsAreWonCount | src/components/room/RoomBetsDisplay.js:273-328 | the WIN tags on a user's cards add up to the wins counted in that user's row, whoever views them |
| BetsDisplay.CardSpread | src/components/room/RoomBetsDisplay.js:268 | the unused `spreadValue` falls through to the snapshot on a missing or zero stored spread |
| BetsDisplay.StoredZeroSpread | src/components/room/RoomBetsDisplay.js:268 | on a stored 0 the unused `spreadValue` and the raw spread behind the shown `computeDisplayedSpread` differ |
| BetsDisplay.TeamName | src/components/room/RoomBetsDisplay.js:258-265 | the snapshot's team name, else "Home Team" or "Away Team" |
| BetsDisplay.ToggleExpansion | src/components/room/RoomBetsDisplay.js:238-243 | only that user's flag flips, an absent flag counting as collapsed |
| BetsDisplay.ToggleTwice | src/components/room/RoomBetsDisplay.js:238-243 | toggling twice restores the user's flag |
| BetsForRoom.ApiData | src/hooks/bet/useGetBetsForRoom.js:40 | the doubly wrapped payload wins, then the singly wrapped one, then an empty payload |
| BetsForRoom.IsEnabled | src/hooks/bet/useGetBetsForRoom.js:13-20 | the query runs only when enabled, with a room id that is neither missing nor "", and a non-empty token |
| BetsForRoom.Values | src/hooks/bet/useGetBetsForRoom.js:41-51 | the bets default to [], the count is the server's count or 0, `hasBets` means a non-empty bets array, and the room id falls back to the argument |
| BetsForRoom.CountIsNotLength | src/hooks/bet/useGetBetsForRoom.js:43-44 | a payload can report a count of 5 with no bets |
| BetsForRoom.BetsByUser | src/hooks/bet/useGetBetsForRoom.js:62-64 | exactly the bets whose user id strictly equals the given one |
| BetsForRoom.CurrentUserBets | src/hooks/bet/useGetBetsForRoom.js:66-69 | nothing for a falsy id, else that user's bets |
| BetsForRoom.OtherUsersBets | src/hooks/bet/useGetBetsForRoom.js:71-74 | nothing for a falsy id, else every bet of anyone else |
| BetsForRoom.CurrentAndOthersPartition | src/hooks/bet/useGetBetsForRoom.js:66-74 | for a truthy id the user's bets and the others' bets split the room's bets exactly |
| BetsForRoom.BetsByPoints | src/hooks/bet/useGetBetsForRoom.js:76-78 | exactly the bets with those points wagered |
| BetsForRoom.PointsGroupsDisjoint | src/hooks/bet/useGetBetsForRoom.js:76-78 | bets on different point values never overlap |
| Leaderboard.Places | src/components/room/RoomLeaderboard.js:13-24 | the first user is placed 1; a user with new points takes their position; a user on equal points is tied on the previous place |
| Leaderboard.PlacesBounded | src/components/room/RoomLeaderboard.js:13-24 | places start at 1, never exceed the position, and never go down the table |
| Leaderboard.PlaceIsCompetitionRank | src/components/room/RoomLeaderboard.js:10-24 | on users sorted by points, a place is one more than the number of users with more points |
| Leaderboard.PlacesFollowPoints | src/components/room/RoomLeaderboard.js:10-24 | equal points share a place, and more points always mean a better place |
| Leaderboard.PlaceText | src/components/room/RoomLeaderboard.js:50-52 | a tied place reads "Tied for N"; any other reads back as its number |
| Leaderboard.Table | src/components/room/RoomLeaderboard.js:10-24 | the table is ordered by points, most first, and starts at place 1 |
| Leaderboard.TableIsPermutation | src/components/room/RoomLeaderboard.js:10 | every user appears in the table once with their points, and nobody else does |
| Leaderboard.TieExample | src/components/room/RoomLeaderboard.js:13-24 | users on 10, 10 and 7 points are placed 1, tied 1 and 3 |
| RoomChart.BetWeeks | src/components/room/RoomChart.js:10-14 | the weeks of the non-null bets |
| RoomChart.BetWeeksIff | src/components/room/RoomChart.js:10-14 | a week is listed exactly when some bet has it |
| RoomChart.Weeks | src/components/room/RoomChart.js:10-14 | each week with a bet once, strictly ascending |
| RoomChart.BetPoints | src/components/room/RoomChart.js:35-37 | total points earned, else points earned, else points won, else 0; only null or undefined falls through |
| RoomChart.Running | src/components/room/RoomChart.js:42-46 | one running value per week |
| RoomChart.WeekMapAt | src/components/room/RoomChart.js:42-46 | on distinct weeks, each week maps to its own running value |
| RoomChart.Normalize | src/components/room/RoomChart.js:17-24 | an array of members is kept; an object becomes records keyed by its ids, with the first truthy name |
| RoomChart.SeriesName | src/components/room/RoomChart.js:48-49 | the first truthy name field, else "User " and the id |
| RoomChart.Render | src/components/room/RoomChart.js:7-56 | nothing for null bets, null members or an empty members array; otherwise the weeks and one series per member, in order |
| RoomChart.RenderGiven | src/components/room/RoomChart.js:7-56 | with given bets and members the chart is built from them directly |
| RoomChart.RunningIsUpTo | src/components/room/RoomChart.js:42-46 | the running value at a week is the user's points over all weeks up to it |
| RoomChart.SeriesAreRunningTotals | src/components/room/RoomChart.js:26-56 | each member's series gives, for every week with bets, the member's points up to that week |
| RoomChart.SeriesNonDecreasing | src/components/room/RoomChart.js:26-56 | with no negative points a series never goes down |
| RoomChart.EmptyMembersArrayVersusObject | src/components/room/RoomChart.js:8 | an empty members array hides the chart; an empty members object shows it with no series |
| CreateBet.HttpErrorText | src/hooks/bet/useCreateBet.js:40-63 | the error text by status; for 400 by the server's error code, where an invalid bet type appends the server's message (the text "undefined" when absent), with the message or a generic fallback otherwise |
| CreateBet.ConflictNamesPoints | src/hooks/bet/useCreateBet.js:40-44 | a conflict names the points when the server sends a non-zero number, else says "duplicate" |
| CreateBet.Create | src/hooks/bet/useCreateBet.js:13-75 | no request without a token; only a response resolves the call, with its data and a success toast; every failure rejects with the toast's message |
| CreateBet.EveryErrorRethrown | src/hooks/bet/useCreateBet.js:65-74 | an HTTP error of any status, or no response, rejects the call |
| MembershipManagement.WithStatus | src/components/room/MembershipManagement.js:60-68 | each list holds exactly the members whose status, lower-cased, is that list's status, in input order |
| Collections.FilterAppend | src/components/room/MembershipManagement.js:60-68 | filtering splits over any division of the list, so the kept members stay in input order |
| Collections.FilterOne | src/components/room/MembershipManagement.js:60-68 | one element is kept exactly when it passes the test |
| MembershipManagement.ListsDisjoint | src/components/room/MembershipManagement.js:60-68 | the three lists never share a member, and a member with another status is in none |
| MembershipManagement.StatusTag | src/components/room/MembershipManagement.js:87-99 | the known statuses get their colour and label in any case; anything else is shown as given |
| MembershipManagement.StatusTagIgnoresCase | src/components/room/MembershipManagement.js:87-99 | a known status gets the same tag however it is spelled |
| MembershipManagement.MembershipTypeTag | src/components/room/MembershipManagement.js:101-118 | admin, member, request and invitation get their colour and icon in any case; anything else gets no icon |
| MembershipManagement.Change | src/components/room/MembershipManagement.js:132-202 | deny and remove ask for "DENIED" without a type; every other action asks for "APPROVED" with "MEMBER" or "ADMIN" |
| MembershipManagement.ActionsFor | src/components/room/MembershipManagement.js:120-205 | nothing for the current user; a pending member can be approved as member or admin or denied; a denied member can be readmitted; an approved member's menu ends with remove; any other status gets nothing |
| MembershipManagement.ApprovedActions | src/components/room/MembershipManagement.js:156-182 | an approved member or request can be promoted, an admin demoted, and any other type only removed |
| MembershipManagement.Request | src/components/room/MembershipManagement.js:70-85 | the change names the room and the member's user id as given (missing included); it edits the request exactly for deny and remove |
| MembershipManagement.RemovalsEditRequest | src/components/room/MembershipManagement.js:70-85 | deny and remove send an edit of the request with approve false |
| MembershipManagement.AdmissionsChangeStatus | src/components/room/MembershipManagement.js:70-85 | every other action changes the status to "approved" with a lower-cased type |
| ChangeMemberStatus.Route | src/hooks/membership/useChangeMemberStatus.js:14-57 | an approval or denial without a type edits the request (approve exactly for approval); anything else changes the status, lower-cased, with the type lower-cased when given |
| ChangeMemberStatus.RouteIgnoresCase | src/hooks/membership/useChangeMemberStatus.js:14-57 | the routing ignores the case of the status and the type |
| ChangeMemberStatus.SuccessText | src/hooks/membership/useChangeMemberStatus.js:69-70 | the server's action followed by "successfully", else a generic text |
| ChangeMemberStatus.ErrorText | src/hooks/membership/useChangeMemberStatus.js:77-79 | the server's detail, else a generic message |
| MembershipRequests.Requests | src/hooks/membership/useGetUserMembershipRequests.js:33 | the requests, or none when missing |
| MembershipRequests.WithStatus | src/hooks/membership/useGetUserMembershipRequests.js:36-40 | exactly the requests with that status, compared case-sensitively |
| MembershipRequests.IsEnabled | src/hooks/membership/useGetUserMembershipRequests.js:11-15 | the query runs only when enabled with a non-empty token string |
| MembershipRequests.Group | src/hooks/membership/useGetUserMembershipRequests.js:36-40 | each group holds exactly the requests whose status is its name; other statuses land nowhere |
| MembershipRequests.GroupsDisjoint | src/hooks/membership/useGetUserMembershipRequests.js:36-40 | a request lands in at most one group, and in none with another status |
| MembershipRequests.StatusMap | src/hooks/membership/useGetUserMembershipRequests.js:43-54 | the lookup has only non-empty room ids |
| MembershipRequests.StatusMapIsLast | src/hooks/membership/useGetUserMembershipRequests.js:43-54 | a room is in the lookup exactly when some request names it, holding the last such request |
| MembershipRequests.GetMembershipStatus | src/hooks/membership/useGetUserMembershipRequests.js:83-85 | a status only for a looked-up room with a non-empty status |
| MembershipRequests.HasPendingRequest | src/hooks/membership/useGetUserMembershipRequests.js:86-88 | a pending request exactly when the room's status is "pending" |
| MembershipRequests.IsMember | src/hooks/membership/useGetUserMembershipRequests.js:89-91 | a member exactly when the room's status is "approved" |
| MembershipRequests.CanRequestMembership | src/hooks/membership/useGetUserMembershipRequests.js:92-94 | a new request only when the room has no status, no membership and no pending request; a denied request also blocks it |
| MembershipRequests.RoomQuestions | src/hooks/membership/useGetUserMembershipRequests.js:83-94 | pending, member and can-request follow the room's last request; can-request means there is none |
| MembershipRequests.LaterRequestWins | src/hooks/membership/useGetUserMembershipRequests.js:43-54 | an earlier approval is forgotten once a later request for the room is pending |
| MembershipStatus.FindIndex | src/hooks/membership/useGetUserMembershipStatus.js:32-35 | the first request whose room id strictly equals the room's, or none |
| MembershipStatus.IsEnabled | src/hooks/membership/useGetUserMembershipStatus.js:11-19 | the query runs only when enabled, with a non-empty token string and a truthy room id |
| MembershipStatus.FindRoom | src/hooks/membership/useGetUserMembershipStatus.js:32-35 | the first request for the room, none exactly when no request names it |
| MembershipStatus.QueryResult | src/hooks/membership/useGetUserMembershipStatus.js:37-45 | the flags follow the found request's status, `isMember` equals `isApproved`, and without a request the status is "none" |
| MembershipStatus.FlagsExclusive | src/hooks/membership/useGetUserMembershipStatus.js:37-45 | at most one of approved, pending and denied holds |
| MembershipStatus.HookValues | src/hooks/membership/useGetUserMembershipStatus.js:52-59 | before there is data everything is false and the status is "none"; afterwards the query's values |
| MembershipStatus.HookMemberIsApproved | src/hooks/membership/useGetUserMembershipStatus.js:52-59 | whatever the data, `isMember` and `isApproved` agree |
| Notifications.Reduce | src/provider/NotificationsProvider.js:20-46 | a fetch keeps the list and resets the error; success replaces the list; an error keeps the list; clear restores the initial state; unknown actions change nothing |
| Notifications.ShouldFetch | src/provider/NotificationsProvider.js:52-53 | the provider fetches only with a token that is a non-empty string |
| Notifications.Effect | src/provider/NotificationsProvider.js:63-89 | without a token it clears unless already initial; with one it never clears, starts a fetch exactly when the query starts, and takes over only a changed list or a new error |
| Notifications.LogoutClears | src/provider/NotificationsProvider.js:52-89 | without a token one run reaches the initial state and the next does nothing |
| Notifications.SyncSettles | src/provider/NotificationsProvider.js:63-89 | once the fetched list has been taken over, the effect is quiet |
| Notifications.FetchLeavesInitial | src/provider/NotificationsProvider.js:14-46 | a fetch resets the error to null, so the state is no longer initial |
| NotificationsList.Flat | src/components/NotificationsList.js:68-71 | flattening leaves only single notifications and leaves a flat list unchanged |
| NotificationsList.FlatNotifications | src/components/NotificationsList.js:68-71 | only a list whose first element is a group is flattened |
| NotificationsList.FlatAppend | src/components/NotificationsList.js:68-71 | flattening splits over any division of the list, so the order of the items is kept |
| NotificationsList.FlatOne | src/components/NotificationsList.js:68-71 | a single notification is kept; a group becomes its notifications in order |
| NotificationsList.FlatKeepsCount | src/components/NotificationsList.js:68-71 | the flattened list holds as many notifications as the groups and singles together |
| NotificationsList.EmptyMessageIff | src/components/NotificationsList.js:94-99 | "No notifications" exactly when there is no list, or the list is empty before or after flattening |
| NotificationsList.KeyPart | src/components/NotificationsList.js:75-76 | a missing key or a key without the marker gives "", and the part never contains the marker |
| NotificationsList.HandleAcknowledge | src/components/NotificationsList.js:73-92 | invalid exactly when either id part is empty; otherwise the two parts are sent |
| NotificationsList.AcknowledgeRoundTrip | src/components/NotificationsList.js:73-92 | keys written as "USER#id" and "NOTIFICATION#id" give back the ids they were built from |
| NotificationsList.MissingMarkerIsInvalid | src/components/NotificationsList.js:77-80 | a key without its marker can never be acknowledged |
| AllRooms.MembershipStatus | src/pages/rooms/AllRooms.js:69-72 | the room's own status, or "none" when it is missing or empty |
| AllRooms.Searched | src/pages/rooms/AllRooms.js:95-102 | blank search text keeps every room; otherwise exactly the rooms matching by name, description or id |
| AllRooms.SortedAndFiltered | src/pages/rooms/AllRooms.js:89-111 | no rooms without a list; otherwise the searched rooms, each as often, sorted by lower-cased name |
| AllRooms.BlankSearchKeepsAll | src/pages/rooms/AllRooms.js:95-102 | blank search text keeps every room, each as often as listed |
| AllRooms.NameMatchIgnoresSearchCase | src/pages/rooms/AllRooms.js:95-102 | field matching ignores the case of the search text |
| AllRooms.SearchIdempotent | src/pages/rooms/AllRooms.js:95-102 | searching again with the same text changes nothing |
| CreateRoom.ValidateDateRange | src/pages/rooms/CreateRoom.js:77-85 | rejects exactly when both dates are set and the start is after the end |
| CreateRoom.SameDayPasses | src/pages/rooms/CreateRoom.js:77-85 | a start equal to the end passes |
| CreateRoom.NameErrors | src/pages/rooms/CreateRoom.js:146-156 | no error exactly for names of 3 to 50 characters; a missing or empty name is "required" |
| CreateRoom.Errors | src/pages/rooms/CreateRoom.js:146-225 | the form is valid exactly with a good name, at least one league, and both dates in order |
| CreateRoom.UnixSeconds | src/pages/rooms/CreateRoom.js:59-60 | whole seconds, rounded down |
| CreateRoom.UnixSecondsMonotone | src/pages/rooms/CreateRoom.js:59-60 | rounding to seconds never reverses two instants |
| CreateRoom.ToRoomData | src/pages/rooms/CreateRoom.js:54-61 | an empty description becomes null, the room is public only when chosen, and dates become their seconds |
| CreateRoom.Submit | src/pages/rooms/CreateRoom.js:54-225 | the form submits exactly without errors, with the payload built from the values |
| CreateRoom.SubmittedRoomIsWellFormed | src/pages/rooms/CreateRoom.js:54-225 | a submitted room has a valid name, a league, and both dates with the start not after the end |
| PutProfile.CopyDefined | src/hooks/user/usePutProfile.js:18-24 | exactly the listed keys whose values are defined are copied, unchanged |
| PutProfile.Mutation | src/hooks/user/usePutProfile.js:13-30 | no request without a token; otherwise a PUT to the profile path with only the defined allowed fields |
| PutProfile.NullIsSent | src/hooks/user/usePutProfile.js:18-24 | a null name is sent as null; only undefined is left out |
| PutProfile.DistanceUnitDropped | src/pages/user/UserProfile.js:198 | the distance-unit update sends an empty body |
| PutProfile.ExtraFieldsIgnored | src/hooks/user/usePutProfile.js:18-24 | unknown keys do not change what is sent |
| Stage.GetStage | src/utility/getStage.js:1-13 | the trimmed host is tested for the testing host (testing), then localhost (dev), then the production domain (prod), else unknown |
| Stage.TestingHostIncludesProd | src/utility/getStage.js:1-13 | a testing host also contains the production domain, so the order of the tests matters |
| Stage.StageOfTrimmed | src/utility/getStage.js:1-13 | surrounding whitespace never changes the stage |
| RoomAdmins.Truncate | src/pages/rooms/Room/RoomAdmins.js:19-21 | a text of ten characters or fewer is kept; a longer one shows its first ten and "..." |
| RoomAdmins.TruncateKeepsPrefix | src/pages/rooms/Room/RoomAdmins.js:19-21 | two texts with the same tag agree on their first ten characters |
| RoomAdmins.IdList | src/pages/rooms/Room/RoomAdmins.js:24-29 | the admin ids, else the admins, else none; a present empty array still wins |
| RoomAdmins.ProfileTags | src/pages/rooms/Room/RoomAdmins.js:16-23 | one tag per profile, with its user id and shortened name |
| RoomAdmins.IdTagsAt | src/pages/rooms/Room/RoomAdmins.js:24-29 | the tag at a position numbers its id from one |
| RoomAdmins.View | src/pages/rooms/Room/RoomAdmins.js:5-29 | nothing renders exactly without ids and without a non-empty profile list; profiles, when present, give one truncated-name tag each in order; otherwise the i-th id gives the tag numbered i + 1 |
| RoomAdmins.EmptyIdsHideAdmins | src/pages/rooms/Room/RoomAdmins.js:5-10 | an empty id array hides the admins fallback |
| RoomAdmins.ProfilesPreferred | src/pages/rooms/Room/RoomAdmins.js:16-23 | with profiles present the ids never show |
| RoomMembership.AnyWithId | src/pages/rooms/roomMembership.js:10-13 | some member carries the id |
| RoomMembership.IsMember | src/pages/rooms/roomMembership.js:10-13 | false without a user id or member list; otherwise whether some member has that id |
| RoomMembership.UseRoomMembership | src/pages/rooms/roomMembership.js:7-22 | the hook passes the members and fetching flag through and adds the membership flag |
| RoomMembership.StatusIgnored | src/pages/rooms/roomMembership.js:10-13 | a pending or denied entry counts as much as an approved one |
| RoomMembership.MoreMembersKeepMembership | src/pages/rooms/roomMembership.js:10-13 | adding members never removes a membership |

## Left out

- Rendering. JSX, antd components, styles, icons and layout are left out. Only the values the
  components compute are modelled.
- Data fetching. react-query caching, retries and invalidation, axios and the HTTP calls are left
  out. Responses are parameters, and requests are values describing the call.
- Side effects. Toasts and `console` logging are left out, except where a toast's text is part of
  a hook's result (`CreateBet`, `ChangeMemberStatus`).
- Time. The clock is a parameter everywhere. Dates are local calendar dates; time zones and
  daylight saving are not modelled.
- Floating point. Spreads, lines and totals are integers in tenths, so `toFixed(1)` and number
  printing are exact. Fractions finer than a tenth are not modelled. A stored non-numeric spread
  is the `NotANumber` case. `GameCard` reads a spread with `Number` and `computeDisplayedSpread`
  with `parseFloat`; they differ on an empty string (0 against `NaN`) and on a trailing suffix
  such as "3.5x" (`NaN` against 3.5). The model reads both as one integer in tenths or `NotANumber`.
- Sorting. `localeCompare` is modelled as code-point order on ASCII-lower-cased names. Unicode
  collation is left out. The in-place mutation of the rooms list by the sort in `AllRooms` is not
  modelled; the result is a new sequence.
- Case mapping and string lengths. `toLowerCase` and `toUpperCase` are modelled on ASCII letters
  only (`Text.LowerChar`, `Text.UpperChar`), so the room search, the status comparisons and the
  upper-cased choices differ from JavaScript on other letters (a search for "é" does not find "É").
  Lengths and slices count characters, where JavaScript counts UTF-16 code units, so the name
  truncation in `RoomAdmins` and `RoomBetsDisplay` differs on names with characters outside the
  Basic Multilingual Plane, such as emoji.
- The card's `spreadValue` and `totalPointsWagered` in `RoomBetsDisplay` are computed and never
  read. They are modelled (`BetsDisplay.CardSpread`, `BetsDisplay.TotalPointsWagered`) only to state
  how they relate to what is shown.
- `null` and `undefined` are not told apart, except for `RoomChart`'s default props and
  `PutProfile`'s fields, where the difference changes the result.
- Object key order is modelled only where it matters (the `RoomChart` member object, given as
  ordered entries). Elsewhere objects are maps.
- `JSON.stringify` comparisons in the notifications effect are modelled as structural equality.
- The season calendar's off-season year: `getCurrentNFLWeek` computes it inline as the current year
  from August and the previous year before, which is `getNFLSeasonYear` again. Its comment calls this
  the upcoming regular season; from February to July it is the season that already opened. The model
  follows the code (`Resolve`) and states the comment's reading separately (see Findings).
- `useGetNFLWeeksInRange.js` imports its season-type helpers from a `configs/` path, while the
  module lives in `config/`. The model assumes the intended module.
- `getSeasonTypeWithMeta` and the other UI metadata helpers in `nflSeasonTypes.js` are left out.
- The `users` value that `useGetBetsForRoom` passes through unchanged is left out.
- `duplicatePointValues`, `weeklyTakenPoints` and the current-week info are inputs to the odds
  section and game card. How they are fetched is not modelled.
- Form validation is modelled as the rules the form declares. The async-validator library's own
  behaviour is not modelled. The 500-character description limit is enforced by the input field,
  so no error can arise from it.
- ScoreDisplay.View: assumes the game status always carries its `status` object, as the source
  reads `status.state` without a guard.
- MembershipManagement.MembershipTypeTag: the admin tag's text is modelled as its label and icon,
  not as rendered markup.
- NotificationsList.HandleAcknowledge: the mutation call and its success and error toasts are
  left out.

## Findings

| source | as written | input that shows it | evidently intended | confidence | as-written member | corrected member |
|---|---|---|---|---|---|---|
| src/components/room/ScoreDisplay.js:75 | a spread pick wins when `margin > spread` | a pick of the favourite at -3 that loses by 2: margin -2 > -3, graded WIN. An underdog at +7 that loses by 3: margin -3 is not > 7, graded LOSS though it covered | the pick covers when margin + spread > 0 (negative lines for the favourite, as the spread display and the stored taken line use) | medium, not executed | ScoreDisplay.BetResultContext, with ScoreDisplay.SpreadWinsAsWritten, ScoreDisplay.FavoriteLosingOutrightWinsAsWritten and ScoreDisplay.LosingFavoriteShownAsWin | ScoreDisplay.BetResultContextIntended, with ScoreDisplay.SpreadCovers, ScoreDisplay.SpreadSidesComplement and ScoreDisplay.GradingsRelated |
| src/config/nflCurrentWeek.js:127 | the off-season year is `month >= 8 ? year : year - 1`, under a comment saying it defaults to the upcoming regular season | May 1 2025: off-season, shown as "2024 Regular Season" week 1, a season that opened in September 2024 | week 1 of the regular season that opens next, 2025 | medium, not executed | CurrentWeek.Resolve, with CurrentWeek.SpringOffSeasonNamesPastSeason and CurrentWeek.MayShowsLastSeason | CurrentWeek.ResolveIntended, with CurrentWeek.UpcomingSeasonYear |
