/**
 * `RoomBetsDisplay`: the per-user statistics table (bets, wins, positive points, each user's bets
 * newest first, users by points), the total points wagered, the avatar colours, and the status a
 * bet card shows.
 */
module BetsDisplay {
  import opened Common
  import opened Text
  import opened Sorting
  import opened Collections
  import SpreadUtils

  datatype Profile = Profile(name: Option<string>, color: Option<string>)

  datatype BetGame = BetGame(result: Option<string>, spreadValue: Option<int>, totalValue: Option<int>)

  datatype RoomBet = RoomBet(
    userId: string,
    gameBet: Option<BetGame>,
    totalPointsEarned: Option<int>,
    eventDatetime: Option<int>,
    pointsWagered: Option<int>)

  datatype UserStats = UserStats(
    userId: string,
    userName: string,
    userColor: string,
    totalBets: nat,
    betsWon: nat,
    pointsTotal: int,
    bets: seq<RoomBet>)

  /** The bets of one user, in input order. */
  function UserBets(bets: seq<RoomBet>, u: string): (r: seq<RoomBet>)
    ensures |r| <= |bets|
    ensures forall b :: b in r <==> b in bets && b.userId == u
  {
    if |bets| == 0 then []
    else
      assert bets == [bets[0]] + bets[1..];
      (if bets[0].userId == u then [bets[0]] else []) + UserBets(bets[1..], u)
  }

  predicate IsWin(b: RoomBet) {
    b.gameBet.Some? && b.gameBet.value.result == Some("win")
  }

  /** How many of the bets record a win. */
  function WonCount(bets: seq<RoomBet>): (r: nat)
    ensures r <= |bets|
    ensures r == 0 <==> forall b :: b in bets ==> !IsWin(b)
  {
    if |bets| == 0 then 0
    else
      assert bets == [bets[0]] + bets[1..];
      (if IsWin(bets[0]) then 1 else 0) + WonCount(bets[1..])
  }

  /** A bet's contribution to `points_total`: its earned points when positive, else nothing. */
  function PositiveEarned(b: RoomBet): (r: int)
    ensures r >= 0
    ensures r > 0 <==> b.totalPointsEarned.Some? && b.totalPointsEarned.value > 0
  {
    if TruthyInt(b.totalPointsEarned) && b.totalPointsEarned.value > 0 then b.totalPointsEarned.value else 0
  }

  lemma {:induction false} PositiveSumNonNegative(bets: seq<RoomBet>)
    ensures SumBy(bets, PositiveEarned) >= 0
    decreases |bets|
  {
    if |bets| > 0 {
      PositiveSumNonNegative(bets[1..]);
    }
  }

  /** The sort key for a user's bets: `event_datetime || 0`. */
  function EventKey(b: RoomBet): int {
    OrZero(b.eventDatetime)
  }

  /** The user's name, else "User " and the last four characters of the id, else "User ****". */
  function UserName(users: map<string, Profile>, u: string): (r: string)
    ensures u in users && TruthyStr(users[u].name) ==> r == users[u].name.value
    ensures !(u in users && TruthyStr(users[u].name)) ==> |r| == 5 + (if |u| == 0 then 4 else if |u| < 4 then |u| else 4) && r[..5] == "User "
  {
    if u in users && TruthyStr(users[u].name) then users[u].name.value
    else if |u| > 0 then "User " + Suffix(u, 4)
    else "User ****"
  }

  function UserColor(users: map<string, Profile>, u: string): (r: string)
    ensures |r| > 0
  {
    if u in users && TruthyStr(users[u].color) then users[u].color.value else "black"
  }

  /** One user's row. */
  function StatsFor(bets: seq<RoomBet>, users: map<string, Profile>, u: string): UserStats {
    var mine := UserBets(bets, u);
    UserStats(u, UserName(users, u), UserColor(users, u), |mine|, WonCount(mine),
              SumBy(mine, PositiveEarned), SortDesc(mine, EventKey))
  }

  /**
   * A user's row counts that user's bets and wins, sums their positive points (never negative),
   * and lists exactly their bets, newest first.
   */
  lemma StatsAreUserTotals(bets: seq<RoomBet>, users: map<string, Profile>, u: string)
    ensures var r := StatsFor(bets, users, u);
            && r.userId == u
            && r.totalBets == |UserBets(bets, u)| && r.betsWon <= r.totalBets
            && r.pointsTotal == SumBy(UserBets(bets, u), PositiveEarned) && r.pointsTotal >= 0
            && SortedDesc(r.bets, EventKey) && multiset(r.bets) == multiset(UserBets(bets, u))
  {
    PositiveSumNonNegative(UserBets(bets, u));
  }

  function UserIds(bets: seq<RoomBet>): (r: seq<string>)
    ensures |r| == |bets|
    ensures forall u :: u in r <==> exists b :: b in bets && b.userId == u
  {
    if |bets| == 0 then []
    else
      assert bets == [bets[0]] + bets[1..];
      [bets[0].userId] + UserIds(bets[1..])
  }

  /** One row per id, in the order of the ids. */
  function RowsFor(bets: seq<RoomBet>, users: map<string, Profile>, ids: seq<string>): (r: seq<UserStats>)
    ensures |r| == |ids|
  {
    if |ids| == 0 then [] else [StatsFor(bets, users, ids[0])] + RowsFor(bets, users, ids[1..])
  }

  lemma {:induction false} RowsForIndex(bets: seq<RoomBet>, users: map<string, Profile>, ids: seq<string>, i: nat)
    requires i < |ids|
    ensures RowsFor(bets, users, ids)[i] == StatsFor(bets, users, ids[i])
    decreases i
  {
    if i > 0 {
      RowsForIndex(bets, users, ids[1..], i - 1);
    }
  }

  function PointsKey(s: UserStats): int {
    s.pointsTotal
  }

  /**
   * `userStats`: [] without a bets array or without users; otherwise one row per distinct user,
   * ordered by points, most first.
   */
  function UserStatsList(bets: Option<seq<RoomBet>>, users: Option<map<string, Profile>>): (r: seq<UserStats>)
    ensures bets.None? || users.None? ==> r == []
    ensures SortedDesc(r, PointsKey)
    ensures bets.Some? && users.Some? ==>
              multiset(r) == multiset(RowsFor(bets.value, users.value, Distinct(UserIds(bets.value))))
  {
    if bets.None? || users.None? then []
    else SortDesc(RowsFor(bets.value, users.value, Distinct(UserIds(bets.value))), PointsKey)
  }

  /** Every row is the statistics of its own user: wins within bets, points non-negative, bets newest first. */
  lemma RowsAreStats(bets: seq<RoomBet>, users: map<string, Profile>)
    ensures forall s :: s in UserStatsList(Some(bets), Some(users)) ==>
              s == StatsFor(bets, users, s.userId) && s.betsWon <= s.totalBets && s.pointsTotal >= 0 &&
              SortedDesc(s.bets, EventKey)
  {
    var ids := Distinct(UserIds(bets));
    var rows := RowsFor(bets, users, ids);
    forall s | s in UserStatsList(Some(bets), Some(users))
      ensures s == StatsFor(bets, users, s.userId) && s.betsWon <= s.totalBets && s.pointsTotal >= 0 &&
              SortedDesc(s.bets, EventKey)
    {
      assert s in multiset(rows);
      var i :| 0 <= i < |rows| && rows[i] == s;
      RowsForIndex(bets, users, ids, i);
      StatsAreUserTotals(bets, users, ids[i]);
    }
  }

  function UserIdOf(s: UserStats): string {
    s.userId
  }

  /** Each user with a bet has exactly one row, and no row belongs to a user without bets. */
  lemma RowsAreUsers(bets: seq<RoomBet>, users: map<string, Profile>)
    ensures var ids := Map(UserStatsList(Some(bets), Some(users)), UserIdOf);
            NoDuplicates(ids) && forall u :: u in ids <==> u in UserIds(bets)
  {
    var distinct := Distinct(UserIds(bets));
    var rows := RowsFor(bets, users, distinct);
    var r := UserStatsList(Some(bets), Some(users));
    assert Map(rows, UserIdOf) == distinct by {
      RowIds(bets, users, distinct);
    }
    MapPermutation(rows, r, UserIdOf);
    PermutationKeepsNoDuplicates(distinct, Map(r, UserIdOf));
    forall u ensures u in Map(r, UserIdOf) <==> u in distinct {
      assert u in multiset(Map(r, UserIdOf)) <==> u in multiset(distinct);
    }
  }

  lemma {:induction false} RowIds(bets: seq<RoomBet>, users: map<string, Profile>, ids: seq<string>)
    ensures Map(RowsFor(bets, users, ids), UserIdOf) == ids
    decreases |ids|
  {
    if |ids| > 0 {
      RowIds(bets, users, ids[1..]);
      MapCons(StatsFor(bets, users, ids[0]), RowsFor(bets, users, ids[1..]), UserIdOf);
    }
  }

  // ----- every bet is counted once -----

  function TotalBetsOf(s: UserStats): int {
    s.totalBets
  }

  /** The bets whose user is one of `ids`. */
  function CountAmong(bets: seq<RoomBet>, ids: seq<string>): nat {
    if |bets| == 0 then 0 else (if bets[0].userId in ids then 1 else 0) + CountAmong(bets[1..], ids)
  }

  /** One more bet in front adds one to the count of its user only. */
  lemma UserBetsCons(b: RoomBet, bets: seq<RoomBet>, u: string)
    ensures |UserBets([b] + bets, u)| == (if b.userId == u then 1 else 0) + |UserBets(bets, u)|
  {
    assert ([b] + bets)[1..] == bets;
  }

  lemma SumRowsCons(bets: seq<RoomBet>, users: map<string, Profile>, ids: seq<string>)
    requires |ids| > 0
    ensures SumBy(RowsFor(bets, users, ids), TotalBetsOf) ==
            |UserBets(bets, ids[0])| + SumBy(RowsFor(bets, users, ids[1..]), TotalBetsOf)
  {
    var rows := RowsFor(bets, users, ids);
    assert rows[1..] == RowsFor(bets, users, ids[1..]);
    assert TotalBetsOf(rows[0]) == |UserBets(bets, ids[0])|;
  }

  lemma {:induction false} RowsConsBet(b: RoomBet, bets: seq<RoomBet>, users: map<string, Profile>, ids: seq<string>)
    ensures SumBy(RowsFor([b] + bets, users, ids), TotalBetsOf) ==
            SumBy(RowsFor(bets, users, ids), TotalBetsOf) + multiset(ids)[b.userId]
    decreases |ids|
  {
    if |ids| > 0 {
      var u, more := ids[0], [b] + bets;
      RowsConsBet(b, bets, users, ids[1..]);
      UserBetsCons(b, bets, u);
      SumRowsCons(more, users, ids);
      SumRowsCons(bets, users, ids);
      MultisetHead(ids, b.userId);
    }
  }

  lemma {:induction false} RowsCountAmong(bets: seq<RoomBet>, users: map<string, Profile>, ids: seq<string>)
    requires NoDuplicates(ids)
    ensures SumBy(RowsFor(bets, users, ids), TotalBetsOf) == CountAmong(bets, ids)
    decreases |bets|
  {
    if |bets| == 0 {
      RowsOfNoBets(users, ids);
    } else {
      assert bets == [bets[0]] + bets[1..];
      RowsConsBet(bets[0], bets[1..], users, ids);
      RowsCountAmong(bets[1..], users, ids);
      NoDuplicatesCount(ids, bets[0].userId);
    }
  }

  lemma {:induction false} RowsOfNoBets(users: map<string, Profile>, ids: seq<string>)
    ensures SumBy(RowsFor([], users, ids), TotalBetsOf) == 0
    decreases |ids|
  {
    if |ids| > 0 {
      RowsOfNoBets(users, ids[1..]);
    }
  }

  lemma {:induction false} CountAmongAll(bets: seq<RoomBet>, ids: seq<string>)
    requires forall b :: b in bets ==> b.userId in ids
    ensures CountAmong(bets, ids) == |bets|
    decreases |bets|
  {
    if |bets| > 0 {
      assert forall b :: b in bets[1..] ==> b in bets;
      CountAmongAll(bets[1..], ids);
    }
  }

  /** The rows' `total_bets` add up to the number of bets: every bet is counted for exactly one user. */
  lemma TotalBetsAddUp(bets: seq<RoomBet>, users: map<string, Profile>)
    ensures SumBy(UserStatsList(Some(bets), Some(users)), TotalBetsOf) == |bets|
  {
    var ids := Distinct(UserIds(bets));
    var rows := RowsFor(bets, users, ids);
    SumByPermutation(UserStatsList(Some(bets), Some(users)), rows, TotalBetsOf);
    RowsCountAmong(bets, users, ids);
    assert forall b :: b in bets ==> b.userId in ids;
    CountAmongAll(bets, ids);
  }

  // ----- other derived values -----

  function WageredOf(b: RoomBet): int {
    OrZero(b.pointsWagered)
  }

  /** `totalPointsWagered`: the sum of `points_wagered`, missing ones as 0. The component computes it but never shows it. */
  function TotalPointsWagered(bets: seq<RoomBet>): (r: int)
    ensures (forall b :: b in bets ==> OrZero(b.pointsWagered) >= 0) ==> r >= 0
    ensures |bets| == 0 ==> r == 0
    ensures |bets| == 1 ==> r == OrZero(bets[0].pointsWagered)
    decreases |bets|
  {
    if |bets| == 0 then 0
    else
      assert forall b :: b in bets[1..] ==> b in bets;
      WageredOf(bets[0]) + TotalPointsWagered(bets[1..])
  }

  /** The total splits over any division of the bets, so it does not depend on how they are grouped. */
  lemma {:induction false} TotalPointsWageredAppend(a: seq<RoomBet>, b: seq<RoomBet>)
    ensures TotalPointsWagered(a + b) == TotalPointsWagered(a) + TotalPointsWagered(b)
    decreases |a|
  {
    if |a| == 0 {
      assert a + b == b;
    } else {
      assert (a + b)[1..] == a[1..] + b;
      TotalPointsWageredAppend(a[1..], b);
    }
  }

  datatype AvatarStyle = AvatarStyle(background: string, foreground: string)

  const AvatarColors: map<string, AvatarStyle> := map[
    "black" := AvatarStyle("#262626", "#ffffff"),
    "white" := AvatarStyle("#ffffff", "#262626"),
    "red" := AvatarStyle("#ff4d4f", "#ffffff"),
    "blue" := AvatarStyle("#1890ff", "#ffffff"),
    "green" := AvatarStyle("#52c41a", "#ffffff"),
    "yellow" := AvatarStyle("#faad14", "#262626"),
    "orange" := AvatarStyle("#fa8c16", "#ffffff"),
    "purple" := AvatarStyle("#722ed1", "#ffffff"),
    "pink" := AvatarStyle("#eb2f96", "#ffffff"),
    "brown" := AvatarStyle("#8b4513", "#ffffff"),
    "gray" := AvatarStyle("#8c8c8c", "#ffffff"),
    "cyan" := AvatarStyle("#13c2c2", "#ffffff")]

  /** `getAvatarStyle`: the colour name, case-insensitively, else black. */
  function AvatarFor(color: string): (r: AvatarStyle)
    ensures Lower(color) in AvatarColors ==> r == AvatarColors[Lower(color)]
    ensures Lower(color) !in AvatarColors ==> r == AvatarColors["black"]
    ensures r in AvatarColors.Values
  {
    if Lower(color) in AvatarColors then AvatarColors[Lower(color)] else AvatarColors["black"]
  }

  /** Spelling does not matter: a colour and its lower case get the same style. */
  lemma AvatarCaseInsensitive(color: string)
    ensures AvatarFor(color) == AvatarFor(Lower(color))
  {
    LowerIdempotent(color);
  }

  datatype BetStatus = Hidden | Active | Win | Loss | Push | Pending

  /**
   * `getBetStatusInfo`: another user's bet without game details is hidden; a bet without a result
   * is active; the result names the status, and an unknown result is pending.
   */
  function StatusOf(bet: RoomBet, isCurrentUser: bool): (r: BetStatus)
    ensures r.Hidden? <==> bet.gameBet.None? && !isCurrentUser
    ensures r.Active? <==> (bet.gameBet.Some? || isCurrentUser) && !(bet.gameBet.Some? && TruthyStr(bet.gameBet.value.result))
    ensures r.Win? ==> IsWin(bet)
    ensures bet.gameBet.Some? && IsWin(bet) ==> r.Win?
    ensures bet.gameBet.Some? && bet.gameBet.value.result == Some("loss") ==> r == Loss
    ensures bet.gameBet.Some? && bet.gameBet.value.result == Some("push") ==> r == Push
    ensures r == Pending <==> bet.gameBet.Some? && TruthyStr(bet.gameBet.value.result) &&
                              bet.gameBet.value.result.value !in {"win", "loss", "push"}
  {
    if bet.gameBet.None? && !isCurrentUser then Hidden
    else if bet.gameBet.None? || !TruthyStr(bet.gameBet.value.result) then Active
    else
      var result := bet.gameBet.value.result.value;
      if result == "win" then Win
      else if result == "loss" then Loss
      else if result == "push" then Push
      else Pending
  }

  /** How many of the bets a viewer sees tagged WIN. */
  function ShownWins(bets: seq<RoomBet>, isCurrentUser: bool): nat {
    if |bets| == 0 then 0 else (if StatusOf(bets[0], isCurrentUser) == Win then 1 else 0) + ShownWins(bets[1..], isCurrentUser)
  }

  /** The WIN tags on a user's cards add up to the wins in that user's row, whoever is looking. */
  lemma {:induction false} ShownWinsAreWonCount(bets: seq<RoomBet>, isCurrentUser: bool)
    ensures ShownWins(bets, isCurrentUser) == WonCount(bets)
    decreases |bets|
  {
    if |bets| > 0 {
      ShownWinsAreWonCount(bets[1..], isCurrentUser);
    }
  }

  /**
   * The card's `spreadValue`: `game_bet.spread_value || odds_snapshot.spread`, so a stored 0 falls
   * through. The component computes it but never reads it; the card shows `computeDisplayedSpread`.
   */
  function CardSpread(gameSpread: Option<int>, snapshotSpread: Option<int>): (r: Option<int>)
    ensures TruthyInt(gameSpread) ==> r == gameSpread
    ensures !TruthyInt(gameSpread) ==> r == snapshotSpread
  {
    if TruthyInt(gameSpread) then gameSpread else snapshotSpread
  }

  /**
   * On a stored 0 the unused `spreadValue` and `computeDisplayedSpread`'s raw spread differ: `||`
   * falls through where `??` keeps the 0. Nothing on screen shows the difference.
   */
  lemma StoredZeroSpread(snapshot: int)
    requires snapshot != 0
    ensures CardSpread(Some(0), Some(snapshot)) == Some(snapshot)
    ensures SpreadUtils.RawSpread(SpreadUtils.Bet(Some(SpreadUtils.GameBet(SpreadUtils.Num(0), None)),
                                                 Some(SpreadUtils.OddsSnapshot(SpreadUtils.Num(snapshot), None))))
            == SpreadUtils.Num(0)
  {
  }

  /** Team names on a card, with "Home Team"/"Away Team" when the snapshot has none. */
  function TeamName(name: Option<string>, fallback: string): (r: string)
    ensures TruthyStr(name) ==> r == name.value
    ensures !TruthyStr(name) ==> r == fallback
  {
    StrOr(name, fallback)
  }

  /** `toggleUserExpansion(userId)`: flips that user's flag (absent counts as collapsed) and no other. */
  function ToggleExpansion(expanded: map<string, bool>, u: string): (r: map<string, bool>)
    ensures u in r && r[u] == !(u in expanded && expanded[u])
    ensures forall k :: k != u ==> (k in r <==> k in expanded) && (k in expanded ==> r[k] == expanded[k])
  {
    expanded[u := !(u in expanded && expanded[u])]
  }

  /** Toggling twice restores the user's flag. */
  lemma ToggleTwice(expanded: map<string, bool>, u: string)
    ensures var twice := ToggleExpansion(ToggleExpansion(expanded, u), u);
            twice[u] == (u in expanded && expanded[u])
  {
  }
}
