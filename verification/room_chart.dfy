/**
 * `RoomChart`: the weeks that have bets, in order, and per member the running total of points
 * earned up to each of those weeks.
 */
module RoomChart {
  import opened Common
  import opened Text
  import opened Sorting
  import opened Collections

  /** A prop as React passes it: left out (the default applies), `null`, or a value. */
  datatype Arg<T> = Undefined | Null | Given(value: T)

  datatype ChartBet = ChartBet(
    userId: Option<string>,
    week: Option<int>,
    totalPointsEarned: Option<int>,
    pointsEarned: Option<int>,
    pointsWon: Option<int>)

  datatype MemberProfile = MemberProfile(
    displayName: Option<string>,
    name: Option<string>,
    username: Option<string>,
    email: Option<string>)

  datatype Member = Member(
    userId: Option<string>,
    displayName: Option<string>,
    name: Option<string>,
    username: Option<string>,
    email: Option<string>)

  /** Members come as an array of member records or as an object keyed by user id (entries in order). */
  datatype Members = MemberList(list: seq<Member>) | MemberObject(entries: seq<(string, Option<MemberProfile>)>)

  datatype Series = Series(userId: Option<string>, name: string, pointsByWeek: map<int, int>)

  datatype Chart = Chart(weeks: seq<int>, series: seq<Series>, width: int)

  // ----- weeks -----

  /** The non-null weeks of the bets, with repeats, in input order. */
  function BetWeeks(bets: seq<Option<ChartBet>>): (r: seq<int>)
    ensures |r| <= |bets|
  {
    if |bets| == 0 then []
    else (if bets[0].Some? && bets[0].value.week.Some? then [bets[0].value.week.value] else []) + BetWeeks(bets[1..])
  }

  /** A week is listed exactly when some bet has it. */
  lemma {:induction false} BetWeeksIff(bets: seq<Option<ChartBet>>, w: int)
    ensures w in BetWeeks(bets) <==> exists i :: 0 <= i < |bets| && bets[i].Some? && bets[i].value.week == Some(w)
    decreases |bets|
  {
    if |bets| > 0 {
      BetWeeksIff(bets[1..], w);
      assert forall i :: 1 <= i < |bets| ==> bets[i] == bets[1..][i - 1];
      if exists i :: 0 <= i < |bets| && bets[i].Some? && bets[i].value.week == Some(w) {
        var i :| 0 <= i < |bets| && bets[i].Some? && bets[i].value.week == Some(w);
        if i > 0 {
          assert bets[1..][i - 1] == bets[i];
        }
      }
    }
  }

  function Neg(w: int): int {
    -w
  }

  /** `Array.from(weekSet).sort((a, b) => a - b)`: each week with a bet once, ascending. */
  function Weeks(bets: seq<Option<ChartBet>>): (r: seq<int>)
    ensures forall w :: w in r <==> w in BetWeeks(bets)
    ensures forall i, j :: 0 <= i < j < |r| ==> r[i] < r[j]
    ensures |r| <= |BetWeeks(bets)|
  {
    var d := Distinct(BetWeeks(bets));
    var r := SortDesc(d, Neg);
    SortedDistinctAscending(d, r);
    r
  }

  lemma SortedDistinctAscending(d: seq<int>, r: seq<int>)
    requires NoDuplicates(d) && multiset(r) == multiset(d) && SortedDesc(r, Neg)
    ensures forall w :: w in r <==> w in d
    ensures forall i, j :: 0 <= i < j < |r| ==> r[i] < r[j]
  {
    PermutationKeepsNoDuplicates(d, r);
    forall w ensures w in r <==> w in d {
      assert w in multiset(r) <==> w in multiset(d);
    }
    forall i, j | 0 <= i < j < |r| ensures r[i] < r[j] {
      assert Neg(r[i]) >= Neg(r[j]);
    }
  }

  // ----- points -----

  /** `total_points_earned ?? points_earned ?? points_won ?? 0`. */
  function BetPoints(b: ChartBet): (r: int)
    ensures b.totalPointsEarned.Some? ==> r == b.totalPointsEarned.value
    ensures b.totalPointsEarned.None? && b.pointsEarned.Some? ==> r == b.pointsEarned.value
    ensures b.totalPointsEarned.None? && b.pointsEarned.None? ==> r == OrZero(b.pointsWon)
  {
    if b.totalPointsEarned.Some? then b.totalPointsEarned.value
    else if b.pointsEarned.Some? then b.pointsEarned.value
    else if b.pointsWon.Some? then b.pointsWon.value
    else 0
  }

  /** The user's points in week `w` (`uid === m.user_id` is strict: two missing ids match). */
  function WeekSum(bets: seq<Option<ChartBet>>, uid: Option<string>, w: int): int {
    if |bets| == 0 then 0
    else
      (if bets[0].Some? && bets[0].value.userId == uid && bets[0].value.week == Some(w) then BetPoints(bets[0].value) else 0)
      + WeekSum(bets[1..], uid, w)
  }

  /** The user's points over all weeks up to and including `w`: the reference for a running total. */
  function UpTo(bets: seq<Option<ChartBet>>, uid: Option<string>, w: int): int {
    if |bets| == 0 then 0
    else
      (if bets[0].Some? && bets[0].value.userId == uid && bets[0].value.week.Some? && bets[0].value.week.value <= w
       then BetPoints(bets[0].value) else 0)
      + UpTo(bets[1..], uid, w)
  }

  /** The running total over the weeks, in the weeks' order. */
  function Running(weeks: seq<int>, bets: seq<Option<ChartBet>>, uid: Option<string>): (r: seq<int>)
    ensures |r| == |weeks|
    ensures |r| > 0 ==> r[0] == WeekSum(bets, uid, weeks[0])
    ensures forall i :: 0 < i < |r| ==> r[i] == r[i - 1] + WeekSum(bets, uid, weeks[i])
    decreases |weeks|
  {
    if |weeks| == 0 then []
    else
      var n := |weeks| - 1;
      var prev := Running(weeks[..n], bets, uid);
      assert forall i :: 0 <= i < n ==> weeks[..n][i] == weeks[i];
      prev + [(if n == 0 then 0 else prev[n - 1]) + WeekSum(bets, uid, weeks[n])]
  }

  /** `pointsByWeek[w] = running` for each week in turn. */
  function WeekMap(weeks: seq<int>, values: seq<int>): (r: map<int, int>)
    requires |values| == |weeks|
    ensures forall w :: w in r <==> w in weeks
    decreases |weeks|
  {
    if |weeks| == 0 then map[]
    else
      var n := |weeks| - 1;
      assert forall w :: w in weeks <==> w in weeks[..n] || w == weeks[n] by {
        assert weeks == weeks[..n] + [weeks[n]];
      }
      WeekMap(weeks[..n], values[..n])[weeks[n] := values[n]]
  }

  /** On weeks without repeats, each week maps to its own value. */
  lemma {:induction false} WeekMapAt(weeks: seq<int>, values: seq<int>, i: nat)
    requires |values| == |weeks| && i < |weeks|
    requires forall a, b :: 0 <= a < b < |weeks| ==> weeks[a] != weeks[b]
    ensures WeekMap(weeks, values)[weeks[i]] == values[i]
    decreases |weeks|
  {
    var n := |weeks| - 1;
    if i < n {
      WeekMapAt(weeks[..n], values[..n], i);
    }
  }

  // ----- members and series -----

  /** `a || b` on optional strings. */
  function Or(a: Option<string>, b: Option<string>): (r: Option<string>)
    ensures TruthyStr(r) <==> TruthyStr(a) || TruthyStr(b)
  {
    if TruthyStr(a) then a else b
  }

  /** An object of members becomes records whose id is the key and whose display name is the first truthy name field. */
  function Normalize(members: Members): (r: seq<Member>)
    ensures members.MemberList? ==> r == members.list
    ensures members.MemberObject? ==>
              (|r| == |members.entries| && forall j :: 0 <= j < |r| ==> r[j].userId == Some(members.entries[j].0))
  {
    match members
    case MemberList(list) => list
    case MemberObject(entries) => FromEntries(entries)
  }

  function FromEntries(entries: seq<(string, Option<MemberProfile>)>): (r: seq<Member>)
    ensures |r| == |entries|
    ensures forall j :: 0 <= j < |r| ==> r[j].userId == Some(entries[j].0) && r[j].name.None?
  {
    if |entries| == 0 then []
    else
      var (id, m) := entries[0];
      var dn := if m.None? then None else Or(Or(Or(m.value.displayName, m.value.name), m.value.username), m.value.email);
      [Member(Some(id), dn, None, None, None)] + FromEntries(entries[1..])
  }

  /** How a template literal prints an optional id. */
  function IdText(id: Option<string>): string {
    if id.Some? then id.value else "undefined"
  }

  /** The series name: the first truthy name field, else "User " and the id. */
  function SeriesName(m: Member): (r: string)
    ensures |r| > 0
    ensures TruthyStr(m.displayName) ==> r == m.displayName.value
    ensures !TruthyStr(m.displayName) && !TruthyStr(m.name) && !TruthyStr(m.username) && !TruthyStr(m.email) ==>
              r == "User " + IdText(m.userId)
  {
    StrOr(Or(Or(Or(m.displayName, m.name), m.username), m.email), "User " + IdText(m.userId))
  }

  function SeriesFor(weeks: seq<int>, bets: seq<Option<ChartBet>>, m: Member): (r: Series)
    ensures r.userId == m.userId
    ensures forall w :: w in r.pointsByWeek <==> w in weeks
  {
    Series(m.userId, SeriesName(m), WeekMap(weeks, Running(weeks, bets, m.userId)))
  }

  function AllSeries(weeks: seq<int>, bets: seq<Option<ChartBet>>, members: seq<Member>): (r: seq<Series>)
    ensures |r| == |members|
    ensures forall j :: 0 <= j < |r| ==> r[j] == SeriesFor(weeks, bets, members[j])
  {
    if |members| == 0 then [] else [SeriesFor(weeks, bets, members[0])] + AllSeries(weeks, bets, members[1..])
  }

  function Max(a: int, b: int): (r: int)
    ensures r >= a && r >= b && (r == a || r == b)
  {
    if a >= b then a else b
  }

  /**
   * The component: nothing for `null` bets, `null` members or an empty members array (an empty
   * members object passes); otherwise the weeks, one series per member in order, and the width.
   */
  function Render(bets: Arg<seq<Option<ChartBet>>>, members: Arg<Members>, width: int): (r: Option<Chart>)
    ensures r.None? <==> bets.Null? || members.Null? || members == Given(MemberList([]))
    ensures r.Some? ==> r.value.width == Max(width, |r.value.weeks| * 80)
    ensures r.Some? && bets.Given? ==> (forall w :: w in r.value.weeks <==> w in BetWeeks(bets.value))
    ensures r.Some? && bets.Undefined? ==> r.value.weeks == []
    ensures r.Some? && members.Given? ==> |r.value.series| == |Normalize(members.value)|
    ensures r.Some? && members.Undefined? ==> r.value.series == []
  {
    if bets.Null? || members.Null? || members == Given(MemberList([])) then None
    else
      var bs := if bets.Given? then bets.value else [];
      var ms := if members.Given? then Normalize(members.value) else [];
      var weeks := Weeks(bs);
      Some(Chart(weeks, AllSeries(weeks, bs, ms), Max(width, |weeks| * 80)))
  }

  /** With given bets and a non-empty or object members prop, the chart is built from them directly. */
  lemma RenderGiven(bets: seq<Option<ChartBet>>, members: Members, width: int)
    requires members != MemberList([])
    ensures Render(Given(bets), Given(members), width) ==
            Some(Chart(Weeks(bets), AllSeries(Weeks(bets), bets, Normalize(members)), Max(width, |Weeks(bets)| * 80)))
  {
  }

  // ----- the running total -----

  /** Moving the bound from one week to the next bet week adds exactly that week's points. */
  lemma {:induction false} UpToStep(bets: seq<Option<ChartBet>>, uid: Option<string>, lo: int, hi: int)
    requires lo < hi
    requires forall v :: v in BetWeeks(bets) ==> !(lo < v < hi)
    ensures UpTo(bets, uid, hi) == UpTo(bets, uid, lo) + WeekSum(bets, uid, hi)
    decreases |bets|
  {
    if |bets| > 0 {
      var head := if bets[0].Some? && bets[0].value.week.Some? then [bets[0].value.week.value] else [];
      assert BetWeeks(bets) == head + BetWeeks(bets[1..]);
      assert forall v :: v in head ==> v in BetWeeks(bets);
      assert forall v :: v in BetWeeks(bets[1..]) ==> v in BetWeeks(bets);
      UpToStep(bets[1..], uid, lo, hi);
      if bets[0].Some? && bets[0].value.week.Some? {
        var v := bets[0].value.week.value;
        assert v in head;
        assert v <= lo || v >= hi;
      }
    }
  }

  /** Up to the first bet week, only that week counts. */
  lemma {:induction false} UpToFirst(bets: seq<Option<ChartBet>>, uid: Option<string>, w: int)
    requires forall v :: v in BetWeeks(bets) ==> v >= w
    ensures UpTo(bets, uid, w) == WeekSum(bets, uid, w)
    decreases |bets|
  {
    if |bets| > 0 {
      var head := if bets[0].Some? && bets[0].value.week.Some? then [bets[0].value.week.value] else [];
      assert BetWeeks(bets) == head + BetWeeks(bets[1..]);
      assert forall v :: v in head ==> v in BetWeeks(bets);
      assert forall v :: v in BetWeeks(bets[1..]) ==> v in BetWeeks(bets);
      UpToFirst(bets[1..], uid, w);
      if bets[0].Some? && bets[0].value.week.Some? {
        assert bets[0].value.week.value in head;
      }
    }
  }

  /** Over the chart's weeks, the running total at week `weeks[i]` is the user's points up to that week. */
  lemma {:induction false} RunningIsUpTo(bets: seq<Option<ChartBet>>, uid: Option<string>, i: nat)
    requires i < |Weeks(bets)|
    ensures Running(Weeks(bets), bets, uid)[i] == UpTo(bets, uid, Weeks(bets)[i])
    decreases i
  {
    var ws := Weeks(bets);
    if i == 0 {
      forall v | v in BetWeeks(bets) ensures v >= ws[0] {
        assert v in ws;
        var k :| 0 <= k < |ws| && ws[k] == v;
      }
      UpToFirst(bets, uid, ws[0]);
    } else {
      RunningIsUpTo(bets, uid, i - 1);
      forall v | v in BetWeeks(bets) ensures !(ws[i - 1] < v < ws[i]) {
        assert v in ws;
        var k :| 0 <= k < |ws| && ws[k] == v;
      }
      UpToStep(bets, uid, ws[i - 1], ws[i]);
    }
  }

  /**
   * Each member's series holds, for every week with bets, the member's points over all weeks up
   * to and including it: a running total.
   */
  lemma SeriesAreRunningTotals(bets: seq<Option<ChartBet>>, members: Members, width: int, j: nat, i: nat)
    requires j < |Normalize(members)|
    requires i < |Weeks(bets)|
    ensures var c := Render(Given(bets), Given(members), width).value;
            c.weeks[i] in c.series[j].pointsByWeek &&
            c.series[j].pointsByWeek[c.weeks[i]] == UpTo(bets, Normalize(members)[j].userId, c.weeks[i])
  {
    var ws := Weeks(bets);
    var uid := Normalize(members)[j].userId;
    RenderGiven(bets, members, width);
    WeekMapAt(ws, Running(ws, bets, uid), i);
    RunningIsUpTo(bets, uid, i);
  }

  predicate NonNegativePoints(bets: seq<Option<ChartBet>>) {
    forall i :: 0 <= i < |bets| && bets[i].Some? ==> BetPoints(bets[i].value) >= 0
  }

  lemma {:induction false} UpToMonotone(bets: seq<Option<ChartBet>>, uid: Option<string>, lo: int, hi: int)
    requires NonNegativePoints(bets) && lo <= hi
    ensures UpTo(bets, uid, lo) <= UpTo(bets, uid, hi)
    decreases |bets|
  {
    if |bets| > 0 {
      assert NonNegativePoints(bets[1..]) by {
        assert forall i :: 1 <= i < |bets| ==> bets[1..][i - 1] == bets[i];
      }
      UpToMonotone(bets[1..], uid, lo, hi);
    }
  }

  /** With no negative points a series never goes down from one week to a later one. */
  lemma SeriesNonDecreasing(bets: seq<Option<ChartBet>>, members: Members, width: int, j: nat, a: nat, b: nat)
    requires NonNegativePoints(bets)
    requires j < |Normalize(members)|
    requires a <= b < |Weeks(bets)|
    ensures var c := Render(Given(bets), Given(members), width).value;
            c.series[j].pointsByWeek[c.weeks[a]] <= c.series[j].pointsByWeek[c.weeks[b]]
  {
    var ws := Weeks(bets);
    var uid := Normalize(members)[j].userId;
    RenderGiven(bets, members, width);
    SeriesAreRunningTotals(bets, members, width, j, a);
    SeriesAreRunningTotals(bets, members, width, j, b);
    if a < b {
      UpToMonotone(bets, uid, ws[a], ws[b]);
    }
  }

  /** An empty members array hides the chart, while an empty members object shows it with no series. */
  lemma EmptyMembersArrayVersusObject(bets: seq<Option<ChartBet>>, width: int)
    ensures Render(Given(bets), Given(MemberList([])), width).None?
    ensures Render(Given(bets), Given(MemberObject([])), width).Some?
    ensures Render(Given(bets), Given(MemberObject([])), width).value.series == []
  {
  }
}
