/** `WeekHeader`: the collapsible header of one week's bets, showing the points earned that week. */
module WeekHeader {
  import opened Common
  import opened Text

  datatype HeaderBet = HeaderBet(totalPointsEarned: Option<int>)

  datatype Icon = Down | Right

  datatype Header = Header(text: string, icon: Icon)

  /** `bets.reduce((sum, b) => sum + (b.total_points_earned || 0), 0)`. */
  function PointsEarned(bets: seq<HeaderBet>): (r: int)
    ensures |bets| == 0 ==> r == 0
    ensures |bets| == 1 ==> r == OrZero(bets[0].totalPointsEarned)
    ensures (forall i :: 0 <= i < |bets| ==> OrZero(bets[i].totalPointsEarned) >= 0) ==> r >= 0
  {
    if |bets| == 0 then 0
    else
      assert forall i :: 1 <= i < |bets| ==> bets[1..][i - 1] == bets[i];
      OrZero(bets[0].totalPointsEarned) + PointsEarned(bets[1..])
  }

  /** Splitting the bets anywhere splits the points: bets without points add nothing. */
  lemma {:induction false} PointsEarnedAppend(a: seq<HeaderBet>, b: seq<HeaderBet>)
    ensures PointsEarned(a + b) == PointsEarned(a) + PointsEarned(b)
    decreases |a|
  {
    if |a| == 0 {
      assert a + b == b;
    } else {
      assert (a + b)[1..] == a[1..] + b;
      PointsEarnedAppend(a[1..], b);
    }
  }

  function LabelHead(week: int): string {
    "Week " + IntToString(week) + " — Points earned "
  }

  /** The label reads "Week <week> — Points earned <points>", so the points can be read back from its tail. */
  function Label(week: int, points: int): (r: string)
    ensures |r| > |LabelHead(week)| && r[..|LabelHead(week)|] == LabelHead(week)
    ensures ParseInt(r[|LabelHead(week)|..]) == Some(points)
  {
    var r := LabelHead(week) + IntToString(points);
    assert r[|LabelHead(week)|..] == IntToString(points);
    IntToStringRoundTrip(points);
    r
  }

  /** The header; a missing bets prop defaults to no bets. */
  function Render(week: int, bets: Option<seq<HeaderBet>>, expanded: bool): (r: Header)
    ensures r.icon == Down <==> expanded
    ensures |r.text| > |LabelHead(week)|
    ensures bets.None? ==> ParseInt(r.text[|LabelHead(week)|..]) == Some(0)
    ensures bets.Some? ==> ParseInt(r.text[|LabelHead(week)|..]) == Some(PointsEarned(bets.value))
  {
    var points := if bets.Some? then PointsEarned(bets.value) else 0;
    Header(Label(week, points), if expanded then Down else Right)
  }
}
