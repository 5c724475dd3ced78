/**
 * `RoomLeaderboard`: users ordered by total points, most first, with competition places — equal
 * points share the place of the first of them, and the next distinct score takes its own position.
 */
module Leaderboard {
  import opened Common
  import opened Text
  import opened Sorting
  import opened Collections

  datatype Standing = Standing(name: string, totalPoints: int)

  datatype Place = Place(place: nat, tied: bool)

  function Points(u: Standing): int {
    u.totalPoints
  }

  /**
   * The places loop over the sorted users: a user whose points differ from the previous user's
   * (or the first user) starts a new place at its position; otherwise it is tied on the previous place.
   */
  function Places(s: seq<Standing>): (r: seq<Place>)
    ensures |r| == |s|
    ensures |s| > 0 ==> r[0] == Place(1, false)
    ensures forall i :: 0 < i < |s| ==> (r[i].tied <==> s[i].totalPoints == s[i - 1].totalPoints)
    ensures forall i :: 0 < i < |s| && s[i].totalPoints != s[i - 1].totalPoints ==> r[i].place == i + 1
    ensures forall i :: 0 < i < |s| && s[i].totalPoints == s[i - 1].totalPoints ==> r[i].place == r[i - 1].place
    decreases |s|
  {
    if |s| == 0 then []
    else
      var n := |s| - 1;
      var init := s[..n];
      var prev := Places(init);
      assert forall i :: 0 <= i < n ==> init[i] == s[i];
      var p := if n == 0 || s[n].totalPoints != s[n - 1].totalPoints then Place(n + 1, false)
               else Place(prev[n - 1].place, true);
      var r := prev + [p];
      assert forall i :: 0 <= i < n ==> r[i] == prev[i];
      assert r[n] == p;
      r
  }

  /** Places start at 1, never exceed the position, and never go down along the table. */
  lemma {:induction false} PlacesBounded(s: seq<Standing>, i: nat)
    requires i < |s|
    ensures 1 <= Places(s)[i].place <= i + 1
    ensures i > 0 ==> Places(s)[i - 1].place <= Places(s)[i].place
    decreases i
  {
    if i > 0 {
      PlacesBounded(s, i - 1);
    }
  }

  /** How many users have strictly more points than `p`. */
  function CountAbove(s: seq<Standing>, p: int): (r: nat)
    ensures r <= |s|
  {
    if |s| == 0 then 0 else (if s[0].totalPoints > p then 1 else 0) + CountAbove(s[1..], p)
  }

  /** When exactly the first `k` users are above `p`, `k` users are counted. */
  lemma {:induction false} CountAboveSplit(s: seq<Standing>, k: nat, p: int)
    requires k <= |s|
    requires forall j :: 0 <= j < k ==> s[j].totalPoints > p
    requires forall j :: k <= j < |s| ==> s[j].totalPoints <= p
    ensures CountAbove(s, p) == k
    decreases |s|
  {
    if |s| > 0 {
      if k > 0 {
        CountAboveSplit(s[1..], k - 1, p);
      } else {
        CountAboveSplit(s[1..], 0, p);
      }
    }
  }

  /**
   * On users sorted by points, most first, a place is standard competition ranking: one more than
   * the number of users with strictly more points.
   */
  lemma {:induction false} PlaceIsCompetitionRank(s: seq<Standing>, i: nat)
    requires SortedDesc(s, Points)
    requires i < |s|
    ensures Places(s)[i].place == 1 + CountAbove(s, s[i].totalPoints)
    decreases i
  {
    var r := Places(s);
    if i == 0 {
      assert forall j :: 0 <= j < |s| ==> Points(s[0]) >= Points(s[j]);
      CountAboveSplit(s, 0, s[0].totalPoints);
    } else if s[i].totalPoints != s[i - 1].totalPoints {
      assert forall j :: 0 <= j < i ==> Points(s[j]) >= Points(s[i - 1]);
      assert forall j :: i <= j < |s| ==> Points(s[i]) >= Points(s[j]);
      CountAboveSplit(s, i, s[i].totalPoints);
    } else {
      PlaceIsCompetitionRank(s, i - 1);
    }
  }

  /** Users with equal points get the same place; more points never mean a worse place. */
  lemma PlacesFollowPoints(s: seq<Standing>, i: nat, j: nat)
    requires SortedDesc(s, Points)
    requires i < |s| && j < |s|
    ensures s[i].totalPoints == s[j].totalPoints ==> Places(s)[i].place == Places(s)[j].place
    ensures s[i].totalPoints > s[j].totalPoints ==> Places(s)[i].place < Places(s)[j].place
  {
    PlaceIsCompetitionRank(s, i);
    PlaceIsCompetitionRank(s, j);
    if s[i].totalPoints > s[j].totalPoints {
      CountAboveMonotone(s, s[j].totalPoints, s[i].totalPoints, i);
    }
  }

  /** Lowering the threshold below a user's points counts at least that user more. */
  lemma {:induction false} CountAboveMonotone(s: seq<Standing>, lo: int, hi: int, k: nat)
    requires lo < hi && k < |s| && s[k].totalPoints == hi
    ensures CountAbove(s, lo) > CountAbove(s, hi)
    decreases |s|
  {
    CountAboveWeaklyMonotone(s[1..], lo, hi);
    if k > 0 {
      CountAboveMonotone(s[1..], lo, hi, k - 1);
    }
  }

  lemma {:induction false} CountAboveWeaklyMonotone(s: seq<Standing>, lo: int, hi: int)
    requires lo <= hi
    ensures CountAbove(s, lo) >= CountAbove(s, hi)
    decreases |s|
  {
    if |s| > 0 {
      CountAboveWeaklyMonotone(s[1..], lo, hi);
    }
  }

  datatype Row = Row(placeText: string, name: string, totalPoints: int)

  /** The place cell: "Tied for N" on all but the first of a tie group, else the number. */
  function PlaceText(p: Place): (r: string)
    ensures p.tied ==> r == "Tied for " + IntToString(p.place)
    ensures !p.tied ==> ParseInt(r) == Some(p.place)
  {
    if p.tied then "Tied for " + IntToString(p.place)
    else
      IntToStringRoundTrip(p.place);
      IntToString(p.place)
  }

  function RowsOf(s: seq<Standing>, places: seq<Place>): (r: seq<Row>)
    requires |places| == |s|
    ensures |r| == |s|
    ensures forall i :: 0 <= i < |s| ==> r[i] == Row(PlaceText(places[i]), s[i].name, s[i].totalPoints)
  {
    if |s| == 0 then [] else [Row(PlaceText(places[0]), s[0].name, s[0].totalPoints)] + RowsOf(s[1..], places[1..])
  }

  /** The table: the users re-ordered by points (the input is left alone), each with its place. */
  function Table(users: seq<Standing>): (r: seq<Row>)
    ensures |r| == |users|
    ensures forall i, j :: 0 <= i < j < |r| ==> r[i].totalPoints >= r[j].totalPoints
    ensures |r| > 0 ==> ParseInt(r[0].placeText) == Some(1)
  {
    var sorted := SortDesc(users, Points);
    RowsOf(sorted, Places(sorted))
  }

  function RowStanding(row: Row): Standing {
    Standing(row.name, row.totalPoints)
  }

  lemma {:induction false} RowsKeepStandings(s: seq<Standing>, places: seq<Place>)
    requires |places| == |s|
    ensures Map(RowsOf(s, places), RowStanding) == s
    decreases |s|
  {
    if |s| > 0 {
      RowsKeepStandings(s[1..], places[1..]);
      var rows := RowsOf(s, places);
      assert rows == [rows[0]] + RowsOf(s[1..], places[1..]);
      MapCons(rows[0], RowsOf(s[1..], places[1..]), RowStanding);
      assert s == [s[0]] + s[1..];
    }
  }

  /** Every user appears in the table once with their points, and nobody else does. */
  lemma TableIsPermutation(users: seq<Standing>)
    ensures multiset(Map(Table(users), RowStanding)) == multiset(users)
  {
    var sorted := SortDesc(users, Points);
    RowsKeepStandings(sorted, Places(sorted));
  }

  /** Three users on 10, 10 and 7 points are placed 1, "Tied for 1" and 3. */
  lemma TieExample()
    ensures Places([Standing("a", 10), Standing("b", 10), Standing("c", 7)]) ==
            [Place(1, false), Place(1, true), Place(3, false)]
  {
  }
}
