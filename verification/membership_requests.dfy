/**
 * `useGetUserMembershipRequests`: the user's membership requests grouped by status, the lookup
 * from room id to the latest request for it, and the per-room questions asked of that lookup.
 */
module MembershipRequests {
  import opened Common
  import opened Collections

  datatype MembershipRequest = MembershipRequest(roomId: Option<string>, status: Option<string>)

  datatype StatusEntry = StatusEntry(status: Option<string>, request: MembershipRequest)

  /** The query runs when enabled and the token is a non-empty string. */
  function IsEnabled(enabled: bool, idToken: Option<string>): (r: bool)
    ensures !enabled || idToken.None? || idToken == Some("") ==> !r
    ensures enabled && idToken.Some? && idToken.value != "" ==> r
  {
    enabled && TruthyStr(idToken)
  }

  /** `data?.data?.membership_requests || []`. */
  function Requests(membershipRequests: Option<seq<MembershipRequest>>): (r: seq<MembershipRequest>)
    ensures membershipRequests.None? ==> r == []
    ensures membershipRequests.Some? ==> r == membershipRequests.value
  {
    membershipRequests.GetOr([])
  }

  /** The requests whose status is exactly `s`; the comparison is case-sensitive. */
  function WithStatus(requests: seq<MembershipRequest>, s: string): (r: seq<MembershipRequest>)
    ensures forall q :: q in r <==> q in requests && q.status == Some(s)
  {
    Filter(requests, (q: MembershipRequest) => q.status == Some(s))
  }

  datatype ByStatus = ByStatus(pending: seq<MembershipRequest>, approved: seq<MembershipRequest>, denied: seq<MembershipRequest>)

  /** The requests split by their exact status; other statuses land in no group. */
  function Group(requests: seq<MembershipRequest>): (r: ByStatus)
    ensures forall q :: q in r.pending <==> q in requests && q.status == Some("pending")
    ensures forall q :: q in r.approved <==> q in requests && q.status == Some("approved")
    ensures forall q :: q in r.denied <==> q in requests && q.status == Some("denied")
  {
    ByStatus(WithStatus(requests, "pending"), WithStatus(requests, "approved"), WithStatus(requests, "denied"))
  }

  /** A request lands in at most one group, and in none when its status is not one of the three. */
  lemma GroupsDisjoint(requests: seq<MembershipRequest>, q: MembershipRequest)
    ensures var g := Group(requests);
            !(q in g.pending && q in g.approved) && !(q in g.pending && q in g.denied) && !(q in g.approved && q in g.denied)
    ensures q.status !in {Some("pending"), Some("approved"), Some("denied")} ==>
              var g := Group(requests); q !in g.pending && q !in g.approved && q !in g.denied
  {
  }

  /** Room id to status and request, filled in input order for truthy room ids, later requests overwriting earlier ones. */
  function StatusMap(requests: seq<MembershipRequest>): (r: map<string, StatusEntry>)
    ensures forall k :: k in r ==> k != ""
    decreases |requests|
  {
    if |requests| == 0 then map[]
    else
      var n := |requests| - 1;
      var m := StatusMap(requests[..n]);
      var q := requests[n];
      if TruthyStr(q.roomId) then m[q.roomId.value := StatusEntry(q.status, q)] else m
  }

  /** The last request for a room, searching from the end: the reference for the lookup. */
  function LastFor(requests: seq<MembershipRequest>, k: string): (r: Option<nat>)
    ensures r.Some? ==> r.value < |requests| && requests[r.value].roomId == Some(k)
    ensures r.Some? ==> forall j :: r.value < j < |requests| ==> requests[j].roomId != Some(k)
    ensures r.None? ==> forall j :: 0 <= j < |requests| ==> requests[j].roomId != Some(k)
    decreases |requests|
  {
    if |requests| == 0 then None
    else if requests[|requests| - 1].roomId == Some(k) then Some(|requests| - 1)
    else LastFor(requests[..|requests| - 1], k)
  }

  /** A non-empty room id is in the lookup exactly when some request names it, with the last such request. */
  lemma {:induction false} StatusMapIsLast(requests: seq<MembershipRequest>, k: string)
    requires k != ""
    ensures k in StatusMap(requests) <==> LastFor(requests, k).Some?
    ensures k in StatusMap(requests) ==>
              StatusMap(requests)[k] == StatusEntry(requests[LastFor(requests, k).value].status, requests[LastFor(requests, k).value])
    decreases |requests|
  {
    if |requests| > 0 {
      var n := |requests| - 1;
      StatusMapIsLast(requests[..n], k);
      var last := LastFor(requests[..n], k);
      if last.Some? {
        assert requests[..n][last.value] == requests[last.value];
      }
    }
  }

  /** `getMembershipStatus`: the status for the room when it is truthy, else null. */
  function GetMembershipStatus(m: map<string, StatusEntry>, roomId: string): (r: Option<string>)
    ensures roomId !in m ==> r.None?
    ensures r.Some? ==> roomId in m && m[roomId].status == r && |r.value| > 0
  {
    if roomId in m && TruthyStr(m[roomId].status) then m[roomId].status else None
  }

  /** `hasPendingRequest`: the room's latest status is exactly "pending". */
  function HasPendingRequest(m: map<string, StatusEntry>, roomId: string): (r: bool)
    ensures r <==> GetMembershipStatus(m, roomId) == Some("pending")
  {
    roomId in m && m[roomId].status == Some("pending")
  }

  /** `isMember`: the room's latest status is exactly "approved". */
  function IsMember(m: map<string, StatusEntry>, roomId: string): (r: bool)
    ensures r <==> GetMembershipStatus(m, roomId) == Some("approved")
  {
    roomId in m && m[roomId].status == Some("approved")
  }

  /** `canRequestMembership`: only for a room with no request at all. */
  function CanRequestMembership(m: map<string, StatusEntry>, roomId: string): (r: bool)
    ensures r ==> GetMembershipStatus(m, roomId).None? && !IsMember(m, roomId) && !HasPendingRequest(m, roomId)
    ensures roomId in m && m[roomId].status == Some("denied") ==> !r
  {
    roomId !in m
  }

  /**
   * Over the lookup built from the requests: membership and a pending request follow the status of
   * the latest request for the room, and a request of any status, denied included, blocks a new one.
   */
  lemma RoomQuestions(requests: seq<MembershipRequest>, roomId: string)
    requires roomId != ""
    ensures var m := StatusMap(requests);
            var last := LastFor(requests, roomId);
            (IsMember(m, roomId) <==> last.Some? && requests[last.value].status == Some("approved")) &&
            (HasPendingRequest(m, roomId) <==> last.Some? && requests[last.value].status == Some("pending")) &&
            (CanRequestMembership(m, roomId) <==> last.None?) &&
            !(IsMember(m, roomId) && HasPendingRequest(m, roomId)) &&
            (last.Some? && requests[last.value].status == Some("denied") ==> !CanRequestMembership(m, roomId))
  {
    StatusMapIsLast(requests, roomId);
  }

  /** An earlier approval is forgotten once a later request for the same room is pending. */
  lemma LaterRequestWins(room: string)
    requires room != ""
    ensures var m := StatusMap([MembershipRequest(Some(room), Some("approved")), MembershipRequest(Some(room), Some("pending"))]);
            HasPendingRequest(m, room) && !IsMember(m, room)
  {
    var a := MembershipRequest(Some(room), Some("approved"));
    var p := MembershipRequest(Some(room), Some("pending"));
    assert [a, p][..1] == [a];
    assert [a][..0] == [];
  }
}
