/** `useGetUserMembershipStatus`: the current user's membership of one room, from their requests. */
module MembershipStatus {
  import opened Common
  import opened Text

  datatype MembershipRequest = MembershipRequest(roomId: Option<string>, status: Option<string>, membershipType: Option<string>)

  datatype Flags = Flags(
    membership: Option<MembershipRequest>,
    status: string,
    membershipType: Option<string>,
    isApproved: bool,
    isPending: bool,
    isDenied: bool,
    isMember: bool)

  /** The query runs when enabled, with a non-empty token and a truthy room id. */
  function IsEnabled(enabled: bool, idToken: Option<string>, roomId: Option<string>): (r: bool)
    ensures r ==> roomId.Some? && roomId.value != "" && idToken.Some? && idToken.value != ""
    ensures !enabled || roomId == Some("") || idToken == Some("") ==> !r
    ensures enabled && roomId.Some? && roomId.value != "" && idToken.Some? && idToken.value != "" ==> r
  {
    enabled && TruthyStr(idToken) && TruthyStr(roomId)
  }

  /** The index of the first request whose room id strictly equals the room's. */
  function FindIndex(requests: seq<MembershipRequest>, roomId: Option<string>): (r: Option<nat>)
    ensures r.Some? ==> r.value < |requests| && requests[r.value].roomId == roomId
    ensures r.Some? ==> forall j :: 0 <= j < r.value ==> requests[j].roomId != roomId
    ensures r.None? <==> forall i :: 0 <= i < |requests| ==> requests[i].roomId != roomId
  {
    if |requests| == 0 then None
    else if requests[0].roomId == roomId then Some(0)
    else
      var r := FindIndex(requests[1..], roomId);
      assert forall i :: 1 <= i < |requests| ==> requests[i] == requests[1..][i - 1];
      if r.Some? then Some(r.value + 1) else None
  }

  /** `find`: the first request for the room, if any. */
  function FindRoom(requests: seq<MembershipRequest>, roomId: Option<string>): (r: Option<MembershipRequest>)
    ensures r.None? <==> forall i :: 0 <= i < |requests| ==> requests[i].roomId != roomId
    ensures r.Some? ==> r.value.roomId == roomId &&
                        exists i :: 0 <= i < |requests| && requests[i] == r.value &&
                                    forall j :: 0 <= j < i ==> requests[j].roomId != roomId
  {
    var i := FindIndex(requests, roomId);
    if i.Some? then Some(requests[i.value]) else None
  }

  predicate StatusIs(m: Option<MembershipRequest>, s: string) {
    m.Some? && m.value.status.Some? && Lower(m.value.status.value) == s
  }

  /** What the query computes for the room from the user's requests (`membership_requests || []`). */
  function QueryResult(membershipRequests: Option<seq<MembershipRequest>>, roomId: Option<string>): (r: Flags)
    ensures r.membership == FindRoom(membershipRequests.GetOr([]), roomId)
    ensures r.isMember == r.isApproved
    ensures r.isApproved <==> StatusIs(r.membership, "approved")
    ensures r.isPending <==> StatusIs(r.membership, "pending")
    ensures r.isDenied <==> StatusIs(r.membership, "denied")
    ensures r.membership.None? ==> r.status == "none" && r.membershipType.None?
    ensures r.membership.Some? && TruthyStr(r.membership.value.status) ==> r.status == r.membership.value.status.value
  {
    var m := FindRoom(membershipRequests.GetOr([]), roomId);
    Flags(m,
          if m.Some? then StrOr(m.value.status, "none") else "none",
          if m.Some? && TruthyStr(m.value.membershipType) then m.value.membershipType else None,
          StatusIs(m, "approved"), StatusIs(m, "pending"), StatusIs(m, "denied"), StatusIs(m, "approved"))
  }

  /** At most one of approved, pending and denied holds. */
  lemma FlagsExclusive(membershipRequests: Option<seq<MembershipRequest>>, roomId: Option<string>)
    ensures var r := QueryResult(membershipRequests, roomId);
            !(r.isApproved && r.isPending) && !(r.isApproved && r.isDenied) && !(r.isPending && r.isDenied)
  {
  }

  /** The hook's values: the query's, or "none" and every flag false before there is data. */
  function HookValues(data: Option<Flags>): (r: Flags)
    ensures data.None? ==> r == Flags(None, "none", None, false, false, false, false)
    ensures data.Some? ==> r.isApproved == data.value.isApproved && r.isMember == data.value.isMember &&
                           r.isPending == data.value.isPending && r.isDenied == data.value.isDenied
    ensures data.Some? && |data.value.status| > 0 ==> r.status == data.value.status
  {
    if data.None? then Flags(None, "none", None, false, false, false, false)
    else
      var d := data.value;
      Flags(d.membership, if |d.status| > 0 then d.status else "none",
            if TruthyStr(d.membershipType) then d.membershipType else None,
            d.isApproved, d.isPending, d.isDenied, d.isMember)
  }

  /** Whatever the data, the hook's `isMember` and `isApproved` agree. */
  lemma HookMemberIsApproved(membershipRequests: Option<seq<MembershipRequest>>, roomId: Option<string>, fetched: bool)
    ensures var r := HookValues(if fetched then Some(QueryResult(membershipRequests, roomId)) else None);
            r.isMember == r.isApproved
  {
  }
}
