/** `useRoomMembership`: whether the current user appears in the room's member list. */
module RoomMembership {
  import opened Common

  datatype Member = Member(userId: Option<string>, status: Option<string>)

  function AnyWithId(members: seq<Member>, userId: string): (r: bool)
    ensures r <==> exists i :: 0 <= i < |members| && members[i].userId == Some(userId)
  {
    if |members| == 0 then false
    else members[0].userId == Some(userId) || AnyWithId(members[1..], userId)
  }

  /** `isMember`: false without a user id or a member array; else whether some member has that id. */
  function IsMember(currentUserId: Option<string>, members: Option<seq<Member>>): (r: bool)
    ensures !TruthyStr(currentUserId) || members.None? ==> !r
    ensures r <==> TruthyStr(currentUserId) && members.Some? &&
                   exists i :: 0 <= i < |members.value| && members.value[i].userId == currentUserId
  {
    TruthyStr(currentUserId) && members.Some? && AnyWithId(members.value, currentUserId.value)
  }

  datatype Membership = Membership(members: Option<seq<Member>>, isMember: bool, isMembershipFetching: bool)

  /** The hook's values: the fetched members, the membership flag, and the fetch flag passed through. */
  function UseRoomMembership(currentUserId: Option<string>, members: Option<seq<Member>>, isMembersFetching: bool): (r: Membership)
    ensures r.members == members
    ensures r.isMember == IsMember(currentUserId, members)
    ensures r.isMembershipFetching == isMembersFetching
  {
    Membership(members, IsMember(currentUserId, members), isMembersFetching)
  }

  function StatusesReplaced(members: seq<Member>, status: Option<string>): (r: seq<Member>)
    ensures |r| == |members|
    ensures forall i :: 0 <= i < |r| ==> r[i] == Member(members[i].userId, status)
  {
    if |members| == 0 then [] else [Member(members[0].userId, status)] + StatusesReplaced(members[1..], status)
  }

  /** Membership ignores statuses: a pending or denied entry counts as much as an approved one. */
  lemma StatusIgnored(currentUserId: Option<string>, members: seq<Member>, status: Option<string>)
    ensures IsMember(currentUserId, Some(StatusesReplaced(members, status))) == IsMember(currentUserId, Some(members))
  {
    var m := StatusesReplaced(members, status);
    if IsMember(currentUserId, Some(members)) {
      var i :| 0 <= i < |members| && members[i].userId == currentUserId;
      assert m[i].userId == currentUserId;
    }
    if IsMember(currentUserId, Some(m)) {
      var i :| 0 <= i < |m| && m[i].userId == currentUserId;
      assert members[i].userId == currentUserId;
    }
  }

  /** Adding members never makes a member stop being one. */
  lemma MoreMembersKeepMembership(currentUserId: Option<string>, members: seq<Member>, more: seq<Member>)
    requires IsMember(currentUserId, Some(members))
    ensures IsMember(currentUserId, Some(members + more))
  {
    var i :| 0 <= i < |members| && members[i].userId == currentUserId;
    assert (members + more)[i] == members[i];
  }
}
