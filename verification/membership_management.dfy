/**
 * `MembershipManagement`: the room's members split by status, the status and role tags, and the
 * admin actions offered for each member together with the change each action requests.
 */
module MembershipManagement {
  import opened Common
  import opened Text
  import opened Collections
  import ChangeMemberStatus

  datatype RoomMember = RoomMember(userId: Option<string>, status: Option<string>, membershipType: Option<string>)

  /** `member.status?.toLowerCase() === s`. */
  predicate HasStatus(m: RoomMember, s: string) {
    m.status.Some? && Lower(m.status.value) == s
  }

  /** The members listed under one status (`approvedMembers`, `pendingRequests`, `deniedMembers`), in input order. */
  function WithStatus(members: seq<RoomMember>, s: string): (r: seq<RoomMember>)
    ensures forall m :: m in r <==> m in members && HasStatus(m, s)
    ensures forall i :: 0 <= i < |r| ==> HasStatus(r[i], s)
    ensures |r| <= |members|
  {
    Filter(members, (m: RoomMember) => HasStatus(m, s))
  }

  /** The three lists never share a member, and a member with any other status is in none of them. */
  lemma ListsDisjoint(members: seq<RoomMember>, m: RoomMember)
    ensures !(m in WithStatus(members, "approved") && m in WithStatus(members, "pending"))
    ensures !(m in WithStatus(members, "approved") && m in WithStatus(members, "denied"))
    ensures !(m in WithStatus(members, "pending") && m in WithStatus(members, "denied"))
    ensures m in members && !HasStatus(m, "approved") && !HasStatus(m, "pending") && !HasStatus(m, "denied") ==>
              m !in WithStatus(members, "approved") && m !in WithStatus(members, "pending") &&
              m !in WithStatus(members, "denied")
  {
  }

  // ----- tags -----

  datatype Tag = Tag(color: string, text: Option<string>)

  /** `getStatusTag`: the known statuses by their upper case; anything else is shown as given. */
  function StatusTag(status: Option<string>): (r: Tag)
    ensures status.Some? && Upper(status.value) == "APPROVED" ==> r == Tag("green", Some("Active"))
    ensures status.Some? && Upper(status.value) == "PENDING" ==> r == Tag("orange", Some("Pending"))
    ensures status.Some? && Upper(status.value) == "DENIED" ==> r == Tag("red", Some("Denied"))
    ensures status.None? || Upper(status.value) !in {"APPROVED", "PENDING", "DENIED"} ==> r == Tag("default", status)
  {
    if status.None? then Tag("default", status)
    else
      var u := Upper(status.value);
      if u == "APPROVED" then Tag("green", Some("Active"))
      else if u == "PENDING" then Tag("orange", Some("Pending"))
      else if u == "DENIED" then Tag("red", Some("Denied"))
      else Tag("default", status)
  }

  /** A known status gets the same tag however it is spelled. */
  lemma StatusTagIgnoresCase(s: string)
    requires Upper(s) in {"APPROVED", "PENDING", "DENIED"}
    ensures StatusTag(Some(s)) == StatusTag(Some(Lower(s)))
  {
    UpperOfLower(s);
  }

  datatype TypeIcon = Crown | Person | NoIcon

  datatype TypeTag = TypeTag(color: string, icon: TypeIcon, text: Option<string>)

  /** `getMembershipTypeTag`: admin, member, request and invitation by their upper case. */
  function MembershipTypeTag(t: Option<string>): (r: TypeTag)
    ensures t.Some? && Upper(t.value) == "ADMIN" ==> r == TypeTag("purple", Crown, Some("Admin"))
    ensures t.Some? && Upper(t.value) == "MEMBER" ==> r == TypeTag("blue", Person, Some("Member"))
    ensures t.Some? && Upper(t.value) == "REQUEST" ==> r == TypeTag("orange", Person, Some("Request"))
    ensures t.Some? && Upper(t.value) == "INVITATION" ==> r == TypeTag("cyan", Person, Some("Invitation"))
    ensures r.icon == NoIcon <==> t.None? || Upper(t.value) !in {"ADMIN", "MEMBER", "REQUEST", "INVITATION"}
    ensures r.icon == NoIcon ==> r == TypeTag("default", NoIcon, t)
  {
    if t.None? then TypeTag("default", NoIcon, t)
    else
      var u := Upper(t.value);
      if u == "ADMIN" then TypeTag("purple", Crown, Some("Admin"))
      else if u == "MEMBER" then TypeTag("blue", Person, Some("Member"))
      else if u == "REQUEST" then TypeTag("orange", Person, Some("Request"))
      else if u == "INVITATION" then TypeTag("cyan", Person, Some("Invitation"))
      else TypeTag("default", NoIcon, t)
  }

  // ----- actions -----

  datatype Action = ApproveMember | ApproveAdmin | Deny | PromoteAdmin | DemoteMember | Remove | ReadmitMember | ReadmitAdmin

  /** The change each action asks for: a status and, for every action but deny and remove, a type. */
  function Change(a: Action): (r: (string, Option<string>))
    ensures r.1.None? <==> a == Deny || a == Remove
    ensures r.1.None? ==> r.0 == "DENIED"
    ensures r.1.Some? ==> r.0 == "APPROVED" && r.1.value in {"MEMBER", "ADMIN"}
  {
    match a
    case ApproveMember => ("APPROVED", Some("MEMBER"))
    case ApproveAdmin => ("APPROVED", Some("ADMIN"))
    case Deny => ("DENIED", None)
    case PromoteAdmin => ("APPROVED", Some("ADMIN"))
    case DemoteMember => ("APPROVED", Some("MEMBER"))
    case Remove => ("DENIED", None)
    case ReadmitMember => ("APPROVED", Some("MEMBER"))
    case ReadmitAdmin => ("APPROVED", Some("ADMIN"))
  }

  /**
   * `getActionMenuItems`: nothing for the current user (strict equality of the ids); a pending
   * request can be approved as member or admin, or denied; an approved member can be promoted
   * (member or request type) or demoted (admin), and always removed; a denied member can be
   * readmitted as member or admin.
   */
  function ActionsFor(m: RoomMember, currentUserId: Option<string>): (r: seq<Action>)
    ensures m.userId == currentUserId ==> r == []
    ensures m.userId != currentUserId ==>
              (HasStatus(m, "pending") ==> r == [ApproveMember, ApproveAdmin, Deny]) &&
              (HasStatus(m, "denied") ==> r == [ReadmitMember, ReadmitAdmin]) &&
              (HasStatus(m, "approved") ==> |r| > 0 && r[|r| - 1] == Remove)
    ensures !HasStatus(m, "pending") && !HasStatus(m, "approved") && !HasStatus(m, "denied") ==> r == []
  {
    if m.userId == currentUserId then []
    else if HasStatus(m, "pending") then [ApproveMember, ApproveAdmin, Deny]
    else if HasStatus(m, "approved") then
      var t := if m.membershipType.Some? then Some(Lower(m.membershipType.value)) else None;
      (if t == Some("member") || t == Some("request") then [PromoteAdmin]
       else if t == Some("admin") then [DemoteMember]
       else []) + [Remove]
    else if HasStatus(m, "denied") then [ReadmitMember, ReadmitAdmin]
    else []
  }

  /** The role actions of an approved member: by type, promote, demote or none, then remove. */
  lemma ApprovedActions(m: RoomMember, currentUserId: Option<string>)
    requires m.userId != currentUserId && HasStatus(m, "approved")
    ensures m.membershipType.Some? && Lower(m.membershipType.value) in {"member", "request"} ==>
              ActionsFor(m, currentUserId) == [PromoteAdmin, Remove]
    ensures m.membershipType.Some? && Lower(m.membershipType.value) == "admin" ==>
              ActionsFor(m, currentUserId) == [DemoteMember, Remove]
    ensures (m.membershipType.None? || Lower(m.membershipType.value) !in {"member", "request", "admin"}) ==>
              ActionsFor(m, currentUserId) == [Remove]
  {
  }

  /**
   * `handleStatusChange` lower-cases the status and the type before asking for the change. The
   * member's `user_id` is passed as it is, missing or not.
   */
  function Request(roomId: string, m: RoomMember, a: Action): (r: ChangeMemberStatus.Put)
    ensures r.body.roomId == roomId && r.body.targetUserId == m.userId
    ensures r.path == ChangeMemberStatus.EditPath <==> a == Deny || a == Remove
  {
    var (status, t) := Change(a);
    LowerDenied();
    LowerApproved();
    LowerMember();
    LowerAdmin();
    ChangeMemberStatus.Route(roomId, m.userId, Lower(status), if t.Some? then Some(Lower(t.value)) else None)
  }

  /** Deny and remove edit the membership request with `approve` false. */
  lemma RemovalsEditRequest(roomId: string, m: RoomMember, a: Action)
    requires a == Deny || a == Remove
    ensures Request(roomId, m, a) == ChangeMemberStatus.Put(ChangeMemberStatus.EditPath,
                                                           ChangeMemberStatus.EditRequest(roomId, m.userId, false))
  {
    LowerDenied();
    LowerIdempotent("DENIED");
    assert Request(roomId, m, a) == ChangeMemberStatus.Route(roomId, m.userId, "denied", None);
  }

  /** Every other action changes the member's status to "approved" with a lower-cased type. */
  lemma AdmissionsChangeStatus(roomId: string, m: RoomMember, a: Action)
    requires a != Deny && a != Remove
    ensures Request(roomId, m, a).path == ChangeMemberStatus.ChangePath
    ensures Request(roomId, m, a).body.newStatus == "approved"
    ensures Request(roomId, m, a).body.newMembershipType.Some?
    ensures Request(roomId, m, a).body.newMembershipType.value in {"member", "admin"}
  {
    var t := Change(a).1.value;
    var lt := if t == "MEMBER" then "member" else "admin";
    assert Lower(t) == lt by {
      LowerMember();
      LowerAdmin();
    }
    assert Request(roomId, m, a) == ChangeMemberStatus.Route(roomId, m.userId, Lower("APPROVED"), Some(Lower(t)));
    LowerApproved();
    RouteApproved(roomId, m.userId, lt);
  }

  lemma RouteApproved(roomId: string, target: Option<string>, lt: string)
    requires lt == "member" || lt == "admin"
    ensures var r := ChangeMemberStatus.Route(roomId, target, "approved", Some(lt));
            r.path == ChangeMemberStatus.ChangePath && r.body.newStatus == "approved" && r.body.newMembershipType == Some(lt)
  {
    LowerApproved();
    LowerIdempotent("APPROVED");
    LowerMember();
    LowerIdempotent("MEMBER");
    LowerAdmin();
    LowerIdempotent("ADMIN");
  }

  lemma LowerDenied() ensures Lower("DENIED") == "denied" {}
  lemma LowerApproved() ensures Lower("APPROVED") == "approved" {}
  lemma LowerMember() ensures Lower("MEMBER") == "member" {}
  lemma LowerAdmin() ensures Lower("ADMIN") == "admin" {}
}
