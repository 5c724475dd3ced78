/**
 * `useChangeMemberStatus`: which endpoint and body a membership change produces, and the toasts
 * shown when it settles.
 */
module ChangeMemberStatus {
  import opened Common
  import opened Text

  /** The request body; a missing target id (`undefined`) is left out of the JSON, modelled as `None`. */
  datatype Body =
    | EditRequest(roomId: string, targetUserId: Option<string>, approve: bool)
    | ChangeStatus(roomId: string, targetUserId: Option<string>, newStatus: string, newMembershipType: Option<string>)

  datatype Put = Put(path: string, body: Body)

  const EditPath := "/membership/edit_membership_request"
  const ChangePath := "/membership/change_member_status"

  /**
   * A plain approve or deny (no membership type) edits the request; anything else changes the
   * member's status, with the status and any type lower-cased.
   */
  function Route(roomId: string, targetUserId: Option<string>, newStatus: string, newMembershipType: Option<string>): (r: Put)
    ensures r.path == EditPath <==> (Lower(newStatus) == "approved" || Lower(newStatus) == "denied") && !TruthyStr(newMembershipType)
    ensures r.path == EditPath <==> r.body.EditRequest?
    ensures r.body.roomId == roomId && r.body.targetUserId == targetUserId
    ensures r.body.EditRequest? ==> (r.body.approve <==> Lower(newStatus) == "approved")
    ensures r.body.ChangeStatus? ==> r.body.newStatus == Lower(newStatus)
    ensures r.body.ChangeStatus? ==> (r.body.newMembershipType.Some? <==> TruthyStr(newMembershipType))
    ensures r.body.ChangeStatus? && TruthyStr(newMembershipType) ==> r.body.newMembershipType == Some(Lower(newMembershipType.value))
  {
    var statusLower := Lower(newStatus);
    if (statusLower == "approved" || statusLower == "denied") && !TruthyStr(newMembershipType) then
      Put(EditPath, EditRequest(roomId, targetUserId, statusLower == "approved"))
    else
      Put(ChangePath, ChangeStatus(roomId, targetUserId, statusLower,
                                   if TruthyStr(newMembershipType) then Some(Lower(newMembershipType.value)) else None))
  }

  /** The routing ignores the case of the status and of the type. */
  lemma RouteIgnoresCase(roomId: string, target: Option<string>, status: string, t: Option<string>)
    ensures Route(roomId, target, status, t) == Route(roomId, target, Lower(status), t)
    ensures TruthyStr(t) ==> Route(roomId, target, status, t) == Route(roomId, target, status, Some(Lower(t.value)))
  {
    LowerIdempotent(status);
    if TruthyStr(t) {
      LowerIdempotent(t.value);
    }
  }

  /** The success toast: the server's action, else a generic one, followed by "successfully". */
  function SuccessText(action: Option<string>): (r: string)
    ensures TruthyStr(action) ==> r == action.value + " successfully"
    ensures !TruthyStr(action) ==> r == "Member status updated successfully"
  {
    StrOr(action, "Member status updated") + " successfully"
  }

  /** The error toast: the server's detail, else a generic message. */
  function ErrorText(detail: Option<string>): (r: string)
    ensures TruthyStr(detail) ==> r == detail.value
    ensures !TruthyStr(detail) ==> r == "Failed to change member status"
  {
    StrOr(detail, "Failed to change member status")
  }
}
