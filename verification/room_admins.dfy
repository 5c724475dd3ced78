/**
 * `RoomAdmins`: the admin tags of a room. Profiles are preferred to plain ids, and long names or
 * ids are cut to ten characters followed by "...".
 */
module RoomAdmins {
  import opened Common
  import opened Text

  const ShownChars := 10

  datatype AdminProfile = AdminProfile(userId: string, userName: string)

  /** A present array is truthy even when it is empty. */
  datatype Room = Room(
    adminUserIds: Option<seq<string>>,
    admins: Option<seq<string>>,
    adminProfiles: Option<seq<AdminProfile>>)

  /** A rendered tag: its key, the "Admin n:" number for id tags, and the shown (possibly shortened) text. */
  datatype Tag = Tag(key: string, adminNumber: Option<nat>, shown: string)

  /** The first ten characters followed by "..." when longer than ten, else the text itself. */
  function Truncate(s: string): (r: string)
    ensures |s| <= ShownChars ==> r == s
    ensures |s| > ShownChars ==> |r| == ShownChars + 3 && r[..ShownChars] == s[..ShownChars] && r[ShownChars..] == "..."
  {
    if |s| > ShownChars then Prefix(s, ShownChars) + "..." else s
  }

  /** Two texts whose tags read the same agree on their first ten characters. */
  lemma TruncateKeepsPrefix(a: string, b: string)
    requires Truncate(a) == Truncate(b)
    ensures Prefix(a, ShownChars) == Prefix(b, ShownChars)
  {
  }

  /** `admin_user_ids || admins || []`. */
  function IdList(room: Room): (r: seq<string>)
    ensures room.adminUserIds.Some? ==> r == room.adminUserIds.value
    ensures room.adminUserIds.None? && room.admins.Some? ==> r == room.admins.value
    ensures room.adminUserIds.None? && room.admins.None? ==> r == []
  {
    if room.adminUserIds.Some? then room.adminUserIds.value
    else if room.admins.Some? then room.admins.value
    else []
  }

  function ProfileTags(ps: seq<AdminProfile>): (r: seq<Tag>)
    ensures |r| == |ps|
    ensures forall i :: 0 <= i < |ps| ==> r[i] == Tag(ps[i].userId, None, Truncate(ps[i].userName))
  {
    if |ps| == 0 then [] else [Tag(ps[0].userId, None, Truncate(ps[0].userName))] + ProfileTags(ps[1..])
  }

  function IdTag(id: string, n: nat): Tag {
    Tag(id, Some(n), Truncate(id))
  }

  /** "Admin n: id" with n counted from `from + 1`. */
  function IdTags(ids: seq<string>, from: nat): (r: seq<Tag>)
    ensures |r| == |ids|
  {
    if |ids| == 0 then [] else [IdTag(ids[0], from + 1)] + IdTags(ids[1..], from + 1)
  }

  /** The tag at position `i` numbers its id `from + i + 1`. */
  lemma {:induction false} IdTagsAt(ids: seq<string>, from: nat, i: nat)
    requires i < |ids|
    ensures IdTags(ids, from)[i] == IdTag(ids[i], from + i + 1)
    decreases i
  {
    if i > 0 {
      IdTagsAt(ids[1..], from + 1, i - 1);
    }
  }

  /** The rendered tags; None when the component renders nothing. */
  function View(room: Room): (r: Option<seq<Tag>>)
    ensures room.adminUserIds.None? && room.admins.None? && room.adminProfiles.None? ==> r.None?
    ensures r.None? <==> |IdList(room)| == 0 && (room.adminProfiles.None? || |room.adminProfiles.value| == 0)
    ensures r.Some? && room.adminProfiles.Some? ==> |r.value| == |room.adminProfiles.value|
    ensures r.Some? && room.adminProfiles.None? ==> |r.value| == |IdList(room)| > 0
    ensures r.Some? && room.adminProfiles.Some? ==> r.value == ProfileTags(room.adminProfiles.value)
    ensures r.Some? && room.adminProfiles.None? ==>
              forall i :: 0 <= i < |r.value| ==> r.value[i] == IdTag(IdList(room)[i], i + 1)
  {
    if room.adminUserIds.None? && room.admins.None? && room.adminProfiles.None? then None
    else if |IdList(room)| == 0 && (room.adminProfiles.None? || |room.adminProfiles.value| == 0) then None
    else if room.adminProfiles.Some? then Some(ProfileTags(room.adminProfiles.value))
    else
      var ids := IdList(room);
      assert forall i :: 0 <= i < |ids| ==> IdTags(ids, 0)[i] == IdTag(ids[i], i + 1) by {
        forall i | 0 <= i < |ids| {
          IdTagsAt(ids, 0, i);
        }
      }
      Some(IdTags(ids, 0))
  }

  /** An empty id array hides the `admins` fallback: it is truthy, so nothing is rendered. */
  lemma EmptyIdsHideAdmins(admins: seq<string>)
    ensures View(Room(Some([]), Some(admins), None)).None?
  {
  }

  /** With profiles present, the id lists never show, even when the profile list is empty. */
  lemma ProfilesPreferred(ids: seq<string>, ps: seq<AdminProfile>)
    requires |ids| > 0
    ensures View(Room(Some(ids), None, Some(ps))) == Some(ProfileTags(ps))
  {
  }
}
