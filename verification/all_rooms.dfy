/**
 * `AllRooms`: the membership status shown for each room, and the room list filtered by the
 * search box and ordered alphabetically by name.
 */
module AllRooms {
  import opened Common
  import opened Text
  import opened Sorting
  import opened Collections

  datatype Room = Room(
    roomId: Option<string>,
    roomName: Option<string>,
    description: Option<string>,
    membershipStatus: Option<string>)

  /** `getRoomMembershipStatus`: the room's own status, "none" when it is missing or empty. */
  function MembershipStatus(room: Room): (r: string)
    ensures |r| > 0
    ensures TruthyStr(room.membershipStatus) ==> r == room.membershipStatus.value
    ensures !TruthyStr(room.membershipStatus) ==> r == "none"
  {
    StrOr(room.membershipStatus, "none")
  }

  /** `field?.toLowerCase().includes(searchLower)`: a missing field never matches. */
  predicate FieldMatches(field: Option<string>, search: string) {
    field.Some? && Includes(Lower(field.value), Lower(search))
  }

  /**
   * A room matches when its name or description contains the search text ignoring case, or its id
   * contains the search text exactly as typed.
   */
  predicate Matches(room: Room, search: string) {
    FieldMatches(room.roomName, search) || FieldMatches(room.description, search) ||
    (room.roomId.Some? && Includes(room.roomId.value, search))
  }

  /** The sort key: the lower-cased name, "" for a missing name. */
  function NameKey(room: Room): string {
    if room.roomName.Some? then Lower(room.roomName.value) else ""
  }

  function MatchesSearch(search: string): Room -> bool {
    (x: Room) => Matches(x, search)
  }

  /** The rooms the search keeps: all of them for blank search text, else the matching ones in order. */
  function Searched(rooms: seq<Room>, search: string): (r: seq<Room>)
    ensures AllSpace(search) ==> r == rooms
    ensures forall x :: x in r <==> x in rooms && (AllSpace(search) || Matches(x, search))
  {
    TrimEmptyIff(search);
    if Trim(search) != "" then Filter(rooms, MatchesSearch(search)) else rooms
  }

  /**
   * `sortedAndFilteredRooms`: [] without rooms; otherwise the searched rooms re-ordered by name,
   * case-insensitively, each kept exactly as often as in the input.
   */
  function SortedAndFiltered(allRooms: Option<seq<Room>>, search: string): (r: seq<Room>)
    ensures allRooms.None? || |allRooms.value| == 0 ==> r == []
    ensures SortedAsc(r, NameKey)
    ensures allRooms.Some? ==> multiset(r) == multiset(Searched(allRooms.value, search))
    ensures forall x :: x in r <==> allRooms.Some? && x in allRooms.value && (AllSpace(search) || Matches(x, search))
  {
    if allRooms.None? || |allRooms.value| == 0 then []
    else
      var kept := Searched(allRooms.value, search);
      var r := SortAsc(kept, NameKey);
      assert forall x :: x in r <==> x in multiset(r);
      assert forall x :: x in kept <==> x in multiset(kept);
      r
  }

  /** Blank search text keeps every room, each as often as it was listed. */
  lemma BlankSearchKeepsAll(rooms: seq<Room>, search: string)
    requires AllSpace(search)
    ensures multiset(SortedAndFiltered(Some(rooms), search)) == multiset(rooms)
  {
  }

  /** Name and description matching ignore the case of the search text; the id match does not. */
  lemma NameMatchIgnoresSearchCase(field: Option<string>, search: string)
    ensures FieldMatches(field, search) == FieldMatches(field, Lower(search))
  {
    LowerIdempotent(search);
  }

  /** Searching again with the same text changes nothing: the kept rooms all match. */
  lemma SearchIdempotent(rooms: seq<Room>, search: string)
    ensures Searched(Searched(rooms, search), search) == Searched(rooms, search)
  {
    var once := Searched(rooms, search);
    if !AllSpace(search) {
      FilterKeepsAllWhenAllPass(once, MatchesSearch(search));
    }
  }
}
