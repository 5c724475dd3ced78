/**
 * `useGetBetsForRoom`: when the room's bets are fetched, how the response payload is unwrapped,
 * and the filters over the room's bets.
 */
module BetsForRoom {
  import opened Common
  import opened Collections

  datatype Bet = Bet(userId: Option<string>, pointsWagered: Option<int>)

  /** A response object: `data` may hold the payload itself or wrap it in another `data`. */
  datatype Payload = Payload(
    data: Option<Payload>,
    bets: Option<seq<Bet>>,
    count: Option<int>,
    roomId: Option<string>,
    message: Option<string>)

  datatype Response = Response(data: Option<Payload>, message: Option<string>)

  const EmptyPayload := Payload(None, None, None, None, None)

  /** The query runs only for a present, non-empty room id, when enabled, and with a token. */
  predicate HasRequiredParams(roomId: Option<string>) {
    roomId.Some? && roomId.value != ""
  }

  function IsEnabled(roomId: Option<string>, enabled: bool, idToken: Option<string>): (r: bool)
    ensures r ==> roomId.Some? && roomId.value != "" && idToken.Some? && idToken.value != ""
    ensures !enabled || roomId == Some("") || idToken == Some("") ==> !r
    ensures enabled && HasRequiredParams(roomId) && idToken.Some? && idToken.value != "" ==> r
  {
    enabled && HasRequiredParams(roomId) && TruthyStr(idToken)
  }

  /** `data?.data?.data || data?.data || {}`. */
  function ApiData(response: Option<Response>): (r: Payload)
    ensures response.None? || response.value.data.None? ==> r == EmptyPayload
    ensures response.Some? && response.value.data.Some? && response.value.data.value.data.Some? ==>
              r == response.value.data.value.data.value
    ensures response.Some? && response.value.data.Some? && response.value.data.value.data.None? ==>
              r == response.value.data.value
  {
    if response.Some? && response.value.data.Some? then
      var inner := response.value.data.value;
      if inner.data.Some? then inner.data.value else inner
    else EmptyPayload
  }

  datatype RoomBets = RoomBets(
    bets: seq<Bet>,
    betsCount: int,
    hasBets: bool,
    roomId: Option<string>,
    message: Option<string>)

  /** The values the hook returns; the count is the server's `count`, not the number of bets. */
  function Values(response: Option<Response>, roomId: Option<string>): (r: RoomBets)
    ensures r.hasBets <==> |r.bets| > 0
    ensures r.bets == ApiData(response).bets.GetOr([])
    ensures r.betsCount == OrZero(ApiData(response).count)
    ensures response.None? ==> r.bets == [] && r.betsCount == 0 && r.roomId == roomId && r.message.None?
    ensures TruthyStr(ApiData(response).roomId) ==> r.roomId == ApiData(response).roomId
    ensures !TruthyStr(ApiData(response).roomId) ==> r.roomId == roomId
  {
    var api := ApiData(response);
    var bets := if api.bets.Some? then api.bets.value else [];
    var message := if TruthyStr(api.message) then api.message
                   else if response.Some? && TruthyStr(response.value.message) then response.value.message
                   else None;
    RoomBets(bets, OrZero(api.count), |bets| > 0, if TruthyStr(api.roomId) then api.roomId else roomId, message)
  }

  /** The count and the bets are independent: a payload can report a count with no bets. */
  lemma CountIsNotLength()
    ensures var r := Values(Some(Response(Some(Payload(None, Some([]), Some(5), None, None)), None)), None);
            r.betsCount == 5 && !r.hasBets
  {
  }

  // ----- filters -----

  /** `getBetsByUser`: strict equality, so a missing id selects the bets without a user id. */
  function BetsByUser(bets: seq<Bet>, userId: Option<string>): (r: seq<Bet>)
    ensures forall b :: b in r <==> b in bets && b.userId == userId
    ensures |r| <= |bets|
  {
    Filter(bets, (b: Bet) => b.userId == userId)
  }

  /** `getCurrentUserBets`: nothing for a falsy id, else that user's bets. */
  function CurrentUserBets(bets: seq<Bet>, currentUserId: Option<string>): (r: seq<Bet>)
    ensures !TruthyStr(currentUserId) ==> r == []
    ensures TruthyStr(currentUserId) ==> r == BetsByUser(bets, currentUserId)
  {
    if !TruthyStr(currentUserId) then [] else Filter(bets, (b: Bet) => b.userId == currentUserId)
  }

  /** `getOtherUsersBets`: nothing for a falsy id, else every bet of another user (or of none). */
  function OtherUsersBets(bets: seq<Bet>, currentUserId: Option<string>): (r: seq<Bet>)
    ensures !TruthyStr(currentUserId) ==> r == []
    ensures TruthyStr(currentUserId) ==> forall b :: b in r <==> b in bets && b.userId != currentUserId
  {
    if !TruthyStr(currentUserId) then [] else Filter(bets, (b: Bet) => b.userId != currentUserId)
  }

  /** For a truthy id the current user's bets and the others' bets split the room's bets. */
  lemma CurrentAndOthersPartition(bets: seq<Bet>, currentUserId: Option<string>)
    requires TruthyStr(currentUserId)
    ensures multiset(CurrentUserBets(bets, currentUserId)) + multiset(OtherUsersBets(bets, currentUserId)) == multiset(bets)
    ensures |CurrentUserBets(bets, currentUserId)| + |OtherUsersBets(bets, currentUserId)| == |bets|
    ensures forall b :: !(b in CurrentUserBets(bets, currentUserId) && b in OtherUsersBets(bets, currentUserId))
  {
    FilterPartition(bets, (b: Bet) => b.userId == currentUserId, (b: Bet) => b.userId != currentUserId);
  }

  /** `getBetsByPoints`: strict equality on the points wagered. */
  function BetsByPoints(bets: seq<Bet>, points: Option<int>): (r: seq<Bet>)
    ensures forall b :: b in r <==> b in bets && b.pointsWagered == points
    ensures |r| <= |bets|
  {
    Filter(bets, (b: Bet) => b.pointsWagered == points)
  }

  /** Bets on different point values never overlap. */
  lemma PointsGroupsDisjoint(bets: seq<Bet>, p: int, q: int)
    requires p != q
    ensures forall b :: !(b in BetsByPoints(bets, Some(p)) && b in BetsByPoints(bets, Some(q)))
  {
  }
}
