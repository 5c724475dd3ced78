/** `NotificationsList`: flattening the context's notifications and acknowledging one of them. */
module NotificationsList {
  import opened Common
  import opened Text
  import opened Notifications

  /** An element of the list: a notification, or (from the nested shape) an array of them. */
  datatype Item = Single(n: Notification) | Group(ns: seq<Notification>)

  /** `xs.flat()`: arrays are spliced in one level deep, other elements kept. */
  function Flat(items: seq<Item>): (r: seq<Item>)
    ensures forall i :: 0 <= i < |r| ==> r[i].Single?
    ensures (forall i :: 0 <= i < |items| ==> items[i].Single?) ==> r == items
  {
    if |items| == 0 then []
    else
      (match items[0]
       case Single(n) => [Single(n)]
       case Group(ns) => Singles(ns)) + Flat(items[1..])
  }

  /** Flattening works element by element: a list splits into its parts, flattened separately. */
  lemma {:induction false} FlatAppend(a: seq<Item>, b: seq<Item>)
    ensures Flat(a + b) == Flat(a) + Flat(b)
    decreases |a|
  {
    if |a| == 0 {
      assert a + b == b;
    } else {
      assert (a + b)[0] == a[0];
      assert (a + b)[1..] == a[1..] + b;
      FlatAppend(a[1..], b);
    }
  }

  /** A single notification stays as it is; a group is spliced in as its notifications, in order. */
  lemma FlatOne(item: Item)
    ensures item.Single? ==> Flat([item]) == [item]
    ensures item.Group? ==> Flat([item]) == Singles(item.ns)
  {
  }

  function Singles(ns: seq<Notification>): (r: seq<Item>)
    ensures |r| == |ns|
    ensures forall i :: 0 <= i < |r| ==> r[i] == Single(ns[i])
  {
    if |ns| == 0 then [] else [Single(ns[0])] + Singles(ns[1..])
  }

  /** Flattening only when the first element is an array; otherwise the list is used as it is. */
  function FlatNotifications(items: Option<seq<Item>>): (r: Option<seq<Item>>)
    ensures items.None? ==> r.None?
    ensures items.Some? && (|items.value| == 0 || items.value[0].Single?) ==> r == items
    ensures items.Some? && |items.value| > 0 && items.value[0].Group? ==>
              r.Some? && forall i :: 0 <= i < |r.value| ==> r.value[i].Single?
  {
    if items.Some? && |items.value| > 0 && items.value[0].Group? then Some(Flat(items.value)) else items
  }

  /** The flattened list holds as many notifications as the groups and single items together. */
  function Count(items: seq<Item>): nat {
    if |items| == 0 then 0
    else (match items[0] case Single(_) => 1 case Group(ns) => |ns|) + Count(items[1..])
  }

  lemma {:induction false} FlatKeepsCount(items: seq<Item>)
    ensures |Flat(items)| == Count(items)
    decreases |items|
  {
    if |items| > 0 {
      FlatKeepsCount(items[1..]);
    }
  }

  predicate ShowsEmpty(items: Option<seq<Item>>) {
    var f := FlatNotifications(items);
    f.None? || |f.value| == 0
  }

  /** "No notifications" exactly when there is no list or the list (flattened or not) is empty. */
  lemma EmptyMessageIff(items: Option<seq<Item>>)
    ensures ShowsEmpty(items) <==> items.None? || |items.value| == 0 || (items.value[0].Group? && Count(items.value) == 0)
  {
    if items.Some? && |items.value| > 0 && items.value[0].Group? {
      FlatKeepsCount(items.value);
    }
  }

  const UserMarker := "USER#"
  const NotificationMarker := "NOTIFICATION#"

  /** `key?.split(marker)[1] || ""`. */
  function KeyPart(key: Option<string>, marker: string): (r: string)
    requires |marker| > 0
    ensures key.None? ==> r == ""
    ensures key.Some? && !Includes(key.value, marker) ==> r == ""
    ensures !Includes(r, marker)
  {
    if key.None? then ""
    else
      var part := SplitSecond(key.value, marker);
      if part.Some? then
        part.value
      else
        assert !Includes("", marker) by {
          assert forall k :: !OccursAt("", marker, k);
        }
        ""
  }

  datatype Acknowledgement = InvalidData | Acknowledge(userId: string, notificationId: string)

  /** `handleAcknowledge`: both ids must be non-empty, else the error is shown and nothing is sent. */
  function HandleAcknowledge(n: Notification): (r: Acknowledgement)
    ensures r.InvalidData? <==> KeyPart(n.pk, UserMarker) == "" || KeyPart(n.sk, NotificationMarker) == ""
    ensures r.Acknowledge? ==> r.userId == KeyPart(n.pk, UserMarker) && r.notificationId == KeyPart(n.sk, NotificationMarker)
  {
    var userId := KeyPart(n.pk, UserMarker);
    var notificationId := KeyPart(n.sk, NotificationMarker);
    if userId == "" || notificationId == "" then InvalidData else Acknowledge(userId, notificationId)
  }

  /** Keys written as "USER#<id>" and "NOTIFICATION#<id>" give back the ids they were built from. */
  lemma AcknowledgeRoundTrip(userId: string, notificationId: string, message: Option<string>, timestamp: Option<int>)
    requires |userId| > 0 && !Includes(userId, UserMarker)
    requires |notificationId| > 0 && !Includes(notificationId, NotificationMarker)
    ensures HandleAcknowledge(Notification(Some(UserMarker + userId), Some(NotificationMarker + notificationId), message, timestamp))
            == Acknowledge(userId, notificationId)
  {
    SplitSecondOfKey(UserMarker, userId);
    SplitSecondOfKey(NotificationMarker, notificationId);
  }

  /** A key without its marker can never be acknowledged. */
  lemma MissingMarkerIsInvalid(n: Notification)
    requires n.pk.Some? && !Includes(n.pk.value, UserMarker)
    ensures HandleAcknowledge(n) == InvalidData
  {
  }
}
