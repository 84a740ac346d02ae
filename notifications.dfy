/**
 * The video-call notification records of types/daily.ts and the list updates
 * that the two notification components apply to them.
 */
module Notifications {

  import opened Wrappers

  datatype NotificationType = ParticipantJoined | MeetingEnded

  /**
   * The fields of a video-call webhook payload that the portal reads; the
   * remaining fields (times, permissions, ...) are carried along unread.
   */
  datatype Payload = Payload(room: string, sessionId: Option<string>, userName: Option<string>)

  /** A stored notification row. */
  datatype Notification = Notification(
    id: string,
    notificationType: NotificationType,
    roomName: string,
    participantName: Option<string>,
    participantId: Option<string>,
    eventData: Option<Payload>,
    isRead: bool,
    createdAt: string)

  /** A row to insert; the store assigns `id` and `created_at`. */
  datatype NotificationInsert = NotificationInsert(
    notificationType: NotificationType,
    roomName: string,
    participantName: Option<string>,
    participantId: Option<string>,
    eventData: Option<Payload>,
    isRead: Option<bool>)

  /** The number of unread rows: `list.filter(n => !n.is_read).length`. */
  function CountUnread(list: seq<Notification>): (count: nat)
    ensures count <= |list|
    decreases |list|
  {
    if list == [] then 0
    else (if list[0].isRead then 0 else 1) + CountUnread(list[1..])
  }

  /** No row is unread exactly when every row is read. */
  lemma {:induction false} CountUnreadZeroIff(list: seq<Notification>)
    ensures CountUnread(list) == 0 <==> forall i :: 0 <= i < |list| ==> list[i].isRead
    decreases |list|
  {
    if list != [] {
      CountUnreadZeroIff(list[1..]);
      assert forall i :: 1 <= i < |list| ==> list[i] == list[1..][i - 1];
    }
  }

  /** The ids of the unread rows: `list.filter(n => !n.is_read).map(n => n.id)`. */
  function UnreadIds(list: seq<Notification>): (ids: seq<string>)
    ensures |ids| == CountUnread(list)
    ensures forall id :: id in ids <==> exists j :: 0 <= j < |list| && !list[j].isRead && list[j].id == id
    decreases |list|
  {
    if list == [] then []
    else
      var rest := UnreadIds(list[1..]);
      assert forall j :: 1 <= j < |list| ==> list[j] == list[1..][j - 1];
      assert forall id :: id in rest ==> exists j :: 0 <= j < |list| && !list[j].isRead && list[j].id == id by {
        forall id | id in rest ensures exists j :: 0 <= j < |list| && !list[j].isRead && list[j].id == id {
          var k :| 0 <= k < |list[1..]| && !list[1..][k].isRead && list[1..][k].id == id;
          assert list[k + 1] == list[1..][k];
        }
      }
      (if list[0].isRead then [] else [list[0].id]) + rest
  }

  /** The ids follow the rows' order: the ids of two lists are the ids of each, in turn. */
  lemma {:induction false} UnreadIdsConcat(a: seq<Notification>, b: seq<Notification>)
    ensures UnreadIds(a + b) == UnreadIds(a) + UnreadIds(b)
    decreases |a|
  {
    if a == [] {
      assert a + b == b;
    } else {
      assert (a + b)[0] == a[0];
      assert (a + b)[1..] == a[1..] + b;
      UnreadIdsConcat(a[1..], b);
    }
  }

  /**
   * `list.map(n => n.id === id ? { ...n, is_read: true } : n)`: the rows with
   * that id become read, every other row stays as it was.
   */
  function MarkRead(list: seq<Notification>, id: string): (r: seq<Notification>)
    ensures |r| == |list|
    ensures forall i :: 0 <= i < |list| && list[i].id != id ==> r[i] == list[i]
    ensures forall i :: 0 <= i < |list| && list[i].id == id ==> r[i] == list[i].(isRead := true)
    decreases |list|
  {
    if list == [] then []
    else
      [if list[0].id == id then list[0].(isRead := true) else list[0]] + MarkRead(list[1..], id)
  }

  /** `list.map(n => ({ ...n, is_read: true }))`: every row read, nothing else changed. */
  function MarkAllRead(list: seq<Notification>): (r: seq<Notification>)
    ensures |r| == |list|
    ensures forall i :: 0 <= i < |list| ==> r[i] == list[i].(isRead := true)
    decreases |list|
  {
    if list == [] then []
    else [list[0].(isRead := true)] + MarkAllRead(list[1..])
  }

  /**
   * `list.map(n => n.id === row.id ? row : n)`: every row with the new row's id
   * is replaced by it, in place.
   */
  function ReplaceById(list: seq<Notification>, row: Notification): (r: seq<Notification>)
    ensures |r| == |list|
    ensures forall i :: 0 <= i < |list| ==> r[i] == if list[i].id == row.id then row else list[i]
    decreases |list|
  {
    if list == [] then []
    else [if list[0].id == row.id then row else list[0]] + ReplaceById(list[1..], row)
  }

  /** After marking everything read nothing is unread. */
  lemma MarkAllReadLeavesNoneUnread(list: seq<Notification>)
    ensures CountUnread(MarkAllRead(list)) == 0
  {
    CountUnreadZeroIff(MarkAllRead(list));
  }

  /** Marking one id read removes exactly the unread rows with that id from the count. */
  lemma {:induction false} MarkReadCount(list: seq<Notification>, id: string)
    ensures CountUnread(MarkRead(list, id)) == CountUnread(list) - CountUnreadWithId(list, id)
    decreases |list|
  {
    if list != [] {
      MarkReadCount(list[1..], id);
      assert MarkRead(list, id)[1..] == MarkRead(list[1..], id);
    }
  }

  /** The number of unread rows that carry the given id. */
  function CountUnreadWithId(list: seq<Notification>, id: string): (count: nat)
    ensures count <= CountUnread(list)
    decreases |list|
  {
    if list == [] then 0
    else (if !list[0].isRead && list[0].id == id then 1 else 0) + CountUnreadWithId(list[1..], id)
  }
}
