/**
 * components/DailyNotifications.tsx: the notification bell. It keeps the
 * latest rows and an unread counter that each handler adjusts on its own,
 * without recounting the rows.
 */
module NotificationCenter {

  import opened Wrappers
  import opened Notifications

  /**
   * The badge over the bell: hidden when nothing is unread, "9+" above nine,
   * otherwise the count as one digit.
   */
  function BadgeText(count: int): (badge: Option<string>)
    ensures badge.None? <==> count <= 0
    ensures count > 9 ==> badge == Some("9+")
    ensures 0 < count <= 9 ==> |badge.value| == 1 && badge.value[0] as int - '0' as int == count
  {
    if count <= 0 then None
    else if count > 9 then Some("9+")
    else Some([('0' as int + count) as char])
  }

  class NotificationCenterState {
    var notifications: seq<Notification>
    var unreadCount: int

    /** The counter never goes below zero. */
    predicate Valid()
      reads this
    {
      unreadCount >= 0
    }

    constructor ()
      ensures Valid() && notifications == [] && unreadCount == 0
    {
      notifications, unreadCount := [], 0;
    }

    /**
     * `loadNotifications` with the query's outcome: an error changes nothing;
     * otherwise the rows (none for `null`) replace the list and are counted.
     */
    method Load(result: QueryResult<seq<Notification>>)
      requires Valid()
      modifies this
      ensures Valid()
      ensures result.QueryError? ==> notifications == old(notifications) && unreadCount == old(unreadCount)
      ensures result.QueryData? ==>
        notifications == result.data.GetOr([]) && unreadCount == CountUnread(notifications)
    {
      if result.QueryError? {
        return;
      }
      notifications := result.data.GetOr([]);
      unreadCount := CountUnread(notifications);
    }

    /** `handleNewNotification`: prepend the row and count one more, read or not. */
    method HandleNew(row: Notification)
      requires Valid()
      modifies this
      ensures Valid()
      ensures notifications == [row] + old(notifications)
      ensures unreadCount == old(unreadCount) + 1
    {
      notifications := [row] + notifications;
      unreadCount := unreadCount + 1;
    }

    /**
     * `markAsRead` with the update's outcome: on success the rows with that id
     * become read and the counter drops by one, stopping at zero, even when
     * the row was already read.
     */
    method MarkAsRead(id: string, updateOk: bool)
      requires Valid()
      modifies this
      ensures Valid()
      ensures !updateOk ==> notifications == old(notifications) && unreadCount == old(unreadCount)
      ensures updateOk ==>
        notifications == MarkRead(old(notifications), id)
        && unreadCount == if old(unreadCount) > 0 then old(unreadCount) - 1 else 0
    {
      if !updateOk {
        return;
      }
      notifications := MarkRead(notifications, id);
      unreadCount := if unreadCount - 1 > 0 then unreadCount - 1 else 0;
    }

    /**
     * `markAllAsRead`: `ids` is the set of unread ids sent to the backend;
     * when there is none no request is made and nothing changes.
     */
    method MarkAllAsRead(updateOk: bool) returns (ids: seq<string>)
      requires Valid()
      modifies this
      ensures Valid()
      ensures ids == UnreadIds(old(notifications))
      ensures ids == [] || !updateOk ==> notifications == old(notifications) && unreadCount == old(unreadCount)
      ensures ids != [] && updateOk ==> notifications == MarkAllRead(old(notifications)) && unreadCount == 0
    {
      ids := UnreadIds(notifications);
      if |ids| == 0 || !updateOk {
        return;
      }
      notifications := MarkAllRead(notifications);
      unreadCount := 0;
    }

    /** The text of the bell's badge. */
    function Badge(): (badge: Option<string>)
      reads this
      ensures Valid() ==> (badge.None? <==> unreadCount == 0)
      ensures unreadCount > 9 ==> badge == Some("9+")
    {
      BadgeText(unreadCount)
    }
  }

  /**
   * Because the counter is adjusted rather than recounted, clicking a row that
   * is already read makes it fall behind: with rows a and b unread and c read,
   * clicking c and then a hides the badge although b is still unread.
   */
  method CounterFallsBehind(a: Notification, b: Notification, c: Notification)
    returns (badge: Option<string>, unreadRows: nat)
    requires !a.isRead && !b.isRead && c.isRead
    requires a.id != b.id && b.id != c.id && a.id != c.id
    ensures badge == None && unreadRows == 1
  {
    var center := new NotificationCenterState();
    var rows := [a, b, c];
    center.Load(QueryData(Some(rows)));
    assert rows[1..] == [b, c] && rows[1..][1..] == [c] && [c][1..] == [];
    assert CountUnread([c]) == 0 && CountUnread([b, c]) == 1 && CountUnread(rows) == 2;
    center.MarkAsRead(c.id, true);
    center.MarkAsRead(a.id, true);
    badge := center.Badge();
    var now := center.notifications;
    assert now == [a.(isRead := true), b, c];
    assert now[1..] == [b, c] && now[1..][1..] == [c];
    assert CountUnread(now) == CountUnread([b, c]);
    unreadRows := CountUnread(now);
  }
}
