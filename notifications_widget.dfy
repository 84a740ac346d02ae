/**
 * components/DailyNotificationsWidget.tsx: the activity panel. It follows
 * inserts and updates of the notification table and marks rows read
 * optimistically, before the backend has answered.
 */
module NotificationsWidget {

  import opened Wrappers
  import opened Notifications

  class NotificationsWidgetState {
    var notifications: seq<Notification>
    var loading: bool

    constructor ()
      ensures notifications == [] && loading
    {
      notifications, loading := [], true;
    }

    /** An INSERT event: the new row goes to the front, the rest stays as it was. */
    method OnInsert(row: Notification)
      modifies this
      ensures notifications == [row] + old(notifications)
      ensures loading == old(loading)
    {
      notifications := [row] + notifications;
    }

    /** An UPDATE event: rows with the new row's id are replaced in place. */
    method OnUpdate(row: Notification)
      modifies this
      ensures notifications == ReplaceById(old(notifications), row)
      ensures loading == old(loading)
    {
      notifications := ReplaceById(notifications, row);
    }

    /**
     * `loadNotifications`: the rows (none for `null`) replace the list unless
     * the query failed; either way loading is over.
     */
    method Load(result: QueryResult<seq<Notification>>)
      modifies this
      ensures result.QueryError? ==> notifications == old(notifications)
      ensures result.QueryData? ==> notifications == result.data.GetOr([])
      ensures !loading
    {
      if result.QueryData? {
        notifications := result.data.GetOr([]);
      }
      loading := false;
    }

    /**
     * `markAsRead`: the rows with that id become read at once; the backend's
     * answer is not looked at, so nothing is ever reverted.
     */
    method MarkAsRead(id: string)
      modifies this
      ensures notifications == MarkRead(old(notifications), id)
      ensures loading == old(loading)
    {
      notifications := MarkRead(notifications, id);
    }
  }

  /** A replacing row that is read does not add unread rows. */
  lemma {:induction false} ReplaceByReadRowCount(list: seq<Notification>, row: Notification)
    requires row.isRead
    ensures CountUnread(ReplaceById(list, row)) <= CountUnread(list)
    decreases |list|
  {
    if list != [] {
      ReplaceByReadRowCount(list[1..], row);
      assert ReplaceById(list, row)[1..] == ReplaceById(list[1..], row);
    }
  }
}
