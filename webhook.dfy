/**
 * app/api/webhooks/daily/route.ts: the video-call webhook. A joined or ended
 * event becomes one unread notification row; other events are acknowledged
 * and dropped.
 */
module DailyWebhook {

  import opened Wrappers
  import opened Strings
  import opened Notifications

  /** A webhook event; the payload is read as whichever shape the type announces. */
  datatype WebhookEvent = WebhookEvent(version: string, eventType: string, eventTs: int, payload: Payload)

  datatype ResponseBody = SuccessBody | ErrorBody(error: string)

  datatype HttpResponse = HttpResponse(status: int, body: ResponseBody)

  /** The row the handler tried to insert, if any, and the answer sent back. */
  datatype Outcome = Outcome(attempted: Option<NotificationInsert>, response: HttpResponse)

  const UnknownParticipant := "Unknown Participant"

  const Ok := HttpResponse(200, SuccessBody)

  const ServerError := HttpResponse(500, ErrorBody("Internal server error"))

  /** `handleParticipantJoined`'s row: a falsy user name becomes "Unknown Participant". */
  function ParticipantJoinedRow(payload: Payload): (row: NotificationInsert)
    ensures row.notificationType == ParticipantJoined
    ensures row.roomName == payload.room
    ensures row.participantId == payload.sessionId
    ensures row.eventData == Some(payload) && row.isRead == Some(false)
    ensures payload.userName.Some? && payload.userName.value != "" ==> row.participantName == payload.userName
    ensures payload.userName.None? || payload.userName == Some("") ==> row.participantName == Some(UnknownParticipant)
  {
    NotificationInsert(
      ParticipantJoined,
      payload.room,
      Some(OrElse(payload.userName, UnknownParticipant)),
      payload.sessionId,
      Some(payload),
      Some(false))
  }

  /** `handleMeetingEnded`'s row: no participant at all. */
  function MeetingEndedRow(payload: Payload): (row: NotificationInsert)
    ensures row.notificationType == MeetingEnded
    ensures row.roomName == payload.room
    ensures row.participantName.None? && row.participantId.None?
    ensures row.eventData == Some(payload) && row.isRead == Some(false)
  {
    NotificationInsert(MeetingEnded, payload.room, None, None, Some(payload), Some(false))
  }

  /** The dispatch on `event.type`: only the two known types produce a row. */
  function RowFor(event: WebhookEvent): (row: Option<NotificationInsert>)
    ensures event.eventType == "participant.joined" ==> row == Some(ParticipantJoinedRow(event.payload))
    ensures event.eventType == "meeting.ended" ==> row == Some(MeetingEndedRow(event.payload))
    ensures row.None? <==> event.eventType != "participant.joined" && event.eventType != "meeting.ended"
  {
    if event.eventType == "participant.joined" then Some(ParticipantJoinedRow(event.payload))
    else if event.eventType == "meeting.ended" then Some(MeetingEndedRow(event.payload))
    else None
  }

  /**
   * `POST`: `body` is `None` when reading `event.type` throws: the request is
   * not valid JSON, or it is JSON `null`. A JSON primitive has no `type` and is
   * an event of unknown type. `insertOk` is the outcome of the insert. A throw
   * or a failed insert is caught and answered with 500; everything else,
   * unknown types included, with 200.
   */
  function Post(body: Option<WebhookEvent>, insertOk: bool): (out: Outcome)
    ensures body.None? ==> out == Outcome(None, ServerError)
    ensures body.Some? ==> out.attempted == RowFor(body.value)
    ensures out.response == Ok || out.response == ServerError
    ensures out.response == Ok <==> body.Some? && (out.attempted.None? || insertOk)
  {
    if body.None? then Outcome(None, ServerError)
    else
      var row := RowFor(body.value);
      if row.Some? && !insertOk then Outcome(row, ServerError)
      else Outcome(row, Ok)
  }

  /** An unknown event type inserts nothing and is still acknowledged with 200. */
  lemma UnknownEventAcknowledged(event: WebhookEvent, insertOk: bool)
    requires event.eventType != "participant.joined" && event.eventType != "meeting.ended"
    ensures Post(Some(event), insertOk) == Outcome(None, Ok)
  {
  }
}
