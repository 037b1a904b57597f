/** The notification record shared by the server and the client, and the
    three push events the server sends to a user's room. */
module Notifications {
  import opened Wrappers

  type NotificationId = nat
  type UserId = nat

  /** One notification row as the REST endpoints and the push channel deliver it.
      `kind` is the row's `type` column; absent optional columns are JSON `null`. */
  datatype Notification = Notification(
    id: NotificationId,
    kind: string,
    senderId: Option<UserId>,
    relatedId: Option<nat>,
    message: string,
    isRead: bool,
    createdAt: int,
    senderDisplayName: Option<string>,
    senderUsername: Option<string>,
    animeTitle: Option<string>)

  /** The closed set of server-to-client events, each with its payload. */
  datatype PushEvent =
    | NewNotification(notification: Notification)
    | UnreadCountUpdate(count: int)
    | NotificationDeleted(notificationId: NotificationId)

  /** The event name the server emits for each kind of push. */
  function EventName(e: PushEvent): (name: string)
    ensures name in {"newNotification", "unreadCountUpdate", "notificationDeleted"}
    ensures e.NewNotification? <==> name == "newNotification"
    ensures e.UnreadCountUpdate? <==> name == "unreadCountUpdate"
    ensures e.NotificationDeleted? <==> name == "notificationDeleted"
  {
    match e
    case NewNotification(_) => "newNotification"
    case UnreadCountUpdate(_) => "unreadCountUpdate"
    case NotificationDeleted(_) => "notificationDeleted"
  }

  /** Distinct kinds of event travel under distinct names. */
  lemma EventNameDistinguishesKinds(a: PushEvent, b: PushEvent)
    ensures EventName(a) == EventName(b) <==>
              (a.NewNotification? && b.NewNotification?)
              || (a.UnreadCountUpdate? && b.UnreadCountUpdate?)
              || (a.NotificationDeleted? && b.NotificationDeleted?)
  {
  }
}
