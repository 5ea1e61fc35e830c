/**
 * In-app notifications (`notifications` collection) and the 24-hour
 * auto-notification history (`notification_history` collection).
 */
module NotificationSchema {
  import opened Common

  datatype NotificationType =
    | Message | LocationChange | NearMiss | FriendRequest | FriendAccepted | TrustLevelUp
    | Arrival | Stay | Departure

  /** A stored notification (`NotificationInDB`); the free-form `data` payload is not modelled. */
  datatype Notification = Notification(
    notificationId: string,
    userId: string,
    kind: NotificationType,
    title: string,
    body: string,
    isRead: bool,
    createdAt: Time,
    readAt: Option<Time>)

  /** A stored auto-notification history row (`NotificationHistoryInDB`). */
  datatype HistoryRow = HistoryRow(
    id: string,
    fromUserId: string,
    toUserId: string,
    scheduleId: string,
    kind: string,
    message: string,
    mapLink: string,
    sentAt: Time,
    autoDeleteAt: Time)
}
