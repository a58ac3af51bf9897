/**
  The Notification record. The schema names its location fields `cityName` and
  `stateName`; the reply controller writes `city` and `state` instead, so a stored
  notification carries those undeclared fields and no declared location.
 */
module NotificationModel {
  import opened Wrappers
  import opened Docs

  /** The `type` enum. */
  datatype Kind = ReplyToQuestion | ReplyToReply

  /** Thirty days in milliseconds, the default lifetime. */
  const THIRTY_DAYS_MS: int := 30 * 24 * 60 * 60 * 1000

  datatype Notification = Notification(
    recipientId: Id,
    senderId: Id,
    cityName: Option<string>,
    stateName: Option<string>,
    kind: Kind,
    questionId: Id,
    replyId: Option<Id>,
    message: string,
    isRead: bool,
    expiresAt: int,
    // written by the reply controller, not declared by the schema
    state: string,
    city: string)

  /** The schema's validators: the message is required (the ids are always given). */
  predicate Valid(n: Notification) {
    n.message != ""
  }

  /** `Notification.create({...})` as the reply controller calls it at time `now`: unread,
      expiring thirty days later, and without the declared location fields. */
  function New(recipientId: Id, senderId: Id, kind: Kind, questionId: Id, replyId: Id,
               state: string, city: string, message: string, now: int): (n: Notification)
    ensures !n.isRead && n.expiresAt == now + 2592000000
    ensures n.cityName.None? && n.stateName.None?
    ensures n.recipientId == recipientId && n.replyId == Some(replyId) && n.questionId == questionId
  {
    Notification(recipientId, senderId, None, None, kind, questionId, Some(replyId), message, false,
                 now + THIRTY_DAYS_MS, state, city)
  }
}
