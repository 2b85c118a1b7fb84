/** The records the lifecycle works on besides `User`: bookings, ratings,
    notification events, and the exceptions the services throw. */
module Entities {
  import opened Wrappers
  import opened Users

  type BookingId = nat

  /** The four values the services ever write into `bookingStatus`. */
  datatype BookingStatus = Pending | Accepted | Rejected | Completed {
    function Name(): string {
      match this
      case Pending => "PENDING"
      case Accepted => "ACCEPTED"
      case Rejected => "REJECTED"
      case Completed => "COMPLETED"
    }
  }

  /** A booking row. `details` is the free-text `bookingDetails` column; the
      charge and both completion timestamps stay null until the lifecycle
      sets them. */
  datatype Booking = Booking(
    id: BookingId,
    customer: UserId,
    cook: UserId,
    details: Option<string>,
    status: BookingStatus,
    requestedAt: Option<Time>,
    totalCharges: Option<Charge>,
    serviceCompletedAt: Option<Time>,
    paymentCompletedAt: Option<Time>)

  /** The order in which the lifecycle fills a booking in: a completed
      booking has been paid, a paid booking has been served, and a served
      booking has a charge. */
  predicate Consistent(b: Booking) {
    && (b.status == Completed ==> b.paymentCompletedAt.Some?)
    && (b.paymentCompletedAt.Some? ==> b.serviceCompletedAt.Some?)
    && (b.serviceCompletedAt.Some? ==> b.totalCharges.Some?)
  }

  /** A star rating as the request validation admits it (`@Min(1) @Max(5)`). */
  type Score = x: int | 1 <= x <= 5 witness 1

  /** A rating row: which booking, who rated, which cook, how many stars. */
  datatype Rating = Rating(
    id: nat,
    bookingId: BookingId,
    ratedBy: UserId,
    ratedCook: UserId,
    value: Score,
    comment: Option<string>)

  /** `sendNotificationToUser` publishes on `/topic/user/{id}`,
      `sendNotificationToCook` on `/topic/cook/{id}`. */
  datatype Topic = UserTopic | CookTopic

  /** A dispatched notification: where it went, to whom, its event type, the
      booking it is about and who triggered it. */
  datatype Notification = Notification(
    topic: Topic,
    recipient: UserId,
    kind: string,
    bookingId: BookingId,
    sender: UserId)

  /** Why an operation gave up. */
  datatype Reason =
    | UserNotFound
    | NotAnEmail
    | CookNotFound
    | BookingNotFound
    | NotBookingCook
    | NotBookingCustomer
    | InvalidStatus
    | NotAccepted
    | ServiceAlreadyComplete
    | ServiceNotComplete
    | PaymentAlreadyReceived
    | BookingFinished
    | PaymentNotCompleted
    | NotCompleted
    | AlreadyRated
    | UsernameTaken
    | EmailTaken
    | InvalidSetupToken
    | AccountDisabled
    | BlankAuthority

  /** The exception class thrown, with the reason behind it. */
  datatype Error =
    | IllegalArgument(reason: Reason)
    | IllegalState(reason: Reason)
    | UsernameNotFound(reason: Reason)
    | BadCredentials
}
