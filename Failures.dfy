/** The rejections the handlers send, one constructor per distinct reason,
    and the result type that replaces the early `return res.status(...)`. */
module Failures {
  import opened Dates
  import opened Lifecycle

  datatype Failure =
    // request shape
    | MissingFields
    | NothingToUpdate
    | BadDateFormat
    | BadTimeFormat
    | EndMismatch(expected: string)
    | InvalidStatus
    | RatingOutOfRange
    | ReplyTextRequired
    // lookups
    | SalonNotFound
    | ServiceNotFound
    | StaffNotFound
    | BookingNotFound
    | UserNotFound
    | ReviewNotFound
    | ServiceOtherSalon
    | StaffOtherSalon
    | BookingOtherSalon
    | NotYourBooking
    // policy
    | PastDate
    | SalonNotAccepting
    | SalonClosedOn(day: Weekday)
    | SalonHoliday
    | OutsideSalonHours
    | StaffNotWorkingOn(day: Weekday)
    | OutsideStaffHours
    | NotModifiable(status: Status)
    | SameSlot
    | AlreadyCancelled
    | CannotCancelCompleted
    | CannotCancelNoShow
    | CancellationWindow
    | InvalidTransition(from: Status, to: Status)
    | SuperAdminAsStaff
    | BookingNotCompleted
    | AlreadyReplied
    // conflicts
    | StaffBusy
    | UserBusy
    | AlreadyStaffHere
    | BookingAlreadyReviewed
    | SalonAlreadyReviewed

  datatype Result<+T> = Ok(value: T) | Err(failure: Failure)

  /** The HTTP status each rejection is sent with. */
  function HttpStatus(f: Failure): (code: nat)
    ensures code == 400 || code == 403 || code == 404 || code == 409
    ensures code == 409 <==>
              (f.StaffBusy? || f.UserBusy? || f.AlreadyStaffHere?
               || f.BookingAlreadyReviewed? || f.SalonAlreadyReviewed?)
  {
    match f
    case SalonNotFound | ServiceNotFound | StaffNotFound | BookingNotFound | UserNotFound | ReviewNotFound => 404
    case NotYourBooking => 403
    case StaffBusy | UserBusy | AlreadyStaffHere | BookingAlreadyReviewed | SalonAlreadyReviewed => 409
    case _ => 400
  }
}
