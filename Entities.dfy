/** The records the scheduler reads and writes. Times of day are minutes
    since midnight, dates are UTC day numbers, instants are milliseconds.
    Field names follow the controllers (`salonId`, `staffId`, `timeSlot`),
    not the older booking schema. */
module Entities {
  import opened Common
  import opened Dates
  import opened Lifecycle

  /** One weekday of a `workingHours` object. */
  datatype DaySchedule = DaySchedule(open: nat, close: nat, isClosed: bool)

  /** A `workingHours` object; a weekday without a key has no schedule. */
  type WorkingHours = map<Weekday, DaySchedule>

  /** The schema defaults shared by salons and staff: 09:00-18:00 on
      weekdays, 10:00-16:00 on Saturday, closed on Sunday. */
  function DefaultWorkingHours(): (wh: WorkingHours)
    ensures wh.Keys == {Sunday, Monday, Tuesday, Wednesday, Thursday, Friday, Saturday}
    ensures forall d :: d in wh ==> (wh[d].isClosed <==> d == Sunday)
    ensures forall d :: d in wh && !wh[d].isClosed ==> wh[d].open < wh[d].close
  {
    var weekday := DaySchedule(9 * 60, 18 * 60, false);
    map[Monday := weekday, Tuesday := weekday, Wednesday := weekday, Thursday := weekday,
        Friday := weekday, Saturday := DaySchedule(10 * 60, 16 * 60, false),
        Sunday := DaySchedule(0, 0, true)]
  }

  /** `schedule && !schedule.isClosed` for the given weekday. */
  predicate IsOpenOn(wh: WorkingHours, d: Weekday) {
    d in wh && !wh[d].isClosed
  }

  datatype Role = Customer | SalonOwner | StaffRole | SuperAdmin

  datatype User = User(role: Role)

  /** Holidays are stored instants; only their UTC date matters. */
  datatype Salon = Salon(isAvailable: bool, workingHours: WorkingHours, holidays: seq<int>)

  /** A service: its salon, its duration in minutes and its price. */
  datatype Service = Service(salonId: Id, duration: nat, price: int)

  /** A staff record: the user it belongs to, its salon, its own schedule. */
  datatype Staff = Staff(userId: Id, salonId: Id, workingHours: WorkingHours)

  /** What a booking handler reads besides the bookings themselves. */
  datatype Catalog = Catalog(salons: map<Id, Salon>, services: map<Id, Service>, staff: map<Id, Staff>)

  /** A stored booking. `start`/`end` are the minute values of the stored
      `timeSlot` texts; `cancelledAt` is the instant of cancellation. */
  datatype Booking = Booking(
    userId: Id, salonId: Id, staffId: Id, serviceId: Id,
    date: int, start: int, end: int,
    status: Status, price: int, notes: Option<string>, cancelledAt: Option<int>)

  /** `salon.holidays.some(...)`: some holiday falls on the given UTC day. */
  predicate IsHoliday(salon: Salon, day: int) {
    exists i :: 0 <= i < |salon.holidays| && UtcDay(salon.holidays[i]) == day
  }
}
