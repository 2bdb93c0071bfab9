/** The read side of the booking handlers: the role-scoped lists
    (upcoming, past, today, calendar) and the availability probe. Each is a
    `Booking.find` filter, here a selection from the store that keeps the
    store's order; the handlers' `.sort(...)` is not modelled. */
module BookingQueries {
  import opened Common
  import opened Dates
  import opened Lifecycle
  import opened Failures
  import opened Entities
  import opened Conflicts

  /** The authenticated user as the auth middleware leaves it: a salon
      owner's salon, or a staff user's salon and the id of the staff record
      found for them. */
  datatype Actor = Actor(userId: Id, role: Role, salonId: Option<Id>, staffRecord: Option<Id>)

  // ------------------------------------------------------------- scoping

  /** The role scoping of the upcoming and past lists, as intended: a
      customer sees their bookings, a salon owner their salon's, a staff
      member the bookings assigned to their staff record, a super-admin
      everything. */
  predicate InScope(b: Booking, a: Actor) {
    match a.role
    case Customer => b.userId == a.userId
    case SalonOwner => Some(b.salonId) == a.salonId
    case StaffRole => Some(b.staffId) == a.staffRecord
    case SuperAdmin => true
  }

  /** The same scoping as the handlers write it: a staff member's filter
      is `staffId: req.user._id`, the user's id, whereas a booking's
      `staffId` holds a staff record id. */
  predicate InScopeAsWritten(b: Booking, a: Actor) {
    match a.role
    case Customer => b.userId == a.userId
    case SalonOwner => Some(b.salonId) == a.salonId
    case StaffRole => b.staffId == a.userId
    case SuperAdmin => true
  }

  /** A staff user whose user id differs from their staff record's id is
      shown none of the bookings assigned to that record. */
  lemma StaffScopeAsWrittenMissesOwnBookings(b: Booking, a: Actor)
    requires a.role == StaffRole && a.staffRecord == Some(b.staffId) && a.userId != b.staffId
    ensures InScope(b, a)
    ensures !InScopeAsWritten(b, a)
  {
  }

  /** The two scopings agree for every role but staff. */
  lemma ScopesAgreeExceptStaff(b: Booking, a: Actor)
    requires a.role != StaffRole
    ensures InScope(b, a) == InScopeAsWritten(b, a)
  {
  }

  // ---------------------------------------------------- upcoming and past

  /** `date >= today` and pending or confirmed. */
  predicate IsUpcoming(b: Booking, today: int) {
    b.date >= today && !IsTerminal(b.status)
  }

  /** `date < today`, or completed, cancelled or no-show. */
  predicate IsPast(b: Booking, today: int) {
    b.date < today || IsTerminal(b.status)
  }

  /** The `Booking.find` filters of the list handlers; the calendar's
      range is given as UTC days, both included. */
  datatype Filter =
    | ScopeOf(a: Actor)
    | Upcoming(a: Actor, today: int)
    | Past(a: Actor, today: int)
    | Today(a: Actor, today: int)
    | Calendar(a: Actor, salonId: Id, startDay: int, endDay: int)

  /** The scoping of the today and calendar lists, as intended: a salon
      owner sees their salon, a staff member their own record's bookings;
      the calendar is further limited to one salon by its route. */
  predicate InTodayScope(b: Booking, a: Actor) {
    match a.role
    case SalonOwner => Some(b.salonId) == a.salonId
    case StaffRole => Some(b.staffId) == a.staffRecord
    case _ => true
  }

  predicate Matches(b: Booking, f: Filter) {
    match f
    case ScopeOf(a) => InScope(b, a)
    case Upcoming(a, today) => InScope(b, a) && IsUpcoming(b, today)
    case Past(a, today) => InScope(b, a) && IsPast(b, today)
    case Today(a, today) => InTodayScope(b, a) && b.date == today && Live(b)
    case Calendar(a, salonId, startDay, endDay) =>
      && b.salonId == salonId && startDay <= b.date < endDay + 1 && Live(b)
      && (a.role == StaffRole ==> Some(b.staffId) == a.staffRecord)
  }

  /** `Booking.find(filter)`: the matching bookings in store order. */
  function Find(bs: seq<Booking>, f: Filter): (r: seq<Booking>)
    ensures |r| <= |bs|
    ensures forall b :: b in r <==> b in bs && Matches(b, f)
    ensures multiset(r) <= multiset(bs)
  {
    if bs == [] then []
    else
      var rest := Find(bs[1..], f);
      assert bs == [bs[0]] + bs[1..];
      if Matches(bs[0], f) then [bs[0]] + rest else rest
  }

  /** `getUpcomingBookings` on the day `today`. */
  function UpcomingBookings(bs: seq<Booking>, a: Actor, today: int): (r: seq<Booking>)
    ensures forall b :: b in r <==> b in bs && InScope(b, a) && b.date >= today && !IsTerminal(b.status)
  {
    Find(bs, Upcoming(a, today))
  }

  /** `getPastBookings` on the day `today`. */
  function PastBookings(bs: seq<Booking>, a: Actor, today: int): (r: seq<Booking>)
    ensures forall b :: b in r <==> b in bs && InScope(b, a) && (b.date < today || IsTerminal(b.status))
  {
    Find(bs, Past(a, today))
  }

  /** One step of `Find`: the head, if it matches, then the rest. */
  lemma FindStep(bs: seq<Booking>, f: Filter)
    requires bs != []
    ensures multiset(Find(bs, f)) == (if Matches(bs[0], f) then multiset{bs[0]} else multiset{}) + multiset(Find(bs[1..], f))
    ensures Find(bs, f) == (if Matches(bs[0], f) then [bs[0]] else []) + Find(bs[1..], f)
  {
  }

  /** Every booking an actor can see is in exactly one of the two lists:
      together they are the actor's bookings, each counted once. */
  lemma {:induction false} UpcomingPastPartition(bs: seq<Booking>, a: Actor, today: int)
    ensures multiset(UpcomingBookings(bs, a, today)) + multiset(PastBookings(bs, a, today))
            == multiset(Find(bs, ScopeOf(a)))
  {
    if bs != [] {
      UpcomingPastPartition(bs[1..], a, today);
      FindStep(bs, Upcoming(a, today));
      FindStep(bs, Past(a, today));
      FindStep(bs, ScopeOf(a));
    }
  }

  /** No booking is both upcoming and past. */
  lemma UpcomingPastDisjoint(bs: seq<Booking>, a: Actor, today: int, b: Booking)
    ensures !(b in UpcomingBookings(bs, a, today) && b in PastBookings(bs, a, today))
  {
  }

  // ---------------------------------------------------- today and calendar

  /** `getTodayBookings`: today's bookings that are not cancelled. */
  function TodayBookings(bs: seq<Booking>, a: Actor, today: int): (r: seq<Booking>)
    ensures forall b :: b in r <==> b in bs && InTodayScope(b, a) && b.date == today && Live(b)
  {
    Find(bs, Today(a, today))
  }

  /** `getCalendarBookings` for salon `salonId` between two UTC days,
      both included. */
  function CalendarBookings(bs: seq<Booking>, a: Actor, salonId: Id, startDay: Option<int>, endDay: Option<int>)
    : (r: Result<seq<Booking>>)
    ensures r.Err? <==> startDay.None? || endDay.None?
    ensures r.Err? ==> r.failure == MissingFields
    ensures r.Ok? ==> forall b :: b in r.value <==>
      && b in bs && b.salonId == salonId && startDay.value <= b.date <= endDay.value && Live(b)
      && (a.role == StaffRole ==> Some(b.staffId) == a.staffRecord)
  {
    if startDay.None? || endDay.None? then Err(MissingFields)
    else Ok(Find(bs, Calendar(a, salonId, startDay.value, endDay.value)))
  }

  /** Two filters that agree on every stored booking select the same
      bookings. */
  lemma {:induction false} FindCongruent(bs: seq<Booking>, f: Filter, g: Filter)
    requires forall i :: 0 <= i < |bs| ==> Matches(bs[i], f) == Matches(bs[i], g)
    ensures Find(bs, f) == Find(bs, g)
  {
    if bs != [] {
      FindCongruent(bs[1..], f, g);
      FindStep(bs, f);
      FindStep(bs, g);
    }
  }

  /** A one-day calendar of a staff member's salon shows them what the
      today list shows them, on that day. */
  lemma OneDayCalendarIsToday(bs: seq<Booking>, a: Actor, salonId: Id, today: int)
    requires a.role == StaffRole
    requires forall i :: 0 <= i < |bs| && Some(bs[i].staffId) == a.staffRecord ==> bs[i].salonId == salonId
    ensures Find(bs, Calendar(a, salonId, today, today)) == Find(bs, Today(a, today))
  {
    FindCongruent(bs, Calendar(a, salonId, today, today), Today(a, today));
  }

  // --------------------------------------------------------- availability

  /** The body of `checkAvailability`; dates are UTC days, times minutes. */
  datatype ProbeRequest = ProbeRequest(salonId: Option<Id>, staffId: Option<Id>, date: Option<int>,
                                       start: Option<int>, end: int)

  /** `checkAvailability`: whether the staff-conflict query finds nothing. */
  function CheckAvailability(bs: seq<Booking>, req: ProbeRequest): (r: Result<bool>)
    ensures r.Err? <==> req.salonId.None? || req.staffId.None? || req.date.None? || req.start.None?
    ensures r.Err? ==> r.failure == MissingFields
    ensures r.Ok? ==> (r.value <==> !StaffConflict(bs, None, req.staffId.value, req.date.value, req.start.value, req.end))
  {
    if req.salonId.None? || req.staffId.None? || req.date.None? || req.start.None? then Err(MissingFields)
    else Ok(!StaffConflict(bs, None, req.staffId.value, req.date.value, req.start.value, req.end))
  }

  /** On a store of non-empty slots, a probe of a non-empty slot answers
      "available" exactly when no live booking of that staff member on that
      date overlaps it. */
  lemma ProbeMeansFree(bs: seq<Booking>, req: ProbeRequest)
    requires SlotsWellFormed(bs)
    requires req.salonId.Some? && req.staffId.Some? && req.date.Some? && req.start.Some? && req.start.value < req.end
    ensures CheckAvailability(bs, req) == Ok(true) <==>
      forall i :: 0 <= i < |bs| && bs[i].staffId == req.staffId.value && bs[i].date == req.date.value && Live(bs[i])
        ==> !Overlaps(req.start.value, req.end, bs[i].start, bs[i].end)
  {
    NoStaffConflictMeansNoOverlap(bs, None, req.staffId.value, req.date.value, req.start.value, req.end);
  }
}
