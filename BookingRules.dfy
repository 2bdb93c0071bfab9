/** The decision part of the booking handlers: each handler's short-circuit
    chain of checks over a snapshot (the stored bookings, the catalog, the
    clock), ending either in a rejection or in the record the handler writes.
    `BookingStore` performs the write. */
module BookingRules {
  import opened Common
  import opened TimeText
  import opened Dates
  import opened Lifecycle
  import opened Failures
  import opened Entities
  import opened Conflicts

  /** A request's `timeSlot` object. */
  datatype SlotInput = SlotInput(start: Option<string>, end: Option<string>)

  /** `timeSlot?.start` is given. */
  predicate HasStart(ts: Option<SlotInput>) {
    ts.Some? && Given(ts.value.start)
  }

  function StartText(ts: Option<SlotInput>): string
    requires HasStart(ts)
  {
    ts.value.start.value
  }

  /** The milliseconds before a booking's start below which a customer may
      not cancel: two hours. */
  const CancellationWindowMs: int := 2 * 60 * 60 * 1000

  /** The instant a booking starts: its UTC date plus its start time. */
  function StartInstant(b: Booking): int {
    b.date * MsPerDay + b.start * MsPerMinute
  }

  // ---------------------------------------------------------------- create

  datatype CreateRequest = CreateRequest(
    salonId: Option<Id>, staffId: Option<Id>, serviceId: Option<Id>,
    date: Option<string>, timeSlot: Option<SlotInput>, notes: Option<string>)

  /** The request carries every required field in a valid format. */
  predicate CreateRequestWellFormed(req: CreateRequest) {
    && req.salonId.Some? && req.staffId.Some? && req.serviceId.Some?
    && Given(req.date) && HasStart(req.timeSlot)
    && IsValidDateFormat(req.date.value) && IsValidTimeFormat(StartText(req.timeSlot))
  }

  /** The checks a new booking's slot meets before the conflict queries: a
      client end (if sent) equal to the derived end, an open and non-holiday
      weekday for the salon, and a slot inside the salon's hours. */
  predicate SlotFitsSalon(salon: Salon, day: int, start: nat, end: nat, clientEnd: Option<string>) {
    && (Given(clientEnd) ==> clientEnd.value == MinutesToTime(end))
    && IsOpenOn(salon.workingHours, DayOfWeek(day))
    && !IsHoliday(salon, day)
    && salon.workingHours[DayOfWeek(day)].open <= start
    && end <= salon.workingHours[DayOfWeek(day)].close
  }

  /** What the slot of a new booking requires once its salon is known: it
      fits the salon, and neither a staff nor a user conflict. */
  predicate SlotAdmissible(bs: seq<Booking>, salon: Salon, staffId: Id, userId: Id,
                           day: int, start: nat, end: nat, clientEnd: Option<string>) {
    && SlotFitsSalon(salon, day, start, end, clientEnd)
    && !StaffConflict(bs, None, staffId, day, start, end)
    && !UserConflict(bs, None, userId, day, start, end)
  }

  /** The second half of `createBooking`'s chain, in the handler's order:
      the first rejection that applies to the slot, or none. */
  function SlotCheck(bs: seq<Booking>, salon: Salon, staffId: Id, userId: Id,
                     day: int, start: nat, end: nat, clientEnd: Option<string>): (r: Option<Failure>)
    ensures r.None? <==> SlotAdmissible(bs, salon, staffId, userId, day, start, end, clientEnd)
    ensures r.Some? && HttpStatus(r.value) == 409 ==> r.value.StaffBusy? || r.value.UserBusy?
    ensures r == Some(StaffBusy) <==>
      SlotFitsSalon(salon, day, start, end, clientEnd) && StaffConflict(bs, None, staffId, day, start, end)
    ensures r == Some(UserBusy) <==>
      && SlotFitsSalon(salon, day, start, end, clientEnd) && !StaffConflict(bs, None, staffId, day, start, end)
      && UserConflict(bs, None, userId, day, start, end)
  {
    var weekday := DayOfWeek(day);
    var derivedEnd := MinutesToTime(end);
    if Given(clientEnd) && clientEnd.value != derivedEnd then Some(EndMismatch(derivedEnd))
    else if !IsOpenOn(salon.workingHours, weekday) then Some(SalonClosedOn(weekday))
    else if IsHoliday(salon, day) then Some(SalonHoliday)
    else if start < salon.workingHours[weekday].open || end > salon.workingHours[weekday].close then
      Some(OutsideSalonHours)
    else if StaffConflict(bs, None, staffId, day, start, end) then Some(StaffBusy)
    else if UserConflict(bs, None, userId, day, start, end) then Some(UserBusy)
    else None
  }

  /** The lookups of a creation for the request's date `day`: not before
      today, an available salon, and a service and a staff member of that
      salon. */
  predicate LookupsPass(cat: Catalog, clock: Clock, req: CreateRequest, day: int)
    requires req.salonId.Some? && req.staffId.Some? && req.serviceId.Some?
  {
    var sid := req.salonId.value;
    && day >= Today(clock)
    && sid in cat.salons && cat.salons[sid].isAvailable
    && req.serviceId.value in cat.services && cat.services[req.serviceId.value].salonId == sid
    && req.staffId.value in cat.staff && cat.staff[req.staffId.value].salonId == sid
  }

  /** What a creation requires before its slot is looked at: required
      fields and formats, and the lookups for the parsed date. */
  predicate RequestAdmissible(cat: Catalog, clock: Clock, req: CreateRequest) {
    CreateRequestWellFormed(req) && LookupsPass(cat, clock, req, ParseDateUTC(req.date.value))
  }

  /** The lookups of `createBooking`'s chain, in the handler's order, for
      the request's date `day`. */
  function LookupCheck(cat: Catalog, clock: Clock, req: CreateRequest, day: int): (r: Option<Failure>)
    requires req.salonId.Some? && req.staffId.Some? && req.serviceId.Some?
    ensures r.None? <==> LookupsPass(cat, clock, req, day)
    ensures r.Some? ==> HttpStatus(r.value) != 409
  {
    var salonId, staffId, serviceId := req.salonId.value, req.staffId.value, req.serviceId.value;
    if day < Today(clock) then Some(PastDate)
    else if salonId !in cat.salons then Some(SalonNotFound)
    else if !cat.salons[salonId].isAvailable then Some(SalonNotAccepting)
    else if serviceId !in cat.services then Some(ServiceNotFound)
    else if cat.services[serviceId].salonId != salonId then Some(ServiceOtherSalon)
    else if staffId !in cat.staff then Some(StaffNotFound)
    else if cat.staff[staffId].salonId != salonId then Some(StaffOtherSalon)
    else None
  }

  /** The first half of `createBooking`'s chain, in the handler's order:
      the first rejection of the request itself, or none. */
  function RequestCheck(cat: Catalog, clock: Clock, req: CreateRequest): (r: Option<Failure>)
    ensures r.None? <==> RequestAdmissible(cat, clock, req)
    ensures !(req.salonId.Some? && req.staffId.Some? && req.serviceId.Some? && Given(req.date) && HasStart(req.timeSlot))
            ==> r == Some(MissingFields)
    ensures r.Some? ==> HttpStatus(r.value) != 409
  {
    if req.salonId.None? || req.staffId.None? || req.serviceId.None? || !Given(req.date) || !HasStart(req.timeSlot) then
      Some(MissingFields)
    else if !IsValidDateFormat(req.date.value) then Some(BadDateFormat)
    else if !IsValidTimeFormat(StartText(req.timeSlot)) then Some(BadTimeFormat)
    else LookupCheck(cat, clock, req, ParseDateUTC(req.date.value))
  }

  /** What a creation requires, stated as one conjunction rather than as the
      handler's ordered chain: an admissible request and an admissible
      slot. */
  predicate CreateAdmissible(bs: seq<Booking>, cat: Catalog, clock: Clock, userId: Id, req: CreateRequest) {
    && RequestAdmissible(cat, clock, req)
    && var sid := req.salonId.value;
    var start := TimeToMinutes(StartText(req.timeSlot));
    SlotAdmissible(bs, cat.salons[sid], req.staffId.value, userId, ParseDateUTC(req.date.value), start,
                   start + cat.services[req.serviceId.value].duration, req.timeSlot.value.end)
  }

  /** The slot half of `createBooking` for a request whose lookups passed,
      on the parsed day `day` from minute `start`. */
  function PlaceBooking(bs: seq<Booking>, cat: Catalog, userId: Id, req: CreateRequest, day: int, start: nat)
    : (r: Result<Booking>)
    requires req.salonId.Some? && req.staffId.Some? && req.serviceId.Some? && req.timeSlot.Some?
    requires req.salonId.value in cat.salons && req.serviceId.value in cat.services
    ensures var end := start + cat.services[req.serviceId.value].duration;
      r.Ok? <==> SlotAdmissible(bs, cat.salons[req.salonId.value], req.staffId.value, userId, day, start, end,
                                req.timeSlot.value.end)
    ensures r.Ok? ==>
      && var service := cat.services[req.serviceId.value];
      && r.value == Booking(userId, req.salonId.value, req.staffId.value, req.serviceId.value, day, start,
                            start + service.duration, Pending, service.price, TrimmedOrAbsent(req.notes), None)
    ensures r.Err? && HttpStatus(r.failure) == 409 ==> r.failure.StaffBusy? || r.failure.UserBusy?
  {
    var salonId, staffId, serviceId := req.salonId.value, req.staffId.value, req.serviceId.value;
    var service := cat.services[serviceId];
    var end := start + service.duration;
    match SlotCheck(bs, cat.salons[salonId], staffId, userId, day, start, end, req.timeSlot.value.end)
    case Some(f) => Err(f)
    case None =>
      Ok(Booking(userId, salonId, staffId, serviceId, day, start, end, Pending, service.price,
                 TrimmedOrAbsent(req.notes), None))
  }

  /** `createBooking`: the checks in the handler's order; on success the
      booking to insert for the authenticated user `userId`. */
  function Create(bs: seq<Booking>, cat: Catalog, clock: Clock, userId: Id, req: CreateRequest): (r: Result<Booking>)
    ensures r.Ok? <==> CreateAdmissible(bs, cat, clock, userId, req)
    ensures r.Ok? ==> r.value.userId == userId && r.value.status == Pending && r.value.cancelledAt == None
    ensures !(req.salonId.Some? && req.staffId.Some? && req.serviceId.Some? && Given(req.date) && HasStart(req.timeSlot))
            ==> r == Err(MissingFields)
    ensures r.Err? && HttpStatus(r.failure) == 409 ==> r.failure.StaffBusy? || r.failure.UserBusy?
  {
    match RequestCheck(cat, clock, req)
    case Some(f) => Err(f)
    case None => PlaceBooking(bs, cat, userId, req, ParseDateUTC(req.date.value), TimeToMinutes(StartText(req.timeSlot)))
  }

  /** The booking a creation inserts: the request's salon, staff member,
      service, date and start, the service's duration and price, the
      trimmed notes, pending. */
  lemma CreatedBooking(bs: seq<Booking>, cat: Catalog, clock: Clock, userId: Id, req: CreateRequest)
    requires Create(bs, cat, clock, userId, req).Ok?
    ensures
      && var b := Create(bs, cat, clock, userId, req).value;
      && Some(b.salonId) == req.salonId && Some(b.staffId) == req.staffId && Some(b.serviceId) == req.serviceId
      && b.serviceId in cat.services
      && b.date == ParseDateUTC(req.date.value)
      && b.start == TimeToMinutes(StartText(req.timeSlot))
      && b.end == b.start + cat.services[b.serviceId].duration
      && b.price == cat.services[b.serviceId].price
      && b.notes == TrimmedOrAbsent(req.notes)
  {
    assert RequestCheck(cat, clock, req).None?;
  }

  // ---------------------------------------------------------------- update

  datatype UpdateRequest = UpdateRequest(
    staffId: Option<Id>, serviceId: Option<Id>, date: Option<string>,
    timeSlot: Option<SlotInput>, notes: Patch<Option<string>>)

  /** No field to change was sent. */
  predicate NothingSent(req: UpdateRequest) {
    req.staffId.None? && req.serviceId.None? && !Given(req.date) && req.timeSlot.None? && req.notes.Keep?
  }

  /** The sent fields that need a format are in it. */
  predicate UpdateFormatsValid(req: UpdateRequest) {
    && (Given(req.date) ==> IsValidDateFormat(req.date.value))
    && (HasStart(req.timeSlot) ==> IsValidTimeFormat(StartText(req.timeSlot)))
  }

  /** The resolved values: the request's when sent, the booking's otherwise. */
  function FinalStaff(b: Booking, req: UpdateRequest): Id {
    if req.staffId.Some? then req.staffId.value else b.staffId
  }

  function FinalService(b: Booking, req: UpdateRequest): Id {
    if req.serviceId.Some? then req.serviceId.value else b.serviceId
  }

  function FinalDay(b: Booking, req: UpdateRequest): int
    requires UpdateFormatsValid(req)
  {
    if Given(req.date) then ParseDateUTC(req.date.value) else b.date
  }

  function FinalStart(b: Booking, req: UpdateRequest): int
    requires UpdateFormatsValid(req)
  {
    if HasStart(req.timeSlot) then TimeToMinutes(StartText(req.timeSlot)) else b.start
  }

  /** The staff member works the weekday of `day` and the slot lies in
      their hours. */
  predicate SlotFitsStaff(staff: Staff, day: int, start: int, end: int) {
    && IsOpenOn(staff.workingHours, DayOfWeek(day))
    && staff.workingHours[DayOfWeek(day)].open <= start
    && end <= staff.workingHours[DayOfWeek(day)].close
  }

  /** What a booking moved to staff member `staff` (record `staffId`) on
      day `day` from `start` to `end` requires, for `updateBooking` and
      `rescheduleBooking` alike: the staff member works that weekday, the
      slot lies in their hours, and no other live booking of that staff
      member or of the booking's customer `userId` meets it. */
  predicate StaffSlotAdmissible(bs: seq<Booking>, id: nat, staff: Staff, staffId: Id, userId: Id,
                                day: int, start: int, end: int) {
    && SlotFitsStaff(staff, day, start, end)
    && !StaffConflict(bs, Some(id), staffId, day, start, end)
    && !UserConflict(bs, Some(id), userId, day, start, end)
  }

  /** The slot checks shared by `updateBooking` and `rescheduleBooking`, in
      the handlers' order: the first rejection, or none. Both handlers take
      the weekday from the date text with `getDayOfWeek`, which is the
      weekday of the parsed day. */
  function StaffSlotCheck(bs: seq<Booking>, id: nat, staff: Staff, staffId: Id, userId: Id,
                          day: int, start: int, end: int): (r: Option<Failure>)
    ensures r.None? <==> StaffSlotAdmissible(bs, id, staff, staffId, userId, day, start, end)
    ensures r.Some? && HttpStatus(r.value) == 409 ==> r.value.StaffBusy? || r.value.UserBusy?
    ensures r == Some(StaffBusy) <==>
      SlotFitsStaff(staff, day, start, end) && StaffConflict(bs, Some(id), staffId, day, start, end)
    ensures r == Some(UserBusy) <==>
      && SlotFitsStaff(staff, day, start, end) && !StaffConflict(bs, Some(id), staffId, day, start, end)
      && UserConflict(bs, Some(id), userId, day, start, end)
  {
    var weekday := DayOfWeek(day);
    if !IsOpenOn(staff.workingHours, weekday) then Some(StaffNotWorkingOn(weekday))
    else if start < staff.workingHours[weekday].open || end > staff.workingHours[weekday].close then
      Some(OutsideStaffHours)
    else if StaffConflict(bs, Some(id), staffId, day, start, end) then Some(StaffBusy)
    else if UserConflict(bs, Some(id), userId, day, start, end) then Some(UserBusy)
    else None
  }

  /** The lookups of an update of booking `b` on the resolved day `day`:
      not before today, a resolved service and staff member that exist, and
      a service or staff member that was changed belongs to the booking's
      salon. */
  predicate UpdateLookupsPass(cat: Catalog, clock: Clock, b: Booking, req: UpdateRequest, day: int) {
    && day >= Today(clock)
    && FinalService(b, req) in cat.services
    && (req.serviceId.Some? && req.serviceId.value != b.serviceId ==> cat.services[FinalService(b, req)].salonId == b.salonId)
    && FinalStaff(b, req) in cat.staff
    && (req.staffId.Some? && req.staffId.value != b.staffId ==> cat.staff[FinalStaff(b, req)].salonId == b.salonId)
  }

  /** The lookups of `updateBooking`'s chain, in the handler's order. */
  function UpdateLookupCheck(cat: Catalog, clock: Clock, b: Booking, req: UpdateRequest, day: int): (r: Option<Failure>)
    ensures r.None? <==> UpdateLookupsPass(cat, clock, b, req, day)
    ensures r == Some(ServiceOtherSalon) ==>
      req.serviceId.Some? && req.serviceId.value != b.serviceId && req.serviceId.value in cat.services
      && cat.services[req.serviceId.value].salonId != b.salonId
    ensures r == Some(StaffOtherSalon) ==>
      req.staffId.Some? && req.staffId.value != b.staffId && req.staffId.value in cat.staff
      && cat.staff[req.staffId.value].salonId != b.salonId
    ensures r.Some? ==> HttpStatus(r.value) != 409
  {
    var staffId, serviceId := FinalStaff(b, req), FinalService(b, req);
    if day < Today(clock) then Some(PastDate)
    else if serviceId !in cat.services then Some(ServiceNotFound)
    else if req.serviceId.Some? && req.serviceId.value != b.serviceId && cat.services[serviceId].salonId != b.salonId then
      Some(ServiceOtherSalon)
    else if staffId !in cat.staff then Some(StaffNotFound)
    else if req.staffId.Some? && req.staffId.value != b.staffId && cat.staff[staffId].salonId != b.salonId then
      Some(StaffOtherSalon)
    else None
  }

  /** What an update requires before its slot is looked at: a stored,
      modifiable booking, something sent, well-formed fields, and the
      lookups on the resolved day. */
  predicate UpdateRequestAdmissible(bs: seq<Booking>, cat: Catalog, clock: Clock, id: nat, req: UpdateRequest) {
    && id < |bs| && !NothingSent(req) && UpdateFormatsValid(req) && !IsTerminal(bs[id].status)
    && UpdateLookupsPass(cat, clock, bs[id], req, FinalDay(bs[id], req))
  }

  /** The first half of `updateBooking`'s chain, in the handler's order (the
      missing booking is the access middleware's 404, which runs first). */
  function UpdateCheck(bs: seq<Booking>, cat: Catalog, clock: Clock, id: nat, req: UpdateRequest): (r: Option<Failure>)
    ensures r.None? <==> UpdateRequestAdmissible(bs, cat, clock, id, req)
    ensures id >= |bs| ==> r == Some(BookingNotFound)
    ensures id < |bs| && NothingSent(req) ==> r == Some(NothingToUpdate)
    ensures id < |bs| && !NothingSent(req) && UpdateFormatsValid(req) && IsTerminal(bs[id].status)
            ==> r == Some(NotModifiable(bs[id].status))
    ensures r.Some? ==> HttpStatus(r.value) != 409
  {
    if id >= |bs| then Some(BookingNotFound)
    else if NothingSent(req) then Some(NothingToUpdate)
    else if Given(req.date) && !IsValidDateFormat(req.date.value) then Some(BadDateFormat)
    else if HasStart(req.timeSlot) && !IsValidTimeFormat(StartText(req.timeSlot)) then Some(BadTimeFormat)
    else if IsTerminal(bs[id].status) then Some(NotModifiable(bs[id].status))
    else UpdateLookupCheck(cat, clock, bs[id], req, FinalDay(bs[id], req))
  }

  /** What an update requires: an admissible request and an admissible
      slot for the resolved staff member, day, start and service. */
  predicate UpdateAdmissible(bs: seq<Booking>, cat: Catalog, clock: Clock, id: nat, req: UpdateRequest) {
    && UpdateRequestAdmissible(bs, cat, clock, id, req)
    && var b := bs[id];
    var start := FinalStart(b, req);
    StaffSlotAdmissible(bs, id, cat.staff[FinalStaff(b, req)], FinalStaff(b, req), b.userId, FinalDay(b, req),
                        start, start + cat.services[FinalService(b, req)].duration)
  }

  /** The slot half of `updateBooking` for a request whose lookups passed,
      on the resolved day `day` from minute `start`. */
  function PlaceUpdate(bs: seq<Booking>, cat: Catalog, id: nat, req: UpdateRequest, day: int, start: int)
    : (r: Result<Booking>)
    requires id < |bs| && FinalService(bs[id], req) in cat.services && FinalStaff(bs[id], req) in cat.staff
    ensures var b := bs[id];
      r.Ok? <==> StaffSlotAdmissible(bs, id, cat.staff[FinalStaff(b, req)], FinalStaff(b, req), b.userId, day,
                                     start, start + cat.services[FinalService(b, req)].duration)
    ensures r.Ok? ==>
      && var b, service := bs[id], cat.services[FinalService(bs[id], req)];
      && r.value == b.(staffId := FinalStaff(b, req), serviceId := FinalService(b, req), date := day, start := start,
                       end := start + service.duration, price := service.price, status := Pending,
                       notes := if req.notes.Set? then TrimmedOrAbsent(req.notes.value) else b.notes)
    ensures r.Err? && HttpStatus(r.failure) == 409 ==> r.failure.StaffBusy? || r.failure.UserBusy?
  {
    var b := bs[id];
    var staffId, service := FinalStaff(b, req), cat.services[FinalService(b, req)];
    var end := start + service.duration;
    match StaffSlotCheck(bs, id, cat.staff[staffId], staffId, b.userId, day, start, end)
    case Some(f) => Err(f)
    case None =>
      Ok(b.(staffId := staffId, serviceId := FinalService(b, req), date := day, start := start, end := end,
            price := service.price, status := Pending,
            notes := if req.notes.Set? then TrimmedOrAbsent(req.notes.value) else b.notes))
  }

  /** `updateBooking`: the checks in the handler's order; on success the
      updated record, reset to `pending` with the price of the resolved
      service. */
  function Update(bs: seq<Booking>, cat: Catalog, clock: Clock, id: nat, req: UpdateRequest): (r: Result<Booking>)
    ensures r.Ok? <==> UpdateAdmissible(bs, cat, clock, id, req)
    ensures id >= |bs| ==> r == Err(BookingNotFound)
    ensures id < |bs| && NothingSent(req) ==> r == Err(NothingToUpdate)
    ensures id < |bs| && IsTerminal(bs[id].status) ==> r.Err?
    ensures r.Err? && HttpStatus(r.failure) == 409 ==> r.failure.StaffBusy? || r.failure.UserBusy?
  {
    match UpdateCheck(bs, cat, clock, id, req)
    case Some(f) => Err(f)
    case None => PlaceUpdate(bs, cat, id, req, FinalDay(bs[id], req), FinalStart(bs[id], req))
  }

  /** The record an update writes: sent fields replace stored ones, end and
      price follow the resolved service, the status is back to `pending`,
      and customer, salon and cancellation instant are kept. */
  lemma UpdatedBooking(bs: seq<Booking>, cat: Catalog, clock: Clock, id: nat, req: UpdateRequest)
    requires Update(bs, cat, clock, id, req).Ok?
    ensures
      && id < |bs| && UpdateFormatsValid(req)
      && var b, nb := bs[id], Update(bs, cat, clock, id, req).value;
      && nb.staffId == FinalStaff(b, req) && nb.serviceId == FinalService(b, req)
      && nb.date == FinalDay(b, req) && nb.start == FinalStart(b, req)
      && nb.serviceId in cat.services && nb.staffId in cat.staff
      && nb.end == nb.start + cat.services[nb.serviceId].duration
      && nb.price == cat.services[nb.serviceId].price
      && nb.status == Pending
      && nb.userId == b.userId && nb.salonId == b.salonId && nb.cancelledAt == b.cancelledAt
      && nb.notes == (if req.notes.Set? then TrimmedOrAbsent(req.notes.value) else b.notes)
      && StaffSlotAdmissible(bs, id, cat.staff[nb.staffId], nb.staffId, nb.userId, nb.date, nb.start, nb.end)
  {
    assert UpdateCheck(bs, cat, clock, id, req).None?;
  }

  /** An update never moves a booking to another salon's service or staff
      member: changing either to one of another salon is refused. */
  lemma UpdateStaysInSalon(bs: seq<Booking>, cat: Catalog, clock: Clock, id: nat, req: UpdateRequest)
    requires id < |bs|
    requires
      || (req.serviceId.Some? && req.serviceId.value != bs[id].serviceId && req.serviceId.value in cat.services
          && cat.services[req.serviceId.value].salonId != bs[id].salonId)
      || (req.staffId.Some? && req.staffId.value != bs[id].staffId && req.staffId.value in cat.staff
          && cat.staff[req.staffId.value].salonId != bs[id].salonId)
    ensures Update(bs, cat, clock, id, req).Err?
  {
  }

  // ------------------------------------------------------------ reschedule

  datatype RescheduleRequest = RescheduleRequest(date: Option<string>, timeSlot: Option<SlotInput>)

  /** The lookups of a reschedule of booking `b` to day `day` from minute
      `start`: not before today, not the stored slot (which the handler
      detects only for a date text in canonical form, see `canonical`), and
      the booking's service and staff member exist. */
  predicate RescheduleLookupsPass(cat: Catalog, clock: Clock, b: Booking, day: int, canonical: bool, start: int) {
    && day >= Today(clock)
    && !(canonical && day == b.date && start == b.start)
    && b.serviceId in cat.services
    && b.staffId in cat.staff
  }

  /** The lookups of `rescheduleBooking`'s chain, in the handler's order.
      The handler compares the request text with the stored date's ISO
      text, which only a canonical text can equal. */
  function RescheduleLookupCheck(cat: Catalog, clock: Clock, b: Booking, day: int, canonical: bool, start: int)
    : (r: Option<Failure>)
    ensures r.None? <==> RescheduleLookupsPass(cat, clock, b, day, canonical, start)
    ensures r == Some(SameSlot) <==> day >= Today(clock) && canonical && day == b.date && start == b.start
    ensures r.Some? ==> HttpStatus(r.value) != 409
  {
    if day < Today(clock) then Some(PastDate)
    else if canonical && day == b.date && start == b.start then Some(SameSlot)
    else if b.serviceId !in cat.services then Some(ServiceNotFound)
    else if b.staffId !in cat.staff then Some(StaffNotFound)
    else None
  }

  /** What a reschedule requires before its slot is looked at. */
  predicate RescheduleRequestAdmissible(bs: seq<Booking>, cat: Catalog, clock: Clock, id: nat, req: RescheduleRequest) {
    && id < |bs| && Given(req.date) && HasStart(req.timeSlot)
    && IsValidDateFormat(req.date.value) && IsValidTimeFormat(StartText(req.timeSlot))
    && !IsTerminal(bs[id].status)
    && RescheduleLookupsPass(cat, clock, bs[id], ParseDateUTC(req.date.value), IsCanonicalDate(req.date.value),
                             TimeToMinutes(StartText(req.timeSlot)))
  }

  /** The first half of `rescheduleBooking`'s chain, in the handler's order. */
  function RescheduleCheck(bs: seq<Booking>, cat: Catalog, clock: Clock, id: nat, req: RescheduleRequest)
    : (r: Option<Failure>)
    ensures r.None? <==> RescheduleRequestAdmissible(bs, cat, clock, id, req)
    ensures id >= |bs| ==> r == Some(BookingNotFound)
    ensures id < |bs| && !(Given(req.date) && HasStart(req.timeSlot)) ==> r == Some(MissingFields)
    ensures r.Some? ==> HttpStatus(r.value) != 409
  {
    if id >= |bs| then Some(BookingNotFound)
    else if !Given(req.date) || !HasStart(req.timeSlot) then Some(MissingFields)
    else if !IsValidDateFormat(req.date.value) then Some(BadDateFormat)
    else if !IsValidTimeFormat(StartText(req.timeSlot)) then Some(BadTimeFormat)
    else if IsTerminal(bs[id].status) then Some(NotModifiable(bs[id].status))
    else RescheduleLookupCheck(cat, clock, bs[id], ParseDateUTC(req.date.value), IsCanonicalDate(req.date.value),
                               TimeToMinutes(StartText(req.timeSlot)))
  }

  /** What a reschedule requires: an admissible request and an admissible
      slot for the booking's own staff member and service. */
  predicate RescheduleAdmissible(bs: seq<Booking>, cat: Catalog, clock: Clock, id: nat, req: RescheduleRequest) {
    && RescheduleRequestAdmissible(bs, cat, clock, id, req)
    && var b := bs[id];
    var start := TimeToMinutes(StartText(req.timeSlot));
    StaffSlotAdmissible(bs, id, cat.staff[b.staffId], b.staffId, b.userId, ParseDateUTC(req.date.value),
                        start, start + cat.services[b.serviceId].duration)
  }

  /** The slot half of `rescheduleBooking` on day `day` from minute `start`. */
  function PlaceReschedule(bs: seq<Booking>, cat: Catalog, id: nat, day: int, start: nat): (r: Result<Booking>)
    requires id < |bs| && bs[id].serviceId in cat.services && bs[id].staffId in cat.staff
    ensures var b := bs[id];
      r.Ok? <==> StaffSlotAdmissible(bs, id, cat.staff[b.staffId], b.staffId, b.userId, day,
                                     start, start + cat.services[b.serviceId].duration)
    ensures r.Ok? ==>
      r.value == bs[id].(date := day, start := start, end := start + cat.services[bs[id].serviceId].duration,
                         status := Pending)
    ensures r.Err? && HttpStatus(r.failure) == 409 ==> r.failure.StaffBusy? || r.failure.UserBusy?
  {
    var b := bs[id];
    var end := start + cat.services[b.serviceId].duration;
    match StaffSlotCheck(bs, id, cat.staff[b.staffId], b.staffId, b.userId, day, start, end)
    case Some(f) => Err(f)
    case None => Ok(b.(date := day, start := start, end := end, status := Pending))
  }

  /** `rescheduleBooking`: a new date and start for the same service and
      staff member; on success only the date, the slot and the status
      (back to `pending`) change. */
  function Reschedule(bs: seq<Booking>, cat: Catalog, clock: Clock, id: nat, req: RescheduleRequest): (r: Result<Booking>)
    ensures r.Ok? <==> RescheduleAdmissible(bs, cat, clock, id, req)
    ensures id >= |bs| ==> r == Err(BookingNotFound)
    ensures id < |bs| && !(Given(req.date) && HasStart(req.timeSlot)) ==> r == Err(MissingFields)
    ensures id < |bs| && IsTerminal(bs[id].status) ==> r.Err?
    ensures r.Err? && HttpStatus(r.failure) == 409 ==> r.failure.StaffBusy? || r.failure.UserBusy?
  {
    match RescheduleCheck(bs, cat, clock, id, req)
    case Some(f) => Err(f)
    case None => PlaceReschedule(bs, cat, id, ParseDateUTC(req.date.value), TimeToMinutes(StartText(req.timeSlot)))
  }

  /** The record a reschedule writes: only date, start, end and status
      (back to `pending`) change; the end follows the booking's service; the
      slot is admissible for the booking's staff member. */
  lemma RescheduledBooking(bs: seq<Booking>, cat: Catalog, clock: Clock, id: nat, req: RescheduleRequest)
    requires Reschedule(bs, cat, clock, id, req).Ok?
    ensures
      && id < |bs| && Given(req.date) && HasStart(req.timeSlot)
      && IsValidDateFormat(req.date.value) && IsValidTimeFormat(StartText(req.timeSlot))
      && var b, nb := bs[id], Reschedule(bs, cat, clock, id, req).value;
      && !IsTerminal(b.status)
      && nb == b.(date := ParseDateUTC(req.date.value), start := TimeToMinutes(StartText(req.timeSlot)),
                  end := nb.end, status := Pending)
      && !(IsCanonicalDate(req.date.value) && nb.date == b.date && nb.start == b.start)
      && nb.date >= Today(clock)
      && b.serviceId in cat.services && b.staffId in cat.staff
      && nb.end == nb.start + cat.services[b.serviceId].duration
      && StaffSlotAdmissible(bs, id, cat.staff[b.staffId], b.staffId, b.userId, nb.date, nb.start, nb.end)
  {
    assert RescheduleCheck(bs, cat, clock, id, req).None?;
  }

  // ---------------------------------------------------------------- cancel

  /** `cancelBooking` by an actor of the given role at the clock's instant. */
  function Cancel(bs: seq<Booking>, clock: Clock, id: nat, role: Role): (r: Result<Booking>)
    ensures r.Ok? <==>
      && id < |bs| && !IsTerminal(bs[id].status)
      && (role == Customer ==> StartInstant(bs[id]) - clock.nowMs >= CancellationWindowMs)
    ensures r.Ok? ==> r.value == bs[id].(status := Cancelled, cancelledAt := Some(clock.nowMs))
    ensures id < |bs| && bs[id].status == Cancelled ==> r == Err(AlreadyCancelled)
  {
    if id >= |bs| then Err(BookingNotFound)
    else
      var b := bs[id];
      if b.status == Cancelled then Err(AlreadyCancelled)
      else if b.status == Completed then Err(CannotCancelCompleted)
      else if b.status == NoShow then Err(CannotCancelNoShow)
      else if role == Customer && StartInstant(b) - clock.nowMs < CancellationWindowMs then Err(CancellationWindow)
      else Ok(b.(status := Cancelled, cancelledAt := Some(clock.nowMs)))
  }

  /** The handler applies the two-hour window to customers only: for any
      other role that reaches it, a pending or confirmed booking is
      cancelled at any time, even after it started. Which bookings a
      non-customer may reach is decided by the access middleware, which is
      not part of this model. */
  lemma PrivilegedRolesBypassWindow(bs: seq<Booking>, clock: Clock, id: nat, role: Role)
    requires id < |bs| && !IsTerminal(bs[id].status) && role != Customer
    ensures Cancel(bs, clock, id, role).Ok?
  {
  }

  // ---------------------------------------------------------------- status

  /** `updateBookingStatus` to the status named by `target`. */
  function SetStatus(bs: seq<Booking>, id: nat, target: string): (r: Result<Booking>)
    ensures r.Ok? <==> id < |bs| && ParseStatus(target).Some? && CanTransition(bs[id].status, ParseStatus(target).value)
    ensures r.Ok? ==> r.value == bs[id].(status := ParseStatus(target).value)
    ensures r.Ok? ==> !r.value.status.Pending? && r.value.status != bs[id].status
    ensures id < |bs| && (ParseStatus(target).None? || ParseStatus(target) == Some(Pending)) ==> r == Err(InvalidStatus)
  {
    if id >= |bs| then Err(BookingNotFound)
    else
      match ParseStatus(target)
      case None => Err(InvalidStatus)
      case Some(to) =>
        if !IsValidTarget(to) then Err(InvalidStatus)
        else if !CanTransition(bs[id].status, to) then Err(InvalidTransition(bs[id].status, to))
        else Ok(bs[id].(status := to))
  }
}
