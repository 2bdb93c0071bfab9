# Salon booking scheduler: a Dafny model

This project models the core of a salon-booking backend: the booking, staff and review controllers, with their validation chains, conflict queries, availability grid and status lifecycle.

- A customer books a staff member of a salon for a service on a date and start time. The handler:
  - derives the end from the service duration;
  - checks the salon's weekday schedule, holidays and hours;
  - rejects the booking when the staff member or the customer already holds an overlapping live booking.
- Bookings can be updated, rescheduled, cancelled (customers only until two hours before the start) and moved through the status lifecycle `pending → confirmed → completed | cancelled | no_show`.
- The read side lists bookings by role and date, probes a slot, and walks a staff member's day in 30-minute steps to offer free start times.
- Salon owners add staff (promoting customers to the staff role) and merge weekday schedules.
- Customers review completed bookings, once per booking and once per salon. Owners reply once.

Each handler's chain of early `return res.status(...)` checks is a pure function. It returns `Err(failure)` for the first check that fails, in the handler's order, or `Ok(record)` for what the handler writes. `Failures.HttpStatus` gives the status code of each rejection. The collections the handlers change are classes:

- `BookingStore.BookingStore`, whose bookings are a `seq` and a booking's id is its position;
- `StaffDirectory.StaffDirectory`;
- `Reviews.ReviewStore`.

Their methods perform the write the decision function allows and keep the store invariants.

Representation choices:

- Times of day are minutes since midnight. Request time fields stay `"HH:MM"` strings, because the handlers validate and compare the texts. `TimeText.ValidTimeOrder` and `TimeText.TimeOrderMatchesMinutes` show that the handlers' lexicographic comparisons agree with comparing minutes for texts that passed `isValidTimeFormat` or were rendered by `minutesToTime`. Stored schedule texts are taken to be of that form (see "## Left out").
- Dates are UTC day numbers (day 0 is 1970-01-01). Instants are milliseconds.
- The clock (`Dates.Clock`) is a parameter: the current instant, and the server's local minute of the day that the availability walk reads.

The main proved properties:

- Every write keeps "no two live bookings of one staff member overlap on one day" (`BookingInvariant.StoreInvariant`).
- Every offered availability slot would pass the booking handlers' staff-conflict query, and every free grid start is offered.
- Upcoming and past lists partition what an actor may see.
- Status transitions through `updateBookingStatus` only move forward. `updateBooking` and `rescheduleBooking` set a confirmed booking back to pending.
- A second review of the same booking or salon, or a second reply, is refused.
- `"HH:MM"` text and minutes round-trip.

## Model

| member | source | states |
|---|---|---|
| Common.Trim | backend/src/api/controllers/booking.controller.js:453-455 | `trim` is empty exactly when the text is all white space; otherwise it is the infix left after dropping the maximal white-space prefix and suffix, and it starts and ends with a non-space character |
| Common.LeadingSpace | backend/src/api/controllers/booking.controller.js:453-455 | the length of the maximal white-space prefix: every character before it is white space, the one at it is not |
| Common.TrailingSpace | backend/src/api/controllers/booking.controller.js:453-455 | the length of the maximal white-space suffix, symmetric to the prefix |
| Common.TrimIdempotent | backend/src/api/controllers/booking.controller.js:453-455 | trimming twice is trimming once |
| Common.TrimmedOrAbsent | backend/src/api/controllers/booking.controller.js:453-455 | `text?.trim() \|\| undefined` is present exactly when the text has a non-space character, and is then the trimmed text |
| TimeText.TimeToMinutes | backend/src/api/controllers/booking.controller.js:125-127 | a valid `"HH:MM"` time is a minute of the day, below 1440 |
| TimeText.MinutesRoundTrip | backend/src/api/controllers/booking.controller.js:125-127 | every minute of the day renders as a valid time text that parses back to the same minute |
| TimeText.TimeRoundTrip | backend/src/api/controllers/booking.controller.js:125-127 | `minutesToTime(timeToMinutes(s)) == s` for every valid time text |
| TimeText.TimeTextInjective | backend/src/api/controllers/booking.controller.js:604-605 | two valid time texts are equal exactly when their minutes are, so the same-slot text comparison is a minute comparison |
| TimeText.MinutesToTimeDigits | backend/src/api/controllers/staff.controller.js:334 | below 100 hours a rendered time is two hour digits, a colon and two minute digits |
| TimeText.TimeOrderMatchesMinutes | backend/src/api/controllers/booking.controller.js:158-162 | string `<` on rendered times (below 100 hours) orders them as their minutes, so the string comparisons against working hours and in the conflict queries agree with minutes for texts that passed `isValidTimeFormat` or were rendered by `minutesToTime` |
| TimeText.ValidTimeOrder | backend/src/api/controllers/booking.controller.js:172-187 | the same for any two texts that passed `isValidTimeFormat` |
| Dates.UtcDay | backend/src/api/controllers/booking.controller.js:146-155 | the UTC day of an instant is the day whose midnight is at or before it and within one day of it |
| Dates.WeekdayPeriodic | backend/src/api/controllers/booking.controller.js:74 | the weekday of a date repeats every seven days |
| Dates.ExampleDate | backend/src/api/controllers/booking.controller.js:73-74 | "2026-02-23" is UTC day 20507 and a Monday, as the handler's comment says |
| Dates.MonthOverflowExample | backend/src/api/controllers/booking.controller.js:60-74 | the format check accepts month 13 and `Date.UTC` rolls it into the next year, so "2026-13-01" is booked on 2027-01-01 |
| Lifecycle.ParseStatus | backend/src/api/controllers/booking.controller.js:837-843 | a status text is read exactly when it names one of the five statuses |
| Lifecycle.AllowedTransitions | backend/src/api/controllers/booking.controller.js:846-852 | no transition leads to `pending`, exactly the terminal statuses have none, and every target is a valid requested status |
| Lifecycle.TransitionTable | backend/src/api/controllers/booking.controller.js:846-858 | exactly the five pairs pending→confirmed, pending→cancelled, confirmed→completed, confirmed→cancelled and confirmed→no_show are legal |
| Lifecycle.TransitionsMoveForward | backend/src/api/controllers/booking.controller.js:846-858 | every legal transition strictly advances the lifecycle stage, so no status is re-entered |
| Failures.HttpStatus | backend/src/api/controllers/booking.controller.js:190-218 | every rejection is sent with 400, 403, 404 or 409, and 409 exactly for the conflicts (staff busy, user busy, already staff here, already reviewed) |
| Entities.DefaultWorkingHours | backend/src/api/models/staff.model.js:14-50 | the default schedule has all seven weekdays, is closed exactly on Sunday, and opens before it closes on every open day |
| Conflicts.StaffClauses | backend/src/api/controllers/booking.controller.js:169-188 | for non-empty slots the three-clause staff query matches exactly the overlapping stored slots |
| Conflicts.UserClauses | backend/src/api/controllers/booking.controller.js:197-212 | the two-clause user query reports only overlaps, and for non-empty slots all of them except a stored slot that strictly encloses the candidate |
| Conflicts.UserClausesMissEnclosing | backend/src/api/controllers/booking.controller.js:197-212 | a stored slot strictly enclosing the candidate overlaps it and is caught by the staff query but not by the user query |
| Conflicts.OverlapsSymmetric | backend/src/api/controllers/booking.controller.js:169-188 | slot overlap is symmetric |
| Conflicts.NoStaffConflictMeansNoOverlap | backend/src/api/controllers/booking.controller.js:169-195 | on a store of non-empty slots, the staff query finds nothing exactly when no live booking of that staff member on that date, other than the excluded one, overlaps the candidate |
| BookingRules.SlotCheck | backend/src/api/controllers/booking.controller.js:120-219 | the slot passes exactly when a sent end equals the derived end, the salon is open and not on holiday that weekday, the slot is inside its hours and neither conflict query finds a booking; a staff conflict reaching the queries gives staff busy (409), and otherwise a user conflict gives user busy (409); these are the only 409s |
| BookingRules.RequestCheck | backend/src/api/controllers/booking.controller.js:47-122 | the request half of creation passes exactly when every required field is given, date and start are well formed and the lookups pass; a missing field gives the missing-fields failure first; none of its failures is a 409 |
| BookingRules.LookupCheck | backend/src/api/controllers/booking.controller.js:72-122 | for the parsed day, passes exactly when the day is not before today, the salon exists and accepts bookings, and the service and the staff member exist and belong to that salon; none of its failures is a 409 |
| BookingRules.PlaceBooking | backend/src/api/controllers/booking.controller.js:124-231 | for a request whose lookups passed, a booking results exactly when the slot is admissible, and it is the pending booking of the request's salon, staff, service, day and start with end = start + duration and the service price; the only 409s are staff busy and user busy |
| BookingRules.Create | backend/src/api/controllers/booking.controller.js:47-231 | a booking is created exactly when every field is given and well formed, the date is not in the past, the salon is available, the service and staff belong to it, and the slot is admissible; the new booking is the caller's, pending, with no cancellation instant; a missing field gives 400 first; the only 409s are the two conflicts |
| BookingRules.CreatedBooking | backend/src/api/controllers/booking.controller.js:220-231 | the created booking carries the request's salon, staff and service, the parsed date and start, end = start + the service's duration, the service's price at creation and the trimmed notes |
| BookingRules.StaffSlotCheck | backend/src/api/controllers/booking.controller.js:365-443 | the slot of an update or reschedule passes exactly when the staff member works that weekday, the slot lies in their hours and neither the staff query nor the user query (both excluding the booking itself) finds a booking; a staff conflict reaching the queries gives staff busy (409), and otherwise a user conflict gives user busy (409); these are the only 409s |
| BookingRules.UpdateLookupCheck | backend/src/api/controllers/booking.controller.js:303-363 | passes exactly when the resolved date is not past, the resolved service and staff member exist, and a changed service or staff member belongs to the booking's salon; a cross-salon refusal is given only for a changed service or staff member of another salon |
| BookingRules.UpdateCheck | backend/src/api/controllers/booking.controller.js:252-363 | the request half of an update passes exactly when the booking exists and is modifiable, something is sent, the sent date and start are well formed and the lookups pass; unknown booking 404, nothing sent 400, a terminal booking refused as not modifiable |
| BookingRules.PlaceUpdate | backend/src/api/controllers/booking.controller.js:340-455 | for a request whose lookups passed, the update succeeds exactly when the resolved slot is admissible for the resolved staff member, and then writes the resolved staff, service, date and start, the derived end, the new price, pending and the notes by the trim rule |
| BookingRules.Update | backend/src/api/controllers/booking.controller.js:252-457 | an update succeeds exactly when the request and the resolved slot are admissible, including that a changed service or staff member belongs to the booking's salon; unknown booking 404, nothing sent 400, terminal booking refused; the only 409s are the two conflicts |
| BookingRules.UpdatedBooking | backend/src/api/controllers/booking.controller.js:445-455 | on success, sent fields replace stored ones, end and price follow the resolved service, status is back to pending, customer, salon and cancellation instant are kept, notes follow the trim rule, and the new slot is admissible for the resolved staff member |
| BookingRules.UpdateStaysInSalon | backend/src/api/controllers/booking.controller.js:330-363 | changing the service or the staff member to one of another salon is always refused |
| BookingRules.RescheduleLookupCheck | backend/src/api/controllers/booking.controller.js:586-636 | passes exactly when the new date is not past, the request is not the stored slot, and the booking's service and staff member exist; the same-slot refusal needs a date text in canonical form, as the handler compares texts |
| BookingRules.RescheduleCheck | backend/src/api/controllers/booking.controller.js:549-636 | the request half of a reschedule passes exactly when the booking exists, date and start are given and well formed, the booking is modifiable and the lookups pass; unknown booking 404, missing date or start 400 |
| BookingRules.PlaceReschedule | backend/src/api/controllers/booking.controller.js:622-704 | for a request whose lookups passed, the reschedule succeeds exactly when the new slot is admissible for the booking's staff member, and then changes only date, start, end (start + the service's duration) and status (pending) |
| BookingRules.Reschedule | backend/src/api/controllers/booking.controller.js:549-704 | a reschedule succeeds exactly when the request and the new slot are admissible; unknown booking 404, missing date or start 400, terminal booking refused; the only 409s are the two conflicts |
| BookingRules.RescheduledBooking | backend/src/api/controllers/booking.controller.js:586-704 | on success only date, start, end and status (pending) change; the new date is not past and the slot is admissible for the booking's staff member; the same date and start are refused only when the date text is canonical, so a text such as "2026-02-29" that rolls onto the stored 2026-03-01 at the stored start is accepted, as in the handler's text comparison at line 605 |
| BookingRules.Cancel | backend/src/api/controllers/booking.controller.js:474-520 | cancellation succeeds exactly for a pending or confirmed booking, and for a customer only when the start is at least two hours away; it sets cancelled and the cancellation instant; a cancelled booking is refused as already cancelled |
| BookingRules.PrivilegedRolesBypassWindow | backend/src/api/controllers/booking.controller.js:507-515 | the handler applies the two-hour window to customers only: for any other role, a pending or confirmed booking is cancelled at any time; which bookings a non-customer may cancel is decided by middleware not modelled |
| BookingRules.SetStatus | backend/src/api/controllers/booking.controller.js:832-862 | a status update succeeds exactly for a status name the table allows from the current status; only the status changes, never back to pending and never to itself; an unknown name or `pending` is invalid |
| BookingInvariant.ReplacePreserves | backend/src/api/controllers/booking.controller.js:390-457 | overwriting a booking with a non-empty slot that the staff query (excluding itself) clears keeps the store free of staff double bookings |
| BookingInvariant.AppendPreserves | backend/src/api/controllers/booking.controller.js:169-231 | appending a non-empty booking that the staff query clears keeps the store free of staff double bookings |
| BookingInvariant.OwnSlotPassesStaffQuery | backend/src/api/controllers/booking.controller.js:390-396 | in a consistent store, a live booking's own slot passes the staff query once its own id is excluded (`_id: {$ne: id}`) |
| BookingInvariant.OwnSlotMeetsItself | backend/src/api/controllers/booking.controller.js:390-396 | without the `_id` exclusion the booking would conflict with itself |
| BookingInvariant.CreatePreservesInvariant | backend/src/api/controllers/booking.controller.js:47-231 | inserting a created booking keeps every slot non-empty and no two live bookings of one staff member overlapping on one day (services have positive durations) |
| BookingInvariant.UpdatePreservesInvariant | backend/src/api/controllers/booking.controller.js:252-457 | the same for writing an updated booking |
| BookingInvariant.ReschedulePreservesInvariant | backend/src/api/controllers/booking.controller.js:549-704 | the same for writing a rescheduled booking |
| BookingInvariant.CancelPreservesInvariant | backend/src/api/controllers/booking.controller.js:474-520 | the same for writing a cancelled booking |
| BookingInvariant.SetStatusPreservesInvariant | backend/src/api/controllers/booking.controller.js:832-862 | the same for a status change |
| BookingStore.BookingStore.constructor | backend/src/api/controllers/booking.controller.js:221-231 | an empty store satisfies the invariant |
| BookingStore.BookingStore.CreateBooking | backend/src/api/controllers/booking.controller.js:221-231 | on success appends exactly the created booking and returns its id; otherwise returns the failure and changes nothing; keeps the invariant |
| BookingStore.BookingStore.UpdateBooking | backend/src/api/controllers/booking.controller.js:446-457 | overwrites exactly the booking with its updated record on success, nothing otherwise; keeps the invariant |
| BookingStore.BookingStore.RescheduleBooking | backend/src/api/controllers/booking.controller.js:701-704 | the same for rescheduling |
| BookingStore.BookingStore.CancelBooking | backend/src/api/controllers/booking.controller.js:518-520 | the same for cancelling |
| BookingStore.BookingStore.UpdateBookingStatus | backend/src/api/controllers/booking.controller.js:861-862 | the same for a status change |
| BookingQueries.StaffScopeAsWrittenMissesOwnBookings | backend/src/api/controllers/booking.controller.js:776-778 | with the staff filter as written (`staffId: req.user._id`), a staff user whose id differs from their staff record's id sees none of the bookings assigned to that record |
| BookingQueries.ScopesAgreeExceptStaff | backend/src/api/controllers/booking.controller.js:766-778 | the corrected scoping agrees with the written one for customers, owners and super-admins |
| BookingQueries.Find | backend/src/api/controllers/booking.controller.js:766-781 | a `find` returns exactly the stored bookings that match the filter, each at most as often as stored |
| BookingQueries.UpcomingBookings | backend/src/api/controllers/booking.controller.js:756-795 | the upcoming list holds exactly the actor's bookings dated today or later that are pending or confirmed |
| BookingQueries.PastBookings | backend/src/api/controllers/booking.controller.js:797-830 | the past list holds exactly the actor's bookings dated before today or completed, cancelled or no-show |
| BookingQueries.UpcomingPastPartition | backend/src/api/controllers/booking.controller.js:756-830 | the upcoming and past lists together hold the actor's bookings, each exactly once |
| BookingQueries.UpcomingPastDisjoint | backend/src/api/controllers/booking.controller.js:756-830 | no booking is both upcoming and past |
| BookingQueries.TodayBookings | backend/src/api/controllers/booking.controller.js:911-944 | today's list holds exactly the actor's non-cancelled bookings dated today |
| BookingQueries.CalendarBookings | backend/src/api/controllers/booking.controller.js:946-982 | missing start or end date: 400; otherwise exactly the salon's non-cancelled bookings between the two dates, both included, limited to a staff user's own record |
| BookingQueries.FindCongruent | backend/src/api/controllers/booking.controller.js:911-982 | two filters that agree on every stored booking select the same list |
| BookingQueries.OneDayCalendarIsToday | backend/src/api/controllers/booking.controller.js:911-982 | for a staff member, a one-day calendar of their salon shows what the today list shows |
| BookingQueries.CheckAvailability | backend/src/api/controllers/booking.controller.js:874-909 | missing salon, staff, date or start: 400; otherwise "available" exactly when the staff query finds no booking |
| BookingQueries.ProbeMeansFree | backend/src/api/controllers/booking.controller.js:874-909 | for non-empty slots, "available" exactly when no live booking of that staff member on that date overlaps the probed slot |
| Availability.BusySlots | backend/src/api/controllers/staff.controller.js:290-306 | the busy list has at most one entry per stored booking |
| Availability.BusySlotsFaithful | backend/src/api/controllers/staff.controller.js:290-306 | a candidate overlaps some busy entry exactly when it overlaps a live booking of that staff member on that day |
| Availability.FreeStarts | backend/src/api/controllers/staff.controller.js:308-338 | the walk offers nothing when the service does not fit before closing, and every offered start fits between the first step and closing |
| Availability.FreeStartsSound | backend/src/api/controllers/staff.controller.js:308-338 | every offered start is on the 30-minute grid from opening, fits before closing, is not before now on today, and overlaps no busy slot |
| Availability.FreeStartsComplete | backend/src/api/controllers/staff.controller.js:308-338 | every grid start with those properties is offered |
| Availability.FreeStartsAscending | backend/src/api/controllers/staff.controller.js:308-338 | the offered starts are strictly ascending |
| Availability.GenerateSlots | backend/src/api/controllers/staff.controller.js:308-338 | the loop returns the texts of exactly the starts the walk offers, in order |
| Availability.Plan | backend/src/api/controllers/staff.controller.js:227-306 | the request passes exactly when the date and service are given, the date is well formed and not past, and the staff member and service exist; a closed weekday gives no slots; otherwise the walk uses that weekday's hours, the service duration, the busy list, whether the date is today and the local minute of the day |
| Availability.GetStaffAvailability | backend/src/api/controllers/staff.controller.js:227-345 | returns the failure of the request, or the texts of exactly the planned free starts |
| Availability.OfferedStartIsBookable | backend/src/api/controllers/staff.controller.js:227-345 | for a service with positive duration, every offered start, with its derived end, passes the staff-conflict query of the booking handlers and lies inside the staff member's hours |
| Availability.FreeGridStartIsOffered | backend/src/api/controllers/staff.controller.js:227-345 | every grid start inside the staff member's hours that overlaps no live booking, and is not before now on today, is offered |
| Availability.ExactFit | backend/src/api/controllers/staff.controller.js:320 | a service that ends exactly at closing is offered (`<=`); one minute longer is not |
| Availability.StartAtNowIsKept | backend/src/api/controllers/staff.controller.js:322-325 | on today, a grid start equal to the current minute is still offered (strict `<`) |
| Availability.BusyHourScenario | backend/src/api/controllers/staff.controller.js:308-338 | 09:00-12:00 with a 30-minute service and a booking 10:00-11:00 offers the starts 09:00, 09:30, 11:00 and 11:30 (as minute values) |
| StaffDirectory.MergeWorkingHours | backend/src/api/controllers/staff.controller.js:210 | every weekday the patch names is replaced whole; the others keep their schedule |
| StaffDirectory.MergeIdempotent | backend/src/api/controllers/staff.controller.js:210 | applying the same patch twice is applying it once; an empty patch changes nothing |
| StaffDirectory.PromotedRole | backend/src/api/controllers/staff.controller.js:101-104 | a customer becomes staff; every other role is kept |
| StaffDirectory.PromotionKeepsOwners | backend/src/api/controllers/staff.controller.js:101-104 | promotion is idempotent and never leaves a customer |
| StaffDirectory.AdmitStaff | backend/src/api/controllers/staff.controller.js:62-95 | a user is admitted exactly when a user id is given, the user exists, is not a super-admin and is not yet staff of this salon; already staff here is exactly the 409 case |
| StaffDirectory.StaffElsewhereIsAdmitted | backend/src/api/controllers/staff.controller.js:88-95 | staff of another salon can still be added here |
| StaffDirectory.StaffDirectory.constructor | backend/src/api/controllers/staff.controller.js:62-114 | an empty directory is valid |
| StaffDirectory.StaffDirectory.CreateStaff | backend/src/api/controllers/staff.controller.js:62-114 | on admission adds exactly one record for the user in the salon with the given schedule over the defaults, promotes a customer, and keeps every user at most once per salon; otherwise changes nothing |
| StaffDirectory.StaffDirectory.UpdateWorkingHours | backend/src/api/controllers/staff.controller.js:198-225 | unknown record: 404 and nothing changes; otherwise only that record's schedule changes, to the merge |
| Reviews.NewReview | backend/src/api/controllers/review.controller.js:48-133 | a review is created exactly when salon, booking and a rating 1-5 are given, the salon exists, the booking is the caller's, in that salon and completed, and the caller has reviewed neither that booking nor that salon; rating 0 counts as missing; once the earlier guards pass, an already reviewed booking gives booking-already-reviewed, and otherwise an already reviewed salon gives salon-already-reviewed; these are the only 409s |
| Reviews.EditReview | backend/src/api/controllers/review.controller.js:173-215 | succeeds exactly for a known review, something sent and a sent rating in 1-5; unknown review: review-not-found (404); nothing sent: nothing-to-update (400); a sent rating outside 1-5: rating-out-of-range (400); only rating and comment change, each only when sent |
| Reviews.AddReply | backend/src/api/controllers/review.controller.js:293-333 | a reply is added exactly to an existing review without one, with a non-blank text, and stores the trimmed text, instant and author |
| Reviews.ReplyOnce | backend/src/api/controllers/review.controller.js:306-311 | a second reply to the same review is always refused |
| Reviews.NewReviewKeepsValid | backend/src/api/controllers/review.controller.js:103-133 | inserting a new review keeps ratings in range and at most one review per user and booking and per user and salon |
| Reviews.SecondReviewRefused | backend/src/api/controllers/review.controller.js:103-125 | after a review, the same user's review of the same booking or salon is refused, with 409 whenever it passes the guards before the duplicate checks |
| Reviews.EditReviewKeepsValid | backend/src/api/controllers/review.controller.js:179-198 | an edit keeps the review invariant |
| Reviews.ReviewStore.constructor | backend/src/api/controllers/review.controller.js:127-133 | an empty review store is valid |
| Reviews.ReviewStore.CreateReview | backend/src/api/controllers/review.controller.js:127-133 | appends exactly the new review on success and returns its id, changes nothing otherwise; keeps the invariant |
| Reviews.ReviewStore.UpdateReview | backend/src/api/controllers/review.controller.js:173-215 | overwrites exactly the edited review on success, nothing otherwise; keeps the invariant |
| Reviews.ReviewStore.ReplyToReview | backend/src/api/controllers/review.controller.js:293-333 | overwrites exactly the replied review on success, nothing otherwise; keeps the invariant |

## Left out

- The bodies of `isValidTimeFormat`, `timeToMinutes`, `minutesToTime`, `isValidDateFormat`, `parseDateUTC` and `getDayOfWeek` are not part of this model: `api/library/utils.js`, from which the controllers import them, does not define them. They are defined in `TimeText` and `Dates` from their documented behaviour: zero-padded 24-hour text, `h*60+m`, `YYYY-MM-DD` through `Date.UTC`, and the UTC weekday.
- Persistence, `populate`, sorting of the lists and response bodies are not modelled. Lists keep store order.
- The 500 error paths are not modelled.
- Concurrency is not modelled: two simultaneous creations can both pass the conflict query. The model runs handlers one at a time.
- Authentication and ownership middleware are not modelled. The exception is the "not found" answer of the booking and review middleware, which comes first in each chain. The actor's role, salon and staff record are inputs.
- The pre-save hook that stamps `confirmedAt`/`completedAt` is not modelled.
- The salon's average-rating recomputation after review writes is not modelled: it is floating-point arithmetic on data outside the core.
- Reviews.NewReview: ratings are integers; fractional ratings such as 4.5 are not modelled.
- The clock is an input (`Dates.Clock`): the current UTC instant and the server's local minute of the day. The time zone is not modelled.
- BookingRules.Cancel: the hours comparison `(start - now)/3600000 < 2` is taken as the exact integer comparison `start - now < 7200000` ms.
- BookingQueries.CheckAvailability and BookingQueries.CalendarBookings take dates as UTC day numbers and times as minutes. These handlers do not validate the texts, and parsing a malformed text is not modelled. A probe without an `end` is not modelled either.
- The booking, review and staff schema files use older field names. The model follows the controllers' field names (`salonId`, `staffId`, `timeSlot`, `reply`).
- Entities.DaySchedule: opening and closing times are minutes, so the stored `open`/`close` texts are taken to be zero-padded `"HH:MM"`. The schema declares them as plain strings, and the staff handlers store whatever the request sends. With an unpadded `"9:00"` the handlers' text comparison `"10:00" < "9:00"` holds and refuses 10:00 as outside the hours; the model does not capture this.
- Entities.DaySchedule: a staff record's schedule is merged per weekday. The schema's per-field defaults inside one weekday are not modelled.
- StaffDirectory.StaffDirectory.UpdateWorkingHours: the record is looked up by id, as a staff-lookup middleware would do. The route as written (staff.route.js:428-432) runs only `protect` and `isTheSalonOwner`; neither sets `req.staff` (only the middleware at staff.middleware.js:28 and 59 does), so as routed the handler answers 404 for every id, and `isTheSalonOwner` is not exported by the auth module it is imported from. That wiring is not modelled.
- StaffDirectory.StaffDirectory.CreateStaff: the owner's salon is taken as given. The case of an owner without a salon is not modelled.
- Service durations are natural numbers. The invariant lemmas and `OfferedStartIsBookable` additionally need positive durations, because a zero-length slot conflicts with nothing.
- Time texts of 100 hours or more (a slot ending past 99:59) are not modelled. There the string comparisons stop agreeing with minutes, and in practice no such slot arises.
- Not checked by the handlers, and so absent from the model as well:
  - salon hours and holidays on update and reschedule;
  - a staff member's own schedule on create;
  - strictly enclosing slots in the user-conflict query (`Conflicts.UserClausesMissEnclosing` states this gap).

## Findings

| source | as written | input that shows it | evidently intended | confidence | as-written member | corrected member |
|---|---|---|---|---|---|---|
| backend/src/api/controllers/booking.controller.js:776-778 | the upcoming, past, today and calendar lists scope a staff user with `staffId: req.user._id`, the user's id, but a booking's `staffId` holds the id of a staff record (booking.controller.js:114, auth.middleware.js:26-33) | a staff user with user id 7 whose staff record has id 3, and a booking with `staffId` 3: it is not listed for them | scope by the id of the staff record that the auth middleware finds for the user (auth.middleware.js:31) | not executed | BookingQueries.StaffScopeAsWrittenMissesOwnBookings | BookingQueries.UpcomingBookings |
