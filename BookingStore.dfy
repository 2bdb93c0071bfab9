/** The bookings collection as the handlers change it: `Booking.create`
    appends a record, `booking.save()` overwrites one. A booking's id is its
    position. Each write is the decision of the matching `BookingRules`
    function, and each keeps `StoreInvariant`. */
module BookingStore {
  import opened Common
  import opened Dates
  import opened Failures
  import opened Entities
  import opened BookingRules
  import opened BookingInvariant

  class BookingStore {
    var bookings: seq<Booking>

    constructor ()
      ensures bookings == []
      ensures StoreInvariant(bookings)
    {
      bookings := [];
    }

    /** `createBooking`: inserts the new booking and answers with its id. */
    method CreateBooking(cat: Catalog, clock: Clock, userId: Id, req: CreateRequest) returns (r: Result<Id>)
      modifies this
      ensures var d := Create(old(bookings), cat, clock, userId, req);
        if d.Ok? then r == Ok(|old(bookings)|) && bookings == old(bookings) + [d.value]
        else r == Err(d.failure) && bookings == old(bookings)
      ensures old(StoreInvariant(bookings)) && PositiveDurations(cat) ==> StoreInvariant(bookings)
    {
      var d := Create(bookings, cat, clock, userId, req);
      if d.Ok? {
        if StoreInvariant(bookings) && PositiveDurations(cat) {
          CreatePreservesInvariant(bookings, cat, clock, userId, req);
        }
        r := Ok(|bookings|);
        bookings := bookings + [d.value];
      } else {
        r := Err(d.failure);
      }
    }

    /** `updateBooking`: overwrites booking `id` with its updated record. */
    method UpdateBooking(cat: Catalog, clock: Clock, id: nat, req: UpdateRequest) returns (r: Result<Booking>)
      modifies this
      ensures r == Update(old(bookings), cat, clock, id, req)
      ensures bookings == if r.Ok? then old(bookings)[id := r.value] else old(bookings)
      ensures old(StoreInvariant(bookings)) && PositiveDurations(cat) ==> StoreInvariant(bookings)
    {
      r := Update(bookings, cat, clock, id, req);
      if r.Ok? {
        if StoreInvariant(bookings) && PositiveDurations(cat) {
          UpdatePreservesInvariant(bookings, cat, clock, id, req);
        }
        bookings := bookings[id := r.value];
      }
    }

    /** `rescheduleBooking`. */
    method RescheduleBooking(cat: Catalog, clock: Clock, id: nat, req: RescheduleRequest) returns (r: Result<Booking>)
      modifies this
      ensures r == Reschedule(old(bookings), cat, clock, id, req)
      ensures bookings == if r.Ok? then old(bookings)[id := r.value] else old(bookings)
      ensures old(StoreInvariant(bookings)) && PositiveDurations(cat) ==> StoreInvariant(bookings)
    {
      r := Reschedule(bookings, cat, clock, id, req);
      if r.Ok? {
        if StoreInvariant(bookings) && PositiveDurations(cat) {
          ReschedulePreservesInvariant(bookings, cat, clock, id, req);
        }
        bookings := bookings[id := r.value];
      }
    }

    /** `cancelBooking` by an actor of role `role`. */
    method CancelBooking(clock: Clock, id: nat, role: Role) returns (r: Result<Booking>)
      modifies this
      ensures r == Cancel(old(bookings), clock, id, role)
      ensures bookings == if r.Ok? then old(bookings)[id := r.value] else old(bookings)
      ensures old(StoreInvariant(bookings)) ==> StoreInvariant(bookings)
    {
      r := Cancel(bookings, clock, id, role);
      if r.Ok? {
        if StoreInvariant(bookings) {
          CancelPreservesInvariant(bookings, clock, id, role);
        }
        bookings := bookings[id := r.value];
      }
    }

    /** `updateBookingStatus`. */
    method UpdateBookingStatus(id: nat, target: string) returns (r: Result<Booking>)
      modifies this
      ensures r == SetStatus(old(bookings), id, target)
      ensures bookings == if r.Ok? then old(bookings)[id := r.value] else old(bookings)
      ensures old(StoreInvariant(bookings)) ==> StoreInvariant(bookings)
    {
      r := SetStatus(bookings, id, target);
      if r.Ok? {
        if StoreInvariant(bookings) {
          SetStatusPreservesInvariant(bookings, id, target);
        }
        bookings := bookings[id := r.value];
      }
    }
  }
}
