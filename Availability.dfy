/** `getStaffAvailability`: the validation chain, then the loop that walks a
    staff member's working day in 30-minute steps and offers every start at
    which the service fits before closing, is not in the past, and meets no
    busy range. */
module Availability {
  import opened Common
  import opened TimeText
  import opened Dates
  import opened Failures
  import opened Entities
  import opened Conflicts

  /** The step between candidate starts, in minutes. */
  const SlotInterval: nat := 30

  /** One busy minute range, from a stored booking's slot. */
  datatype Busy = Busy(start: int, end: int)

  /** A booking that makes a staff member busy on a day: theirs, on that
      date, not cancelled. */
  predicate Holds(b: Booking, staffId: Id, day: int) {
    b.staffId == staffId && b.date == day && Live(b)
  }

  /** `bookings.map(...)` over the staff member's live bookings of the day. */
  function BusySlots(bs: seq<Booking>, staffId: Id, day: int): (r: seq<Busy>)
    ensures |r| <= |bs|
  {
    if bs == [] then []
    else
      var rest := BusySlots(bs[1..], staffId, day);
      if Holds(bs[0], staffId, day) then [Busy(bs[0].start, bs[0].end)] + rest else rest
  }

  /** `busySlots.some(busy => current < busy.end && slotEnd > busy.start)`. */
  predicate Overlapping(busy: seq<Busy>, s: int, e: int) {
    exists k :: 0 <= k < |busy| && Overlaps(s, e, busy[k].start, busy[k].end)
  }

  /** Some live booking of the staff member on the day overlaps `[s, e)`. */
  predicate BookedOverlap(bs: seq<Booking>, staffId: Id, day: int, s: int, e: int) {
    exists i :: 0 <= i < |bs| && Holds(bs[i], staffId, day) && Overlaps(s, e, bs[i].start, bs[i].end)
  }

  /** The busy ranges meet a slot exactly when one of the bookings does. */
  lemma {:induction false} BusySlotsFaithful(bs: seq<Booking>, staffId: Id, day: int, s: int, e: int)
    ensures Overlapping(BusySlots(bs, staffId, day), s, e) <==> BookedOverlap(bs, staffId, day, s, e)
  {
    if bs != [] {
      var tail := bs[1..];
      var rest := BusySlots(tail, staffId, day);
      BusySlotsFaithful(tail, staffId, day, s, e);
      var head := Holds(bs[0], staffId, day) && Overlaps(s, e, bs[0].start, bs[0].end);
      assert BookedOverlap(bs, staffId, day, s, e) <==> head || BookedOverlap(tail, staffId, day, s, e) by {
        if BookedOverlap(tail, staffId, day, s, e) {
          var j :| 0 <= j < |tail| && Holds(tail[j], staffId, day) && Overlaps(s, e, tail[j].start, tail[j].end);
          assert bs[j + 1] == tail[j];
        }
        if BookedOverlap(bs, staffId, day, s, e) && !head {
          var i :| 0 <= i < |bs| && Holds(bs[i], staffId, day) && Overlaps(s, e, bs[i].start, bs[i].end);
          assert i != 0;
          assert tail[i - 1] == bs[i];
        }
      }
      if Holds(bs[0], staffId, day) {
        var r := [Busy(bs[0].start, bs[0].end)] + rest;
        assert Overlapping(r, s, e) <==> head || Overlapping(rest, s, e) by {
          if Overlapping(rest, s, e) {
            var j :| 0 <= j < |rest| && Overlaps(s, e, rest[j].start, rest[j].end);
            assert r[j + 1] == rest[j];
          }
          if Overlapping(r, s, e) && !head {
            var k :| 0 <= k < |r| && Overlaps(s, e, r[k].start, r[k].end);
            assert k != 0;
            assert rest[k - 1] == r[k];
          }
          if head {
            assert Overlaps(s, e, r[0].start, r[0].end);
          }
        }
      }
    }
  }

  /** A start the loop offers when it began at `first`: on the 30-minute
      grid from `first`, the service ends by closing, not before the current
      time on the current day, and no busy range meets it. */
  predicate Offered(first: int, close: int, duration: nat, busy: seq<Busy>, isToday: bool, now: int, x: int) {
    && first <= x && (x - first) % SlotInterval == 0 && x + duration <= close
    && !(isToday && x < now)
    && !Overlapping(busy, x, x + duration)
  }

  /** The starts the loop offers from `current` on, in the order it offers
      them. */
  function FreeStarts(current: nat, close: nat, duration: nat, busy: seq<Busy>, isToday: bool, now: int): (r: seq<nat>)
    ensures current + duration > close ==> r == []
    ensures forall x :: x in r ==> current <= x && x + duration <= close
    decreases close - current
  {
    if current + duration > close then []
    else
      var rest := FreeStarts(current + SlotInterval, close, duration, busy, isToday, now);
      if (isToday && current < now) || Overlapping(busy, current, current + duration) then rest
      else [current] + rest
  }

  /** A grid point after `c` is a grid point from the next step. */
  lemma GridStep(c: int, x: int)
    requires c <= x && (x - c) % SlotInterval == 0 && x != c
    ensures c + SlotInterval <= x && (x - (c + SlotInterval)) % SlotInterval == 0
  {
  }

  /** Every start `FreeStarts` yields is offered. */
  lemma {:induction false} FreeStartsSound(current: nat, close: nat, duration: nat, busy: seq<Busy>,
                                           isToday: bool, now: int, x: int)
    requires x in FreeStarts(current, close, duration, busy, isToday, now)
    ensures Offered(current, close, duration, busy, isToday, now, x)
    decreases close - current
  {
    var next := current + SlotInterval;
    if x != current {
      FreeStartsSound(next, close, duration, busy, isToday, now, x);
      assert (x - current) % SlotInterval == 0 by {
        assert x - current == (x - next) + SlotInterval;
      }
    }
  }

  /** Every offered start is yielded. */
  lemma {:induction false} FreeStartsComplete(current: nat, close: nat, duration: nat, busy: seq<Busy>,
                                              isToday: bool, now: int, x: int)
    requires Offered(current, close, duration, busy, isToday, now, x)
    ensures x in FreeStarts(current, close, duration, busy, isToday, now)
    decreases close - current
  {
    if x != current {
      GridStep(current, x);
      FreeStartsComplete(current + SlotInterval, close, duration, busy, isToday, now, x);
    }
  }

  predicate StrictlyAscending(s: seq<nat>) {
    forall j, k :: 0 <= j < k < |s| ==> s[j] < s[k]
  }

  /** The yielded starts are strictly ascending. */
  lemma {:induction false} FreeStartsAscending(current: nat, close: nat, duration: nat, busy: seq<Busy>,
                                               isToday: bool, now: int)
    ensures StrictlyAscending(FreeStarts(current, close, duration, busy, isToday, now))
    decreases close - current
  {
    if current + duration <= close {
      var rest := FreeStarts(current + SlotInterval, close, duration, busy, isToday, now);
      FreeStartsAscending(current + SlotInterval, close, duration, busy, isToday, now);
      var r := FreeStarts(current, close, duration, busy, isToday, now);
      if r != rest {
        assert r == [current] + rest;
        forall j, k | 0 <= j < k < |r| ensures r[j] < r[k] {
          assert r[k] == rest[k - 1] && rest[k - 1] in rest;
          if j == 0 {
            assert current + SlotInterval <= rest[k - 1];
          } else {
            assert r[j] == rest[j - 1];
            assert 0 <= j - 1 < k - 1 < |rest|;
            assert rest[j - 1] < rest[k - 1];
          }
        }
      }
    }
  }

  /** `availableSlots.push(minutesToTime(current))` for each offered start. */
  function Texts(ms: seq<nat>): (r: seq<string>)
    ensures |r| == |ms|
    ensures forall k :: 0 <= k < |ms| ==> r[k] == MinutesToTime(ms[k])
  {
    if ms == [] then [] else [MinutesToTime(ms[0])] + Texts(ms[1..])
  }

  /** One step of the walk: the starts offered so far followed by those
      from `current` on are the starts offered after this step followed by
      those from the next grid point on. */
  lemma WalkStep(done: seq<nat>, current: nat, close: nat, duration: nat, busy: seq<Busy>, isToday: bool, now: int)
    requires current + duration <= close
    ensures var skip := (isToday && current < now) || Overlapping(busy, current, current + duration);
      done + FreeStarts(current, close, duration, busy, isToday, now)
      == (if skip then done else done + [current]) + FreeStarts(current + SlotInterval, close, duration, busy, isToday, now)
  {
  }

  /** `ts` renders the starts `ms` one by one. */
  predicate Renders(ms: seq<nat>, ts: seq<string>) {
    |ts| == |ms| && forall k :: 0 <= k < |ms| ==> ts[k] == MinutesToTime(ms[k])
  }

  /** Rendering keeps pace when one more start and its text are pushed. */
  lemma RendersSnoc(ms: seq<nat>, ts: seq<string>, m: nat)
    requires Renders(ms, ts)
    ensures Renders(ms + [m], ts + [MinutesToTime(m)])
  {
  }

  /** Texts that render the given starts one by one are their `Texts`. */
  lemma TextsPointwise(ms: seq<nat>, ts: seq<string>)
    requires Renders(ms, ts)
    ensures ts == Texts(ms)
  {
    var r := Texts(ms);
    assert forall k :: 0 <= k < |ms| ==> ts[k] == r[k];
  }

  /** The slot loop of `getStaffAvailability`. */
  method GenerateSlots(open: nat, close: nat, duration: nat, busy: seq<Busy>, isToday: bool, now: int)
    returns (slots: seq<string>)
    ensures slots == Texts(FreeStarts(open, close, duration, busy, isToday, now))
  {
    slots := [];
    var current: nat := open;
    ghost var done: seq<nat> := [];
    while current + duration <= close
      invariant FreeStarts(open, close, duration, busy, isToday, now)
                == done + FreeStarts(current, close, duration, busy, isToday, now)
      invariant Renders(done, slots)
      decreases close - current
    {
      WalkStep(done, current, close, duration, busy, isToday, now);
      if isToday && current < now {
        current := current + SlotInterval;
        continue;
      }
      var slotEnd := current + duration;
      var isOverlapping := Overlapping(busy, current, slotEnd);
      if !isOverlapping {
        RendersSnoc(done, slots, current);
        done := done + [current];
        slots := slots + [MinutesToTime(current)];
      }
      current := current + SlotInterval;
    }
    assert done + [] == done;
    TextsPointwise(done, slots);
  }

  /** What the validation chain leaves the loop to do. */
  datatype DayPlan =
    | DayOff
    | Walk(open: nat, close: nat, duration: nat, busy: seq<Busy>, isToday: bool, now: int)

  /** The validation chain of `getStaffAvailability` for staff record
      `staffId`: required query fields, the date format, no past date, the
      staff record and the service; a weekday without a working schedule
      yields no slots rather than an error. */
  function Plan(bs: seq<Booking>, cat: Catalog, clock: Clock, staffId: Id, date: Option<string>, serviceId: Option<Id>)
    : (r: Result<DayPlan>)
    ensures r.Ok? <==>
      && Given(date) && serviceId.Some? && IsValidDateFormat(date.value)
      && ParseDateUTC(date.value) >= Today(clock)
      && staffId in cat.staff && serviceId.value in cat.services
    ensures r.Ok? ==> (r.value.DayOff? <==> !IsOpenOn(cat.staff[staffId].workingHours, DayOfWeek(ParseDateUTC(date.value))))
    ensures r.Ok? && r.value.Walk? ==>
      && var day := ParseDateUTC(date.value);
      var sched := cat.staff[staffId].workingHours[DayOfWeek(day)];
      r.value == Walk(sched.open, sched.close, cat.services[serviceId.value].duration,
                      BusySlots(bs, staffId, day), day == Today(clock), clock.localMinuteOfDay)
  {
    if !Given(date) || serviceId.None? then Err(MissingFields)
    else if !IsValidDateFormat(date.value) then Err(BadDateFormat)
    else
      var day := ParseDateUTC(date.value);
      var today := Today(clock);
      if day < today then Err(PastDate)
      else if staffId !in cat.staff then Err(StaffNotFound)
      else if serviceId.value !in cat.services then Err(ServiceNotFound)
      else
        var weekday := GetDayOfWeek(date.value);
        var wh := cat.staff[staffId].workingHours;
        if !IsOpenOn(wh, weekday) then Ok(DayOff)
        else
          Ok(Walk(wh[weekday].open, wh[weekday].close, cat.services[serviceId.value].duration,
                  BusySlots(bs, staffId, day), day == today, clock.localMinuteOfDay))
  }

  /** The starts a plan yields. */
  function PlannedStarts(p: DayPlan): seq<nat> {
    match p
    case DayOff => []
    case Walk(open, close, duration, busy, isToday, now) => FreeStarts(open, close, duration, busy, isToday, now)
  }

  /** `getStaffAvailability`: the plan's rejection, or the texts of the
      starts the loop offers. */
  method GetStaffAvailability(bs: seq<Booking>, cat: Catalog, clock: Clock, staffId: Id,
                              date: Option<string>, serviceId: Option<Id>) returns (r: Result<seq<string>>)
    ensures var p := Plan(bs, cat, clock, staffId, date, serviceId);
      r == if p.Err? then Err(p.failure) else Ok(Texts(PlannedStarts(p.value)))
  {
    var p := Plan(bs, cat, clock, staffId, date, serviceId);
    if p.Err? {
      r := Err(p.failure);
    } else {
      match p.value
      case DayOff =>
        r := Ok([]);
      case Walk(open, close, duration, busy, isToday, now) =>
        var slots := GenerateSlots(open, close, duration, busy, isToday, now);
        r := Ok(slots);
    }
  }

  /** Every start offered for a service of positive length lies inside the
      staff member's schedule for the day, is not past on the current day,
      and passes the staff-conflict query that `createBooking` runs for the
      same slot. */
  lemma OfferedStartIsBookable(bs: seq<Booking>, cat: Catalog, clock: Clock, staffId: Id,
                               date: Option<string>, serviceId: Option<Id>, x: nat)
    requires SlotsWellFormed(bs)
    requires Plan(bs, cat, clock, staffId, date, serviceId).Ok?
    requires x in PlannedStarts(Plan(bs, cat, clock, staffId, date, serviceId).value)
    requires cat.services[serviceId.value].duration > 0
    ensures
      && var day := ParseDateUTC(date.value);
      var wh := cat.staff[staffId].workingHours;
      var end := x + cat.services[serviceId.value].duration;
      && IsOpenOn(wh, DayOfWeek(day))
      && wh[DayOfWeek(day)].open <= x && end <= wh[DayOfWeek(day)].close
      && (day == Today(clock) ==> x >= clock.localMinuteOfDay)
      && !StaffConflict(bs, None, staffId, day, x, end)
  {
    var day := ParseDateUTC(date.value);
    var end := x + cat.services[serviceId.value].duration;
    var p := Plan(bs, cat, clock, staffId, date, serviceId).value;
    FreeStartsSound(p.open, p.close, p.duration, p.busy, p.isToday, p.now, x);
    BusySlotsFaithful(bs, staffId, day, x, end);
    NoStaffConflictMeansNoOverlap(bs, None, staffId, day, x, end);
  }

  /** Conversely, every grid start that fits the schedule, is not past and
      meets no live booking of the staff member is offered. */
  lemma FreeGridStartIsOffered(bs: seq<Booking>, cat: Catalog, clock: Clock, staffId: Id,
                               date: Option<string>, serviceId: Option<Id>, x: nat)
    requires Plan(bs, cat, clock, staffId, date, serviceId).Ok?
    requires
      && var day := ParseDateUTC(date.value);
      var wh := cat.staff[staffId].workingHours;
      var end := x + cat.services[serviceId.value].duration;
      && IsOpenOn(wh, DayOfWeek(day))
      && wh[DayOfWeek(day)].open <= x && (x - wh[DayOfWeek(day)].open) % SlotInterval == 0
      && end <= wh[DayOfWeek(day)].close
      && (day == Today(clock) ==> x >= clock.localMinuteOfDay)
      && !BookedOverlap(bs, staffId, day, x, end)
    ensures x in PlannedStarts(Plan(bs, cat, clock, staffId, date, serviceId).value)
  {
    var day := ParseDateUTC(date.value);
    BusySlotsFaithful(bs, staffId, day, x, x + cat.services[serviceId.value].duration);
    var p := Plan(bs, cat, clock, staffId, date, serviceId).value;
    FreeStartsComplete(p.open, p.close, p.duration, p.busy, p.isToday, p.now, x);
  }

  /** A day from 09:00 to 10:00 fits one 60-minute service, at 09:00, and
      no 61-minute one. */
  lemma ExactFit()
    ensures FreeStarts(540, 600, 60, [], false, 0) == [540]
    ensures FreeStarts(540, 600, 61, [], false, 0) == []
  {
    assert FreeStarts(570, 600, 60, [], false, 0) == [];
  }

  /** On the current day the comparison with the clock is strict: at
      09:30 the 09:30 start is still offered, 09:00 is not. */
  lemma StartAtNowIsKept()
    ensures FreeStarts(540, 600, 30, [], true, 570) == [570]
  {
    assert FreeStarts(600, 600, 30, [], true, 570) == [];
  }

  /** A booking from 10:00 to 11:00 in a 09:00-12:00 day removes the
      30-minute starts 10:00 and 10:30 and keeps 09:00, 09:30 (which ends
      where the booking starts), 11:00 (which starts where it ends) and
      11:30; times are minutes after midnight. */
  lemma BusyHourScenario()
    ensures FreeStarts(540, 720, 30, [Busy(600, 660)], false, 0) == [540, 570, 660, 690]
  {
    var busy := [Busy(600, 660)];
    assert FreeStarts(720, 720, 30, busy, false, 0) == [];
    assert FreeStarts(690, 720, 30, busy, false, 0) == [690];
    assert FreeStarts(660, 720, 30, busy, false, 0) == [660, 690];
    assert Overlaps(630, 660, busy[0].start, busy[0].end);
    assert Overlaps(600, 630, busy[0].start, busy[0].end);
    assert FreeStarts(600, 720, 30, busy, false, 0) == [660, 690];
  }
}
