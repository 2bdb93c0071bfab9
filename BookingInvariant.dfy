/** The property the staff-conflict queries exist to keep: no staff member
    holds two live bookings on one date whose slots overlap. Every write the
    booking handlers make preserves it, provided each service lasts at least
    a minute. */
module BookingInvariant {
  import opened Common
  import opened Dates
  import opened Lifecycle
  import opened Failures
  import opened Entities
  import opened Conflicts
  import opened BookingRules

  /** No two live bookings of one staff member on one date overlap. */
  predicate NoStaffDoubleBooking(bs: seq<Booking>) {
    forall i, j :: 0 <= i < |bs| && 0 <= j < |bs| && i != j
      && Live(bs[i]) && Live(bs[j]) && bs[i].staffId == bs[j].staffId && bs[i].date == bs[j].date
      ==> !Overlaps(bs[i].start, bs[i].end, bs[j].start, bs[j].end)
  }

  predicate StoreInvariant(bs: seq<Booking>) {
    SlotsWellFormed(bs) && NoStaffDoubleBooking(bs)
  }

  /** Every service lasts at least a minute, so every derived slot is
      non-empty. */
  predicate PositiveDurations(cat: Catalog) {
    forall k :: k in cat.services ==> cat.services[k].duration > 0
  }

  /** Writing a non-empty slot at `id` that (when live) passed the staff
      query, with its own record excluded, keeps the invariant. */
  lemma ReplacePreserves(bs: seq<Booking>, id: nat, nb: Booking)
    requires StoreInvariant(bs) && id < |bs| && nb.start < nb.end
    requires Live(nb) ==> !StaffConflict(bs, Some(id), nb.staffId, nb.date, nb.start, nb.end)
    ensures StoreInvariant(bs[id := nb])
  {
    var bs' := bs[id := nb];
    forall i, j | 0 <= i < |bs'| && 0 <= j < |bs'| && i != j
      && Live(bs'[i]) && Live(bs'[j]) && bs'[i].staffId == bs'[j].staffId && bs'[i].date == bs'[j].date
      ensures !Overlaps(bs'[i].start, bs'[i].end, bs'[j].start, bs'[j].end)
    {
      if i == id {
        assert !StaffClauses(nb.start, nb.end, bs[j].start, bs[j].end);
      } else if j == id {
        assert !StaffClauses(nb.start, nb.end, bs[i].start, bs[i].end);
      }
    }
  }

  /** Appending a non-empty slot that passed the staff query keeps the
      invariant. */
  lemma AppendPreserves(bs: seq<Booking>, nb: Booking)
    requires StoreInvariant(bs) && nb.start < nb.end
    requires Live(nb) ==> !StaffConflict(bs, None, nb.staffId, nb.date, nb.start, nb.end)
    ensures StoreInvariant(bs + [nb])
  {
    var bs' := bs + [nb];
    var n := |bs|;
    forall i, j | 0 <= i < |bs'| && 0 <= j < |bs'| && i != j
      && Live(bs'[i]) && Live(bs'[j]) && bs'[i].staffId == bs'[j].staffId && bs'[i].date == bs'[j].date
      ensures !Overlaps(bs'[i].start, bs'[i].end, bs'[j].start, bs'[j].end)
    {
      if i == n {
        assert !StaffClauses(nb.start, nb.end, bs[j].start, bs[j].end);
      } else if j == n {
        assert !StaffClauses(nb.start, nb.end, bs[i].start, bs[i].end);
      }
    }
  }

  /** Under the invariant a live booking's own slot passes the staff query
      once the booking itself is excluded: the `_id: {$ne: id}` clause is
      what lets an update keep its slot. */
  lemma OwnSlotPassesStaffQuery(bs: seq<Booking>, id: nat)
    requires StoreInvariant(bs) && id < |bs| && Live(bs[id])
    ensures !StaffConflict(bs, Some(id), bs[id].staffId, bs[id].date, bs[id].start, bs[id].end)
  {
    var b := bs[id];
    forall i | 0 <= i < |bs| && Some(id) != Some(i) && bs[i].staffId == b.staffId && bs[i].date == b.date && Live(bs[i])
      ensures !StaffClauses(b.start, b.end, bs[i].start, bs[i].end)
    {
      assert !Overlaps(b.start, b.end, bs[i].start, bs[i].end);
    }
  }

  /** Without the exclusion the same slot always meets itself. */
  lemma OwnSlotMeetsItself(bs: seq<Booking>, id: nat)
    requires id < |bs| && Live(bs[id]) && bs[id].start < bs[id].end
    ensures StaffConflict(bs, None, bs[id].staffId, bs[id].date, bs[id].start, bs[id].end)
  {
    assert StaffClauses(bs[id].start, bs[id].end, bs[id].start, bs[id].end);
  }

  lemma CreatePreservesInvariant(bs: seq<Booking>, cat: Catalog, clock: Clock, userId: Id, req: CreateRequest)
    requires StoreInvariant(bs) && PositiveDurations(cat)
    requires Create(bs, cat, clock, userId, req).Ok?
    ensures StoreInvariant(bs + [Create(bs, cat, clock, userId, req).value])
  {
    var nb := Create(bs, cat, clock, userId, req).value;
    assert CreateAdmissible(bs, cat, clock, userId, req);
    CreatedBooking(bs, cat, clock, userId, req);
    assert !StaffConflict(bs, None, nb.staffId, nb.date, nb.start, nb.end);
    AppendPreserves(bs, nb);
  }

  lemma UpdatePreservesInvariant(bs: seq<Booking>, cat: Catalog, clock: Clock, id: nat, req: UpdateRequest)
    requires StoreInvariant(bs) && PositiveDurations(cat)
    requires Update(bs, cat, clock, id, req).Ok?
    ensures StoreInvariant(bs[id := Update(bs, cat, clock, id, req).value])
  {
    ReplacePreserves(bs, id, Update(bs, cat, clock, id, req).value);
  }

  lemma ReschedulePreservesInvariant(bs: seq<Booking>, cat: Catalog, clock: Clock, id: nat, req: RescheduleRequest)
    requires StoreInvariant(bs) && PositiveDurations(cat)
    requires Reschedule(bs, cat, clock, id, req).Ok?
    ensures StoreInvariant(bs[id := Reschedule(bs, cat, clock, id, req).value])
  {
    ReplacePreserves(bs, id, Reschedule(bs, cat, clock, id, req).value);
  }

  /** Cancelling frees the slot; it never needs a duration assumption. */
  lemma CancelPreservesInvariant(bs: seq<Booking>, clock: Clock, id: nat, role: Role)
    requires StoreInvariant(bs)
    requires Cancel(bs, clock, id, role).Ok?
    ensures StoreInvariant(bs[id := Cancel(bs, clock, id, role).value])
  {
    ReplacePreserves(bs, id, Cancel(bs, clock, id, role).value);
  }

  /** A status change keeps the slot, and it cannot revive a cancelled
      booking, since `cancelled` has no outgoing transition. */
  lemma SetStatusPreservesInvariant(bs: seq<Booking>, id: nat, target: string)
    requires StoreInvariant(bs)
    requires SetStatus(bs, id, target).Ok?
    ensures StoreInvariant(bs[id := SetStatus(bs, id, target).value])
  {
    var nb := SetStatus(bs, id, target).value;
    if Live(nb) {
      assert Live(bs[id]);
      OwnSlotPassesStaffQuery(bs, id);
    }
    ReplacePreserves(bs, id, nb);
  }
}
