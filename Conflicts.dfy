/** The conflict queries of the booking handlers. Each is a `findOne` over
    the bookings with an `$or` of range clauses on the stored
    `timeSlot.start`/`timeSlot.end`; here the clauses are predicates on
    minutes and the query is an existential over the store. */
module Conflicts {
  import opened Common
  import opened Lifecycle
  import opened Entities

  /** Half-open interval overlap: `[s1, e1)` and `[s2, e2)` share a minute. */
  predicate Overlaps(s1: int, e1: int, s2: int, e2: int) {
    s1 < e2 && e1 > s2
  }

  /** The three-clause `$or` of the staff-conflict query for a candidate
      `[s, e)` against a stored `[bs, be)`: the stored start lies in the
      candidate, or the stored end does, or the stored slot encloses it.
      For non-empty intervals it is exactly overlap. */
  function StaffClauses(s: int, e: int, bs: int, be: int): (r: bool)
    ensures s < e && bs < be ==> (r <==> Overlaps(s, e, bs, be))
  {
    || (bs >= s && bs < e)
    || (be > s && be <= e)
    || (bs <= s && be >= e)
  }

  /** The two-clause `$or` of the user-conflict query. For non-empty
      intervals it reports every overlap except a stored slot that strictly
      encloses the candidate on both sides. */
  function UserClauses(s: int, e: int, bs: int, be: int): (r: bool)
    ensures bs < be && r ==> Overlaps(s, e, bs, be)
    ensures s < e && bs < be ==> (r <==> Overlaps(s, e, bs, be) && !(bs < s && e < be))
  {
    || (bs >= s && bs < e)
    || (be > s && be <= e)
  }

  /** The user check misses the enclosing case: a customer holding
      10:00-12:00 can still book 10:30-11:00 with another staff member,
      although the two overlap and the staff query would report it. */
  lemma UserClausesMissEnclosing(s: int, e: int, bs: int, be: int)
    requires bs < s < e < be
    ensures Overlaps(s, e, bs, be)
    ensures StaffClauses(s, e, bs, be)
    ensures !UserClauses(s, e, bs, be)
  {
  }

  lemma OverlapsSymmetric(s1: int, e1: int, s2: int, e2: int)
    ensures Overlaps(s1, e1, s2, e2) == Overlaps(s2, e2, s1, e1)
  {
  }

  /** A stored booking takes part in a conflict query for a staff member or
      user on a date: it is not cancelled (`status: {$nin: ['cancelled']}`). */
  predicate Live(b: Booking) {
    b.status != Cancelled
  }

  /** The staff-conflict `findOne` finds something. `exclude` is the
      booking's own id in update and reschedule (`_id: {$ne: id}`). */
  predicate StaffConflict(bs: seq<Booking>, exclude: Option<nat>, staffId: Id, date: int, s: int, e: int) {
    exists i :: 0 <= i < |bs| && exclude != Some(i) && bs[i].staffId == staffId && bs[i].date == date
      && Live(bs[i]) && StaffClauses(s, e, bs[i].start, bs[i].end)
  }

  /** The user-conflict `findOne` finds something. */
  predicate UserConflict(bs: seq<Booking>, exclude: Option<nat>, userId: Id, date: int, s: int, e: int) {
    exists i :: 0 <= i < |bs| && exclude != Some(i) && bs[i].userId == userId && bs[i].date == date
      && Live(bs[i]) && UserClauses(s, e, bs[i].start, bs[i].end)
  }

  /** Every stored slot is a non-empty interval. */
  predicate SlotsWellFormed(bs: seq<Booking>) {
    forall i :: 0 <= i < |bs| ==> bs[i].start < bs[i].end
  }

  /** On a store of non-empty slots, "no staff conflict" for a non-empty
      candidate means: no live booking of that staff member on that date,
      other than the excluded one, overlaps the candidate. */
  lemma NoStaffConflictMeansNoOverlap(bs: seq<Booking>, exclude: Option<nat>, staffId: Id, date: int, s: int, e: int)
    requires SlotsWellFormed(bs) && s < e
    ensures !StaffConflict(bs, exclude, staffId, date, s, e) <==>
      forall i :: 0 <= i < |bs| && exclude != Some(i) && bs[i].staffId == staffId && bs[i].date == date && Live(bs[i])
        ==> !Overlaps(s, e, bs[i].start, bs[i].end)
  {
    if !StaffConflict(bs, exclude, staffId, date, s, e) {
      forall i | 0 <= i < |bs| && exclude != Some(i) && bs[i].staffId == staffId && bs[i].date == date && Live(bs[i])
        ensures !Overlaps(s, e, bs[i].start, bs[i].end)
      {
        assert !StaffClauses(s, e, bs[i].start, bs[i].end);
      }
    }
  }
}
