/** The five booking statuses and the transition table enforced by
    `updateBookingStatus`. */
module Lifecycle {
  import opened Common

  datatype Status = Pending | Confirmed | Completed | Cancelled | NoShow

  /** Statuses without outgoing transitions. */
  predicate IsTerminal(s: Status) {
    s.Completed? || s.Cancelled? || s.NoShow?
  }

  /** The stored text of a status. */
  function StatusName(s: Status): string {
    match s
    case Pending => "pending"
    case Confirmed => "confirmed"
    case Completed => "completed"
    case Cancelled => "cancelled"
    case NoShow => "no_show"
  }

  /** Reads a status name from a request body; any other text is no status. */
  function ParseStatus(t: string): (r: Option<Status>)
    ensures r.Some? ==> StatusName(r.value) == t
    ensures r.None? ==> forall s: Status :: StatusName(s) != t
  {
    if t == "pending" then Some(Pending)
    else if t == "confirmed" then Some(Confirmed)
    else if t == "completed" then Some(Completed)
    else if t == "cancelled" then Some(Cancelled)
    else if t == "no_show" then Some(NoShow)
    else None
  }

  /** `validStatuses`: the statuses a status update may ask for. */
  predicate IsValidTarget(s: Status) {
    s.Confirmed? || s.Cancelled? || s.Completed? || s.NoShow?
  }

  /** `allowedTransitions[from]`. */
  function AllowedTransitions(from: Status): (r: seq<Status>)
    ensures Pending !in r
    ensures r == [] <==> IsTerminal(from)
    ensures forall to :: to in r ==> IsValidTarget(to)
  {
    match from
    case Pending => [Confirmed, Cancelled]
    case Confirmed => [Completed, Cancelled, NoShow]
    case Completed => []
    case Cancelled => []
    case NoShow => []
  }

  predicate CanTransition(from: Status, to: Status) {
    to in AllowedTransitions(from)
  }

  /** The table, pair by pair: exactly five transitions are legal. */
  lemma TransitionTable(from: Status, to: Status)
    ensures CanTransition(from, to) <==>
      || (from == Pending && (to == Confirmed || to == Cancelled))
      || (from == Confirmed && (to == Completed || to == Cancelled || to == NoShow))
  {
  }

  /** How far along the lifecycle a status is. */
  function Stage(s: Status): nat {
    match s
    case Pending => 0
    case Confirmed => 1
    case _ => 2
  }

  /** Every legal transition moves strictly forward, so no status is ever
      re-entered through `updateBookingStatus` and a cancelled booking stays
      cancelled. */
  lemma TransitionsMoveForward(from: Status, to: Status)
    requires CanTransition(from, to)
    ensures Stage(from) < Stage(to)
    ensures from != to && !to.Pending?
  {
  }
}
