/** Booking statuses, the transition matrix of the lifecycle service, and actor roles. */
module Bookings {

  datatype Role = Customer | Vendor | Admin | SupportAgent | System

  datatype Status =
    | PENDING
    | CONFIRMED
    | HANDOVER_READY
    | ONGOING
    | RETURN_PENDING
    | COMPLETED
    | CANCELLED
    | REFUND_PENDING
    | REFUNDED
    | DISPUTED
    | EXPIRED

  /** The canonical matrix. */
  function NextStates(s: Status): set<Status> {
    match s
    case PENDING => {CONFIRMED, CANCELLED, EXPIRED}
    case CONFIRMED => {HANDOVER_READY, ONGOING, CANCELLED, REFUND_PENDING}
    case HANDOVER_READY => {ONGOING, CANCELLED}
    case ONGOING => {RETURN_PENDING, COMPLETED}
    case RETURN_PENDING => {COMPLETED, DISPUTED}
    case REFUND_PENDING => {REFUNDED, DISPUTED}
    case DISPUTED => {COMPLETED, REFUND_PENDING, REFUNDED}
    case COMPLETED => {}
    case REFUNDED => {}
    case CANCELLED => {}
    case EXPIRED => {}
  }

  predicate Allowed(prev: Status, next: Status) {
    next in NextStates(prev)
  }

  /** The matrix read from the other side: where each status may be entered from.  Only trips that have
      not started are cancelled, only unanswered ones expire. */
  lemma EnteredFrom(s: Status)
    ensures !Allowed(s, PENDING)
    ensures Allowed(s, CONFIRMED) <==> s == PENDING
    ensures Allowed(s, EXPIRED) <==> s == PENDING
    ensures Allowed(s, CANCELLED) <==> s == PENDING || s == CONFIRMED || s == HANDOVER_READY
    ensures Allowed(s, HANDOVER_READY) <==> s == CONFIRMED
    ensures Allowed(s, ONGOING) <==> s == CONFIRMED || s == HANDOVER_READY
    ensures Allowed(s, RETURN_PENDING) <==> s == ONGOING
    ensures Allowed(s, COMPLETED) <==> s == ONGOING || s == RETURN_PENDING || s == DISPUTED
    ensures Allowed(s, DISPUTED) <==> s == RETURN_PENDING || s == REFUND_PENDING
    ensures Allowed(s, REFUND_PENDING) <==> s == CONFIRMED || s == DISPUTED
    ensures Allowed(s, REFUNDED) <==> s == REFUND_PENDING || s == DISPUTED
  {}

  /** The statuses that keep a car reserved: what booking creation, blocks and holds check. */
  predicate Reserves(s: Status) {
    s in {PENDING, CONFIRMED, HANDOVER_READY, ONGOING, RETURN_PENDING}
  }

  /** What the collision check of a trip extension looks at: RETURN_PENDING is missing. */
  predicate BlocksExtension(s: Status) {
    s in {PENDING, CONFIRMED, ONGOING, HANDOVER_READY}
  }

  /** Progress of a booking.  Only DISPUTED and REFUND_PENDING share a rank. */
  function Rank(s: Status): nat {
    match s
    case PENDING => 0
    case CONFIRMED => 1
    case HANDOVER_READY => 2
    case ONGOING => 3
    case RETURN_PENDING => 4
    case DISPUTED => 5
    case REFUND_PENDING => 5
    case COMPLETED => 6
    case REFUNDED => 6
    case CANCELLED => 6
    case EXPIRED => 6
  }

  predicate Contested(s: Status) {
    s == DISPUTED || s == REFUND_PENDING
  }
}
