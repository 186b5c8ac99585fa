/** The order lifecycle table, shared by every actor that moves an order. */
module OrderStatus {

  datatype Status = PENDING_PAYMENT | NEW | CONFIRMED | COOKING | READY | ON_WAY | COMPLETED | CANCELLED

  function Transitions(from: Status): set<Status> {
    match from
    case PENDING_PAYMENT => {CONFIRMED, CANCELLED}
    case NEW => {CONFIRMED, COOKING, CANCELLED}
    case CONFIRMED => {COOKING, CANCELLED}
    case COOKING => {READY, CANCELLED}
    case READY => {ON_WAY, COMPLETED, CANCELLED}
    case ON_WAY => {COMPLETED, CANCELLED}
    case COMPLETED => {}
    case CANCELLED => {}
  }

  predicate CanTransition(from: Status, to: Status) {
    to in Transitions(from)
  }

  predicate Terminal(s: Status) {
    s.COMPLETED? || s.CANCELLED?
  }

  /** How far along the lifecycle a status is; every edge of the table goes up. */
  function Rank(s: Status): nat {
    match s
    case PENDING_PAYMENT => 0
    case NEW => 0
    case CONFIRMED => 1
    case COOKING => 2
    case READY => 3
    case ON_WAY => 4
    case COMPLETED => 5
    case CANCELLED => 6
  }

  /** The table has no cycles, and nothing leaves a terminal status: no order can move for ever. */
  lemma TransitionsClimb(from: Status, to: Status)
    ensures CanTransition(from, to) ==> Rank(from) < Rank(to) && !Terminal(from)
    ensures Terminal(from) <==> Transitions(from) == {}
  {
    assert CANCELLED in Transitions(from) || Terminal(from);
  }
}
