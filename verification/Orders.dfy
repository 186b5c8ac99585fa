/**
 * One order row, written by four kinds of actor: kitchen terminals, couriers,
 * the payment service and the worker.
 *
 * Kitchen and courier requests read first and write later under a
 * compare-and-set; between the two anything can happen. Payment and worker
 * transactions are single steps. Events are read from the row at any later
 * moment. A courier account can be deleted by its owner, restored, blocked by
 * staff and finally burned, which clears it from the orders that name it.
 */
module Orders {
  import opened Wrappers
  import opened OrderStatus
  import Pricing

  type OrderId = string
  type CourierId = string
  type BranchId = string
  type Pid = nat

  datatype Actor = ByKitchen(terminal: string) | ByCourier(courier: CourierId) | ByPayment | ByWorker

  /** A row of the audit history. */
  datatype Change = Change(previous: Status, next: Status, actor: Actor, claim: bool)

  datatype OrderType = DINE_IN | TAKEAWAY | DELIVERY

  datatype BoardModifier = BoardModifier(id: string, name: string, quantity: int)

  datatype BoardItem = BoardItem(id: string, name: string, quantity: int, comment: Option<string>,
                                 modifiers: seq<BoardModifier>)

  /** What the customer ordered; nothing in the protocol writes it again. */
  datatype Ticket = Ticket(number: string, kind: OrderType, table: Option<string>, comment: Option<string>,
                           items: seq<BoardItem>)

  datatype Row = Row(
    branch: BranchId,
    status: Status,
    version: int,
    courier: Option<CourierId>,
    createdAt: int,
    confirmedAt: Option<int>,
    cookingStartedAt: Option<int>,
    readyAt: Option<int>,
    completedAt: Option<int>,
    cancelledAt: Option<int>,
    ticket: Ticket,
    amounts: Pricing.Amounts)

  datatype Record = Record(initial: Status, row: Row, history: seq<Change>)

  datatype Courier = Courier(branch: BranchId, active: bool, deleted: bool, burned: bool)

  /** The kitchen board projection of an order. */
  datatype KitchenOrder = KitchenOrder(
    id: OrderId,
    ticket: Ticket,
    version: int,
    status: Status,
    confirmedAt: int,
    cookingStartedAt: Option<int>,
    readyAt: Option<int>)

  datatype Event = Event(order: OrderId, orderVersion: int, payload: Option<KitchenOrder>)

  /** A request that has read and not yet written. */
  datatype Request =
    | KitchenWrite(order: OrderId, terminal: string, branch: BranchId, from: Status, target: Status,
        expectedVersion: int)
    | Guarded(courier: CourierId)
    | ClaimCount(courier: CourierId, order: OrderId)
    | ClaimWrite(courier: CourierId, order: OrderId)
    | MoveWrite(courier: CourierId, order: OrderId, expected: Status, target: Status)
    | DeleteWrite(courier: CourierId)

  datatype State = State(
    orders: map<OrderId, Record>,
    couriers: map<CourierId, Courier>,
    requests: map<Pid, Request>,
    events: seq<Event>,
    now: int)

  datatype Action =
    | CreateOrder(order: OrderId, branch: BranchId, online: bool, ticket: Ticket, amounts: Pricing.Amounts)
    | KitchenRead(p: Pid, terminal: string, branch: BranchId, order: OrderId, target: Status, expectedVersion: int)
    | Guard(p: Pid, courier: CourierId)
    | ClaimRead(p: Pid, order: OrderId)
    | MoveRead(p: Pid, order: OrderId, target: Status)
    | DeleteRead(p: Pid)
    | Proceed(p: Pid)
    | PaymentSucceeded(order: OrderId)
    | PaymentCanceled(order: OrderId)
    | WorkerRun(order: OrderId, stopListed: bool)
    | AddCourier(courier: CourierId, branch: BranchId)
    | RestoreCourier(courier: CourierId)
    | StaffSetActive(courier: CourierId, active: bool)
    | BurnCourier(courier: CourierId)
    | Publish(order: OrderId)
    | Tick(ms: nat)

  // ----- writes to one order -----

  /** The timestamps a change of status writes. */
  function Stamp(row: Row, to: Status, at: int): Row {
    match to
    case CONFIRMED => row.(confirmedAt := Some(at))
    case COOKING => row.(cookingStartedAt := Some(at), confirmedAt := if row.status.NEW? then Some(at)
        else row.confirmedAt)
    case READY => row.(readyAt := Some(at))
    case COMPLETED => row.(completedAt := Some(at))
    case CANCELLED => row.(cancelledAt := Some(at))
    case _ => row
  }

  /** A change of status: new status, timestamps, version and history row together. */
  function Moved(r: Record, to: Status, actor: Actor, at: int): Record {
    Record(r.initial,
           Stamp(r.row, to, at).(status := to, version := r.row.version + 1),
           r.history + [Change(r.row.status, to, actor, false)])
  }

  /** A claim: the courier is written, the status stays. */
  function Claimed(r: Record, c: CourierId): Record {
    Record(r.initial,
           r.row.(courier := Some(c), version := r.row.version + 1),
           r.history + [Change(READY, READY, ByCourier(c), true)])
  }

  /** The worker's recomputation of totals: no version, no history. */
  function Recomputed(r: Record): Record {
    r.(row := r.row.(amounts := Pricing.Recompute(r.row.amounts)))
  }

  function Opened(branch: BranchId, online: bool, ticket: Ticket, amounts: Pricing.Amounts, at: int): Record {
    var initial := if online then PENDING_PAYMENT else NEW;
    Record(initial, Row(branch, initial, 1, None, at, None, None, None, None, None, ticket, amounts), [])
  }

  predicate KitchenSource(from: Status, target: Status) {
    (target.COOKING? && (from.NEW? || from.CONFIRMED?)) || (target.READY? && from.COOKING?)
  }

  predicate Active(s: Status) {
    s.READY? || s.ON_WAY?
  }

  predicate Owns(s: State, c: CourierId, o: OrderId) {
    o in s.orders && s.orders[o].row.courier == Some(c) && Active(s.orders[o].row.status)
  }

  predicate OwnsAny(s: State, c: CourierId) {
    exists o :: o in s.orders && Owns(s, c, o)
  }

  predicate MayCall(s: State, c: CourierId) {
    c in s.couriers && s.couriers[c].active && !s.couriers[c].deleted && !s.couriers[c].burned
  }

  // ----- events -----

  predicate OnBoard(s: Status) {
    s in {NEW, CONFIRMED, COOKING, READY}
  }

  function ToKitchenOrder(o: OrderId, row: Row): KitchenOrder {
    KitchenOrder(o, row.ticket, row.version, row.status,
                 if row.confirmedAt.Some? then row.confirmedAt.value else row.createdAt,
                 row.cookingStartedAt, row.readyAt)
  }

  /** The event published for a row: an upsert while the order is on the board, a removal after. */
  function EventOf(o: OrderId, row: Row): Event {
    Event(o, row.version, if OnBoard(row.status) then Some(ToKitchenOrder(o, row)) else None)
  }

  // ----- steps -----

  function Put(s: State, o: OrderId, r: Record): State {
    s.(orders := s.orders[o := r])
  }

  function Drop(s: State, p: Pid): State {
    s.(requests := s.requests - {p})
  }

  function Hold(s: State, p: Pid, req: Request): State {
    s.(requests := s.requests[p := req])
  }

  /** The second half of a request: the guarded write, or the count before a claim. */
  function Finish(s: State, p: Pid): State
    requires p in s.requests
  {
    var done := Drop(s, p);
    match s.requests[p]
    case KitchenWrite(o, terminal, branch, from, target, expectedVersion) =>
      if o in s.orders && s.orders[o].row.branch == branch && s.orders[o].row.status == from
          && s.orders[o].row.version == expectedVersion
      then Put(done, o, Moved(s.orders[o], target, ByKitchen(terminal), s.now))
      else done
    case Guarded(_) => done
    case ClaimCount(c, o) => if OwnsAny(s, c) then done else Hold(s, p, ClaimWrite(c, o))
    case ClaimWrite(c, o) =>
      if o in s.orders && s.orders[o].row.status.READY? && s.orders[o].row.courier.None?
      then Put(done, o, Claimed(s.orders[o], c))
      else done
    case MoveWrite(c, o, expected, target) =>
      if o in s.orders && s.orders[o].row.status == expected && s.orders[o].row.courier == Some(c)
      then Put(done, o, Moved(s.orders[o], target, ByCourier(c), s.now))
      else done
    case DeleteWrite(c) =>
      if c in s.couriers && s.couriers[c].active && !OwnsAny(s, c)
      then done.(couriers := s.couriers[c := s.couriers[c].(active := false, deleted := true)])
      else done
  }

  function ClearCourier(r: Record, c: CourierId): Record {
    if r.row.courier == Some(c) then r.(row := r.row.(courier := None)) else r
  }

  function Next(s: State, a: Action): State {
    match a
    case CreateOrder(o, branch, online, ticket, amounts) =>
      if o in s.orders then s else Put(s, o, Opened(branch, online, ticket, amounts, s.now))
    case KitchenRead(p, terminal, branch, o, target, expectedVersion) =>
      if p !in s.requests && o in s.orders && s.orders[o].row.branch == branch
          && KitchenSource(s.orders[o].row.status, target)
      then Hold(s, p, KitchenWrite(o, terminal, branch, s.orders[o].row.status, target, expectedVersion))
      else s
    case Guard(p, c) =>
      if p !in s.requests && MayCall(s, c) then Hold(s, p, Guarded(c)) else s
    case ClaimRead(p, o) =>
      if p in s.requests && s.requests[p].Guarded? && o in s.orders && s.requests[p].courier in s.couriers
         && s.orders[o].row.branch == s.couriers[s.requests[p].courier].branch
         && s.orders[o].row.courier.None? && s.orders[o].row.status.READY?
      then Hold(s, p, ClaimCount(s.requests[p].courier, o))
      else s
    case MoveRead(p, o, target) =>
      if p in s.requests && s.requests[p].Guarded? && o in s.orders && (target.ON_WAY? || target.COMPLETED?)
         && s.orders[o].row.courier == Some(s.requests[p].courier)
         && s.orders[o].row.status == (if target.ON_WAY? then READY else ON_WAY)
      then Hold(s, p, MoveWrite(s.requests[p].courier, o, s.orders[o].row.status, target))
      else s
    case DeleteRead(p) =>
      if p in s.requests && s.requests[p].Guarded? then Hold(s, p, DeleteWrite(s.requests[p].courier)) else s
    case Proceed(p) => if p in s.requests then Finish(s, p) else s
    case PaymentSucceeded(o) =>
      if o in s.orders && (s.orders[o].row.status.PENDING_PAYMENT? || s.orders[o].row.status.NEW?)
      then Put(s, o, Moved(s.orders[o], CONFIRMED, ByPayment, s.now))
      else s
    case PaymentCanceled(o) =>
      if o in s.orders && s.orders[o].row.status.PENDING_PAYMENT?
      then Put(s, o, Moved(s.orders[o], CANCELLED, ByPayment, s.now))
      else s
    case WorkerRun(o, stopListed) =>
      if o !in s.orders || s.orders[o].row.status.CANCELLED? then s
      else if stopListed then Put(s, o, Moved(s.orders[o], CANCELLED, ByWorker, s.now))
      else Put(s, o, Recomputed(s.orders[o]))
    case AddCourier(c, branch) =>
      if c in s.couriers then s else s.(couriers := s.couriers[c := Courier(branch, true, false, false)])
    case RestoreCourier(c) =>
      if c in s.couriers && s.couriers[c].deleted && !s.couriers[c].burned
      then s.(couriers := s.couriers[c := s.couriers[c].(active := true, deleted := false)])
      else s
    case StaffSetActive(c, active) =>
      if c in s.couriers then s.(couriers := s.couriers[c := s.couriers[c].(active := active)]) else s
    case BurnCourier(c) =>
      if c in s.couriers && s.couriers[c].deleted
      then s.(couriers := s.couriers[c := s.couriers[c].(burned := true)],
              orders := map o | o in s.orders :: ClearCourier(s.orders[o], c))
      else s
    case Publish(o) => if o in s.orders then s.(events := s.events + [EventOf(o, s.orders[o].row)]) else s
    case Tick(ms) => s.(now := s.now + ms)
  }

  function Exec(s: State, actions: seq<Action>): State
    decreases |actions|
  {
    if actions == [] then s else Exec(Next(s, actions[0]), actions[1..])
  }

  const EMPTY := State(map[], map[], map[], [], 0)

  // ----- what a record always satisfies -----

  /** The history is one connected walk from the initial status to the current one. */
  ghost predicate Connected(r: Record) {
    && (r.history == [] ==> r.row.status == r.initial)
    && (r.history != [] ==> r.history[0].previous == r.initial && r.history[|r.history| - 1].next == r.row.status)
    && (forall i :: 0 < i < |r.history| ==> r.history[i - 1].next == r.history[i].previous)
  }

  /** Which rows each kind of actor may have written. */
  ghost predicate Allowed(ch: Change) {
    match ch.actor
    case ByKitchen(_) => !ch.claim && KitchenSource(ch.previous, ch.next)
    case ByCourier(_) =>
      || (ch.claim && ch.previous.READY? && ch.next.READY?)
      || (!ch.claim && ch.previous.READY? && ch.next.ON_WAY?)
      || (!ch.claim && ch.previous.ON_WAY? && ch.next.COMPLETED?)
    case ByPayment =>
      && !ch.claim
      && (|| (ch.next.CONFIRMED? && (ch.previous.PENDING_PAYMENT? || ch.previous.NEW?))
          || (ch.next.CANCELLED? && ch.previous.PENDING_PAYMENT?))
    case ByWorker => !ch.claim && ch.next.CANCELLED? && !ch.previous.CANCELLED?
  }

  /** Apart from claims, which keep the status, and the worker, every actor follows the lifecycle table. */
  lemma AllowedRowsAreEdges(ch: Change)
    requires Allowed(ch)
    ensures ch.claim || ch.actor.ByWorker? || CanTransition(ch.previous, ch.next)
    ensures Rank(ch.previous) <= Rank(ch.next) && (Rank(ch.previous) == Rank(ch.next) ==> ch.claim)
    ensures Rank(ch.next) > 0
  {
  }

  /** The courier of the claim in a history. */
  function Claimant(history: seq<Change>): Option<CourierId> {
    if history == [] then None
    else
      var last := history[|history| - 1];
      if last.claim && last.actor.ByCourier? then Some(last.actor.courier) else Claimant(history[..|history| - 1])
  }

  function Claims(history: seq<Change>): nat {
    if history == [] then 0
    else Claims(history[..|history| - 1]) + (if history[|history| - 1].claim then 1 else 0)
  }

  /** Everything a courier did to the order was done by its one claimant; nobody else started or ended the delivery. */
  ghost predicate OneOwner(history: seq<Change>) {
    && Claims(history) == (if Claimant(history).Some? then 1 else 0)
    && forall i ::
         (0 <= i < |history|
          && (history[i].actor.ByCourier? || history[i].next.ON_WAY? || history[i].next.COMPLETED?)) ==>
         history[i].actor.ByCourier? && Claimant(history) == Some(history[i].actor.courier)
  }

  ghost predicate OwnerWritten(r: Record) {
    && (r.row.courier.Some? ==> r.row.courier == Claimant(r.history))
    && (Claimant(r.history).Some? ==> r.row.courier.Some? || Terminal(r.row.status))
    && (Claimant(r.history).Some? ==> Active(r.row.status) || Terminal(r.row.status))
  }

  ghost predicate HistoryOk(r: Record) {
    && r.row.version == 1 + |r.history|
    && (r.initial.NEW? || r.initial.PENDING_PAYMENT?)
    && Connected(r)
    && (forall i :: 0 <= i < |r.history| ==> Allowed(r.history[i]))
  }

  ghost predicate OwnerOk(r: Record) {
    OneOwner(r.history) && OwnerWritten(r)
  }

  ghost predicate RequestOk(req: Request) {
    match req
    case KitchenWrite(_, _, _, from, target, _) => KitchenSource(from, target)
    case MoveWrite(_, _, expected, target) =>
        (target.ON_WAY? && expected.READY?) || (target.COMPLETED? && expected.ON_WAY?)
    case _ => true
  }

  ghost predicate EventOk(s: State, e: Event) {
    && e.order in s.orders
    && e.orderVersion <= s.orders[e.order].row.version
    && (e.orderVersion == s.orders[e.order].row.version ==> e == EventOf(e.order, s.orders[e.order].row))
  }

  ghost predicate EventsOk(s: State) {
    && (forall i :: 0 <= i < |s.events| ==> EventOk(s, s.events[i]))
    && (forall i, j :: 0 <= i < |s.events| && 0 <= j < |s.events| && s.events[i].order == s.events[j].order
          && s.events[i].orderVersion == s.events[j].orderVersion
          ==> s.events[i] == s.events[j])
  }

  /** Holds in every run. */
  ghost predicate Inv(s: State) {
    && (forall o :: o in s.orders ==> HistoryOk(s.orders[o]))
    && (forall p :: p in s.requests ==> RequestOk(s.requests[p]))
    && EventsOk(s)
  }

  /** Holds as long as nobody burns a courier who owns an order. */
  ghost predicate Owned(s: State) {
    forall o :: o in s.orders ==> OwnerOk(s.orders[o])
  }

  // ----- one record -----

  lemma ClaimsAppend(history: seq<Change>, ch: Change)
    ensures Claims(history + [ch]) == Claims(history) + (if ch.claim then 1 else 0)
    ensures Claimant(history + [ch]) ==
        (if ch.claim && ch.actor.ByCourier? then Some(ch.actor.courier) else Claimant(history))
  {
    assert (history + [ch])[..|history|] == history;
  }

  lemma MovedKeepsHistory(r: Record, to: Status, actor: Actor, at: int)
    requires HistoryOk(r) && Allowed(Change(r.row.status, to, actor, false))
    ensures HistoryOk(Moved(r, to, actor, at))
  {
  }

  lemma MovedKeepsOwner(r: Record, to: Status, actor: Actor, at: int)
    requires OwnerOk(r) && Allowed(Change(r.row.status, to, actor, false))
    requires actor.ByCourier? || to.ON_WAY? || to.COMPLETED? ==>
        actor.ByCourier? && r.row.courier == Some(actor.courier)
    ensures OwnerOk(Moved(r, to, actor, at))
  {
    ClaimsAppend(r.history, Change(r.row.status, to, actor, false));
    var r' := Moved(r, to, actor, at);
    assert r'.row.courier == r.row.courier;
    assert Claimant(r'.history) == Claimant(r.history);
  }

  lemma ClaimedKeepsRecord(r: Record, c: CourierId)
    requires HistoryOk(r) && r.row.status.READY? && r.row.courier.None?
    ensures HistoryOk(Claimed(r, c))
    ensures OwnerOk(r) ==> OwnerOk(Claimed(r, c))
  {
    ClaimsAppend(r.history, Change(READY, READY, ByCourier(c), true));
  }

  // ----- every step keeps the history and the events in order -----

  /** A write that bumps the version, or that changes nothing the board shows, keeps the events determined. */
  lemma PutKeepsInv(s: State, o: OrderId, r: Record)
    requires Inv(s) && HistoryOk(r)
    requires o in s.orders ==>
      r.row.version > s.orders[o].row.version || EventOf(o, r.row) == EventOf(o, s.orders[o].row)
    ensures Inv(Put(s, o, r))
  {
    var s' := Put(s, o, r);
    forall i | 0 <= i < |s'.events| ensures EventOk(s', s'.events[i]) {
      assert EventOk(s, s.events[i]);
    }
  }

  lemma PublishKeepsInv(s: State, o: OrderId)
    requires Inv(s)
    ensures Inv(Next(s, Publish(o)))
  {
    if o in s.orders {
      var e := EventOf(o, s.orders[o].row);
      var s' := Next(s, Publish(o));
      forall i | 0 <= i < |s'.events| ensures EventOk(s', s'.events[i]) {
        if i < |s.events| {
          assert EventOk(s, s.events[i]);
        }
      }
      forall i, j | 0 <= i < |s'.events| && 0 <= j < |s'.events| && s'.events[i].order == s'.events[j].order
                    && s'.events[i].orderVersion == s'.events[j].orderVersion
        ensures s'.events[i] == s'.events[j]
      {
        assert i < |s.events| ==> EventOk(s, s.events[i]);
        assert j < |s.events| ==> EventOk(s, s.events[j]);
      }
    }
  }

  lemma BurnKeepsInv(s: State, c: CourierId)
    requires Inv(s)
    ensures Inv(Next(s, BurnCourier(c)))
  {
    var s' := Next(s, BurnCourier(c));
    forall i | 0 <= i < |s'.events| ensures EventOk(s', s'.events[i]) {
      assert EventOk(s, s.events[i]);
    }
  }

  lemma FinishKeepsInv(s: State, p: Pid)
    requires Inv(s) && p in s.requests
    ensures Inv(Finish(s, p))
  {
    var done := Drop(s, p);
    assert RequestOk(s.requests[p]);
    assert Inv(done) by {
      forall i | 0 <= i < |done.events| ensures EventOk(done, done.events[i]) {
        assert EventOk(s, s.events[i]);
      }
    }
    if Finish(s, p).orders != s.orders {
      match s.requests[p] {
        case KitchenWrite(o, terminal, _, _, target, _) =>
          MovedKeepsHistory(s.orders[o], target, ByKitchen(terminal), s.now);
          PutKeepsInv(done, o, Moved(s.orders[o], target, ByKitchen(terminal), s.now));
        case ClaimWrite(c, o) =>
          ClaimedKeepsRecord(s.orders[o], c);
          PutKeepsInv(done, o, Claimed(s.orders[o], c));
        case MoveWrite(c, o, _, target) =>
          MovedKeepsHistory(s.orders[o], target, ByCourier(c), s.now);
          PutKeepsInv(done, o, Moved(s.orders[o], target, ByCourier(c), s.now));
        case _ =>
      }
    } else {
      SameOrdersKeepInv(s, Finish(s, p));
    }
  }

  lemma SameOrdersKeepInv(s: State, s': State)
    requires Inv(s) && s'.orders == s.orders && s'.events == s.events
    requires forall p :: p in s'.requests ==> RequestOk(s'.requests[p])
    ensures Inv(s')
  {
    forall i | 0 <= i < |s'.events| ensures EventOk(s', s'.events[i]) {
      assert EventOk(s, s.events[i]);
    }
  }

  /** Payments and the worker write an order in one step. */
  lemma WritersKeepInv(s: State, a: Action)
    requires Inv(s) && (a.PaymentSucceeded? || a.PaymentCanceled? || a.WorkerRun?)
    ensures Inv(Next(s, a))
  {
    match a {
      case PaymentSucceeded(o) =>
        if Next(s, a) != s {
          MovedKeepsHistory(s.orders[o], CONFIRMED, ByPayment, s.now);
          PutKeepsInv(s, o, Moved(s.orders[o], CONFIRMED, ByPayment, s.now));
        }
      case PaymentCanceled(o) =>
        if Next(s, a) != s {
          MovedKeepsHistory(s.orders[o], CANCELLED, ByPayment, s.now);
          PutKeepsInv(s, o, Moved(s.orders[o], CANCELLED, ByPayment, s.now));
        }
      case WorkerRun(o, stopListed) =>
        if o in s.orders && !s.orders[o].row.status.CANCELLED? {
          if stopListed {
            MovedKeepsHistory(s.orders[o], CANCELLED, ByWorker, s.now);
            PutKeepsInv(s, o, Moved(s.orders[o], CANCELLED, ByWorker, s.now));
          } else {
            PutKeepsInv(s, o, Recomputed(s.orders[o]));
          }
        }
    }
  }

  lemma NextKeepsInv(s: State, a: Action)
    requires Inv(s)
    ensures Inv(Next(s, a))
  {
    hide Finish;
    match a {
      case CreateOrder(o, branch, online, ticket, amounts) =>
        if o !in s.orders { PutKeepsInv(s, o, Opened(branch, online, ticket, amounts, s.now)); }
      case Proceed(p) => if p in s.requests { FinishKeepsInv(s, p); }
      case PaymentSucceeded(_) => WritersKeepInv(s, a);
      case PaymentCanceled(_) => WritersKeepInv(s, a);
      case WorkerRun(_, _) => WritersKeepInv(s, a);
      case BurnCourier(c) => BurnKeepsInv(s, c);
      case Publish(o) => PublishKeepsInv(s, o);
      case _ => ReadsKeepInv(s, a);
    }
  }

  /** Whatever leaves the orders alone. */
  predicate LeavesOrders(a: Action) {
    || a.KitchenRead? || a.Guard? || a.ClaimRead? || a.MoveRead? || a.DeleteRead?
    || a.AddCourier? || a.RestoreCourier? || a.StaffSetActive? || a.Tick?
  }

  lemma ReadsKeepInv(s: State, a: Action)
    requires Inv(s) && LeavesOrders(a)
    ensures Inv(Next(s, a))
  {
    hide Finish;
    SameOrdersKeepInv(s, Next(s, a));
  }

  // ----- every step keeps the ownership in order -----

  lemma PutKeepsOwned(s: State, o: OrderId, r: Record)
    requires Owned(s) && OwnerOk(r)
    ensures Owned(Put(s, o, r))
  {
  }

  lemma BurnKeepsOwned(s: State, c: CourierId)
    requires Owned(s) && !OwnsAny(s, c)
    ensures Owned(Next(s, BurnCourier(c)))
  {
    var s' := Next(s, BurnCourier(c));
    forall o | o in s'.orders ensures OwnerOk(s'.orders[o]) {
      assert OwnerOk(s.orders[o]) && !Owns(s, c, o);
    }
  }

  lemma FinishKeepsOwned(s: State, p: Pid)
    requires Inv(s) && Owned(s) && p in s.requests
    ensures Owned(Finish(s, p))
  {
    if Finish(s, p).orders != s.orders {
      assert RequestOk(s.requests[p]);
      match s.requests[p] {
        case KitchenWrite(o, terminal, _, _, target, _) =>
          MovedKeepsOwner(s.orders[o], target, ByKitchen(terminal), s.now);
        case ClaimWrite(c, o) => ClaimedKeepsRecord(s.orders[o], c);
        case MoveWrite(c, o, _, target) => MovedKeepsOwner(s.orders[o], target, ByCourier(c), s.now);
        case _ =>
      }
    }
  }

  lemma MoveKeepsOwned(s: State, o: OrderId, to: Status, actor: Actor)
    requires Owned(s) && o in s.orders && Allowed(Change(s.orders[o].row.status, to, actor, false))
    requires !actor.ByCourier? && !to.ON_WAY? && !to.COMPLETED?
    ensures Owned(Put(s, o, Moved(s.orders[o], to, actor, s.now)))
  {
    MovedKeepsOwner(s.orders[o], to, actor, s.now);
    PutKeepsOwned(s, o, Moved(s.orders[o], to, actor, s.now));
  }

  lemma WritersKeepOwned(s: State, a: Action)
    requires Inv(s) && Owned(s) && (a.PaymentSucceeded? || a.PaymentCanceled? || a.WorkerRun?)
    ensures Owned(Next(s, a))
  {
    hide Inv, Moved, Stamp, Put, Finish;
    if Next(s, a) != s {
      match a {
        case PaymentSucceeded(o) => MoveKeepsOwned(s, o, CONFIRMED, ByPayment);
        case PaymentCanceled(o) => MoveKeepsOwned(s, o, CANCELLED, ByPayment);
        case WorkerRun(o, stopListed) =>
          if stopListed {
            MoveKeepsOwned(s, o, CANCELLED, ByWorker);
          } else {
            PutKeepsOwned(s, o, Recomputed(s.orders[o]));
          }
      }
    }
  }

  lemma NextKeepsOwned(s: State, a: Action)
    requires Inv(s) && Owned(s)
    requires a.BurnCourier? && Next(s, a) != s ==> !OwnsAny(s, a.courier)
    ensures Owned(Next(s, a))
  {
    hide Finish;
    if Next(s, a) == s {
    } else if a.Proceed? {
      FinishKeepsOwned(s, a.p);
    } else if a.PaymentSucceeded? || a.PaymentCanceled? || a.WorkerRun? {
      WritersKeepOwned(s, a);
    } else if a.BurnCourier? {
      BurnKeepsOwned(s, a.courier);
    } else if a.CreateOrder? {
      PutKeepsOwned(s, a.order, Opened(a.branch, a.online, a.ticket, a.amounts, s.now));
    } else {
      assert Next(s, a).orders == s.orders;
    }
  }

  // ----- one request at a time per courier -----

  /** Burning a deleted courier keeps owner and claim together exactly when the courier owns nothing. */
  lemma BurnKeepsOwnedExactly(s: State, c: CourierId)
    requires Owned(s) && c in s.couriers && s.couriers[c].deleted
    ensures Owned(Next(s, BurnCourier(c))) <==> !OwnsAny(s, c)
  {
    if o :| o in s.orders && Owns(s, c, o) {
      assert OwnerOk(s.orders[o]);
      assert !OwnerOk(Next(s, BurnCourier(c)).orders[o]);
    } else {
      BurnKeepsOwned(s, c);
    }
  }

  predicate IsCourierRequest(req: Request) {
    !req.KitchenWrite?
  }

  predicate Busy(s: State, c: CourierId) {
    exists p :: p in s.requests && IsCourierRequest(s.requests[p]) && s.requests[p].courier == c
  }

  /** No courier starts a request while another of their own is still running. */
  predicate NoOverlap(s: State, actions: seq<Action>)
    decreases |actions|
  {
    actions == [] ||
    (&& (actions[0].Guard? ==> !Busy(s, actions[0].courier))
     && NoOverlap(Next(s, actions[0]), actions[1..]))
  }

  ghost predicate OneRequestEach(s: State) {
    && (forall p, q ::
          (p in s.requests && q in s.requests && p != q
           && IsCourierRequest(s.requests[p]) && IsCourierRequest(s.requests[q])) ==>
          s.requests[p].courier != s.requests[q].courier)
    && (forall p :: p in s.requests && IsCourierRequest(s.requests[p]) ==> s.requests[p].courier in s.couriers)
  }

  ghost predicate OneDeliveryEach(s: State) {
    && (forall c, o1, o2 :: Owns(s, c, o1) && Owns(s, c, o2) ==> o1 == o2)
    && (forall p :: p in s.requests && s.requests[p].ClaimWrite? ==> !OwnsAny(s, s.requests[p].courier))
  }

  ghost predicate DeletedAreDone(s: State) {
    forall c :: c in s.couriers && (s.couriers[c].deleted || s.couriers[c].burned) ==>
      s.couriers[c].deleted && !OwnsAny(s, c) && !Busy(s, c)
  }

  ghost predicate Exclusive(s: State) {
    OneRequestEach(s) && OneDeliveryEach(s) && DeletedAreDone(s)
  }

  /** Nobody owns more than before. */
  ghost predicate OwnershipShrinks(s: State, s': State) {
    forall c, o :: Owns(s', c, o) ==> Owns(s, c, o)
  }

  /** If ownership and requests only shrink and couriers stay as they are, nothing can clash. */
  lemma ShrinkingKeepsExclusive(s: State, s': State)
    requires Exclusive(s) && OwnershipShrinks(s, s')
    requires s'.couriers.Keys >= s.couriers.Keys
    requires forall p :: p in s'.requests ==> p in s.requests && s'.requests[p] == s.requests[p]
    requires forall c :: c in s'.couriers && (s'.couriers[c].deleted || s'.couriers[c].burned) ==>
               c in s.couriers && s.couriers[c].deleted && s'.couriers[c].deleted
    ensures Exclusive(s')
  {
    forall c | OwnsAny(s', c) ensures OwnsAny(s, c) {
      var o :| o in s'.orders && Owns(s', c, o);
      assert Owns(s, c, o);
    }
    assert forall c :: Busy(s', c) ==> Busy(s, c);
  }

  lemma ClaimKeepsExclusive(s: State, p: Pid, c: CourierId, o: OrderId)
    requires Exclusive(s) && p in s.requests && s.requests[p] == ClaimWrite(c, o)
    ensures Exclusive(Finish(s, p))
  {
    var s' := Finish(s, p);
    if s'.orders == s.orders {
      ShrinkingKeepsExclusive(s, s');
    } else {
      assert !OwnsAny(s, c) && Busy(s, c);
      assert forall d, o' :: Owns(s', d, o') && d != c ==> Owns(s, d, o');
      assert forall o' :: Owns(s', c, o') ==> o' == o;
      forall d | d != c && OwnsAny(s', d) ensures OwnsAny(s, d) {
        var o' :| o' in s'.orders && Owns(s', d, o');
        assert Owns(s, d, o');
      }
      assert forall d :: Busy(s', d) ==> Busy(s, d);
    }
  }

  /** A transition by a terminal or by the owner gives nobody an order. */
  lemma WriteKeepsExclusive(s: State, p: Pid)
    requires Owned(s) && Exclusive(s) && p in s.requests && RequestOk(s.requests[p])
    requires s.requests[p].KitchenWrite? || s.requests[p].MoveWrite?
    ensures Exclusive(Finish(s, p))
  {
    var o := s.requests[p].order;
    if o in s.orders { assert OwnerOk(s.orders[o]); }
    ShrinkingKeepsExclusive(s, Finish(s, p));
  }

  lemma FinishKeepsExclusive(s: State, p: Pid)
    requires Inv(s) && Owned(s) && Exclusive(s) && p in s.requests
    ensures Exclusive(Finish(s, p))
  {
    assert RequestOk(s.requests[p]);
    match s.requests[p] {
      case ClaimWrite(c, o) => ClaimKeepsExclusive(s, p, c, o);
      case ClaimCount(c, o) => CountKeepsExclusive(s, p, c, o);
      case DeleteWrite(c) => DeleteKeepsExclusive(s, p, c);
      case Guarded(_) => ShrinkingKeepsExclusive(s, Finish(s, p));
      case _ => WriteKeepsExclusive(s, p);
    }
  }

  lemma CountKeepsExclusive(s: State, p: Pid, c: CourierId, o: OrderId)
    requires Exclusive(s) && p in s.requests && s.requests[p] == ClaimCount(c, o)
    ensures Exclusive(Finish(s, p))
  {
    if OwnsAny(s, c) {
      ShrinkingKeepsExclusive(s, Finish(s, p));
    } else {
      HeldKeepsExclusive(s, p, ClaimWrite(c, o));
    }
  }

  lemma DeleteKeepsExclusive(s: State, p: Pid, c: CourierId)
    requires Exclusive(s) && p in s.requests && s.requests[p] == DeleteWrite(c)
    ensures Exclusive(Finish(s, p))
  {
    var s' := Finish(s, p);
    assert !Busy(s', c);
    assert forall d :: Busy(s', d) ==> Busy(s, d);
    assert s'.orders == s.orders;
    assert forall d :: OwnsAny(s', d) ==> OwnsAny(s, d);
    assert forall d, o :: Owns(s', d, o) ==> Owns(s, d, o);
  }

  /** The next phase of a courier's own request. */
  lemma HeldKeepsExclusive(s: State, p: Pid, req: Request)
    requires Exclusive(s) && IsCourierRequest(req)
    requires if p in s.requests then IsCourierRequest(s.requests[p]) && s.requests[p].courier == req.courier
             else MayCall(s, req.courier) && !Busy(s, req.courier)
    requires req.ClaimWrite? ==> !OwnsAny(s, req.courier)
    ensures Exclusive(Hold(s, p, req))
  {
    var s' := Hold(s, p, req);
    assert forall c :: OwnsAny(s', c) ==> OwnsAny(s, c) by {
      forall c | OwnsAny(s', c) ensures OwnsAny(s, c) {
        var o :| o in s'.orders && Owns(s', c, o);
        assert Owns(s, c, o);
      }
    }
    assert forall c :: Busy(s', c) && c != req.courier ==> Busy(s, c);
    assert forall c, o :: Owns(s', c, o) ==> Owns(s, c, o);
  }

  lemma NextKeepsExclusive(s: State, a: Action)
    requires Inv(s) && Owned(s) && Exclusive(s)
    requires a.Guard? ==> !Busy(s, a.courier)
    ensures Exclusive(Next(s, a))
    ensures a.BurnCourier? && Next(s, a) != s ==> !OwnsAny(s, a.courier)
  {
    hide Exclusive, Inv, Owned, Finish, Moved;
    var s' := Next(s, a);
    match a {
      case Guard(p, c) => if s' != s { HeldKeepsExclusive(s, p, Guarded(c)); }
      case ClaimRead(p, o) => if s' != s { HeldKeepsExclusive(s, p, s'.requests[p]); }
      case MoveRead(p, o, _) => if s' != s { HeldKeepsExclusive(s, p, s'.requests[p]); }
      case DeleteRead(p) => if s' != s { HeldKeepsExclusive(s, p, s'.requests[p]); }
      case Proceed(p) => if p in s.requests { FinishKeepsExclusive(s, p); }
      case KitchenRead(p, terminal, branch, o, target, v) => KitchenReadKeepsExclusive(s, a);
      case BurnCourier(c) => BurnKeepsExclusive(s, c);
      case AddCourier(_, _) => AccountsKeepExclusive(s, a);
      case RestoreCourier(_) => AccountsKeepExclusive(s, a);
      case StaffSetActive(_, _) => AccountsKeepExclusive(s, a);
      case Publish(_) => QuietKeepsExclusive(s, a);
      case Tick(_) => QuietKeepsExclusive(s, a);
      case _ => WritersKeepExclusive(s, a);
    }
  }

  lemma QuietKeepsExclusive(s: State, a: Action)
    requires Exclusive(s) && (a.Publish? || a.Tick?)
    ensures Exclusive(Next(s, a))
  {
    hide Finish;
    ShrinkingKeepsExclusive(s, Next(s, a));
  }

  lemma KitchenReadKeepsExclusive(s: State, a: Action)
    requires Exclusive(s) && a.KitchenRead?
    ensures Exclusive(Next(s, a))
  {
    hide Finish;
    var s' := Next(s, a);
    assert s'.orders == s.orders;
    assert forall c :: Busy(s', c) ==> Busy(s, c);
    assert forall c :: OwnsAny(s', c) ==> OwnsAny(s, c);
    assert forall c, o :: Owns(s', c, o) ==> Owns(s, c, o);
  }

  /** Payments, the worker and the checkout give nobody an order. */
  lemma WritersKeepExclusive(s: State, a: Action)
    requires Owned(s) && Exclusive(s)
    requires a.CreateOrder? || a.PaymentSucceeded? || a.PaymentCanceled? || a.WorkerRun?
    ensures Exclusive(Next(s, a))
  {
    hide Finish;
    var s' := Next(s, a);
    WritersShrink(s, a);
    assert s'.couriers == s.couriers && s'.requests == s.requests;
    ShrinkingKeepsExclusive(s, s');
  }

  lemma WritersShrink(s: State, a: Action)
    requires Owned(s)
    requires a.CreateOrder? || a.PaymentSucceeded? || a.PaymentCanceled? || a.WorkerRun?
    ensures OwnershipShrinks(s, Next(s, a))
  {
    if a.order in s.orders { assert OwnerOk(s.orders[a.order]); }
  }

  lemma AccountsKeepExclusive(s: State, a: Action)
    requires Exclusive(s)
    requires a.AddCourier? || a.RestoreCourier? || a.StaffSetActive?
    ensures Exclusive(Next(s, a))
  {
    hide Finish;
    ShrinkingKeepsExclusive(s, Next(s, a));
  }

  lemma BurnKeepsExclusive(s: State, c: CourierId)
    requires Exclusive(s)
    ensures Exclusive(Next(s, BurnCourier(c)))
    ensures Next(s, BurnCourier(c)) != s ==> !OwnsAny(s, c)
  {
    hide Finish;
    ShrinkingKeepsExclusive(s, Next(s, BurnCourier(c)));
  }
}
