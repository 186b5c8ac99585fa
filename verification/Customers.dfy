/**
 * Customer accounts over their whole life: sign-up, orders that spend and earn
 * bonuses, deletion with a frozen phone, restore, and deletion again.
 *
 * A deletion reads the row, counts the orders in progress, burns the balance
 * and updates the row; a cashback or refund looks whether the customer is
 * deleted and then enters the ledger; a sign-in looks for a live account, then
 * for a frozen one, and then inserts; a restore reads the row and then writes
 * it. Other requests run between any two of these statements. A burn that writes a row holds the account until it
 * commits; a burn that finds nothing writes nothing and holds nothing. A
 * ledger entry is one step at the moment that decides it: `Ledger` proves that
 * the compare-and-set loop comes to that.
 */
module Customers {
  import opened Wrappers
  import opened OrderStatus
  import opened Ledger
  import Pricing

  type Phone = string

  const DAY_MS := 24 * 60 * 60 * 1000
  const PHONE_RELEASE_WINDOW_DAYS := 30

  datatype Customer = Customer(phone: Option<Phone>, name: Option<string>, deletedAt: Option<int>,
                               pendingRelease: Option<Phone>)

  datatype Order = Order(customer: Option<CustomerId>, status: Status, total: real, spent: int)

  /** How far a deletion has come; `mark` is how long the ledger was at its burn. */
  datatype Stage = Looked | Counted | Burned(entry: Option<Row>, mark: nat)

  /** A request between two of its statements, with what it has read. */
  datatype Pending =
    | Deleting(subject: CustomerId, phone: Option<Phone>, deletion: string, stage: Stage)
    | Entering(req: Request)
    | Seeking(number: Phone)
    | Upserting(number: Phone)
    | Restoring(subject: CustomerId, phone: Option<Phone>)

  /**
   * `marks` keeps, for a deleted customer, how long the ledger was when the
   * balance was last known to be burned. The code keeps no such value; it is
   * here so that later entries can be told apart.
   */
  datatype World = World(
    customers: map<CustomerId, Customer>,
    orders: map<OrderId, Order>,
    ledger: Db,
    requests: map<Pid, Pending>,
    marks: map<CustomerId, nat>,
    now: int)

  datatype Action =
    | SignInLook(p: Pid, phone: Phone)
    | FrozenLook(p: Pid)
    | Upsert(p: Pid, freshId: CustomerId)
    | CheckOut(order: OrderId, buyer: Option<CustomerId>, subtotal: real, points: int, online: bool)
    | SetStatus(order: OrderId, status: Status)
    | EarnCheck(p: Pid, order: OrderId, rate: real)
    | RefundCheck(p: Pid, order: OrderId)
    | Enter(p: Pid)
    | ProvisionAccount(customer: CustomerId)
    | DeleteLook(p: Pid, customer: CustomerId, deletion: string)
    | DeleteCount(p: Pid)
    | Burn(p: Pid)
    | UpdateRow(p: Pid)
    | Abort(p: Pid)
    | RestoreRead(p: Pid, customer: CustomerId)
    | RestoreWrite(p: Pid)
    | ReleasePhones
    | Tick(ms: nat)

  predicate Blocking(s: Status) {
    s in {NEW, CONFIRMED, COOKING, READY, ON_WAY}
  }

  function FreezeCutoff(now: int): int {
    now - PHONE_RELEASE_WINDOW_DAYS * DAY_MS
  }

  predicate PhoneTaken(w: World, phone: Phone) {
    exists c :: c in w.customers && w.customers[c].phone == Some(phone)
  }

  predicate TakenByOther(w: World, c: CustomerId, phone: Phone) {
    exists d :: d in w.customers && d != c && w.customers[d].phone == Some(phone)
  }

  predicate Frozen(w: World, c: CustomerId, phone: Phone)
    requires c in w.customers
  {
    && w.customers[c].pendingRelease == Some(phone)
    && w.customers[c].deletedAt.Some?
    && w.customers[c].deletedAt.value > FreezeCutoff(w.now)
  }

  predicate PhoneFrozen(w: World, phone: Phone) {
    exists c :: c in w.customers && Frozen(w, c, phone)
  }

  predicate Deleted(w: World, c: CustomerId) {
    c in w.customers && w.customers[c].deletedAt.Some?
  }

  predicate HasBlockingOrder(w: World, c: CustomerId) {
    exists o :: o in w.orders && w.orders[o].customer == Some(c) && Blocking(w.orders[o].status)
  }

  function Balance(db: Db, c: CustomerId): int {
    if c in db.balances then db.balances[c] else 0
  }

  /** The row stored under a key, if any. */
  function RowWithKey(rows: seq<Row>, key: Key): Option<Row> {
    if rows == [] then None
    else if rows[|rows| - 1].key == key then Some(rows[|rows| - 1])
    else RowWithKey(rows[..|rows| - 1], key)
  }

  /** A deletion of the customer has burned a balance and not committed yet. */
  predicate HoldsAccount(req: Pending, c: CustomerId) {
    req.Deleting? && req.subject == c && req.stage.Burned? && req.stage.entry.Some?
  }

  predicate Locked(w: World, c: CustomerId) {
    exists p :: p in w.requests && HoldsAccount(w.requests[p], c)
  }

  /** The id of a deletion event is a new UUID. */
  predicate FreshDeletion(w: World, c: CustomerId, deletion: string) {
    && !HasKey(w.ledger.rows, ExpireKey(c, deletion))
    && !(exists p ::
           && p in w.requests && w.requests[p].Deleting?
           && w.requests[p].subject == c && w.requests[p].deletion == deletion)
  }

  // ----- the statements, each with what it may change -----

  function Hold(w: World, p: Pid, req: Pending): World {
    w.(requests := w.requests[p := req])
  }

  function Drop(w: World, p: Pid): World {
    w.(requests := w.requests - {p})
  }

  /** The live account of the number; if there is one, nothing is frozen and the insert comes next. */
  function DoSignInLook(w: World, p: Pid, phone: Phone): (w': World)
    ensures w' == w.(requests := w'.requests)
  {
    if p in w.requests then w
    else Hold(w, p, if PhoneTaken(w, phone) then Upserting(phone) else Seeking(phone))
  }

  /** A frozen account ends the sign-in with the offer of a restore. */
  function DoFrozenLook(w: World, p: Pid): (w': World)
    ensures w' == w.(requests := w'.requests)
  {
    if p !in w.requests || !w.requests[p].Seeking? then w
    else if PhoneFrozen(w, w.requests[p].number) then Drop(w, p)
    else Hold(w, p, Upserting(w.requests[p].number))
  }

  function SignedUp(w: World, phone: Phone, freshId: CustomerId): World {
    w.(customers := w.customers[freshId := Customer(Some(phone), None, None, None)])
  }

  /** Inserts a row unless one holds the number; `freshId` is a new UUID. */
  function DoUpsert(w: World, p: Pid, freshId: CustomerId): (w': World)
    ensures w' == w.(customers := w'.customers, requests := w'.requests)
  {
    if p !in w.requests || !w.requests[p].Upserting? then w
    else if PhoneTaken(w, w.requests[p].number) then Drop(w, p)
    else if freshId in w.customers then w
    else SignedUp(Drop(w, p), w.requests[p].number, freshId)
  }

  function DoCheckOut(w: World, order: OrderId, customer: Option<CustomerId>, subtotal: real, points: int,
                      online: bool): (w': World)
    ensures w' == w.(orders := w'.orders, ledger := w'.ledger)
  {
    if order in w.orders || points < 0 || (customer.Some? && customer.value !in w.customers) then w
    else
      var row := Order(customer, if online then PENDING_PAYMENT
          else NEW, Pricing.OrderTotal(subtotal - points as real), points);
      if points == 0 then w.(orders := w.orders[order := row])
      else if customer.None? || points > Pricing.BonusLimit(subtotal) || Locked(w, customer.value) then w
      else
        var (db, outcome) := Post(w.ledger, SpendRequest(customer.value, order, points));
        if outcome.Applied? then w.(orders := w.orders[order := row], ledger := db) else w
  }

  /** Nothing is entered for a deleted customer, or for no points. */
  function DoEarnCheck(w: World, p: Pid, order: OrderId, rate: real): (w': World)
    ensures w' == w.(requests := w'.requests)
  {
    if p in w.requests || order !in w.orders || w.orders[order].customer.None?
        || Deleted(w, w.orders[order].customer.value) then w
    else
      var c := w.orders[order].customer.value;
      var points := Pricing.CashbackPoints(w.orders[order].total, if c in w.ledger.balances then rate else 0.0);
      if points <= 0 then w else Hold(w, p, Entering(EarnRequest(c, order, points)))
  }

  function DoRefundCheck(w: World, p: Pid, order: OrderId): (w': World)
    ensures w' == w.(requests := w'.requests)
  {
    if p in w.requests || order !in w.orders || w.orders[order].customer.None?
        || Deleted(w, w.orders[order].customer.value) then w
    else
      var c := w.orders[order].customer.value;
      match RowWithKey(w.ledger.rows, SpendKey(order))
      case None => w
      case Some(spend) => Hold(w, p, Entering(RefundRequest(c, order, -spend.points)))
  }

  /** The entry itself; it waits while a deletion holds the account. */
  function DoEnter(w: World, p: Pid): (w': World)
    ensures w' == w.(ledger := w'.ledger, requests := w'.requests)
  {
    if p !in w.requests || !w.requests[p].Entering? || Locked(w, w.requests[p].req.customer) then w
    else Drop(w, p).(ledger := Post(w.ledger, w.requests[p].req).0)
  }

  function DoDeleteLook(w: World, p: Pid, c: CustomerId, deletion: string): (w': World)
    ensures w' == w.(requests := w'.requests)
  {
    if p in w.requests || c !in w.customers || Deleted(w, c) || !FreshDeletion(w, c, deletion) then w
    else Hold(w, p, Deleting(c, w.customers[c].phone, deletion, Looked))
  }

  function DoDeleteCount(w: World, p: Pid): (w': World)
    ensures w' == w.(requests := w'.requests)
  {
    if p !in w.requests || !w.requests[p].Deleting? || !w.requests[p].stage.Looked? then w
    else if HasBlockingOrder(w, w.requests[p].subject) then Drop(w, p)
    else Hold(w, p, w.requests[p].(stage := Counted))
  }

  /** The drain: a row if there is a balance, and otherwise neither a row nor a lock. */
  function DoBurn(w: World, p: Pid): (w': World)
    ensures w' == w.(requests := w'.requests)
  {
    if p !in w.requests || !w.requests[p].Deleting? || !w.requests[p].stage.Counted? || Locked(w, w.requests[p].subject)
        then w
    else
      var del := w.requests[p];
      var balance := Balance(w.ledger, del.subject);
      var entry := if balance == 0 then None else Some(RowOf(ExpireRequest(del.subject, del.deletion), balance));
      Hold(w, p, del.(stage := Burned(entry, |w.ledger.rows|)))
  }

  /** Anonymizes the row, parks the phone, and commits. */
  function DoUpdateRow(w: World, p: Pid): (w': World)
    ensures w' == w.(customers := w'.customers, ledger := w'.ledger, requests := w'.requests, marks := w'.marks)
  {
    if p !in w.requests || !w.requests[p].Deleting? || !w.requests[p].stage.Burned? then w
    else
      var Deleting(c, phone, _, Burned(entry, mark)) := w.requests[p];
      Drop(w, p).(customers := w.customers[c := Customer(None, None, Some(w.now), phone)],
                  ledger := if entry.Some? then Append(w.ledger, entry.value) else w.ledger,
                  marks := w.marks[c := if entry.Some? then |w.ledger.rows| + 1 else mark])
  }

  /** The restore's read: the number that the deleted row parks. */
  function DoRestoreRead(w: World, p: Pid, c: CustomerId): (w': World)
    ensures w' == w.(requests := w'.requests)
  {
    if p in w.requests || !Deleted(w, c) || w.customers[c].pendingRelease.None? then w
    else Hold(w, p, Restoring(c, w.customers[c].pendingRelease))
  }

  /** The restore's write is refused by the unique index on numbers, and by nothing else. */
  predicate Restorable(w: World, req: Pending) {
    req.Restoring? && req.subject in w.customers && req.phone.Some? && !TakenByOther(w, req.subject, req.phone.value)
  }

  function DoRestoreWrite(w: World, p: Pid): (w': World)
    ensures w' == w.(customers := w'.customers, requests := w'.requests)
  {
    if p !in w.requests || !w.requests[p].Restoring? then w
    else if !Restorable(w, w.requests[p]) then Drop(w, p)
    else
      var Restoring(c, phone) := w.requests[p];
      Drop(w, p).(customers := w.customers[c := w.customers[c].(phone := phone, pendingRelease := None,
          deletedAt := None)])
  }

  predicate PastWindow(w: World, row: Customer) {
    row.pendingRelease.Some? && row.deletedAt.Some? && row.deletedAt.value < FreezeCutoff(w.now)
  }

  function DoReleasePhones(w: World): (w': World)
    ensures w' == w.(customers := w'.customers)
  {
    w.(customers := map c | c in w.customers ::
         if PastWindow(w, w.customers[c]) then w.customers[c].(pendingRelease := None) else w.customers[c])
  }

  function DoSetStatus(w: World, order: OrderId, status: Status): (w': World)
    ensures w' == w.(orders := w'.orders)
  {
    if order in w.orders then w.(orders := w.orders[order := w.orders[order].(status := status)]) else w
  }

  function DoProvision(w: World, c: CustomerId): (w': World)
    ensures w' == w.(ledger := w'.ledger)
  {
    if c in w.customers then w.(ledger := ApplyEffect(w.ledger, Provisioned(c))) else w
  }

  function Next(w: World, a: Action): World {
    match a
    case SignInLook(p, phone) => DoSignInLook(w, p, phone)
    case FrozenLook(p) => DoFrozenLook(w, p)
    case Upsert(p, freshId) => DoUpsert(w, p, freshId)
    case CheckOut(order, customer, subtotal, points, online) => DoCheckOut(w, order, customer, subtotal, points, online)
    case SetStatus(order, status) => DoSetStatus(w, order, status)
    case EarnCheck(p, order, rate) => DoEarnCheck(w, p, order, rate)
    case RefundCheck(p, order) => DoRefundCheck(w, p, order)
    case Enter(p) => DoEnter(w, p)
    case ProvisionAccount(c) => DoProvision(w, c)
    case DeleteLook(p, c, deletion) => DoDeleteLook(w, p, c, deletion)
    case DeleteCount(p) => DoDeleteCount(w, p)
    case Burn(p) => DoBurn(w, p)
    case UpdateRow(p) => DoUpdateRow(w, p)
    case Abort(p) => Drop(w, p)
    case RestoreRead(p, c) => DoRestoreRead(w, p, c)
    case RestoreWrite(p) => DoRestoreWrite(w, p)
    case ReleasePhones => DoReleasePhones(w)
    case Tick(ms) => w.(now := w.now + ms)
  }

  function Exec(w: World, actions: seq<Action>): World
    decreases |actions|
  {
    if actions == [] then w else Exec(Next(w, actions[0]), actions[1..])
  }

  const EMPTY := World(map[], map[], Db(map[], []), map[], map[], 0)

  // ----- what holds in every state -----

  /** What an order's spend and refund rows add up to. */
  function OrderSum(rows: seq<Row>, o: OrderId): int {
    if rows == [] then 0
    else
      var last := rows[|rows| - 1];
      OrderSum(rows[..|rows| - 1], o) + (if last.key == SpendKey(o) || last.key == RefundKey(o) then last.points else 0)
  }

  /** Names and numbers of the customer rows. */
  ghost predicate RowsAnonymized(w: World) {
    && (forall c, d :: c in w.customers && d in w.customers && c != d && w.customers[c].phone.Some? ==>
          w.customers[c].phone != w.customers[d].phone)
    && (forall c :: c in w.customers ==>
          && (w.customers[c].deletedAt.Some? <==> w.customers[c].phone.None?)
          && (w.customers[c].deletedAt.Some? ==> w.customers[c].name.None?)
          && (w.customers[c].pendingRelease.Some? ==> w.customers[c].deletedAt.Some?))
  }

  /** A ledger row belongs where its key says. */
  ghost predicate RowPlaced(w: World, row: Row) {
    && row.customer in w.customers
    && match row.key
       case SpendKey(o) => row.kind == SPEND && o in w.orders && row.points == -w.orders[o].spent
           && w.orders[o].customer == Some(row.customer)
       case EarnKey(o) => row.kind == EARN && o in w.orders && row.points > 0
           && w.orders[o].customer == Some(row.customer)
       case RefundKey(o) =>
         row.kind == REFUND && o in w.orders && row.points == w.orders[o].spent
             && w.orders[o].customer == Some(row.customer)
       case ExpireKey(c, _) => row.kind == EXPIRE && c == row.customer && row.points < 0 && row.balanceAfter == 0
  }

  ghost predicate OrderSettled(w: World, o: OrderId) {
    var spent := if o in w.orders then w.orders[o].spent else 0;
    && (HasKey(w.ledger.rows, RefundKey(o)) ==> HasKey(w.ledger.rows, SpendKey(o)))
    && OrderSum(w.ledger.rows, o) ==
         (if HasKey(w.ledger.rows, SpendKey(o)) then -spent else 0) +
             (if HasKey(w.ledger.rows, RefundKey(o)) then spent else 0)
  }

  ghost predicate OrdersHaveCustomers(w: World) {
    forall o :: o in w.orders ==>
      w.orders[o].spent >= 0 && (w.orders[o].customer.Some? ==> w.orders[o].customer.value in w.customers)
  }

  ghost predicate RowsPlaced(w: World) {
    forall i :: 0 <= i < |w.ledger.rows| ==> RowPlaced(w, w.ledger.rows[i])
  }

  /** The books: a consistent ledger whose rows match the orders. */
  ghost predicate BooksOk(w: World) {
    && Consistent(w.ledger)
    && OrdersHaveCustomers(w)
    && RowsPlaced(w)
    && (forall o :: OrderSettled(w, o))
  }

  /** The mark points at a moment when the customer's rows summed to nothing. */
  ghost predicate MarkOk(rows: seq<Row>, c: CustomerId, mark: nat) {
    mark <= |rows| && Total(rows[..mark], c) == 0
  }

  ghost predicate MarksOk(w: World) {
    forall c :: Deleted(w, c) ==> c in w.marks && MarkOk(w.ledger.rows, c, w.marks[c])
  }

  /** A cashback or refund that passed its check fits the order it is for. */
  ghost predicate EntryFits(w: World, req: Request) {
    && req.customer in w.customers && req.amount.Fixed? && req.createIfMissing
    && match req.key
       case EarnKey(o) => req.kind == EARN && o in w.orders && req.amount.points > 0
           && w.orders[o].customer == Some(req.customer)
       case RefundKey(o) =>
         && req.kind == REFUND && o in w.orders && req.amount.points == w.orders[o].spent && req.amount.points > 0
         && w.orders[o].customer == Some(req.customer) && HasKey(w.ledger.rows, SpendKey(o))
       case _ => false
  }

  /** The one number that the customer has, held or parked. */
  ghost predicate KnowsNumber(w: World, c: CustomerId, phone: Option<Phone>) {
    && c in w.customers && phone.Some?
    && (w.customers[c].phone.Some? ==> w.customers[c].phone == phone)
    && (w.customers[c].pendingRelease.Some? ==> w.customers[c].pendingRelease == phone)
  }

  /** The burn of a deletion under way is still right. */
  ghost predicate BurnFits(w: World, c: CustomerId, deletion: string, stage: Stage) {
    && !HasKey(w.ledger.rows, ExpireKey(c, deletion))
    && match stage
       case Burned(Some(row), _) =>
         c in w.ledger.balances && w.ledger.balances[c] > 0
             && row == RowOf(ExpireRequest(c, deletion), w.ledger.balances[c])
       case Burned(None, mark) => MarkOk(w.ledger.rows, c, mark)
       case _ => true
  }

  ghost predicate RequestFits(w: World, req: Pending) {
    match req
    case Entering(r) => EntryFits(w, r)
    case Deleting(c, phone, deletion, stage) => KnowsNumber(w, c, phone) && BurnFits(w, c, deletion, stage)
    case Restoring(c, phone) => KnowsNumber(w, c, phone)
    case _ => true
  }

  /** The request writes the row of a customer with a number that it has read. */
  predicate OnRow(req: Pending) {
    req.Deleting? || req.Restoring?
  }

  /**
   * Two requests on one row have read the same number; two deletions have their
   * own keys and do not hold the account together.
   */
  ghost predicate Apart(a: Pending, b: Pending) {
    OnRow(a) && OnRow(b) && a.subject == b.subject ==>
      && a.phone == b.phone
      && (a.Deleting? && b.Deleting? ==>
            a.deletion != b.deletion && !(HoldsAccount(a, a.subject) && HoldsAccount(b, b.subject)))
  }

  ghost predicate RequestsOk(w: World) {
    && (forall p :: p in w.requests ==> RequestFits(w, w.requests[p]))
    && (forall p, q :: p in w.requests && q in w.requests && p != q ==> Apart(w.requests[p], w.requests[q]))
  }

  ghost predicate Inv(w: World) {
    RowsAnonymized(w) && BooksOk(w) && MarksOk(w) && RequestsOk(w)
  }

  // ----- the books -----

  lemma OrderSumAppend(rows: seq<Row>, row: Row, o: OrderId)
    ensures OrderSum(rows + [row], o) ==
              OrderSum(rows, o) + (if row.key == SpendKey(o) || row.key == RefundKey(o) then row.points else 0)
  {
    assert (rows + [row])[..|rows|] == rows;
  }

  lemma HasKeyAppend(rows: seq<Row>, row: Row, key: Key)
    ensures HasKey(rows + [row], key) <==> HasKey(rows, key) || row.key == key
  {
    assert (rows + [row])[|rows|] == row;
    if HasKey(rows, key) {
      var i :| 0 <= i < |rows| && rows[i].key == key;
      assert (rows + [row])[i].key == key;
    }
  }

  lemma {:induction false} RowWithKeyFinds(rows: seq<Row>, key: Key)
    ensures RowWithKey(rows, key).Some? <==> HasKey(rows, key)
    ensures RowWithKey(rows, key).Some? ==>
        RowWithKey(rows, key).value in rows && RowWithKey(rows, key).value.key == key
  {
    if rows != [] {
      RowWithKeyFinds(rows[..|rows| - 1], key);
      assert rows == rows[..|rows| - 1] + [rows[|rows| - 1]];
      HasKeyAppend(rows[..|rows| - 1], rows[|rows| - 1], key);
    }
  }

  /** `w'` knows every order and customer of `w`, with the same owner and the same spend. */
  ghost predicate Extends(w: World, w': World) {
    && w.customers.Keys <= w'.customers.Keys
    && forall o :: o in w.orders ==>
         o in w'.orders && w'.orders[o].spent == w.orders[o].spent && w'.orders[o].customer == w.orders[o].customer
  }

  /** A row in its place keeps the books. */
  lemma AppendKeepsBooks(w: World, w': World, row: Row)
    requires BooksOk(w) && Extends(w, w') && w'.ledger == Append(w.ledger, row)
    requires Consistent(w'.ledger) && OrdersHaveCustomers(w')
    requires RowPlaced(w', row) && !HasKey(w.ledger.rows, row.key)
    requires row.key.RefundKey? ==> HasKey(w.ledger.rows, SpendKey(row.key.order))
    ensures BooksOk(w')
  {
    forall i | 0 <= i < |w'.ledger.rows| ensures RowPlaced(w', w'.ledger.rows[i]) {
      if i < |w.ledger.rows| {
        assert RowPlaced(w, w.ledger.rows[i]);
      }
    }
    forall o ensures OrderSettled(w', o) {
      assert OrderSettled(w, o);
      OrderSumAppend(w.ledger.rows, row, o);
      HasKeyAppend(w.ledger.rows, row, SpendKey(o));
      HasKeyAppend(w.ledger.rows, row, RefundKey(o));
      if o !in w.orders {
        NoRowsOfUnknownOrder(w, o);
      }
    }
  }

  lemma NoRowsOfUnknownOrder(w: World, o: OrderId)
    requires RowsPlaced(w) && o !in w.orders
    ensures !HasKey(w.ledger.rows, SpendKey(o)) && !HasKey(w.ledger.rows, RefundKey(o))
  {
  }

  lemma SameRowsKeepBooks(w: World, w': World)
    requires BooksOk(w) && Extends(w, w') && w'.ledger.rows == w.ledger.rows
    requires Consistent(w'.ledger) && OrdersHaveCustomers(w')
    ensures BooksOk(w')
  {
    forall i | 0 <= i < |w'.ledger.rows| ensures RowPlaced(w', w'.ledger.rows[i]) {
      assert RowPlaced(w, w.ledger.rows[i]);
    }
    forall o ensures OrderSettled(w', o) {
      assert OrderSettled(w, o);
      if o !in w.orders {
        NoRowsOfUnknownOrder(w, o);
      }
    }
  }

  /** Appending leaves every mark where it was right. */
  lemma AppendKeepsMark(rows: seq<Row>, row: Row, c: CustomerId, mark: nat)
    requires MarkOk(rows, c, mark)
    ensures MarkOk(rows + [row], c, mark)
  {
    assert (rows + [row])[..mark] == rows[..mark];
  }

  lemma BalanceIsTotal(db: Db, c: CustomerId)
    requires Consistent(db)
    ensures Balance(db, c) == Total(db.rows, c) && Balance(db, c) >= 0
  {
    if c !in db.balances {
      TotalOfStranger(db.rows, c);
    }
  }

  // ----- requests while others move -----

  /** Customer rows, orders and clock move; the ledger's rows and every balance above zero stay. */
  ghost predicate Calm(w: World, w': World) {
    && Extends(w, w')
    && w'.ledger.rows == w.ledger.rows
    && (forall c :: c in w.ledger.balances ==> c in w'.ledger.balances && w'.ledger.balances[c] == w.ledger.balances[c])
    && (forall c :: c in w.customers ==>
          && (w'.customers[c].phone.Some? ==>
              w'.customers[c].phone == w.customers[c].phone || w'.customers[c].phone == w.customers[c].pendingRelease)
          && (w'.customers[c].pendingRelease.Some? ==> w'.customers[c].pendingRelease == w.customers[c].pendingRelease))
  }

  lemma CalmKeepsRequest(w: World, w': World, req: Pending)
    requires RequestFits(w, req) && Calm(w, w')
    ensures RequestFits(w', req)
  {
  }

  lemma CalmKeepsInv(w: World, w': World)
    requires Inv(w) && Calm(w, w') && RowsAnonymized(w') && Consistent(w'.ledger) && OrdersHaveCustomers(w')
    requires w'.requests == w.requests && w'.marks == w.marks
    requires forall c :: Deleted(w', c) ==> Deleted(w, c)
    ensures Inv(w')
  {
    SameRowsKeepBooks(w, w');
    forall p | p in w'.requests ensures RequestFits(w', w'.requests[p]) {
      CalmKeepsRequest(w, w', w.requests[p]);
    }
  }

  lemma ReleaseKeepsInv(w: World)
    requires Inv(w)
    ensures Inv(DoReleasePhones(w))
  {
    CalmKeepsInv(w, DoReleasePhones(w));
  }

  lemma ProvisionKeepsInv(w: World, c: CustomerId)
    requires Inv(w)
    ensures Inv(DoProvision(w, c))
  {
    EffectKeepsConsistent(w.ledger, Provisioned(c));
    CalmKeepsInv(w, DoProvision(w, c));
  }

  lemma SetStatusKeepsInv(w: World, order: OrderId, status: Status)
    requires Inv(w)
    ensures Inv(DoSetStatus(w, order, status))
  {
    CalmKeepsInv(w, DoSetStatus(w, order, status));
  }

  lemma TickKeepsInv(w: World, ms: nat)
    requires Inv(w)
    ensures Inv(w.(now := w.now + ms))
  {
    CalmKeepsInv(w, w.(now := w.now + ms));
  }

  // ----- a row of the ledger -----

  /** A row of somebody whose account no deletion holds leaves every request as it was. */
  lemma AppendKeepsRequest(w: World, w': World, row: Row, req: Pending)
    requires RequestFits(w, req) && Extends(w, w') && w'.ledger == Append(w.ledger, row)
    requires w'.customers == w.customers && !HoldsAccount(req, row.customer)
    requires req.Deleting? ==> row.key != ExpireKey(req.subject, req.deletion)
    ensures RequestFits(w', req)
  {
    match req
    case Entering(r) =>
      if r.key.RefundKey? { HasKeyAppend(w.ledger.rows, row, SpendKey(r.key.order)); }
    case Deleting(c, phone, deletion, stage) =>
      HasKeyAppend(w.ledger.rows, row, ExpireKey(c, deletion));
      if stage.Burned? && stage.entry.None? { AppendKeepsMark(w.ledger.rows, row, c, stage.mark); }
    case _ =>
  }

  lemma AppendKeepsMarks(w: World, w': World, row: Row)
    requires MarksOk(w) && w'.ledger == Append(w.ledger, row) && w'.customers == w.customers && w'.marks == w.marks
    ensures MarksOk(w')
  {
    forall c | Deleted(w', c) ensures c in w'.marks && MarkOk(w'.ledger.rows, c, w'.marks[c]) {
      assert Deleted(w, c);
      AppendKeepsMark(w.ledger.rows, row, c, w.marks[c]);
    }
  }

  /** An entry that nobody's lock forbids keeps everything in order. */
  lemma EntryKeepsInv(w: World, w': World, row: Row)
    requires Inv(w) && Extends(w, w') && w'.ledger == Append(w.ledger, row)
    requires w'.customers == w.customers && w'.marks == w.marks
    requires forall p :: p in w'.requests ==> p in w.requests && w'.requests[p] == w.requests[p]
    requires Consistent(w'.ledger) && OrdersHaveCustomers(w')
    requires RowPlaced(w', row) && !HasKey(w.ledger.rows, row.key) && !row.key.ExpireKey? && !Locked(w, row.customer)
    requires row.key.RefundKey? ==> HasKey(w.ledger.rows, SpendKey(row.key.order))
    ensures Inv(w')
  {
    AppendKeepsBooks(w, w', row);
    AppendKeepsMarks(w, w', row);
    forall p | p in w'.requests ensures RequestFits(w', w'.requests[p]) {
      assert RequestFits(w, w.requests[p]);
      assert !HoldsAccount(w.requests[p], row.customer);
      AppendKeepsRequest(w, w', row, w.requests[p]);
    }
  }

  /** An order placed without a spend. */
  lemma PlacingKeepsInv(w: World, order: OrderId, row: Order)
    requires Inv(w) && order !in w.orders && row.spent == 0
    requires row.customer.Some? ==> row.customer.value in w.customers
    ensures Inv(w.(orders := w.orders[order := row]))
  {
    CalmKeepsInv(w, w.(orders := w.orders[order := row]));
  }

  /** An order placed with a spend: the order and its ledger row. */
  lemma SpendKeepsInv(w: World, order: OrderId, row: Order)
    requires Inv(w) && order !in w.orders && row.spent > 0
    requires row.customer.Some? && row.customer.value in w.customers && !Locked(w, row.customer.value)
    requires Post(w.ledger, SpendRequest(row.customer.value, order, row.spent)).1.Applied?
    ensures Inv(w.(orders := w.orders[order := row],
        ledger := Post(w.ledger, SpendRequest(row.customer.value, order, row.spent)).0))
  {
    var c := row.customer.value;
    var req := SpendRequest(c, order, row.spent);
    var w' := w.(orders := w.orders[order := row], ledger := Post(w.ledger, req).0);
    PostKeepsConsistent(w.ledger, req);
    EntryKeepsInv(w, w', RowOf(req, w.ledger.balances[c]));
  }

  lemma CheckOutKeepsInv(w: World, order: OrderId, buyer: Option<CustomerId>, subtotal: real, points: int, online: bool)
    requires Inv(w)
    ensures Inv(DoCheckOut(w, order, buyer, subtotal, points, online))
  {
    var w' := DoCheckOut(w, order, buyer, subtotal, points, online);
    if w' != w {
      var row := Order(buyer, if online then PENDING_PAYMENT
          else NEW, Pricing.OrderTotal(subtotal - points as real), points);
      if points == 0 {
        PlacingKeepsInv(w, order, row);
      } else {
        SpendKeepsInv(w, order, row);
      }
    }
  }

  lemma DropKeepsInv(w: World, p: Pid)
    requires Inv(w)
    ensures Inv(Drop(w, p))
  {
    var w' := Drop(w, p);
    SameRowsKeepBooks(w, w');
    forall q | q in w'.requests ensures RequestFits(w', w'.requests[q]) {
      CalmKeepsRequest(w, w', w.requests[q]);
    }
  }

  lemma EnterKeepsInv(w: World, p: Pid)
    requires Inv(w)
    ensures Inv(DoEnter(w, p))
  {
    hide RowsAnonymized;
    var w' := DoEnter(w, p);
    if p in w.requests && w.requests[p].Entering? && !Locked(w, w.requests[p].req.customer) {
      var req := w.requests[p].req;
      assert RequestFits(w, w.requests[p]);
      if Post(w.ledger, req).1.Applied? {
        PostKeepsConsistent(w.ledger, req);
        EntryKeepsInv(w, w', RowOf(req, Balance(w.ledger, req.customer)));
      } else {
        assert w' == Drop(w, p);
        DropKeepsInv(w, p);
      }
    }
  }

  // ----- the other statements of a request -----

  lemma HoldKeepsInv(w: World, p: Pid, req: Pending)
    requires Inv(w) && RequestFits(w, req)
    requires forall q :: q in w.requests && q != p ==> Apart(req, w.requests[q]) && Apart(w.requests[q], req)
    ensures Inv(Hold(w, p, req))
  {
    var w' := Hold(w, p, req);
    SameRowsKeepBooks(w, w');
    forall q | q in w'.requests ensures RequestFits(w', w'.requests[q]) {
      assert RequestFits(w, w'.requests[q]);
      CalmKeepsRequest(w, w', w'.requests[q]);
    }
  }

  lemma EarnCheckKeepsInv(w: World, p: Pid, order: OrderId, rate: real)
    requires Inv(w)
    ensures Inv(DoEarnCheck(w, p, order, rate))
  {
    var w' := DoEarnCheck(w, p, order, rate);
    if w' != w {
      HoldKeepsInv(w, p, w'.requests[p]);
    }
  }

  lemma RefundCheckKeepsInv(w: World, p: Pid, order: OrderId)
    requires Inv(w)
    ensures Inv(DoRefundCheck(w, p, order))
  {
    var w' := DoRefundCheck(w, p, order);
    RowWithKeyFinds(w.ledger.rows, SpendKey(order));
    if w' != w {
      var spend := RowWithKey(w.ledger.rows, SpendKey(order)).value;
      SpendRowIsOfItsOrder(w, order, spend);
      HoldKeepsInv(w, p, w'.requests[p]);
    }
  }

  lemma SpendRowIsOfItsOrder(w: World, order: OrderId, spend: Row)
    requires BooksOk(w) && spend in w.ledger.rows && spend.key == SpendKey(order)
    ensures order in w.orders && spend.points == -w.orders[order].spent < 0
        && w.orders[order].customer == Some(spend.customer)
  {
    assert RowPlaced(w, spend);
  }

  lemma DeleteLookKeepsInv(w: World, p: Pid, c: CustomerId, deletion: string)
    requires Inv(w)
    ensures Inv(DoDeleteLook(w, p, c, deletion))
  {
    var w' := DoDeleteLook(w, p, c, deletion);
    if w' != w {
      var req := w'.requests[p];
      forall q | q in w.requests && q != p ensures Apart(req, w.requests[q]) && Apart(w.requests[q], req) {
        assert RequestFits(w, w.requests[q]);
      }
      HoldKeepsInv(w, p, req);
    }
  }

  lemma DeleteCountKeepsInv(w: World, p: Pid)
    requires Inv(w)
    ensures Inv(DoDeleteCount(w, p))
  {
    if p in w.requests && w.requests[p].Deleting? && w.requests[p].stage.Looked? {
      assert RequestFits(w, w.requests[p]);
      if HasBlockingOrder(w, w.requests[p].subject) {
        DropKeepsInv(w, p);
      } else {
        HoldKeepsInv(w, p, w.requests[p].(stage := Counted));
      }
    }
  }

  lemma BurnKeepsInv(w: World, p: Pid)
    requires Inv(w)
    ensures Inv(DoBurn(w, p))
  {
    var w' := DoBurn(w, p);
    if w' != w {
      var del, req := w.requests[p], w'.requests[p];
      assert RequestFits(w, del);
      BalanceIsTotal(w.ledger, del.subject);
      assert w.ledger.rows[..|w.ledger.rows|] == w.ledger.rows;
      forall q | q in w.requests && q != p ensures Apart(req, w.requests[q]) && Apart(w.requests[q], req) {
        assert Apart(del, w.requests[q]) && !HoldsAccount(w.requests[q], del.subject);
      }
      HoldKeepsInv(w, p, req);
    }
  }

  // ----- the commit of a deletion -----

  /** The row a burn has written, at its commit: nothing is left, and the mark is after it. */
  lemma BurnedRowCommits(w: World, c: CustomerId, deletion: string, row: Row)
    requires BooksOk(w) && c in w.ledger.balances && w.ledger.balances[c] > 0
        && row == RowOf(ExpireRequest(c, deletion), w.ledger.balances[c])
    requires !HasKey(w.ledger.rows, ExpireKey(c, deletion))
    ensures Consistent(Append(w.ledger, row)) && Append(w.ledger, row) == Post(w.ledger, ExpireRequest(c, deletion)).0
    ensures Balance(Append(w.ledger, row), c) == 0
    ensures MarkOk(w.ledger.rows + [row], c, |w.ledger.rows| + 1)
  {
    AppendKeepsConsistent(w.ledger, row);
    BalanceIsTotal(Append(w.ledger, row), c);
    assert (w.ledger.rows + [row])[..|w.ledger.rows| + 1] == w.ledger.rows + [row];
  }

  lemma UpdateKeepsBooks(w: World, p: Pid)
    requires Inv(w) && p in w.requests && w.requests[p].Deleting? && w.requests[p].stage.Burned?
    ensures BooksOk(DoUpdateRow(w, p))
  {
    var w' := DoUpdateRow(w, p);
    var Deleting(c, _, deletion, Burned(entry, _)) := w.requests[p];
    assert RequestFits(w, w.requests[p]);
    if entry.Some? {
      BurnedRowCommits(w, c, deletion, entry.value);
      AppendKeepsBooks(w, w', entry.value);
    } else {
      SameRowsKeepBooks(w, w');
    }
  }

  lemma UpdateKeepsMarks(w: World, p: Pid)
    requires Inv(w) && p in w.requests && w.requests[p].Deleting? && w.requests[p].stage.Burned?
    ensures MarksOk(DoUpdateRow(w, p))
  {
    var w' := DoUpdateRow(w, p);
    var Deleting(c, _, deletion, Burned(entry, _)) := w.requests[p];
    assert RequestFits(w, w.requests[p]);
    if entry.Some? {
      BurnedRowCommits(w, c, deletion, entry.value);
    }
    forall d | Deleted(w', d) ensures d in w'.marks && MarkOk(w'.ledger.rows, d, w'.marks[d]) {
      if d != c {
        assert Deleted(w, d);
        if entry.Some? { AppendKeepsMark(w.ledger.rows, entry.value, d, w.marks[d]); }
      }
    }
  }

  lemma UpdateKeepsRequest(w: World, p: Pid, q: Pid)
    requires Inv(w) && p in w.requests && w.requests[p].Deleting? && w.requests[p].stage.Burned?
    requires q in w.requests && q != p
    ensures RequestFits(DoUpdateRow(w, p), w.requests[q])
  {
    var w' := DoUpdateRow(w, p);
    var Deleting(c, phone, deletion, Burned(entry, _)) := w.requests[p];
    var req := w.requests[q];
    assert RequestFits(w, w.requests[p]) && RequestFits(w, req) && Apart(w.requests[p], req);
    match req
    case Entering(r) =>
      if entry.Some? && r.key.RefundKey? { HasKeyAppend(w.ledger.rows, entry.value, SpendKey(r.key.order)); }
    case Deleting(d, other, own, stage) =>
      if entry.Some? {
        HasKeyAppend(w.ledger.rows, entry.value, ExpireKey(d, own));
        if stage.Burned? && stage.entry.None? { AppendKeepsMark(w.ledger.rows, entry.value, d, stage.mark); }
      }
    case _ =>
  }

  lemma UpdateRowKeepsInv(w: World, p: Pid)
    requires Inv(w)
    ensures Inv(DoUpdateRow(w, p))
  {
    if p in w.requests && w.requests[p].Deleting? && w.requests[p].stage.Burned? {
      var w' := DoUpdateRow(w, p);
      assert RequestFits(w, w.requests[p]);
      UpdateKeepsBooks(w, p);
      UpdateKeepsMarks(w, p);
      assert RowsAnonymized(w');
      forall q | q in w'.requests ensures RequestFits(w', w'.requests[q]) {
        UpdateKeepsRequest(w, p, q);
      }
    }
  }

  // ----- sign-ins and restores -----

  lemma SignInLookKeepsInv(w: World, p: Pid, phone: Phone)
    requires Inv(w)
    ensures Inv(DoSignInLook(w, p, phone))
  {
    if p !in w.requests {
      HoldKeepsInv(w, p, if PhoneTaken(w, phone) then Upserting(phone) else Seeking(phone));
    }
  }

  lemma FrozenLookKeepsInv(w: World, p: Pid)
    requires Inv(w)
    ensures Inv(DoFrozenLook(w, p))
  {
    if p in w.requests && w.requests[p].Seeking? {
      if PhoneFrozen(w, w.requests[p].number) {
        DropKeepsInv(w, p);
      } else {
        HoldKeepsInv(w, p, Upserting(w.requests[p].number));
      }
    }
  }

  lemma SignedUpKeepsRows(w: World, phone: Phone, freshId: CustomerId)
    requires RowsAnonymized(w) && !PhoneTaken(w, phone) && freshId !in w.customers
    ensures RowsAnonymized(SignedUp(w, phone, freshId))
  {
  }

  lemma SignedUpKeepsInv(w: World, phone: Phone, freshId: CustomerId)
    requires Inv(w) && !PhoneTaken(w, phone) && freshId !in w.customers
    ensures Inv(SignedUp(w, phone, freshId))
  {
    SignedUpKeepsRows(w, phone, freshId);
    CalmKeepsInv(w, SignedUp(w, phone, freshId));
  }

  lemma UpsertKeepsInv(w: World, p: Pid, freshId: CustomerId)
    requires Inv(w)
    ensures Inv(DoUpsert(w, p, freshId))
  {
    if p in w.requests && w.requests[p].Upserting? {
      DropKeepsInv(w, p);
      if !PhoneTaken(w, w.requests[p].number) && freshId !in w.customers {
        assert !PhoneTaken(Drop(w, p), w.requests[p].number);
        SignedUpKeepsInv(Drop(w, p), w.requests[p].number, freshId);
      }
    }
  }

  lemma RestoreReadKeepsInv(w: World, p: Pid, c: CustomerId)
    requires Inv(w)
    ensures Inv(DoRestoreRead(w, p, c))
  {
    var w' := DoRestoreRead(w, p, c);
    if w' != w {
      var req := Restoring(c, w.customers[c].pendingRelease);
      forall q | q in w.requests && q != p ensures Apart(req, w.requests[q]) && Apart(w.requests[q], req) {
        assert RequestFits(w, w.requests[q]);
      }
      HoldKeepsInv(w, p, req);
    }
  }

  lemma RestoreKeepsRows(w: World, p: Pid)
    requires RowsAnonymized(w) && p in w.requests && Restorable(w, w.requests[p])
    ensures RowsAnonymized(DoRestoreWrite(w, p))
  {
  }

  lemma RestoreKeepsRequest(w: World, p: Pid, q: Pid)
    requires RequestsOk(w) && p in w.requests && Restorable(w, w.requests[p]) && q in w.requests && q != p
    ensures RequestFits(DoRestoreWrite(w, p), w.requests[q])
  {
    assert RequestFits(w, w.requests[q]) && Apart(w.requests[p], w.requests[q]);
  }

  lemma RestoreWriteKeepsInv(w: World, p: Pid)
    requires Inv(w)
    ensures Inv(DoRestoreWrite(w, p))
  {
    if p in w.requests && w.requests[p].Restoring? {
      if Restorable(w, w.requests[p]) {
        var w' := DoRestoreWrite(w, p);
        SameRowsKeepBooks(w, w');
        RestoreKeepsRows(w, p);
        assert MarksOk(w') by { assert forall c :: Deleted(w', c) ==> Deleted(w, c); }
        forall q | q in w'.requests ensures RequestFits(w', w'.requests[q]) {
          RestoreKeepsRequest(w, p, q);
        }
      } else {
        DropKeepsInv(w, p);
      }
    }
  }

  lemma SigningKeepsInv(w: World, a: Action)
    requires Inv(w) && (a.SignInLook? || a.FrozenLook? || a.Upsert? || a.RestoreRead? || a.RestoreWrite?)
    ensures Inv(Next(w, a))
  {
    hide Inv;
    match a
    case SignInLook(p, phone) => SignInLookKeepsInv(w, p, phone);
    case FrozenLook(p) => FrozenLookKeepsInv(w, p);
    case Upsert(p, freshId) => UpsertKeepsInv(w, p, freshId);
    case RestoreRead(p, c) => RestoreReadKeepsInv(w, p, c);
    case RestoreWrite(p) => RestoreWriteKeepsInv(w, p);
  }

  /** The statements of one deletion, cashback or refund. */
  predicate OfRequest(a: Action) {
    || a.EarnCheck? || a.RefundCheck? || a.Enter? || a.DeleteLook? || a.DeleteCount? || a.Burn? || a.UpdateRow?
        || a.Abort?
  }

  lemma StatementKeepsInv(w: World, a: Action)
    requires Inv(w) && OfRequest(a)
    ensures Inv(Next(w, a))
  {
    hide Inv;
    match a
    case EarnCheck(p, order, rate) => EarnCheckKeepsInv(w, p, order, rate);
    case RefundCheck(p, order) => RefundCheckKeepsInv(w, p, order);
    case Enter(p) => EnterKeepsInv(w, p);
    case DeleteLook(p, c, deletion) => DeleteLookKeepsInv(w, p, c, deletion);
    case DeleteCount(p) => DeleteCountKeepsInv(w, p);
    case Burn(p) => BurnKeepsInv(w, p);
    case UpdateRow(p) => UpdateRowKeepsInv(w, p);
    case Abort(p) => DropKeepsInv(w, p);
  }

  /** Every statement of every request keeps books, numbers and requests in order. */
  lemma NextKeepsInv(w: World, a: Action)
    requires Inv(w)
    ensures Inv(Next(w, a))
  {
    hide Inv;
    match a
    case CheckOut(order, buyer, subtotal, points, online) =>
        CheckOutKeepsInv(w, order, buyer, subtotal, points, online);
    case SetStatus(order, status) => SetStatusKeepsInv(w, order, status);
    case ProvisionAccount(c) => ProvisionKeepsInv(w, c);
    case ReleasePhones => ReleaseKeepsInv(w);
    case Tick(ms) => TickKeepsInv(w, ms);
    case _ => if OfRequest(a) { StatementKeepsInv(w, a); } else { SigningKeepsInv(w, a); }
  }

  lemma EmptyIsInOrder()
    ensures Inv(EMPTY)
  {
  }

  lemma {:induction false} RunsKeepInv(w: World, actions: seq<Action>)
    requires Inv(w)
    ensures Inv(Exec(w, actions))
    decreases |actions|
  {
    hide Inv, Next;
    if actions != [] {
      NextKeepsInv(w, actions[0]);
      RunsKeepInv(Next(w, actions[0]), actions[1..]);
    }
  }
}
