/**
 * The handlers that move orders, as they are written: read the row, decide,
 * and write under a guard, with other requests running in between. A running
 * handler's local variables are its entry in `requests`.
 */
module OrdersService {
  import opened Wrappers
  import opened OrderStatus
  import opened Orders

  datatype KitchenAnswer =
    | KitchenNotFound
    | BranchForbidden
    | KitchenInvalid(from: Status)
    | VersionConflict
    | KitchenUpdated(order: KitchenOrder)

  datatype CourierAnswer =
    | CourierNotFound
    | AlreadyAssigned
    | NotAssigned
    | CourierInvalid(from: Status)
    | HasActiveOrder
    | CourierUpdated(row: Row)

  datatype DeletionAnswer = Unauthorized | ActiveOrdersExist | SelfDeleted

  /** The action belongs to request p. */
  predicate Touches(a: Action, p: Pid) {
    match a
    case KitchenRead(q, _, _, _, _, _) => q == p
    case Guard(q, _) => q == p
    case ClaimRead(q, _) => q == p
    case MoveRead(q, _, _) => q == p
    case DeleteRead(q) => q == p
    case Proceed(q) => q == p
    case _ => false
  }

  predicate Foreign(actions: seq<Action>, p: Pid) {
    forall i :: 0 <= i < |actions| ==> !Touches(actions[i], p)
  }

  lemma ForeignStepKeepsRequest(s: State, a: Action, p: Pid)
    requires p in s.requests && !Touches(a, p)
    ensures p in Next(s, a).requests && Next(s, a).requests[p] == s.requests[p]
  {
  }

  lemma {:induction false} ForeignRunKeepsRequest(s: State, actions: seq<Action>, p: Pid)
    requires p in s.requests && Foreign(actions, p)
    ensures p in Exec(s, actions).requests && Exec(s, actions).requests[p] == s.requests[p]
    decreases |actions|
  {
    hide Next, Touches;
    if actions != [] {
      ForeignStepKeepsRequest(s, actions[0], p);
      ForeignRunKeepsRequest(Next(s, actions[0]), actions[1..], p);
    }
  }

  /** Orders and couriers are never removed. */
  lemma {:induction false} RowsStay(s: State, actions: seq<Action>)
    ensures s.orders.Keys <= Exec(s, actions).orders.Keys && s.couriers.Keys <= Exec(s, actions).couriers.Keys
    decreases |actions|
  {
    hide Next;
    if actions != [] {
      RowsStayOneStep(s, actions[0]);
      RowsStay(Next(s, actions[0]), actions[1..]);
    }
  }

  lemma RowsStayOneStep(s: State, a: Action)
    ensures s.orders.Keys <= Next(s, a).orders.Keys && s.couriers.Keys <= Next(s, a).couriers.Keys
  {
    hide Finish, Moved;
    if a.Proceed? && a.p in s.requests {
      RowsStayAtFinish(s, a.p);
    }
  }

  lemma RowsStayAtFinish(s: State, p: Pid)
    requires p in s.requests
    ensures s.orders.Keys <= Finish(s, p).orders.Keys && s.couriers.Keys <= Finish(s, p).couriers.Keys
  {
    assert forall o :: o in s.orders ==> o in Finish(s, p).orders;
    assert forall c :: c in s.couriers ==> c in Finish(s, p).couriers;
  }

  /** An order never changes branch. */
  lemma {:induction false} BranchStays(s: State, actions: seq<Action>, o: OrderId)
    requires o in s.orders
    ensures o in Exec(s, actions).orders && Exec(s, actions).orders[o].row.branch == s.orders[o].row.branch
    decreases |actions|
  {
    hide Next;
    if actions != [] {
      BranchStaysOneStep(s, actions[0], o);
      BranchStays(Next(s, actions[0]), actions[1..], o);
    }
  }

  lemma BranchStaysOneStep(s: State, a: Action, o: OrderId)
    requires o in s.orders
    ensures o in Next(s, a).orders && Next(s, a).orders[o].row.branch == s.orders[o].row.branch
  {
    hide Finish;
    if a.Proceed? && a.p in s.requests {
      BranchStaysAtFinish(s, a.p, o);
    }
  }

  lemma BranchStaysAtFinish(s: State, p: Pid, o: OrderId)
    requires o in s.orders && p in s.requests
    ensures o in Finish(s, p).orders && Finish(s, p).orders[o].row.branch == s.orders[o].row.branch
  {
  }

  ghost predicate EndsWith(r: Record, ch: Change) {
    |r.history| > 0 && r.history[|r.history| - 1] == ch
  }

  /** The stored reason of a cancellation is the stop list exactly if the worker wrote it. */
  predicate CancelledByWorker(r: Record) {
    |r.history| > 0 && r.history[|r.history| - 1].actor.ByWorker?
  }

  class OrderDesk {
    var orders: map<OrderId, Record>
    var couriers: map<CourierId, Courier>
    var requests: map<Pid, Request>
    var events: seq<Event>
    var now: int

    function Seen(): State
      reads this
    {
      State(orders, couriers, requests, events, now)
    }

    constructor ()
      ensures Seen() == EMPTY
    {
      orders, couriers, requests, events, now := map[], map[], map[], [], 0;
    }

    /** Everybody else's steps, one after another. */
    method Interfere(actions: seq<Action>)
      modifies this
      ensures Seen() == Exec(old(Seen()), actions)
    {
      var i := 0;
      while i < |actions|
        invariant i <= |actions|
        invariant Exec(Seen(), actions[i..]) == Exec(old(Seen()), actions)
      {
        assert actions[i..][1..] == actions[i + 1..];
        var s := Next(Seen(), actions[i]);
        orders, couriers, requests, events, now := s.orders, s.couriers, s.requests, s.events, s.now;
        i := i + 1;
      }
    }

    /** The terminal's transition: checked on a read, written under status and version. */
    method UpdateOrderStatus(p: Pid, terminal: string, branch: BranchId, o: OrderId, target: Status,
                             expectedVersion: int, between: seq<Action>)
      returns (answer: KitchenAnswer)
      requires p !in requests && Foreign(between, p) && (target.COOKING? || target.READY?)
      modifies this
      ensures var read := Next(old(Seen()), KitchenRead(p, terminal, branch, o, target, expectedVersion));
              if read == old(Seen()) then Seen() == old(Seen()) && !answer.KitchenUpdated? && !answer.VersionConflict?
              else
                && Seen() == Next(Exec(read, between), Proceed(p))
                && !answer.KitchenNotFound? && !answer.BranchForbidden?
      ensures answer.KitchenNotFound? <==> o !in old(orders)
      ensures answer.BranchForbidden? <==> o in old(orders) && old(orders)[o].row.branch != branch
      ensures answer.KitchenInvalid? ==>
        && o in orders && o in old(orders) && orders[o].row.status == answer.from
        && (!KitchenSource(old(orders)[o].row.status, target) || old(orders)[o].row.status != answer.from)
      ensures answer.KitchenUpdated? ==>
        && o in orders && o in old(orders)
        && orders[o].row.version == expectedVersion + 1
        && orders[o].row.status == target
        && EndsWith(orders[o], Change(old(orders)[o].row.status, target, ByKitchen(terminal), false))
        && answer.order == ToKitchenOrder(o, orders[o].row)
      ensures answer.VersionConflict? ==>
        && o in orders && o in old(orders)
        && orders[o].row.status == old(orders)[o].row.status && orders[o].row.version != expectedVersion
    {
      hide Finish;
      ghost var s := Seen();
      ghost var reading := KitchenRead(p, terminal, branch, o, target, expectedVersion);
      if o !in orders {
        return KitchenNotFound;
      }
      if orders[o].row.branch != branch {
        return BranchForbidden;
      }
      var from := orders[o].row.status;
      if !KitchenSource(from, target) {
        return KitchenInvalid(from);
      }
      requests := requests[p := KitchenWrite(o, terminal, branch, from, target, expectedVersion)];
      ghost var read := Seen();
      assert read == Next(s, reading) && read != s;
      Interfere(between);
      ForeignRunKeepsRequest(read, between, p);
      RowsStay(read, between);
      BranchStays(read, between, o);
      var updated := WriteUnderVersion(p);
      if updated {
        return KitchenUpdated(ToKitchenOrder(o, orders[o].row));
      }
      if orders[o].row.status != from {
        return KitchenInvalid(orders[o].row.status);
      }
      return VersionConflict;
    }

    /** The terminal's write under branch, status and version; says whether it hit. */
    method WriteUnderVersion(p: Pid) returns (updated: bool)
      requires p in requests && requests[p].KitchenWrite? && requests[p].order in orders
      modifies this
      ensures Seen() == Next(old(Seen()), Proceed(p))
      ensures var KitchenWrite(o, terminal, branch, from, target, version) := old(requests)[p];
              var r := old(orders)[o];
              && o in orders
              && (updated <==> r.row.branch == branch && r.row.status == from && r.row.version == version)
              && orders[o] == if updated then Moved(r, target, ByKitchen(terminal), now) else r
    {
      var KitchenWrite(o, terminal, branch, from, target, version) := requests[p];
      var r := orders[o];
      requests := requests - {p};
      updated := r.row.branch == branch && r.row.status == from && r.row.version == version;
      if updated {
        orders := orders[o := Moved(r, target, ByKitchen(terminal), now)];
      }
    }

    /** The courier's claim: two reads, then an atomic write of an unassigned order. */
    method ClaimOrder(p: Pid, o: OrderId, beforeCount: seq<Action>, beforeWrite: seq<Action>)
      returns (answer: CourierAnswer)
      requires p in requests && requests[p].Guarded? && requests[p].courier in couriers
      requires Foreign(beforeCount, p) && Foreign(beforeWrite, p)
      modifies this
      ensures p !in requests
      ensures var c := old(requests)[p].courier;
              var read := Next(old(Seen()), ClaimRead(p, o));
              var counted := Next(Exec(read, beforeCount), Proceed(p));
              match answer
              case CourierUpdated(row) =>
                && Seen() == Next(Exec(counted, beforeWrite), Proceed(p))
                && o in orders && orders[o].row == row && row.courier == Some(c) && row.status == READY
                && EndsWith(orders[o], Change(READY, READY, ByCourier(c), true))
                && !OwnsAny(Exec(read, beforeCount), c)
              case HasActiveOrder => Seen() == counted && OwnsAny(Exec(read, beforeCount), c)
              case AlreadyAssigned =>
                if o in old(orders) && old(orders)[o].row.courier.Some? then Seen() == Next(old(Seen()), Proceed(p))
                else
                  && Seen() == Next(Exec(counted, beforeWrite), Proceed(p))
                  && o in orders && !(orders[o].row.status.READY? && orders[o].row.courier.None?)
              case CourierInvalid(from) =>
                && Seen() == Next(old(Seen()), Proceed(p))
                && o in old(orders) && old(orders)[o].row.courier.None? && old(orders)[o].row.status == from
                    && !from.READY?
              case CourierNotFound =>
                && Seen() == Next(old(Seen()), Proceed(p))
                && (o !in old(orders) || old(orders)[o].row.branch != old(couriers)[c].branch)
              case NotAssigned => false
    {
      ghost var s := Seen();
      var c := requests[p].courier;
      if o !in orders || orders[o].row.branch != couriers[c].branch {
        requests := requests - {p};
        return CourierNotFound;
      }
      if orders[o].row.courier.Some? {
        requests := requests - {p};
        return AlreadyAssigned;
      }
      if !orders[o].row.status.READY? {
        requests := requests - {p};
        return CourierInvalid(orders[o].row.status);
      }
      requests := requests[p := ClaimCount(c, o)];
      ghost var read := Seen();
      Interfere(beforeCount);
      ForeignRunKeepsRequest(read, beforeCount, p);
      RowsStay(read, beforeCount);
      ghost var counting := Seen();
      if OwnsAny(Seen(), c) {
        requests := requests - {p};
        return HasActiveOrder;
      }
      requests := requests[p := ClaimWrite(c, o)];
      ghost var counted := Seen();
      assert counted == Next(counting, Proceed(p));
      Interfere(beforeWrite);
      ForeignRunKeepsRequest(counted, beforeWrite, p);
      RowsStay(counted, beforeWrite);
      ghost var writing := Seen();
      requests := requests - {p};
      if orders[o].row.status.READY? && orders[o].row.courier.None? {
        orders := orders[o := Claimed(orders[o], c)];
        assert Seen() == Next(writing, Proceed(p));
        return CourierUpdated(orders[o].row);
      }
      assert Seen() == Next(writing, Proceed(p));
      return AlreadyAssigned;
    }

    /** ON_WAY and COMPLETED of the courier's own order. */
    method TransitionOwnOrder(p: Pid, o: OrderId, target: Status, between: seq<Action>) returns (answer: CourierAnswer)
      requires p in requests && requests[p].Guarded? && requests[p].courier in couriers && Foreign(between, p)
      requires target.ON_WAY? || target.COMPLETED?
      modifies this
      ensures p !in requests
      ensures var c := old(requests)[p].courier;
              var read := Next(old(Seen()), MoveRead(p, o, target));
              match answer
              case CourierUpdated(row) =>
                && Seen() == Next(Exec(read, between), Proceed(p))
                && o in orders && orders[o].row == row && row.status == target && row.courier == Some(c)
                && EndsWith(orders[o], Change(if target.ON_WAY? then READY else ON_WAY, target, ByCourier(c), false))
              case NotAssigned => Seen() == Next(old(Seen()), Proceed(p)) && o in old(orders)
                  && old(orders)[o].row.courier != Some(c)
              case CourierNotFound =>
                && Seen() == Next(old(Seen()), Proceed(p))
                && (o !in old(orders) || old(orders)[o].row.branch != old(couriers)[c].branch)
              case CourierInvalid(from) =>
                && o in old(orders) && old(orders)[o].row.courier == Some(c) && old(orders)[o].row.status == from
                && if from != (if target.ON_WAY? then READY else ON_WAY) then Seen() == Next(old(Seen()), Proceed(p))
                   else
                     && Seen() == Next(Exec(read, between), Proceed(p))
                     && o in orders && !(orders[o].row.status == from && orders[o].row.courier == Some(c))
              case _ => false
    {
      ghost var s := Seen();
      var c := requests[p].courier;
      if o !in orders || orders[o].row.branch != couriers[c].branch {
        requests := requests - {p};
        return CourierNotFound;
      }
      if orders[o].row.courier != Some(c) {
        requests := requests - {p};
        return NotAssigned;
      }
      var expected := if target.ON_WAY? then READY else ON_WAY;
      var seen := orders[o].row.status;
      if seen != expected {
        requests := requests - {p};
        return CourierInvalid(seen);
      }
      requests := requests[p := MoveWrite(c, o, expected, target)];
      ghost var read := Seen();
      Interfere(between);
      ForeignRunKeepsRequest(read, between, p);
      RowsStay(read, between);
      var moved := WriteOwnOrder(p);
      return if moved then CourierUpdated(orders[o].row) else CourierInvalid(seen);
    }

    /** The courier's write under owner and expected status; says whether it hit. */
    method WriteOwnOrder(p: Pid) returns (moved: bool)
      requires p in requests && requests[p].MoveWrite? && requests[p].order in orders
      modifies this
      ensures p !in requests && Seen() == Next(old(Seen()), Proceed(p))
      ensures var MoveWrite(c, o, expected, target) := old(requests)[p];
              var r := old(orders)[o];
              && o in orders
              && (moved <==> r.row.status == expected && r.row.courier == Some(c))
              && orders[o] == if moved then Moved(r, target, ByCourier(c), now) else r
    {
      var MoveWrite(c, o, expected, target) := requests[p];
      var r := orders[o];
      requests := requests - {p};
      moved := r.row.status == expected && r.row.courier == Some(c);
      if moved {
        orders := orders[o := Moved(r, target, ByCourier(c), now)];
      }
    }

    /**
     * The queue job: cancel a stop-listed order, otherwise write the totals
     * again; says whether the ledger is asked for the refund, also on a retry.
     */
    method ProcessOrder(o: OrderId, stopListed: bool) returns (refund: bool)
      modifies this
      ensures Seen() == Next(old(Seen()), WorkerRun(o, stopListed))
      ensures !stopListed ==>
        forall q :: q in orders ==> q in old(orders) && EventOf(q, orders[q].row) == EventOf(q, old(orders)[q].row)
      ensures stopListed && o in orders ==> orders[o].row.status.CANCELLED?
      ensures refund <==> o in orders && orders[o].row.status.CANCELLED? && CancelledByWorker(orders[o])
    {
      if o !in orders {
        return false;
      }
      if orders[o].row.status.CANCELLED? {
        return CancelledByWorker(orders[o]);
      }
      if stopListed {
        orders := orders[o := Moved(orders[o], CANCELLED, ByWorker, now)];
        return true;
      }
      orders := orders[o := Recomputed(orders[o])];
      return false;
    }

    /** Reads the row as it is now and publishes what the board should show. */
    method PublishOrderChanged(o: OrderId)
      modifies this
      ensures Seen() == Next(old(Seen()), Publish(o))
      ensures orders == old(orders) && old(events) <= events
    {
      if o !in orders {
        return;
      }
      events := events + [EventOf(o, orders[o].row)];
    }

    /** Self-deletion: the guard against an active delivery rides on the write. */
    method DeleteOwnAccount(p: Pid, pinOk: bool, between: seq<Action>) returns (answer: DeletionAnswer)
      requires p in requests && requests[p].Guarded? && requests[p].courier in couriers && Foreign(between, p)
      modifies this
      ensures p !in requests
      ensures var c := old(requests)[p].courier;
              match answer
              case Unauthorized => Seen() == Next(old(Seen()), Proceed(p)) && (!pinOk || !old(couriers)[c].active)
              case SelfDeleted =>
                && Seen() == Next(Exec(Next(old(Seen()), DeleteRead(p)), between), Proceed(p))
                && c in couriers && couriers[c].deleted && !couriers[c].active && !OwnsAny(Seen(), c)
              case ActiveOrdersExist =>
                && Seen() == Next(Exec(Next(old(Seen()), DeleteRead(p)), between), Proceed(p))
                && c in couriers && (OwnsAny(Seen(), c) || !couriers[c].active)
    {
      ghost var s := Seen();
      var c := requests[p].courier;
      if !couriers[c].active || !pinOk {
        requests := requests - {p};
        return Unauthorized;
      }
      requests := requests[p := DeleteWrite(c)];
      ghost var read := Seen();
      Interfere(between);
      ForeignRunKeepsRequest(read, between, p);
      RowsStay(read, between);
      ghost var writing := Seen();
      requests := requests - {p};
      if couriers[c].active && !OwnsAny(Seen(), c) {
        couriers := couriers[c := couriers[c].(active := false, deleted := true)];
        assert Seen() == Next(writing, Proceed(p));
        return SelfDeleted;
      }
      assert Seen() == Next(writing, Proceed(p));
      return ActiveOrdersExist;
    }
  }
}
