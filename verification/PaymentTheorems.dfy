/** What further events about a settled payment do, over whole runs of payments and orders together. */
module PaymentTheorems {
  import opened Wrappers
  import opened OrderStatus
  import O = Orders
  import OT = OrderTheorems
  import opened Payments

  /** Every payment and every request is for an order that exists, and only existing payments are settled. */
  ghost predicate Known(s: State) {
    && O.Inv(s.shop)
    && (forall i :: 0 <= i < |s.attempts| ==> s.attempts[i].order in s.shop.orders)
    && (forall p :: p in s.requests ==> RequestKnown(s, s.requests[p]))
  }

  ghost predicate RequestKnown(s: State, req: Request) {
    match req
    case Settle(ext, _) => exists i :: 0 <= i < |s.attempts| && s.attempts[i].ext == ext
    case CallProvider(o, _) => o in s.shop.orders
    case InsertAttempt(o, _, _, _) => o in s.shop.orders
  }

  /** Orders stay, and payments keep their order and their provider id. */
  ghost predicate Grows(s: State, s': State) {
    && s.shop.orders.Keys <= s'.shop.orders.Keys
    && |s.attempts| <= |s'.attempts|
    && forall i :: 0 <= i < |s.attempts| ==>
        s'.attempts[i].order == s.attempts[i].order && s'.attempts[i].ext == s.attempts[i].ext
  }

  lemma OrdersStay(shop: O.State, a: O.Action)
    ensures shop.orders.Keys <= O.Next(shop, a).orders.Keys
  {
  }

  /** What a step does to the orders is one step of theirs, or nothing. */
  lemma ShopMoves(s: State, a: Action)
    ensures Next(s, a).shop == s.shop || exists b :: Next(s, a).shop == O.Next(s.shop, b)
  {
    hide O.Next;
  }

  lemma StepGrows(s: State, a: Action)
    ensures Grows(s, Next(s, a))
  {
    ShopMoves(s, a);
    if b :| Next(s, a).shop == O.Next(s.shop, b) {
      OrdersStay(s.shop, b);
    }
    StepKeepsExts(s, a);
  }

  lemma StepKeepsExts(s: State, a: Action)
    ensures |s.attempts| <= |Next(s, a).attempts|
    ensures forall i :: 0 <= i < |s.attempts| ==>
              Next(s, a).attempts[i].order == s.attempts[i].order && Next(s, a).attempts[i].ext == s.attempts[i].ext
  {
    hide O.Next;
  }

  lemma GrowingKeepsKnown(s: State, s': State, req: Request)
    requires RequestKnown(s, req) && Grows(s, s')
    ensures RequestKnown(s', req)
  {
    if req.Settle? {
      var i :| 0 <= i < |s.attempts| && s.attempts[i].ext == req.ext;
      assert s'.attempts[i].ext == req.ext;
    }
  }

  /** A request that a step begins or moves on. */
  lemma NewRequestKnown(s: State, a: Action, p: Pid)
    requires Known(s) && Grows(s, Next(s, a)) && p in Next(s, a).requests
    ensures RequestKnown(Next(s, a), Next(s, a).requests[p])
  {
    hide O.Next, O.Inv;
    var s' := Next(s, a);
    if p in s.requests && s'.requests[p] == s.requests[p] {
      GrowingKeepsKnown(s, s', s.requests[p]);
    } else if a.Insert? {
      assert RequestKnown(s, s.requests[p]);
      assert s'.attempts[|s.attempts|].ext == s'.requests[p].ext;
    } else if a.Webhook? {
      FindFinds(s.attempts, a.ext);
    } else if a.ProviderReplies? {
      assert RequestKnown(s, s.requests[p]);
    }
  }

  lemma NewAttemptKnown(s: State, a: Action)
    requires Known(s) && Grows(s, Next(s, a))
    ensures forall i :: 0 <= i < |Next(s, a).attempts| ==> Next(s, a).attempts[i].order in Next(s, a).shop.orders
  {
    hide O.Next, O.Inv;
    if a.Insert? && a.p in s.requests {
      assert RequestKnown(s, s.requests[a.p]);
    }
  }

  lemma NextKeepsKnown(s: State, a: Action)
    requires Known(s)
    ensures Known(Next(s, a))
  {
    hide O.Next, O.Inv, Next;
    StepGrows(s, a);
    ShopMoves(s, a);
    if b :| Next(s, a).shop == O.Next(s.shop, b) {
      O.NextKeepsInv(s.shop, b);
    }
    NewAttemptKnown(s, a);
    forall p | p in Next(s, a).requests ensures RequestKnown(Next(s, a), Next(s, a).requests[p]) {
      NewRequestKnown(s, a, p);
    }
  }

  lemma {:induction false} RunsKeepKnown(s: State, actions: seq<Action>)
    requires Known(s)
    ensures Known(Exec(s, actions))
    decreases |actions|
  {
    hide Known, Next;
    if actions != [] {
      NextKeepsKnown(s, actions[0]);
      RunsKeepKnown(Next(s, actions[0]), actions[1..]);
    }
  }

  /** An event of this kind can no longer move the order. */
  predicate Deaf(shop: O.State, o: O.OrderId, event: PayStatus) {
    && o in shop.orders && !shop.orders[o].row.status.PENDING_PAYMENT?
    && (event.SUCCEEDED? ==> !shop.orders[o].row.status.NEW?)
  }

  function NoticeOf(o: O.OrderId, event: PayStatus): O.Action {
    if event.SUCCEEDED? then O.PaymentSucceeded(o) else O.PaymentCanceled(o)
  }

  lemma NoticeDeafens(shop: O.State, o: O.OrderId, event: PayStatus)
    requires o in shop.orders
    ensures Deaf(O.Next(shop, NoticeOf(o, event)), o, event)
    ensures Deaf(shop, o, event) ==> O.Next(shop, NoticeOf(o, event)) == shop
  {
  }

  /** No order goes back to where a payment could move it. */
  lemma StepKeepsDeaf(shop: O.State, a: O.Action, o: O.OrderId, event: PayStatus)
    requires O.Inv(shop) && Deaf(shop, o, event)
    ensures Deaf(O.Next(shop, a), o, event)
  {
    hide O.Next;
    O.NextKeepsInv(shop, a);
    OT.StepFollows(shop, a, o);
    var r' := O.Next(shop, a).orders[o];
    if r'.row.status != shop.orders[o].row.status {
      O.AllowedRowsAreEdges(r'.history[|r'.history| - 1]);
    }
  }

  lemma {:induction false} RunKeepsDeaf(s: State, actions: seq<Action>, o: O.OrderId, event: PayStatus)
    requires Known(s) && Deaf(s.shop, o, event)
    ensures Deaf(Exec(s, actions).shop, o, event)
    decreases |actions|
  {
    hide Next, Deaf, O.Next;
    if actions != [] {
      var s1 := Next(s, actions[0]);
      ShopMoves(s, actions[0]);
      if b :| s1.shop == O.Next(s.shop, b) {
        StepKeepsDeaf(s.shop, b, o, event);
      }
      NextKeepsKnown(s, actions[0]);
      RunKeepsDeaf(s1, actions[1..], o, event);
    }
  }

  /** The first settlement: the payment has the event's status, and its order is deaf to another. */
  lemma FirstSettlement(s: State, p: Pid, i: nat)
    requires Inv(s) && Known(s) && p in s.requests && s.requests[p].Settle?
        && Find(s.attempts, s.requests[p].ext) == Some(i)
    ensures i < |s.attempts| && s.attempts[i].ext == s.requests[p].ext
    ensures var Settle(ext, event) := s.requests[p];
            var t := Next(s, Apply(p));
            && i < |t.attempts| && t.attempts[i] == s.attempts[i].(status := event)
            && Deaf(t.shop, s.attempts[i].order, event)
  {
    hide O.Next, Deaf, O.Inv;
    FindFinds(s.attempts, s.requests[p].ext);
    NoticeDeafens(s.shop, s.attempts[i].order, s.requests[p].event);
  }

  /** A settlement of a payment that has the status already, with its order deaf to it. */
  lemma RepeatIsIdle(s: State, q: Pid, i: nat)
    requires Inv(s) && q in s.requests && s.requests[q].Settle? && i < |s.attempts|
        && s.attempts[i].ext == s.requests[q].ext
    requires s.attempts[i].status == s.requests[q].event && Deaf(s.shop, s.attempts[i].order, s.requests[q].event)
    ensures Next(s, Apply(q)) == Drop(s, q)
  {
    hide O.Next;
    FindFinds(s.attempts, s.requests[q].ext);
    NoticeDeafens(s.shop, s.attempts[i].order, s.requests[q].event);
    assert s.attempts[i := s.attempts[i].(status := s.requests[q].event)] == s.attempts;
  }

  lemma EmptyIsKnown()
    ensures Inv(EMPTY) && Known(EMPTY)
  {
  }

  /**
   * In every run: once a verified event for a payment has been applied, any
   * further one, applied after whatever kitchen, worker and other payments have
   * done in between, changes neither payments nor orders.
   */
  lemma SecondSettlementIsIdle(before: seq<Action>, p: Pid, between: seq<Action>, q: Pid)
    requires p in Exec(EMPTY, before).requests && Exec(EMPTY, before).requests[p].Settle?
    requires var later := Exec(Next(Exec(EMPTY, before), Apply(p)), between);
             q in later.requests && later.requests[q].Settle?
                 && later.requests[q].ext == Exec(EMPTY, before).requests[p].ext
    ensures var later := Exec(Next(Exec(EMPTY, before), Apply(p)), between);
            Next(later, Apply(q)) == Drop(later, q)
  {
    hide Next, O.Next, Deaf;
    var s := Exec(EMPTY, before);
    EmptyIsKnown();
    RunsKeepInv(EMPTY, before);
    RunsKeepKnown(EMPTY, before);
    assert RequestKnown(s, s.requests[p]) && RequestOk(s.attempts, s.sessions, s.requests[p]);
    FindFinds(s.attempts, s.requests[p].ext);
    var i := Find(s.attempts, s.requests[p].ext).value;
    FirstSettlement(s, p, i);
    NextKeepsInv(s, Apply(p));
    NextKeepsKnown(s, Apply(p));
    LaterIsIdle(Next(s, Apply(p)), between, q, i, s.requests[p].event);
  }

  lemma LaterIsIdle(s: State, between: seq<Action>, q: Pid, i: nat, event: PayStatus)
    requires Inv(s) && Known(s) && i < |s.attempts| && s.attempts[i].status == event && !event.PENDING?
    requires Deaf(s.shop, s.attempts[i].order, event)
    requires q in Exec(s, between).requests && Exec(s, between).requests[q].Settle?
        && Exec(s, between).requests[q].ext == s.attempts[i].ext
    ensures Next(Exec(s, between), Apply(q)) == Drop(Exec(s, between), q)
  {
    hide Next, O.Next, Deaf, Known;
    var t := Exec(s, between);
    RunsKeepInv(s, between);
    SettledStaysSettled(s, between, i);
    RunKeepsDeaf(s, between, s.attempts[i].order, event);
    assert RequestOk(t.attempts, t.sessions, t.requests[q]);
    RepeatIsIdle(t, q, i);
  }
}
