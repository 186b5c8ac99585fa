/** What the order protocol guarantees over whole runs. */
module OrderTheorems {
  import opened Wrappers
  import opened OrderStatus
  import opened Orders
  import Pricing

  lemma {:induction false} RunsKeepInv(s: State, actions: seq<Action>)
    requires Inv(s)
    ensures Inv(Exec(s, actions))
    decreases |actions|
  {
    if actions != [] {
      NextKeepsInv(s, actions[0]);
      RunsKeepInv(Next(s, actions[0]), actions[1..]);
    }
  }

  lemma EmptyIsInOrder()
    ensures Inv(EMPTY) && Owned(EMPTY) && Exclusive(EMPTY)
  {
  }

  /**
   * In every reachable state the version counts the history rows, the rows
   * chain from the initial status to the current one, and each of them is a
   * claim, an edge of the lifecycle, or a cancellation by the worker.
   */
  lemma HistoryTellsTheStatus(actions: seq<Action>, o: OrderId)
    requires o in Exec(EMPTY, actions).orders
    ensures var r := Exec(EMPTY, actions).orders[o];
            && r.row.version == 1 + |r.history|
            && Connected(r)
            && forall i :: 0 <= i < |r.history| ==>
                 && Allowed(r.history[i])
                 && (r.history[i].claim || r.history[i].actor.ByWorker?
                     || CanTransition(r.history[i].previous, r.history[i].next))
  {
    EmptyIsInOrder();
    RunsKeepInv(EMPTY, actions);
    var r := Exec(EMPTY, actions).orders[o];
    forall i | 0 <= i < |r.history|
      ensures r.history[i].claim || r.history[i].actor.ByWorker?
          || CanTransition(r.history[i].previous, r.history[i].next)
    {
      AllowedRowsAreEdges(r.history[i]);
    }
  }

  lemma RankClimbs(r: Record, i: nat)
    requires HistoryOk(r) && i < |r.history|
    ensures Rank(r.history[i].next) > 0 && (i > 0 ==> Rank(r.history[i].previous) > 0)
  {
    AllowedRowsAreEdges(r.history[i]);
    if i > 0 {
      AllowedRowsAreEdges(r.history[i - 1]);
    }
  }

  /** A payment moves an order at most once, and only as the very first change. */
  lemma PaymentMovesFirstOrNever(s: State, o: OrderId, i: nat)
    requires Inv(s) && o in s.orders && i < |s.orders[o].history| && s.orders[o].history[i].actor.ByPayment?
    ensures i == 0
  {
    RankClimbs(s.orders[o], i);
  }

  /**
   * Two events of one order with the same version are the same event, however
   * late each of them was read and whoever wrote in between.
   */
  lemma EventsAreDetermined(actions: seq<Action>, i: nat, j: nat)
    requires i < |Exec(EMPTY, actions).events| && j < |Exec(EMPTY, actions).events|
    requires Exec(EMPTY, actions).events[i].order == Exec(EMPTY, actions).events[j].order
    requires Exec(EMPTY, actions).events[i].orderVersion == Exec(EMPTY, actions).events[j].orderVersion
    ensures Exec(EMPTY, actions).events[i] == Exec(EMPTY, actions).events[j]
  {
    EmptyIsInOrder();
    RunsKeepInv(EMPTY, actions);
  }

  /**
   * The version of an order never falls and its history is never rewritten; as
   * long as the version stays, the event about the order stays the same.
   */
  lemma {:induction false} VersionsClimb(s: State, actions: seq<Action>, o: OrderId)
    requires Inv(s) && o in s.orders
    ensures o in Exec(s, actions).orders
    ensures s.orders[o].row.version <= Exec(s, actions).orders[o].row.version
    ensures s.orders[o].history <= Exec(s, actions).orders[o].history
    ensures s.orders[o].row.version == Exec(s, actions).orders[o].row.version ==>
              EventOf(o, s.orders[o].row) == EventOf(o, Exec(s, actions).orders[o].row)
    decreases |actions|
  {
    if actions != [] {
      NextKeepsInv(s, actions[0]);
      StepFollows(s, actions[0], o);
      VersionsClimb(Next(s, actions[0]), actions[1..], o);
    }
  }

  /** How one step may leave a record: as it was, as the board sees it, or one version and one history row on. */
  ghost predicate Follows(o: OrderId, r: Record, r': Record) {
    || (r'.history == r.history && r'.row.version == r.row.version && r'.row.status == r.row.status
        && EventOf(o, r'.row) == EventOf(o, r.row))
    || (|r'.history| == |r.history| + 1 && r.history <= r'.history && r'.row.version == r.row.version + 1)
  }

  lemma FinishFollows(s: State, p: Pid, o: OrderId)
    requires p in s.requests && o in s.orders
    ensures o in Finish(s, p).orders && Follows(o, s.orders[o], Finish(s, p).orders[o])
  {
    match s.requests[p] {
      case KitchenWrite(o', terminal, _, _, target, _) =>
        assert o in Finish(s, p).orders;
      case ClaimWrite(c, o') =>
      case MoveWrite(c, o', _, target) =>
      case _ =>
        assert Finish(s, p).orders == s.orders;
    }
  }

  lemma StepFollows(s: State, a: Action, o: OrderId)
    requires o in s.orders
    ensures o in Next(s, a).orders && Follows(o, s.orders[o], Next(s, a).orders[o])
  {
    hide Finish;
    if Next(s, a) == s {
    } else if a.Proceed? {
      FinishFollows(s, a.p, o);
    } else if a.PaymentSucceeded? || a.PaymentCanceled? || a.WorkerRun? || a.BurnCourier? || a.CreateOrder? {
      assert o in Next(s, a).orders;
    } else {
      assert Next(s, a).orders == s.orders;
    }
  }

  // ----- terminal statuses -----

  /** Only the worker's stop-list check moves a finished order, and only from COMPLETED to CANCELLED. */
  lemma TerminalStepIsIdle(s: State, a: Action, o: OrderId)
    requires Inv(s) && o in s.orders && Terminal(s.orders[o].row.status)
    ensures o in Next(s, a).orders
    ensures var r, r' := s.orders[o], Next(s, a).orders[o];
            || (r'.row.status == r.row.status && r'.row.version == r.row.version && r'.history == r.history)
            || (a == WorkerRun(o, true) && r.row.status.COMPLETED? && r' == Moved(r, CANCELLED, ByWorker, s.now))
  {
    hide Finish;
    if a.Proceed? {
      FinishLeavesTerminal(s, a.p, o);
    } else if a.WorkerRun? || a.PaymentSucceeded? || a.PaymentCanceled? || a.BurnCourier? || a.CreateOrder? {
      WriterLeavesTerminal(s, a, o);
    } else {
      assert Next(s, a).orders == s.orders;
    }
  }

  lemma WriterLeavesTerminal(s: State, a: Action, o: OrderId)
    requires o in s.orders && Terminal(s.orders[o].row.status)
    requires a.WorkerRun? || a.PaymentSucceeded? || a.PaymentCanceled? || a.BurnCourier? || a.CreateOrder?
    ensures o in Next(s, a).orders
    ensures var r, r' := s.orders[o], Next(s, a).orders[o];
            || (r'.row.status == r.row.status && r'.row.version == r.row.version && r'.history == r.history)
            || (a == WorkerRun(o, true) && r.row.status.COMPLETED? && r' == Moved(r, CANCELLED, ByWorker, s.now))
  {
    hide Finish;
  }

  lemma FinishLeavesTerminal(s: State, p: Pid, o: OrderId)
    requires Inv(s) && o in s.orders && Terminal(s.orders[o].row.status)
    ensures o in Next(s, Proceed(p)).orders && Next(s, Proceed(p)).orders[o] == s.orders[o]
  {
    hide OwnsAny, Moved, Claimed;
    if p in s.requests {
      assert RequestOk(s.requests[p]);
      if s.requests[p].Guarded? || s.requests[p].ClaimCount? || s.requests[p].DeleteWrite? {
        assert Finish(s, p).orders == s.orders;
      }
    }
  }

  lemma {:induction false} TerminalIsFinal(s: State, actions: seq<Action>, o: OrderId)
    requires Inv(s) && o in s.orders && Terminal(s.orders[o].row.status)
    requires s.orders[o].row.status.CANCELLED? || WorkerRun(o, true) !in actions
    ensures o in Exec(s, actions).orders
    ensures Exec(s, actions).orders[o].row.status == s.orders[o].row.status
    ensures Exec(s, actions).orders[o].row.version == s.orders[o].row.version
    ensures Exec(s, actions).orders[o].history == s.orders[o].history
    decreases |actions|
  {
    if actions != [] {
      TerminalStepIsIdle(s, actions[0], o);
      NextKeepsInv(s, actions[0]);
      TerminalIsFinal(Next(s, actions[0]), actions[1..], o);
    }
  }

  /** A completed order stays completed exactly as long as the worker never finds it stop-listed. */
  lemma {:induction false} CompletedIsFinalExactly(s: State, actions: seq<Action>, o: OrderId)
    requires Inv(s) && o in s.orders && s.orders[o].row.status.COMPLETED?
    ensures o in Exec(s, actions).orders
    ensures Exec(s, actions).orders[o].row.status == if WorkerRun(o, true) in actions then CANCELLED else COMPLETED
    decreases |actions|
  {
    if WorkerRun(o, true) !in actions {
      TerminalIsFinal(s, actions, o);
    } else {
      var a, rest := actions[0], actions[1..];
      NextKeepsInv(s, a);
      if a == WorkerRun(o, true) {
        TerminalIsFinal(Next(s, a), rest, o);
      } else {
        TerminalStepIsIdle(s, a, o);
        assert actions == [a] + rest;
        CompletedIsFinalExactly(Next(s, a), rest, o);
      }
    }
  }

  // ----- ownership -----

  /** Every burn that removes a courier removes one who owns no order. */
  predicate BurnsAreIdle(s: State, actions: seq<Action>)
    decreases |actions|
  {
    actions == [] ||
    (&& (actions[0].BurnCourier? && Next(s, actions[0]) != s ==> !OwnsAny(s, actions[0].courier))
     && BurnsAreIdle(Next(s, actions[0]), actions[1..]))
  }

  lemma {:induction false} RunsKeepOwned(s: State, actions: seq<Action>)
    requires Inv(s) && Owned(s) && BurnsAreIdle(s, actions)
    ensures Owned(Exec(s, actions))
    decreases |actions|
  {
    if actions != [] {
      NextKeepsInv(s, actions[0]);
      NextKeepsOwned(s, actions[0]);
      RunsKeepOwned(Next(s, actions[0]), actions[1..]);
    }
  }

  ghost predicate OwnedThroughout(s: State, actions: seq<Action>)
    decreases |actions|
  {
    Owned(s) && (actions != [] ==> OwnedThroughout(Next(s, actions[0]), actions[1..]))
  }

  /** Owner and claim stay together all along a run exactly when no burn hits a courier who owns an order. */
  lemma {:induction false} OwnedThroughoutExactly(s: State, actions: seq<Action>)
    requires Inv(s) && Owned(s)
    ensures OwnedThroughout(s, actions) <==> BurnsAreIdle(s, actions)
    decreases |actions|
  {
    if actions != [] {
      var a := actions[0];
      NextKeepsInv(s, a);
      if a.BurnCourier? && Next(s, a) != s {
        BurnKeepsOwnedExactly(s, a.courier);
      } else {
        NextKeepsOwned(s, a);
      }
      if Owned(Next(s, a)) {
        OwnedThroughoutExactly(Next(s, a), actions[1..]);
      }
    }
  }

  lemma {:induction false} ClaimSurvivesInPrefix(h: seq<Change>, h': seq<Change>, c: CourierId)
    requires h <= h' && Claimant(h) == Some(c)
    ensures exists i :: 0 <= i < |h'| && h'[i].claim && h'[i].actor == ByCourier(c)
  {
    var last := h[|h| - 1];
    if last.claim && last.actor.ByCourier? {
      assert h'[|h| - 1] == last;
    } else {
      ClaimSurvivesInPrefix(h[..|h| - 1], h', c);
    }
  }

  /**
   * However couriers race, as long as no burn hits a courier who owns an
   * order, an order is won at most once, the winner never changes afterwards,
   * and only the winner starts and ends its delivery.
   */
  lemma WonOnceForAll(s: State, actions: seq<Action>, o: OrderId, c: CourierId)
    requires Inv(s) && Owned(s) && o in s.orders && Claimant(s.orders[o].history) == Some(c)
    requires BurnsAreIdle(s, actions)
    ensures o in Exec(s, actions).orders
    ensures var r := Exec(s, actions).orders[o];
            && Claims(r.history) == 1
            && Claimant(r.history) == Some(c)
            && (r.row.courier.Some? ==> r.row.courier == Some(c))
            && forall i ::
                 (0 <= i < |r.history|
                  && (r.history[i].actor.ByCourier? || r.history[i].next.ON_WAY? || r.history[i].next.COMPLETED?)) ==>
                 r.history[i].actor == ByCourier(c)
  {
    RunsKeepInv(s, actions);
    RunsKeepOwned(s, actions);
    VersionsClimb(s, actions, o);
    var r := Exec(s, actions).orders[o];
    assert OwnerOk(r);
    ClaimSurvivesInPrefix(s.orders[o].history, r.history, c);
  }

  /** With one request at a time per courier, burning included, all three invariants survive every run. */
  lemma {:induction false} SoberRunsKeepExclusive(s: State, actions: seq<Action>)
    requires Inv(s) && Owned(s) && Exclusive(s) && NoOverlap(s, actions)
    ensures Inv(Exec(s, actions)) && Owned(Exec(s, actions)) && Exclusive(Exec(s, actions))
    decreases |actions|
  {
    if actions != [] {
      NextKeepsInv(s, actions[0]);
      NextKeepsExclusive(s, actions[0]);
      NextKeepsOwned(s, actions[0]);
      SoberRunsKeepExclusive(Next(s, actions[0]), actions[1..]);
    }
  }

  /** Then a courier carries at most one order, and a deleted or burned one carries none. */
  lemma OneDeliveryPerCourier(actions: seq<Action>, c: CourierId)
    requires NoOverlap(EMPTY, actions)
    ensures forall o1, o2 :: Owns(Exec(EMPTY, actions), c, o1) && Owns(Exec(EMPTY, actions), c, o2) ==> o1 == o2
    ensures var s := Exec(EMPTY, actions);
            c in s.couriers && (s.couriers[c].deleted || s.couriers[c].burned) ==> !OwnsAny(s, c)
    ensures forall o :: o in Exec(EMPTY, actions).orders ==> Claims(Exec(EMPTY, actions).orders[o].history) <= 1
  {
    EmptyIsInOrder();
    SoberRunsKeepExclusive(EMPTY, actions);
    forall o | o in Exec(EMPTY, actions).orders ensures Claims(Exec(EMPTY, actions).orders[o].history) <= 1 {
      assert OwnerOk(Exec(EMPTY, actions).orders[o]);
    }
  }

  /**
   * A claim keeps "one delivery per courier" exactly when the courier owns
   * nothing at the moment of the write; the count before it is another moment.
   */
  lemma ClaimIsSafeExactlyWhenIdle(s: State, p: Pid, c: CourierId, o: OrderId)
    requires p in s.requests && s.requests[p] == ClaimWrite(c, o)
    requires o in s.orders && s.orders[o].row.status.READY? && s.orders[o].row.courier.None?
    ensures (forall o1, o2 :: Owns(Finish(s, p), c, o1) && Owns(Finish(s, p), c, o2) ==> o1 == o2) <==> !OwnsAny(s, c)
  {
    var s' := Finish(s, p);
    assert Owns(s', c, o);
    if OwnsAny(s, c) {
      var o' :| o' in s.orders && Owns(s, c, o');
      assert Owns(s', c, o') && o' != o;
    } else {
      forall o1 | Owns(s', c, o1) ensures o1 == o {
        assert o1 != o ==> Owns(s, c, o1);
      }
    }
  }

  // ----- exactly when couriers keep one delivery each -----

  ghost predicate OneEach(s: State) {
    forall c, o1, o2 :: Owns(s, c, o1) && Owns(s, c, o2) ==> o1 == o2
  }

  /** A courier is on the row only once the order is claimed or finished. */
  ghost predicate Assigned(s: State) {
    forall o :: o in s.orders && s.orders[o].row.courier.Some? ==>
        Active(s.orders[o].row.status) || Terminal(s.orders[o].row.status)
  }

  /** The step writes a claim that is won. */
  predicate WinsClaim(s: State, a: Action) {
    && a.Proceed? && a.p in s.requests && s.requests[a.p].ClaimWrite? && s.requests[a.p].order in s.orders
    && s.orders[s.requests[a.p].order].row.status.READY? && s.orders[s.requests[a.p].order].row.courier.None?
  }

  /** Every claim of the run is won by a courier who owns nothing when it is written. */
  predicate ClaimsAreIdle(s: State, actions: seq<Action>)
    decreases |actions|
  {
    actions == [] ||
    (&& (WinsClaim(s, actions[0]) ==> !OwnsAny(s, s.requests[actions[0].p].courier))
     && ClaimsAreIdle(Next(s, actions[0]), actions[1..]))
  }

  /** A write that leaves the courier on the row, and moves a claimed order only along its delivery. */
  lemma WriteShrinks(s: State, s': State, o: OrderId)
    requires Assigned(s) && o in s.orders && o in s'.orders && s'.orders == s.orders[o := s'.orders[o]]
    requires var row, row' := s.orders[o].row, s'.orders[o].row;
             && row'.courier == row.courier
             && (row.courier.Some? ==>
                 (Active(row'.status) ==> Active(row.status)) && (Active(row'.status) || Terminal(row'.status)))
    ensures Assigned(s') && OwnershipShrinks(s, s')
  {
  }

  lemma FinishShrinks(s: State, p: Pid)
    requires Inv(s) && Assigned(s) && p in s.requests && !WinsClaim(s, Proceed(p))
    ensures Assigned(Finish(s, p)) && OwnershipShrinks(s, Finish(s, p))
  {
    var s' := Finish(s, p);
    if s'.orders != s.orders {
      assert RequestOk(s.requests[p]);
      match s.requests[p]
      case KitchenWrite(o, _, _, _, _, _) => WriteShrinks(s, s', o);
      case MoveWrite(_, o, _, _) => WriteShrinks(s, s', o);
      case _ =>
    }
  }

  lemma WriterShrinks(s: State, a: Action)
    requires Assigned(s) && (a.PaymentSucceeded? || a.PaymentCanceled? || a.WorkerRun?)
    ensures Assigned(Next(s, a)) && OwnershipShrinks(s, Next(s, a))
  {
    hide Finish, Assigned, OwnershipShrinks;
    if Next(s, a) != s {
      AssignedOrder(s, a.order);
      WriteShrinks(s, Next(s, a), a.order);
    } else {
      NothingShrinks(s);
    }
  }

  lemma AssignedOrder(s: State, o: OrderId)
    requires Assigned(s) && o in s.orders
    ensures s.orders[o].row.courier.Some? ==> Active(s.orders[o].row.status) || Terminal(s.orders[o].row.status)
  {
  }

  lemma NothingShrinks(s: State)
    ensures OwnershipShrinks(s, s)
  {
  }

  lemma OpeningShrinks(s: State, a: Action)
    requires Assigned(s) && (a.CreateOrder? || a.BurnCourier?)
    ensures Assigned(Next(s, a)) && OwnershipShrinks(s, Next(s, a))
  {
    hide Finish;
  }

  lemma StepShrinks(s: State, a: Action)
    requires Inv(s) && Assigned(s) && !WinsClaim(s, a)
    ensures Assigned(Next(s, a)) && OwnershipShrinks(s, Next(s, a))
  {
    if a.Proceed? {
      if a.p in s.requests { FinishShrinks(s, a.p); }
    } else if a.PaymentSucceeded? || a.PaymentCanceled? || a.WorkerRun? {
      WriterShrinks(s, a);
    } else if a.CreateOrder? || a.BurnCourier? {
      OpeningShrinks(s, a);
    } else {
      assert Next(s, a).orders == s.orders;
    }
  }

  lemma ClaimAddsOne(s: State, a: Action)
    requires Assigned(s) && WinsClaim(s, a)
    ensures var c, o := s.requests[a.p].courier, s.requests[a.p].order;
            && Assigned(Next(s, a)) && Owns(Next(s, a), c, o) && !Owns(s, c, o)
            && forall d, x :: (d != c || x != o) ==> (Owns(Next(s, a), d, x) <==> Owns(s, d, x))
  {
  }

  lemma StepKeepsOneEachExactly(s: State, a: Action)
    requires Inv(s) && Assigned(s) && OneEach(s)
    ensures OneEach(Next(s, a)) <==> (WinsClaim(s, a) ==> !OwnsAny(s, s.requests[a.p].courier))
  {
    if WinsClaim(s, a) {
      ClaimAddsOne(s, a);
      var c := s.requests[a.p].courier;
      if x :| x in s.orders && Owns(s, c, x) {
        assert Owns(Next(s, a), c, x) && Owns(Next(s, a), c, s.requests[a.p].order);
      }
    } else {
      StepShrinks(s, a);
    }
  }

  ghost predicate OneEachThroughout(s: State, actions: seq<Action>)
    decreases |actions|
  {
    OneEach(s) && (actions != [] ==> OneEachThroughout(Next(s, actions[0]), actions[1..]))
  }

  /**
   * One delivery per courier holds all along a run exactly when every claim is
   * written by a courier who owns nothing.
   */
  lemma {:induction false} OneEachExactly(s: State, actions: seq<Action>)
    requires Inv(s) && Assigned(s) && OneEach(s)
    ensures OneEachThroughout(s, actions) <==> ClaimsAreIdle(s, actions)
    decreases |actions|
  {
    if actions != [] {
      var a := actions[0];
      NextKeepsInv(s, a);
      StepKeepsOneEachExactly(s, a);
      if WinsClaim(s, a) { ClaimAddsOne(s, a); } else { StepShrinks(s, a); }
      if OneEach(Next(s, a)) {
        OneEachExactly(Next(s, a), actions[1..]);
      }
    }
  }

  // ----- exactly when deleted couriers carry nothing -----

  predicate IsDeleted(s: State, c: CourierId) {
    c in s.couriers && s.couriers[c].deleted
  }

  ghost predicate DeletedOwnNone(s: State) {
    forall c :: IsDeleted(s, c) ==> !OwnsAny(s, c)
  }

  /** Every claim of the run is won by a courier who is not deleted when it is written. */
  predicate ClaimantsAreLive(s: State, actions: seq<Action>)
    decreases |actions|
  {
    actions == [] ||
    (&& (WinsClaim(s, actions[0]) ==> !IsDeleted(s, s.requests[actions[0].p].courier))
     && ClaimantsAreLive(Next(s, actions[0]), actions[1..]))
  }

  lemma DeletionIsIdle(s: State, p: Pid, c: CourierId)
    requires p in s.requests && IsDeleted(Finish(s, p), c) && !IsDeleted(s, c)
    ensures !OwnsAny(s, c)
  {
  }

  /** A deletion is written only for a courier who owns nothing. */
  lemma NewlyDeletedOwnsNothing(s: State, a: Action, c: CourierId)
    requires IsDeleted(Next(s, a), c) && !IsDeleted(s, c)
    ensures !OwnsAny(s, c) && !WinsClaim(s, a)
  {
    hide Finish, OwnsAny, WinsClaim;
    assert a.Proceed? && a.p in s.requests;
    DeletionIsIdle(s, a.p, c);
    if WinsClaim(s, a) { ClaimsDeleteNobody(s, a, c); }
  }

  lemma ClaimsDeleteNobody(s: State, a: Action, c: CourierId)
    requires WinsClaim(s, a)
    ensures IsDeleted(Next(s, a), c) <==> IsDeleted(s, c)
  {
  }

  lemma StepKeepsDeletedIdleExactly(s: State, a: Action)
    requires Inv(s) && Assigned(s) && DeletedOwnNone(s)
    ensures DeletedOwnNone(Next(s, a)) <==> (WinsClaim(s, a) ==> !IsDeleted(s, s.requests[a.p].courier))
  {
    hide Next, Finish, Inv, Assigned, WinsClaim, IsDeleted;
    var s' := Next(s, a);
    if WinsClaim(s, a) {
      var c := WinnerOf(s, a);
      ClaimAddsOne(s, a);
      ClaimsDeleteNobody(s, a, c);
      forall d | IsDeleted(s', d) && d != c ensures !OwnsAny(s', d) {
        ClaimsDeleteNobody(s, a, d);
        assert !OwnsAny(s, d);
        OwnsNoMore(s, s', d);
      }
    } else {
      StepShrinks(s, a);
      forall d | IsDeleted(s', d) ensures !OwnsAny(s', d) {
        if !IsDeleted(s, d) { NewlyDeletedOwnsNothing(s, a, d); }
        OwnsNoMore(s, s', d);
      }
    }
  }

  lemma WinnerOf(s: State, a: Action) returns (c: CourierId)
    requires WinsClaim(s, a)
    ensures a.Proceed? && a.p in s.requests && s.requests[a.p].ClaimWrite? && c == s.requests[a.p].courier
  {
    c := s.requests[a.p].courier;
  }

  lemma OwnsNoMore(s: State, s': State, c: CourierId)
    requires !OwnsAny(s, c) && forall o :: Owns(s', c, o) ==> Owns(s, c, o)
    ensures !OwnsAny(s', c)
  {
  }

  ghost predicate DeletedOwnNoneThroughout(s: State, actions: seq<Action>)
    decreases |actions|
  {
    DeletedOwnNone(s) && (actions != [] ==> DeletedOwnNoneThroughout(Next(s, actions[0]), actions[1..]))
  }

  /**
   * Deleted couriers carry nothing all along a run exactly when every claim is
   * won by a courier who is not deleted then.
   */
  lemma {:induction false} DeletedOwnNoneExactly(s: State, actions: seq<Action>)
    requires Inv(s) && Assigned(s) && DeletedOwnNone(s)
    ensures DeletedOwnNoneThroughout(s, actions) <==> ClaimantsAreLive(s, actions)
    decreases |actions|
  {
    hide Next, Inv, Assigned, DeletedOwnNone, WinsClaim, IsDeleted;
    if actions != [] {
      var a := actions[0];
      NextKeepsInv(s, a);
      StepKeepsDeletedIdleExactly(s, a);
      if WinsClaim(s, a) { ClaimAddsOne(s, a); } else { StepShrinks(s, a); }
      if DeletedOwnNone(Next(s, a)) {
        DeletedOwnNoneExactly(Next(s, a), actions[1..]);
      }
    }
  }

  lemma ExecCons(s: State, a: Action, rest: seq<Action>)
    ensures Exec(s, [a] + rest) == Exec(Next(s, a), rest)
  {
    assert ([a] + rest)[1..] == rest;
  }

  ghost predicate BothFree(s: State, c: CourierId, o1: OrderId, o2: OrderId) {
    && c in s.couriers && o1 != o2 && !OwnsAny(s, c)
    && o1 in s.orders && s.orders[o1].row.status.READY? && s.orders[o1].row.courier.None?
    && o2 in s.orders && s.orders[o2].row.status.READY? && s.orders[o2].row.courier.None?
    && s.orders[o1].row.branch == s.couriers[c].branch == s.orders[o2].row.branch
  }

  /** Both requests read their order. */
  lemma TwoReads(s: State, c: CourierId, o1: OrderId, o2: OrderId, p: Pid, q: Pid)
    requires BothFree(s, c, o1, o2) && MayCall(s, c) && p != q && p !in s.requests && q !in s.requests
    ensures var s' := Next(Next(Next(Next(s, Guard(p, c)), Guard(q, c)), ClaimRead(p, o1)), ClaimRead(q, o2));
            && s'.orders == s.orders && s'.couriers == s.couriers
            && p in s'.requests && s'.requests[p] == ClaimCount(c, o1) && q in s'.requests
                && s'.requests[q] == ClaimCount(c, o2)
  {
  }

  /** Both requests count, then both write. */
  lemma TwoWrites(s: State, c: CourierId, o1: OrderId, o2: OrderId, p: Pid, q: Pid)
    requires BothFree(s, c, o1, o2) && p != q
    requires p in s.requests && s.requests[p] == ClaimCount(c, o1) && q in s.requests
        && s.requests[q] == ClaimCount(c, o2)
    ensures var s' := Next(Next(Next(Next(s, Proceed(p)), Proceed(q)), Proceed(p)), Proceed(q));
            Owns(s', c, o1) && Owns(s', c, o2)
  {
    var s1 := Next(s, Proceed(p));
    assert s1 == Hold(s, p, ClaimWrite(c, o1));
    assert !OwnsAny(s1, c) by {
      assert forall o :: Owns(s1, c, o) ==> Owns(s, c, o);
    }
    var s2 := Next(s1, Proceed(q));
    assert s2 == Hold(s1, q, ClaimWrite(c, o2)) && s2.orders == s.orders;
    var s3 := Next(s2, Proceed(p));
    assert s3.orders == s.orders[o1 := Claimed(s.orders[o1], c)] && s3.requests[q] == ClaimWrite(c, o2);
    var s4 := Next(s3, Proceed(q));
    assert s4.orders == s3.orders[o2 := Claimed(s.orders[o2], c)];
  }

  lemma ExecFour(s: State, a: Action, b: Action, c: Action, d: Action, rest: seq<Action>)
    ensures Exec(s, [a] + ([b] + ([c] + ([d] + rest)))) == Exec(Next(Next(Next(Next(s, a), b), c), d), rest)
  {
    var s1 := Next(s, a);
    var s2 := Next(s1, b);
    var s3 := Next(s2, c);
    ExecCons(s, a, [b] + ([c] + ([d] + rest)));
    ExecCons(s1, b, [c] + ([d] + rest));
    ExecCons(s2, c, [d] + rest);
    ExecCons(s3, d, rest);
  }

  lemma SecondGuardOverlaps(s: State, c: CourierId, p: Pid, q: Pid, rest: seq<Action>)
    requires MayCall(s, c) && p !in s.requests
    ensures !NoOverlap(s, [Guard(p, c)] + ([Guard(q, c)] + rest))
  {
    var actions := [Guard(p, c)] + ([Guard(q, c)] + rest);
    var s1 := Next(s, Guard(p, c));
    assert p in s1.requests && s1.requests[p] == Guarded(c);
    assert Busy(s1, c);
    assert actions[1..] == [Guard(q, c)] + rest;
    assert !NoOverlap(s1, actions[1..]);
  }

  /** Two claims of one idle courier whose counts both run before either write: both are won. */
  lemma OverlappingClaimsBothWin(s: State, c: CourierId, o1: OrderId, o2: OrderId, p: Pid, q: Pid)
    requires BothFree(s, c, o1, o2) && MayCall(s, c) && p != q && p !in s.requests && q !in s.requests
    ensures exists actions ::
              !NoOverlap(s, actions) && Owns(Exec(s, actions), c, o1) && Owns(Exec(s, actions), c, o2)
  {
    hide Next, Finish;
    var writes := [Proceed(p)] + ([Proceed(q)] + ([Proceed(p)] + ([Proceed(q)] + [])));
    var rest := [ClaimRead(p, o1)] + ([ClaimRead(q, o2)] + writes);
    var actions := [Guard(p, c)] + ([Guard(q, c)] + rest);
    ExecFour(s, Guard(p, c), Guard(q, c), ClaimRead(p, o1), ClaimRead(q, o2), writes);
    var read := Next(Next(Next(Next(s, Guard(p, c)), Guard(q, c)), ClaimRead(p, o1)), ClaimRead(q, o2));
    TwoReads(s, c, o1, o2, p, q);
    OwnsNothingStill(s, read, c);
    ExecFour(read, Proceed(p), Proceed(q), Proceed(p), Proceed(q), []);
    TwoWrites(read, c, o1, o2, p, q);
    SecondGuardOverlaps(s, c, p, q, rest);
    assert !NoOverlap(s, actions) && Owns(Exec(s, actions), c, o1) && Owns(Exec(s, actions), c, o2);
  }

  lemma OwnsNothingStill(s: State, t: State, c: CourierId)
    requires t.orders == s.orders && !OwnsAny(s, c)
    ensures !OwnsAny(t, c)
  {
    assert forall o :: Owns(t, c, o) ==> Owns(s, c, o);
  }

  // ----- an order won twice -----

  /** A free READY order that nobody has won, and two couriers of its branch who may call and own nothing. */
  ghost predicate TwoCouriers(s: State, o: OrderId, c: CourierId, d: CourierId) {
    && o in s.orders && s.orders[o].row.status.READY? && s.orders[o].row.courier.None?
        && Claims(s.orders[o].history) == 0
    && c != d && MayCall(s, c) && MayCall(s, d) && !OwnsAny(s, c) && !OwnsAny(s, d)
    && s.couriers[c].branch == s.orders[o].row.branch == s.couriers[d].branch
  }

  /** One courier counts for a claim and deletes the account before the claim is written. */
  function ClaimAcrossDeletion(p: Pid, q: Pid, o: OrderId, c: CourierId): seq<Action> {
    [Guard(p, c), Guard(q, c), ClaimRead(p, o), Proceed(p), DeleteRead(q), Proceed(q), Proceed(p)]
  }

  function PlainClaim(p: Pid, o: OrderId, c: CourierId): seq<Action> {
    [Guard(p, c), ClaimRead(p, o), Proceed(p), Proceed(p)]
  }

  lemma {:induction false} ExecConcat(s: State, before: seq<Action>, after: seq<Action>)
    ensures Exec(s, before + after) == Exec(Exec(s, before), after)
    decreases |before|
  {
    if before == [] {
      assert before + after == after;
    } else {
      assert (before + after)[1..] == before[1..] + after;
      ExecConcat(Next(s, before[0]), before[1..], after);
    }
  }

  lemma ExecFourOnly(s: State, a: Action, b: Action, c: Action, d: Action)
    ensures Exec(s, [a, b, c, d]) == Next(Next(Next(Next(s, a), b), c), d)
  {
    ExecFour(s, a, b, c, d, []);
    assert [a, b, c, d] == [a] + ([b] + ([c] + ([d] + [])));
  }

  lemma GuardStep(s: State, p: Pid, c: CourierId)
    requires p !in s.requests && MayCall(s, c)
    ensures Next(s, Guard(p, c)) == Hold(s, p, Guarded(c))
  {
  }

  ghost predicate FreeFor(s: State, c: CourierId, o: OrderId) {
    && c in s.couriers && o in s.orders && s.orders[o].row.status.READY? && s.orders[o].row.courier.None?
    && s.couriers[c].branch == s.orders[o].row.branch
  }

  lemma ReadStep(s: State, p: Pid, c: CourierId, o: OrderId)
    requires p in s.requests && s.requests[p] == Guarded(c) && FreeFor(s, c, o)
    ensures Next(s, ClaimRead(p, o)) == Hold(s, p, ClaimCount(c, o))
  {
  }

  lemma CountStep(s: State, p: Pid, c: CourierId, o: OrderId)
    requires p in s.requests && s.requests[p] == ClaimCount(c, o) && !OwnsAny(s, c)
    ensures Next(s, Proceed(p)) == Hold(s, p, ClaimWrite(c, o))
  {
  }

  lemma WriteStep(s: State, p: Pid, c: CourierId, o: OrderId)
    requires p in s.requests && s.requests[p] == ClaimWrite(c, o) && FreeFor(s, c, o)
    ensures Next(s, Proceed(p)) == Put(Drop(s, p), o, Claimed(s.orders[o], c))
  {
  }

  /** A claim without anybody in between is won. */
  lemma PlainClaimWins(s: State, p: Pid, o: OrderId, c: CourierId)
    requires p !in s.requests && FreeFor(s, c, o) && MayCall(s, c) && !OwnsAny(s, c)
    ensures Exec(s, PlainClaim(p, o, c)) == Put(s, o, Claimed(s.orders[o], c))
  {
    hide Next, Finish, Exec, OwnsAny;
    var s1, s2, s3 := Hold(s, p, Guarded(c)), Hold(s, p, ClaimCount(c, o)), Hold(s, p, ClaimWrite(c, o));
    GuardStep(s, p, c);
    ReadStep(s1, p, c, o);
    assert s1.requests[p := ClaimCount(c, o)] == s2.requests;
    OwnsNothingStill(s, s2, c);
    CountStep(s2, p, c, o);
    assert s2.requests[p := ClaimWrite(c, o)] == s3.requests;
    WriteStep(s3, p, c, o);
    assert s3.requests - {p} == s.requests;
    ExecFourOnly(s, Guard(p, c), ClaimRead(p, o), Proceed(p), Proceed(p));
  }

  /** The deletion's own check sees no order, because the claim is not written yet. */
  lemma DeletedWithAnOrder(s: State, p: Pid, q: Pid, o: OrderId, c: CourierId, d: CourierId)
    requires TwoCouriers(s, o, c, d) && p != q && p !in s.requests && q !in s.requests
    ensures var t := Exec(s, ClaimAcrossDeletion(p, q, o, c));
            && t.orders == s.orders[o := Claimed(s.orders[o], c)] && t.requests == s.requests
            && t.couriers == s.couriers[c := s.couriers[c].(active := false, deleted := true)]
  {
    hide Next, Finish;
    var count, later := [Guard(p, c), Guard(q, c), ClaimRead(p, o), Proceed(p)],
        [DeleteRead(q), Proceed(q), Proceed(p)];
    CountBeforeDeletion(s, p, q, o, c);
    ClaimAfterDeletion(s, p, q, o, c);
    ExecConcat(s, count, later);
    assert ClaimAcrossDeletion(p, q, o, c) == count + later;
  }

  lemma ClaimAfterDeletion(s: State, p: Pid, q: Pid, o: OrderId, c: CourierId)
    requires p != q && p !in s.requests && q !in s.requests && MayCall(s, c) && !OwnsAny(s, c)
    requires o in s.orders && s.orders[o].row.status.READY? && s.orders[o].row.courier.None?
    ensures var t := Exec(Hold(Hold(s, p, ClaimWrite(c, o)), q, Guarded(c)), [DeleteRead(q), Proceed(q), Proceed(p)]);
            && t.orders == s.orders[o := Claimed(s.orders[o], c)] && t.requests == s.requests
            && t.couriers == s.couriers[c := s.couriers[c].(active := false, deleted := true)]
  {
    var s4 := Hold(Hold(s, p, ClaimWrite(c, o)), q, Guarded(c));
    var s5 := Hold(Hold(s, p, ClaimWrite(c, o)), q, DeleteWrite(c));
    assert Next(s4, DeleteRead(q)) == s5 by { assert s4.requests[q := DeleteWrite(c)] == s5.requests; }
    OwnsNothingStill(s, s5, c);
    var s6 := Next(s5, Proceed(q));
    assert s6.requests == s.requests[p := ClaimWrite(c, o)] && s6.orders == s.orders;
    var s7 := Next(s6, Proceed(p));
    assert s7.requests == s.requests;
    ExecThree(s4, DeleteRead(q), Proceed(q), Proceed(p));
  }

  lemma ExecThree(s: State, a: Action, b: Action, c: Action)
    ensures Exec(s, [a, b, c]) == Next(Next(Next(s, a), b), c)
  {
    ExecCons(s, a, [b, c]);
    ExecCons(Next(s, a), b, [c]);
    ExecCons(Next(Next(s, a), b), c, []);
    assert [a, b, c] == [a] + [b, c] && [b, c] == [b] + [c] && [c] == [c] + [];
  }

  lemma CountBeforeDeletion(s: State, p: Pid, q: Pid, o: OrderId, c: CourierId)
    requires p != q && p !in s.requests && q !in s.requests
    requires FreeFor(s, c, o) && MayCall(s, c) && !OwnsAny(s, c)
    ensures Exec(s, [Guard(p, c), Guard(q, c), ClaimRead(p, o), Proceed(p)]) ==
        Hold(Hold(s, p, ClaimWrite(c, o)), q, Guarded(c))
  {
    hide Next, Finish, Exec, OwnsAny;
    var s1 := Hold(s, p, Guarded(c));
    var s2 := Hold(s1, q, Guarded(c));
    var s3, s4 := Hold(Hold(s, p, ClaimCount(c, o)), q, Guarded(c)), Hold(Hold(s, p, ClaimWrite(c, o)), q, Guarded(c));
    GuardStep(s, p, c);
    GuardStep(s1, q, c);
    ReadStep(s2, p, c, o);
    assert s2.requests[p := ClaimCount(c, o)] == s3.requests;
    OwnsNothingStill(s, s3, c);
    CountStep(s3, p, c, o);
    assert s3.requests[p := ClaimWrite(c, o)] == s4.requests;
    ExecFourOnly(s, Guard(p, c), Guard(q, c), ClaimRead(p, o), Proceed(p));
  }

  /** The sweep frees the order of a deleted courier, and another courier wins it. */
  lemma FreedOrderIsWonAgain(s: State, p: Pid, o: OrderId, r: Record, c: CourierId, d: CourierId)
    requires o in s.orders && s.orders[o] == Claimed(r, c) && r.row.status.READY? && p !in s.requests
    requires c in s.couriers && s.couriers[c].deleted && c != d && MayCall(s, d) && !OwnsAny(s, d)
        && s.couriers[d].branch == r.row.branch
    ensures Exec(s, [BurnCourier(c)] + PlainClaim(p, o, d)).orders.Keys == s.orders.Keys
    ensures Exec(s, [BurnCourier(c)] + PlainClaim(p, o, d)).orders[o].history ==
              r.history + [Change(READY, READY, ByCourier(c), true)] + [Change(READY, READY, ByCourier(d), true)]
  {
    var u := Next(s, BurnCourier(c));
    assert u.orders[o] == ClearCourier(Claimed(r, c), c);
    assert !OwnsAny(u, d) by {
      assert forall x :: Owns(u, d, x) ==> Owns(s, d, x);
    }
    PlainClaimWins(u, p, o, d);
    ExecCons(s, BurnCourier(c), PlainClaim(p, o, d));
  }

  /**
   * Why idle burns are needed: the claim overlaps the courier's own deletion,
   * the sweep frees the order, and a second courier wins it.
   */
  lemma BurnedOrderIsWonTwice(s: State, p: Pid, q: Pid, o: OrderId, c: CourierId, d: CourierId)
    requires Inv(s) && Owned(s) && TwoCouriers(s, o, c, d) && p != q && p !in s.requests && q !in s.requests
    ensures var run := ClaimAcrossDeletion(p, q, o, c) + ([BurnCourier(c)] + PlainClaim(p, o, d));
            && !BurnsAreIdle(s, run) && o in Exec(s, run).orders
            && Claims(Exec(s, run).orders[o].history) == 2 && Claimant(Exec(s, run).orders[o].history) == Some(d)
  {
    var first := ClaimAcrossDeletion(p, q, o, c);
    var run := first + ([BurnCourier(c)] + PlainClaim(p, o, d));
    var h := s.orders[o].history;
    DeletedWithAnOrder(s, p, q, o, c, d);
    var t := Exec(s, first);
    assert !OwnsAny(t, d) by {
      assert forall x :: Owns(t, d, x) ==> Owns(s, d, x);
    }
    FreedOrderIsWonAgain(t, p, o, s.orders[o], c, d);
    ExecConcat(s, first, [BurnCourier(c)] + PlainClaim(p, o, d));
    ClaimsAppend(h, Change(READY, READY, ByCourier(c), true));
    ClaimsAppend(h + [Change(READY, READY, ByCourier(c), true)], Change(READY, READY, ByCourier(d), true));
    TwiceWonIsNotOwned(s, run, o);
  }

  lemma TwiceWonIsNotOwned(s: State, run: seq<Action>, o: OrderId)
    requires Inv(s) && Owned(s) && o in Exec(s, run).orders && Claims(Exec(s, run).orders[o].history) > 1
    ensures !BurnsAreIdle(s, run)
  {
    if BurnsAreIdle(s, run) {
      RunsKeepOwned(s, run);
      assert false;
    }
  }

  // ----- such a state is reached -----

  function Preparation(p: Pid, o: OrderId, c: CourierId, d: CourierId, branch: BranchId, ticket: Ticket,
                       amounts: Pricing.Amounts): seq<Action> {
    [AddCourier(c, branch), AddCourier(d, branch), CreateOrder(o, branch, false, ticket, amounts)]
    + [KitchenRead(p, "t", branch, o, COOKING, 1), Proceed(p), KitchenRead(p, "t", branch, o, READY, 2), Proceed(p)]
  }

  function Prepared(o: OrderId, c: CourierId, d: CourierId, branch: BranchId, r: Record): State {
    State(map[o := r], map[c := Courier(branch, true, false, false), d := Courier(branch, true, false, false)], map[],
        [], 0)
  }

  function Cooked(branch: BranchId, ticket: Ticket, amounts: Pricing.Amounts): Record {
    Moved(Moved(Opened(branch, false, ticket, amounts, 0), COOKING, ByKitchen("t"), 0), READY, ByKitchen("t"), 0)
  }

  lemma PreparationRuns(p: Pid, o: OrderId, c: CourierId, d: CourierId, branch: BranchId, ticket: Ticket,
                        amounts: Pricing.Amounts)
    requires c != d
    ensures Exec(EMPTY, Preparation(p, o, c, d, branch, ticket, amounts))
         == Prepared(o, c, d, branch, Cooked(branch, ticket, amounts))
  {
    hide Next, Exec, Finish;
    var add := [AddCourier(c, branch), AddCourier(d, branch), CreateOrder(o, branch, false, ticket, amounts)];
    var cook := [KitchenRead(p, "t", branch, o, COOKING, 1), Proceed(p), KitchenRead(p, "t", branch, o, READY, 2),
        Proceed(p)];
    AddingRuns(o, c, d, branch, ticket, amounts);
    CookingRuns(p, o, c, d, branch, ticket, amounts);
    ExecConcat(EMPTY, add, cook);
  }

  lemma AddingRuns(o: OrderId, c: CourierId, d: CourierId, branch: BranchId, ticket: Ticket, amounts: Pricing.Amounts)
    requires c != d
    ensures Exec(EMPTY, [AddCourier(c, branch), AddCourier(d, branch), CreateOrder(o, branch, false, ticket, amounts)])
         == Prepared(o, c, d, branch, Opened(branch, false, ticket, amounts, 0))
  {
    hide Finish, Exec;
    ExecThree(EMPTY, AddCourier(c, branch), AddCourier(d, branch), CreateOrder(o, branch, false, ticket, amounts));
  }

  lemma CookingRuns(p: Pid, o: OrderId, c: CourierId, d: CourierId, branch: BranchId, ticket: Ticket,
                    amounts: Pricing.Amounts)
    ensures Exec(Prepared(o, c, d, branch, Opened(branch, false, ticket, amounts, 0)),
                 [KitchenRead(p, "t", branch, o, COOKING, 1), Proceed(p), KitchenRead(p, "t", branch, o, READY, 2),
                     Proceed(p)])
         == Prepared(o, c, d, branch, Cooked(branch, ticket, amounts))
  {
    hide Next, Exec, Finish;
    var start := Opened(branch, false, ticket, amounts, 0);
    var cooking := Moved(start, COOKING, ByKitchen("t"), 0);
    var s1, s2 := Prepared(o, c, d, branch, start), Prepared(o, c, d, branch, cooking);
    KitchenMoves(s1, p, "t", branch, o, COOKING);
    KitchenMoves(s2, p, "t", branch, o, READY);
    assert Put(s1, o, cooking) == s2;
    ExecFourOnly(s1, KitchenRead(p, "t", branch, o, COOKING, 1), Proceed(p), KitchenRead(p, "t", branch, o, READY, 2),
        Proceed(p));
  }

  lemma PreparedIsReady(o: OrderId, c: CourierId, d: CourierId, branch: BranchId, ticket: Ticket,
                        amounts: Pricing.Amounts)
    requires c != d
    ensures TwoCouriers(Prepared(o, c, d, branch, Cooked(branch, ticket, amounts)), o, c, d)
  {
    var r := Cooked(branch, ticket, amounts);
    var first, second := Change(NEW, COOKING, ByKitchen("t"), false), Change(COOKING, READY, ByKitchen("t"), false);
    ClaimsAppend([], first);
    ClaimsAppend([] + [first], second);
    assert r.history == [] + [first] + [second];
    var s := Prepared(o, c, d, branch, r);
    assert s.orders[o].row.courier.None? && !OwnsAny(s, c) && !OwnsAny(s, d);
  }

  /** From the empty tables: couriers, an order cooked, and then the double win. */
  lemma WonTwiceFromTheStart(p: Pid, q: Pid, o: OrderId, c: CourierId, d: CourierId, branch: BranchId, ticket: Ticket,
                             amounts: Pricing.Amounts)
    requires c != d && p != q
    ensures var run := Preparation(p, o, c, d, branch, ticket, amounts)
                       + (ClaimAcrossDeletion(p, q, o, c) + ([BurnCourier(c)] + PlainClaim(p, o, d)));
            o in Exec(EMPTY, run).orders && Claims(Exec(EMPTY, run).orders[o].history) == 2
  {
    var preparation := Preparation(p, o, c, d, branch, ticket, amounts);
    EmptyIsInOrder();
    RunsKeepInv(EMPTY, preparation);
    NoBurnsAreIdle(EMPTY, preparation);
    RunsKeepOwned(EMPTY, preparation);
    PreparationRuns(p, o, c, d, branch, ticket, amounts);
    PreparedIsReady(o, c, d, branch, ticket, amounts);
    BurnedOrderIsWonTwice(Exec(EMPTY, preparation), p, q, o, c, d);
    ExecConcat(EMPTY, preparation, ClaimAcrossDeletion(p, q, o, c) + ([BurnCourier(c)] + PlainClaim(p, o, d)));
  }

  lemma KitchenMoves(s: State, p: Pid, terminal: string, branch: BranchId, o: OrderId, target: Status)
    requires s.requests == map[] && o in s.orders && s.orders[o].row.branch == branch
        && KitchenSource(s.orders[o].row.status, target)
    ensures Next(Next(s, KitchenRead(p, terminal, branch, o, target, s.orders[o].row.version)), Proceed(p))
         == Put(s, o, Moved(s.orders[o], target, ByKitchen(terminal), s.now))
  {
    var s1 := Next(s, KitchenRead(p, terminal, branch, o, target, s.orders[o].row.version));
    assert s1.requests - {p} == s.requests;
  }

  lemma {:induction false} NoBurnsAreIdle(s: State, actions: seq<Action>)
    requires forall i :: 0 <= i < |actions| ==> !actions[i].BurnCourier?
    ensures BurnsAreIdle(s, actions)
    decreases |actions|
  {
    if actions != [] {
      NoBurnsAreIdle(Next(s, actions[0]), actions[1..]);
    }
  }
}
