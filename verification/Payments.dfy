/**
 * Online payment attempts next to the orders they pay for.
 *
 * A request to pay reads the attempts, calls the provider, and only then
 * inserts an attempt under the key `pay_<order>_<n+1>`; a webhook reads the
 * payment, checks the event against the provider's payment object, and only
 * then settles it. All of these steps interleave with each other and with
 * everything else that happens to the orders. What the provider finally says
 * about a payment never changes.
 */
module Payments {
  import opened Wrappers
  import opened OrderStatus
  import O = Orders

  type ExtId = string
  type Pid = nat

  datatype PayStatus = PENDING | SUCCEEDED | CANCELED

  /** `number` is the running number in the idempotence key. */
  datatype Attempt = Attempt(order: O.OrderId, number: nat, ext: ExtId, status: PayStatus)

  /** What the provider knows about a payment: the key it was created under and its final status. */
  datatype Session = Session(order: O.OrderId, number: nat, final: PayStatus)

  datatype Request =
    | CallProvider(order: O.OrderId, number: nat)
    | InsertAttempt(order: O.OrderId, number: nat, ext: ExtId, status: PayStatus)
    | Settle(ext: ExtId, event: PayStatus)

  datatype State = State(attempts: seq<Attempt>, sessions: map<ExtId, Session>, requests: map<Pid, Request>,
                         shop: O.State)

  datatype Action =
    | ReadAttempts(p: Pid, order: O.OrderId)
    | ProviderReplies(p: Pid, ext: ExtId, final: PayStatus, immediate: bool)
    | ProviderFails(p: Pid)
    | Insert(p: Pid)
    | Webhook(p: Pid, ext: ExtId, event: PayStatus)
    | Apply(p: Pid)
    | Shop(a: O.Action)

  function Count(attempts: seq<Attempt>, o: O.OrderId): nat {
    if attempts == [] then 0
    else Count(attempts[..|attempts| - 1], o) + (if attempts[|attempts| - 1].order == o then 1 else 0)
  }

  /** The position of the payment with this provider id. */
  function Find(attempts: seq<Attempt>, ext: ExtId): Option<nat> {
    if attempts == [] then None
    else if attempts[|attempts| - 1].ext == ext then Some(|attempts| - 1)
    else Find(attempts[..|attempts| - 1], ext)
  }

  predicate KeyTaken(attempts: seq<Attempt>, o: O.OrderId, number: nat, ext: ExtId) {
    exists i :: 0 <= i < |attempts|
        && ((attempts[i].order == o && attempts[i].number == number) || attempts[i].ext == ext)
  }

  predicate AllCanceled(attempts: seq<Attempt>, o: O.OrderId) {
    forall i :: 0 <= i < |attempts| && attempts[i].order == o ==> attempts[i].status.CANCELED?
  }

  function Drop(s: State, p: Pid): State {
    s.(requests := s.requests - {p})
  }

  /** The payment gets the event's status. */
  function SettledAttempts(attempts: seq<Attempt>, ext: ExtId, event: PayStatus): seq<Attempt> {
    var at := Find(attempts, ext);
    if at.Some? && at.value < |attempts| then attempts[at.value := attempts[at.value].(status := event)] else attempts
  }

  /** Its order moves if it still waits for a payment. */
  function SettledShop(s: State, ext: ExtId, event: PayStatus): O.State {
    var at := Find(s.attempts, ext);
    if at.Some? && at.value < |s.attempts| then
      var o := s.attempts[at.value].order;
      O.Next(s.shop, if event.SUCCEEDED? then O.PaymentSucceeded(o) else O.PaymentCanceled(o))
    else s.shop
  }

  /** The settlement transaction. */
  function DoSettle(s: State, ext: ExtId, event: PayStatus): State {
    s.(attempts := SettledAttempts(s.attempts, ext, event), shop := SettledShop(s, ext, event))
  }

  function Next(s: State, a: Action): State {
    match a
    case ReadAttempts(p, o) =>
      if p !in s.requests && o in s.shop.orders && AllCanceled(s.attempts, o)
      then s.(requests := s.requests[p := CallProvider(o, Count(s.attempts, o) + 1)])
      else s
    case ProviderReplies(p, ext, final, immediate) =>
      if p !in s.requests || !s.requests[p].CallProvider? then s
      else
        var o, number := s.requests[p].order, s.requests[p].number;
        if ext in s.sessions && (s.sessions[ext].order != o || s.sessions[ext].number != number) then s
        else
          var session := if ext in s.sessions then s.sessions[ext] else Session(o, number, final);
          s.(sessions := s.sessions[ext := session],
             requests := s.requests[p := InsertAttempt(o, number, ext, if immediate then session.final else PENDING)])
    case ProviderFails(p) => if p in s.requests && s.requests[p].CallProvider? then Drop(s, p) else s
    case Insert(p) =>
      if p !in s.requests || !s.requests[p].InsertAttempt? then s
      else
        var InsertAttempt(o, number, ext, status) := s.requests[p];
        if KeyTaken(s.attempts, o, number, ext) then Drop(s, p)
        else
          var s' := s.(attempts := s.attempts + [Attempt(o, number, ext, status)]);
          if status.SUCCEEDED? then s'.(requests := s.requests[p := Settle(ext, SUCCEEDED)]) else Drop(s', p)
    case Webhook(p, ext, event) =>
      var at := Find(s.attempts, ext);
      if at.Some? && at.value < |s.attempts| && s.attempts[at.value].status.PENDING?
         && p !in s.requests && !event.PENDING? && ext in s.sessions && s.sessions[ext].final == event
      then s.(requests := s.requests[p := Settle(ext, event)])
      else s
    case Apply(p) =>
      if p in s.requests && s.requests[p].Settle?
      then Drop(DoSettle(s, s.requests[p].ext, s.requests[p].event), p)
      else s
    case Shop(a) => if a.PaymentSucceeded? || a.PaymentCanceled? then s else s.(shop := O.Next(s.shop, a))
  }

  function Exec(s: State, actions: seq<Action>): State
    decreases |actions|
  {
    if actions == [] then s else Exec(Next(s, actions[0]), actions[1..])
  }

  const EMPTY := State([], map[], map[], O.EMPTY)

  // ----- what holds in every state -----

  /** The attempts of an order are numbered one after another. */
  ghost predicate Numbered(attempts: seq<Attempt>) {
    forall i :: 0 <= i < |attempts| ==> attempts[i].number == Count(attempts[..i], attempts[i].order) + 1
  }

  /** Only the last attempt of an order can be anything but canceled. */
  ghost predicate OneOpen(attempts: seq<Attempt>) {
    forall i, j :: 0 <= i < j < |attempts| && attempts[i].order == attempts[j].order ==> attempts[i].status.CANCELED?
  }

  ghost predicate DistinctExts(attempts: seq<Attempt>) {
    forall i, j :: 0 <= i < j < |attempts| ==> attempts[i].ext != attempts[j].ext
  }

  /** A settled attempt agrees with the provider's final word. */
  ghost predicate Honest(attempts: seq<Attempt>, sessions: map<ExtId, Session>) {
    forall i :: 0 <= i < |attempts| ==>
      && attempts[i].ext in sessions
      && (attempts[i].status.PENDING? || attempts[i].status == sessions[attempts[i].ext].final)
  }

  /** The first n attempts of an order are canceled. */
  ghost predicate FirstCanceled(attempts: seq<Attempt>, o: O.OrderId, n: nat) {
    forall i :: 0 <= i < |attempts| && attempts[i].order == o && attempts[i].number <= n ==>
        attempts[i].status.CANCELED?
  }

  ghost predicate RequestOk(attempts: seq<Attempt>, sessions: map<ExtId, Session>, req: Request) {
    match req
    case CallProvider(o, number) =>
        number >= 1 && number - 1 <= Count(attempts, o) && FirstCanceled(attempts, o, number - 1)
    case InsertAttempt(o, number, ext, status) =>
      && number >= 1 && number - 1 <= Count(attempts, o) && FirstCanceled(attempts, o, number - 1)
      && ext in sessions && (status.PENDING? || status == sessions[ext].final)
    case Settle(ext, event) => ext in sessions && sessions[ext].final == event && !event.PENDING?
  }

  ghost predicate Witnessed(attempts: seq<Attempt>, o: O.OrderId, status: PayStatus) {
    exists k :: 0 <= k < |attempts| && attempts[k].order == o && attempts[k].status == status
  }

  /** An order that a payment confirmed has a succeeded attempt, one that a payment canceled a canceled attempt. */
  ghost predicate Backed(s: State) {
    forall o, i ::
      (o in s.shop.orders && 0 <= i < |s.shop.orders[o].history| && s.shop.orders[o].history[i].actor.ByPayment?) ==>
      Witnessed(s.attempts, o, if s.shop.orders[o].history[i].next.CONFIRMED? then SUCCEEDED else CANCELED)
  }

  ghost predicate TablesOk(attempts: seq<Attempt>, sessions: map<ExtId, Session>) {
    Numbered(attempts) && OneOpen(attempts) && DistinctExts(attempts) && Honest(attempts, sessions)
  }

  ghost predicate Inv(s: State) {
    && TablesOk(s.attempts, s.sessions)
    && (forall p :: p in s.requests ==> RequestOk(s.attempts, s.sessions, s.requests[p]))
  }

  // ----- counting -----

  lemma CountAppend(attempts: seq<Attempt>, a: Attempt, o: O.OrderId)
    ensures Count(attempts + [a], o) == Count(attempts, o) + (if a.order == o then 1 else 0)
  {
    assert (attempts + [a])[..|attempts|] == attempts;
  }

  /** Changing a status does not change who counts. */
  lemma {:induction false} CountIgnoresStatus(a: seq<Attempt>, b: seq<Attempt>, o: O.OrderId)
    requires |a| == |b| && forall i :: 0 <= i < |a| ==> a[i].order == b[i].order
    ensures Count(a, o) == Count(b, o)
  {
    if a != [] {
      CountIgnoresStatus(a[..|a| - 1], b[..|b| - 1], o);
    }
  }

  predicate NumberUsed(attempts: seq<Attempt>, o: O.OrderId, number: nat) {
    exists i :: 0 <= i < |attempts| && attempts[i].order == o && attempts[i].number == number
  }

  lemma NumberUsedAppend(attempts: seq<Attempt>, a: Attempt, o: O.OrderId, number: nat)
    ensures NumberUsed(attempts + [a], o, number) <==>
        NumberUsed(attempts, o, number) || (a.order == o && a.number == number)
  {
    var b := attempts + [a];
    if i :| 0 <= i < |attempts| && attempts[i].order == o && attempts[i].number == number {
      assert b[i] == attempts[i];
    }
    assert b[|attempts|] == a;
  }

  lemma FrontIsNumbered(attempts: seq<Attempt>, a: Attempt)
    requires Numbered(attempts + [a])
    ensures Numbered(attempts) && a.number == Count(attempts, a.order) + 1
  {
    var b := attempts + [a];
    assert b[..|attempts|] == attempts && b[|attempts|] == a;
    forall i | 0 <= i < |attempts| ensures attempts[i].number == Count(attempts[..i], attempts[i].order) + 1 {
      assert b[..i] == attempts[..i] && b[i] == attempts[i];
    }
  }

  /** The numbers 1..n are all taken, and only they. */
  lemma {:induction false} NumbersAreExactly(attempts: seq<Attempt>, o: O.OrderId, number: nat)
    requires Numbered(attempts)
    ensures NumberUsed(attempts, o, number) <==> 1 <= number <= Count(attempts, o)
    decreases |attempts|
  {
    if attempts != [] {
      var front, last := attempts[..|attempts| - 1], attempts[|attempts| - 1];
      assert attempts == front + [last];
      FrontIsNumbered(front, last);
      NumbersAreExactly(front, o, number);
      NumberUsedAppend(front, last, o, number);
      CountAppend(front, last, o);
    }
  }

  lemma {:induction false} FindFinds(attempts: seq<Attempt>, ext: ExtId)
    ensures Find(attempts, ext).Some? ==>
        Find(attempts, ext).value < |attempts| && attempts[Find(attempts, ext).value].ext == ext
    ensures Find(attempts, ext).None? ==> forall i :: 0 <= i < |attempts| ==> attempts[i].ext != ext
  {
    if attempts != [] {
      FindFinds(attempts[..|attempts| - 1], ext);
    }
  }

  // ----- every step keeps the invariant -----

  /** The next attempt in line, on top of canceled ones. */
  lemma AppendKeepsTables(attempts: seq<Attempt>, sessions: map<ExtId, Session>, a: Attempt)
    requires TablesOk(attempts, sessions)
    requires a.number == Count(attempts, a.order) + 1 && FirstCanceled(attempts, a.order, a.number - 1)
    requires a.ext in sessions && (a.status.PENDING? || a.status == sessions[a.ext].final)
    requires forall i :: 0 <= i < |attempts| ==> attempts[i].ext != a.ext
    ensures TablesOk(attempts + [a], sessions)
  {
    var b := attempts + [a];
    forall i | 0 <= i < |b| ensures b[i].number == Count(b[..i], b[i].order) + 1 {
      if i < |attempts| {
        assert b[..i] == attempts[..i];
      } else {
        assert b[..i] == attempts;
      }
    }
    forall i | 0 <= i < |attempts| && attempts[i].order == a.order ensures attempts[i].status.CANCELED? {
      NumbersAreExactly(attempts, a.order, attempts[i].number);
    }
  }

  lemma AppendKeepsRequest(attempts: seq<Attempt>, sessions: map<ExtId, Session>, a: Attempt, req: Request)
    requires RequestOk(attempts, sessions, req) && a.number == Count(attempts, a.order) + 1
    ensures RequestOk(attempts + [a], sessions, req)
  {
    if !req.Settle? {
      CountAppend(attempts, a, req.order);
    }
  }

  /** What a settlement does to the attempts: nothing but the status of the one it is about. */
  lemma SettledAttemptsKeep(attempts: seq<Attempt>, sessions: map<ExtId, Session>, ext: ExtId, event: PayStatus)
    requires TablesOk(attempts, sessions) && RequestOk(attempts, sessions, Settle(ext, event))
    ensures TablesOk(SettledAttempts(attempts, ext, event), sessions)
    ensures |SettledAttempts(attempts, ext, event)| == |attempts|
    ensures forall i :: 0 <= i < |attempts| ==>
              var x, x' := attempts[i], SettledAttempts(attempts, ext, event)[i];
              && x'.order == x.order && x'.number == x.number && x'.ext == x.ext
              && (x'.status == x.status || (x.ext == ext && x.status.PENDING? && x'.status == event))
  {
    FindFinds(attempts, ext);
    var b := SettledAttempts(attempts, ext, event);
    forall i | 0 <= i < |b| ensures b[i].number == Count(b[..i], b[i].order) + 1 {
      CountIgnoresStatus(attempts[..i], b[..i], attempts[i].order);
    }
  }

  lemma SettlementKeepsRequest(attempts: seq<Attempt>, sessions: map<ExtId, Session>, ext: ExtId, event: PayStatus,
                               req: Request)
    requires TablesOk(attempts, sessions) && RequestOk(attempts, sessions, Settle(ext, event))
    requires RequestOk(attempts, sessions, req)
    ensures RequestOk(SettledAttempts(attempts, ext, event), sessions, req)
  {
    SettledAttemptsKeep(attempts, sessions, ext, event);
    if !req.Settle? {
      CountIgnoresStatus(attempts, SettledAttempts(attempts, ext, event), req.order);
    }
  }

  lemma InsertKeepsInv(s: State, p: Pid)
    requires Inv(s)
    ensures Inv(Next(s, Insert(p)))
  {
    if p in s.requests && s.requests[p].InsertAttempt? {
      var s' := Next(s, Insert(p));
      var InsertAttempt(o, number, ext, status) := s.requests[p];
      assert RequestOk(s.attempts, s.sessions, s.requests[p]);
      if !KeyTaken(s.attempts, o, number, ext) {
        var a := Attempt(o, number, ext, status);
        NumbersAreExactly(s.attempts, o, number);
        assert number == Count(s.attempts, o) + 1;
        AppendKeepsTables(s.attempts, s.sessions, a);
        forall q | q in s'.requests ensures RequestOk(s'.attempts, s'.sessions, s'.requests[q]) {
          if q != p {
            AppendKeepsRequest(s.attempts, s.sessions, a, s.requests[q]);
          }
        }
      }
    }
  }

  lemma ApplyKeepsInv(s: State, p: Pid)
    requires Inv(s) && p in s.requests && s.requests[p].Settle?
    ensures Inv(Next(s, Apply(p)))
  {
    var s' := Next(s, Apply(p));
    var Settle(ext, event) := s.requests[p];
    SettledAttemptsKeep(s.attempts, s.sessions, ext, event);
    forall q | q in s'.requests ensures RequestOk(s'.attempts, s'.sessions, s'.requests[q]) {
      SettlementKeepsRequest(s.attempts, s.sessions, ext, event, s.requests[q]);
    }
  }

  lemma ReplyKeepsInv(s: State, a: Action)
    requires Inv(s) && a.ProviderReplies?
    ensures Inv(Next(s, a))
  {
    var s' := Next(s, a);
    forall q | q in s'.requests ensures RequestOk(s'.attempts, s'.sessions, s'.requests[q]) {
      assert RequestOk(s.attempts, s.sessions, s.requests[q]);
    }
  }

  lemma NextKeepsInv(s: State, a: Action)
    requires Inv(s)
    ensures Inv(Next(s, a))
  {
    var s' := Next(s, a);
    if a.Insert? {
      InsertKeepsInv(s, a.p);
    } else if a.Apply? {
      if a.p in s.requests && s.requests[a.p].Settle? { ApplyKeepsInv(s, a.p); }
    } else if a.ProviderReplies? {
      ReplyKeepsInv(s, a);
    } else {
      assert s'.attempts == s.attempts && s'.sessions == s.sessions;
      forall q | q in s'.requests ensures RequestOk(s'.attempts, s'.sessions, s'.requests[q]) {
        if q in s.requests { assert RequestOk(s.attempts, s.sessions, s.requests[q]); }
      }
    }
  }

  // ----- theorems over whole runs -----

  lemma {:induction false} RunsKeepInv(s: State, actions: seq<Action>)
    requires Inv(s)
    ensures Inv(Exec(s, actions))
    decreases |actions|
  {
    if actions != [] {
      NextKeepsInv(s, actions[0]);
      RunsKeepInv(Next(s, actions[0]), actions[1..]);
    }
  }

  /** The idempotence keys of an order are exactly 1..n, one attempt each, and all but the last are canceled. */
  lemma AttemptsFormALine(actions: seq<Action>, o: O.OrderId, number: nat)
    ensures var attempts := Exec(EMPTY, actions).attempts;
            && ((exists i :: 0 <= i < |attempts| && attempts[i].order == o && attempts[i].number == number)
                <==> 1 <= number <= Count(attempts, o))
            && (forall i, j :: 0 <= i < j < |attempts| && attempts[i].order == attempts[j].order ==>
                  attempts[i].number < attempts[j].number && attempts[i].status.CANCELED?)
  {
    RunsKeepInv(EMPTY, actions);
    var attempts := Exec(EMPTY, actions).attempts;
    NumbersAreExactly(attempts, o, number);
    forall i, j | 0 <= i < j < |attempts| && attempts[i].order == attempts[j].order
      ensures attempts[i].number < attempts[j].number
    {
      NumberedClimbs(attempts, i, j);
    }
  }

  lemma NumberedClimbs(attempts: seq<Attempt>, i: nat, j: nat)
    requires Numbered(attempts) && i < j < |attempts| && attempts[i].order == attempts[j].order
    ensures attempts[i].number < attempts[j].number
  {
    var upTo := attempts[..j];
    assert Numbered(upTo) by {
      assert forall k :: 0 <= k < j ==> upTo[..k] == attempts[..k];
    }
    assert upTo[i] == attempts[i];
    NumbersAreExactly(upTo, attempts[i].order, attempts[i].number);
  }

  /** A step never takes an attempt away, renumbers it, or changes a settled status. */
  lemma StepKeepsSettled(s: State, a: Action, i: nat)
    requires Inv(s) && i < |s.attempts|
    ensures i < |Next(s, a).attempts|
    ensures var x, x' := s.attempts[i], Next(s, a).attempts[i];
            x'.order == x.order && x'.number == x.number && x'.ext == x.ext
                && (!x.status.PENDING? ==> x'.status == x.status)
  {
    if a.Apply? {
      if a.p in s.requests && s.requests[a.p].Settle? {
        assert RequestOk(s.attempts, s.sessions, s.requests[a.p]);
        SettledAttemptsKeep(s.attempts, s.sessions, s.requests[a.p].ext, s.requests[a.p].event);
      }
    } else {
      assert s.attempts <= Next(s, a).attempts;
    }
  }

  /** The first effective webhook decides: whatever arrives later, in any order, the payment keeps its status. */
  lemma {:induction false} SettledStaysSettled(s: State, actions: seq<Action>, i: nat)
    requires Inv(s) && i < |s.attempts| && !s.attempts[i].status.PENDING?
    ensures i < |Exec(s, actions).attempts|
    ensures Exec(s, actions).attempts[i] == s.attempts[i]
    decreases |actions|
  {
    if actions != [] {
      StepKeepsSettled(s, actions[0], i);
      NextKeepsInv(s, actions[0]);
      SettledStaysSettled(Next(s, actions[0]), actions[1..], i);
    }
  }

  /** At most one payment of an order ever succeeds, now or later in the run. */
  lemma PaidAtMostOnce(s: State, actions: seq<Action>, i: nat, j: nat)
    requires Inv(s) && i < |s.attempts| && s.attempts[i].status.SUCCEEDED?
    requires j < |Exec(s, actions).attempts| && Exec(s, actions).attempts[j].status.SUCCEEDED?
    requires Exec(s, actions).attempts[j].order == s.attempts[i].order
    ensures i == j
  {
    SettledStaysSettled(s, actions, i);
    RunsKeepInv(s, actions);
  }

  // ----- no confirmation without a payment -----

  lemma FinishAddsNoPayment(s: O.State, p: O.Pid, o: O.OrderId, i: nat)
    requires p in s.requests && o in O.Finish(s, p).orders && i < |O.Finish(s, p).orders[o].history|
    requires O.Finish(s, p).orders[o].history[i].actor.ByPayment?
    ensures o in s.orders && i < |s.orders[o].history| && s.orders[o].history[i] == O.Finish(s, p).orders[o].history[i]
  {
    var req := s.requests[p];
    if req.Guarded? || req.ClaimCount? || req.DeleteWrite? {
      assert O.Finish(s, p).orders == s.orders;
    }
  }

  /** Only payments write payment rows. */
  lemma ShopAddsNoPayment(s: O.State, a: O.Action, o: O.OrderId, i: nat)
    requires !a.PaymentSucceeded? && !a.PaymentCanceled?
    requires o in O.Next(s, a).orders && i < |O.Next(s, a).orders[o].history|
    requires O.Next(s, a).orders[o].history[i].actor.ByPayment?
    ensures o in s.orders && i < |s.orders[o].history| && s.orders[o].history[i] == O.Next(s, a).orders[o].history[i]
  {
    if O.Next(s, a) == s {
    } else if a.Proceed? {
      FinishAddsNoPayment(s, a.p, o, i);
    } else if !a.WorkerRun? && !a.BurnCourier? && !a.CreateOrder? {
      assert O.Next(s, a).orders == s.orders;
    }
  }

  lemma WitnessStays(s: State, a: Action, o: O.OrderId, status: PayStatus)
    requires Inv(s) && Witnessed(s.attempts, o, status) && !status.PENDING?
    ensures Witnessed(Next(s, a).attempts, o, status)
  {
    var k :| 0 <= k < |s.attempts| && s.attempts[k].order == o && s.attempts[k].status == status;
    StepKeepsSettled(s, a, k);
    assert Next(s, a).attempts[k].order == o;
  }

  /** The row a settlement writes, if it writes one, is backed by the attempt it settles. */
  lemma SettlementIsBacked(s: State, ext: ExtId, event: PayStatus, o: O.OrderId, i: nat)
    requires Inv(s) && RequestOk(s.attempts, s.sessions, Settle(ext, event))
    requires o in DoSettle(s, ext, event).shop.orders && i < |DoSettle(s, ext, event).shop.orders[o].history|
    requires DoSettle(s, ext, event).shop.orders[o].history[i].actor.ByPayment?
    ensures var ch := DoSettle(s, ext, event).shop.orders[o].history[i];
            || (o in s.shop.orders && i < |s.shop.orders[o].history| && s.shop.orders[o].history[i] == ch)
            || Witnessed(DoSettle(s, ext, event).attempts, o, if ch.next.CONFIRMED? then SUCCEEDED else CANCELED)
  {
    hide O.Finish;
    FindFinds(s.attempts, ext);
    var s' := DoSettle(s, ext, event);
    if Find(s.attempts, ext).Some? {
      var k := Find(s.attempts, ext).value;
      assert s'.attempts[k].order == s.attempts[k].order && s'.attempts[k].status == event;
    }
  }

  lemma NextKeepsBacked(s: State, a: Action)
    requires Inv(s) && Backed(s)
    ensures Backed(Next(s, a))
  {
    var s' := Next(s, a);
    forall o, i | o in s'.shop.orders && 0 <= i < |s'.shop.orders[o].history|
        && s'.shop.orders[o].history[i].actor.ByPayment?
      ensures Witnessed(s'.attempts, o, if s'.shop.orders[o].history[i].next.CONFIRMED? then SUCCEEDED else CANCELED)
    {
      var ch := s'.shop.orders[o].history[i];
      if a.Shop? && s' != s {
        ShopAddsNoPayment(s.shop, a.a, o, i);
      }
      if a.Apply? && s' != s {
        assert RequestOk(s.attempts, s.sessions, s.requests[a.p]);
        SettlementIsBacked(s, s.requests[a.p].ext, s.requests[a.p].event, o, i);
      }
      if o in s.shop.orders && i < |s.shop.orders[o].history| && s.shop.orders[o].history[i] == ch {
        assert Witnessed(s.attempts, o, if ch.next.CONFIRMED? then SUCCEEDED else CANCELED);
        WitnessStays(s, a, o, if ch.next.CONFIRMED? then SUCCEEDED else CANCELED);
      }
    }
  }

  lemma {:induction false} RunsKeepBacked(s: State, actions: seq<Action>)
    requires Inv(s) && Backed(s)
    ensures Backed(Exec(s, actions))
    decreases |actions|
  {
    if actions != [] {
      NextKeepsInv(s, actions[0]);
      NextKeepsBacked(s, actions[0]);
      RunsKeepBacked(Next(s, actions[0]), actions[1..]);
    }
  }

  /** Whatever interleaves, an order that payments confirmed has a succeeded payment. */
  lemma NoConfirmationWithoutPayment(actions: seq<Action>, o: O.OrderId, i: nat)
    requires o in Exec(EMPTY, actions).shop.orders && i < |Exec(EMPTY, actions).shop.orders[o].history|
    requires Exec(EMPTY, actions).shop.orders[o].history[i].actor.ByPayment?
    requires Exec(EMPTY, actions).shop.orders[o].history[i].next.CONFIRMED?
    ensures exists k :: 0 <= k < |Exec(EMPTY, actions).attempts| &&
              Exec(EMPTY, actions).attempts[k].order == o && Exec(EMPTY, actions).attempts[k].status.SUCCEEDED?
  {
    RunsKeepBacked(EMPTY, actions);
  }
}
