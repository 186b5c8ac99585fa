/**
 * The payment service as it is written: look at the attempts, call the
 * provider, insert, settle. Other requests run between any two of these.
 */
module PaymentsService {
  import opened Wrappers
  import O = Orders
  import opened Payments

  datatype PaymentAnswer =
    | OrderNotFound
    | AlreadyPaid
    | ProviderUnavailable
    | Paying(attempt: Attempt)
    | UnexpectedConflict

  datatype WebhookAnswer = Processed | Ignored

  datatype Reply = Reply(ext: ExtId, final: PayStatus, immediate: bool)

  predicate Touches(a: Action, p: Pid) {
    match a
    case ReadAttempts(q, _) => q == p
    case ProviderReplies(q, _, _, _) => q == p
    case ProviderFails(q) => q == p
    case Insert(q) => q == p
    case Webhook(q, _, _) => q == p
    case Apply(q) => q == p
    case Shop(_) => false
  }

  predicate Foreign(actions: seq<Action>, p: Pid) {
    forall i :: 0 <= i < |actions| ==> !Touches(actions[i], p)
  }

  lemma ForeignStepKeepsRequest(s: State, a: Action, p: Pid)
    requires p in s.requests && !Touches(a, p)
    ensures p in Next(s, a).requests && Next(s, a).requests[p] == s.requests[p]
  {
  }

  lemma {:induction false} ForeignRunKeepsRequest(s: State, actions: seq<Action>, p: Pid)
    requires p in s.requests && Foreign(actions, p)
    ensures p in Exec(s, actions).requests && Exec(s, actions).requests[p] == s.requests[p]
    decreases |actions|
  {
    if actions != [] {
      ForeignStepKeepsRequest(s, actions[0], p);
      ForeignRunKeepsRequest(Next(s, actions[0]), actions[1..], p);
    }
  }

  /** The newest attempt of an order with a given status. */
  function Newest(attempts: seq<Attempt>, o: O.OrderId, status: PayStatus): (r: Option<Attempt>)
    ensures r.Some? ==>
      && r.value.order == o && r.value.status == status
      && exists i :: 0 <= i < |attempts| && attempts[i] == r.value
                     && forall j :: i < j < |attempts| && attempts[j].order == o ==> attempts[j].status != status
    ensures r.None? ==> forall i :: 0 <= i < |attempts| && attempts[i].order == o ==> attempts[i].status != status
  {
    if attempts == [] then None
    else
      var last := attempts[|attempts| - 1];
      if last.order == o && last.status == status then Some(last) else Newest(attempts[..|attempts| - 1], o, status)
  }

  /** Attempt `i` is the one with this provider id. */
  ghost predicate OnlyAt(attempts: seq<Attempt>, i: nat, o: O.OrderId, number: nat, ext: ExtId) {
    && i < |attempts| && attempts[i].order == o && attempts[i].number == number && attempts[i].ext == ext
    && forall j :: 0 <= j < |attempts| && attempts[j].ext == ext ==> j == i
  }

  lemma {:induction false} RunKeepsAttempt(s: State, actions: seq<Action>, i: nat, o: O.OrderId, number: nat,
                                           ext: ExtId)
    requires OnlyAt(s.attempts, i, o, number, ext)
    ensures OnlyAt(Exec(s, actions).attempts, i, o, number, ext)
    decreases |actions|
  {
    if actions != [] {
      StepKeepsAttempt(s, actions[0], i, o, number, ext);
      RunKeepsAttempt(Next(s, actions[0]), actions[1..], i, o, number, ext);
    }
  }

  lemma StepKeepsAttempt(s: State, a: Action, i: nat, o: O.OrderId, number: nat, ext: ExtId)
    requires OnlyAt(s.attempts, i, o, number, ext)
    ensures OnlyAt(Next(s, a).attempts, i, o, number, ext)
  {
  }

  class PaymentDesk {
    var attempts: seq<Attempt>
    var sessions: map<ExtId, Session>
    var requests: map<Pid, Request>
    var shop: O.State

    function Seen(): State
      reads this
    {
      State(attempts, sessions, requests, shop)
    }

    constructor ()
      ensures Seen() == EMPTY && Inv(Seen())
    {
      attempts, sessions, requests, shop := [], map[], map[], O.EMPTY;
    }

    method Interfere(actions: seq<Action>)
      modifies this
      ensures Seen() == Exec(old(Seen()), actions)
    {
      var i := 0;
      while i < |actions|
        invariant i <= |actions|
        invariant Exec(Seen(), actions[i..]) == Exec(old(Seen()), actions)
      {
        assert actions[i..][1..] == actions[i + 1..];
        var s := Next(Seen(), actions[i]);
        attempts, sessions, requests, shop := s.attempts, s.sessions, s.requests, s.shop;
        i := i + 1;
      }
    }

    /**
     * Reads the attempts; only when all of them are canceled does it go on to
     * the provider and register the next number.
     */
    method ReadOrder(p: Pid, o: O.OrderId) returns (answer: Option<PaymentAnswer>)
      requires p !in requests
      modifies this
      ensures Seen() == Next(old(Seen()), ReadAttempts(p, o))
      ensures answer.None? <==> o in shop.orders && AllCanceled(attempts, o)
      ensures answer.None? ==> p in requests && requests[p] == CallProvider(o, Count(attempts, o) + 1)
      ensures answer.Some? ==>
        match answer.value
        case OrderNotFound => o !in shop.orders
        case AlreadyPaid => exists i :: 0 <= i < |attempts| && attempts[i].order == o && attempts[i].status.SUCCEEDED?
        case Paying(a) => a in attempts && a.order == o && a.status.PENDING?
        case _ => false
    {
      if o !in shop.orders {
        return Some(OrderNotFound);
      }
      var paid := Newest(attempts, o, SUCCEEDED);
      if paid.Some? {
        assert !AllCanceled(attempts, o);
        return Some(AlreadyPaid);
      }
      var pending := Newest(attempts, o, PENDING);
      if pending.Some? {
        assert !AllCanceled(attempts, o);
        return Some(Paying(pending.value));
      }
      assert AllCanceled(attempts, o) by {
        forall i | 0 <= i < |attempts| && attempts[i].order == o ensures attempts[i].status.CANCELED? {
          assert attempts[i].status != SUCCEEDED && attempts[i].status != PENDING;
        }
      }
      requests := requests[p := CallProvider(o, Count(attempts, o) + 1)];
      return None;
    }

    /** Inserts the attempt, or returns the one that won the race for the key. */
    method InsertOrYield(p: Pid) returns (answer: PaymentAnswer)
      requires p in requests && requests[p].InsertAttempt?
      modifies this
      ensures Seen() == Next(old(Seen()), Insert(p))
      ensures var mine := old(requests)[p];
              var taken := KeyTaken(old(attempts), mine.order, mine.number, mine.ext);
              && (!taken ==>
                    && answer == Paying(Attempt(mine.order, mine.number, mine.ext, mine.status))
                        && answer.attempt in attempts
                    && |attempts| > 0 && OnlyAt(attempts, |attempts| - 1, mine.order, mine.number, mine.ext))
              && (p in requests ==> !taken && requests[p] == Settle(mine.ext, SUCCEEDED))
              && (!taken && mine.status.SUCCEEDED? ==> p in requests)
              && (taken ==> attempts == old(attempts) && (answer.Paying? || answer.UnexpectedConflict?))
              && (taken && answer.Paying? ==>
                  answer.attempt in attempts && answer.attempt.order == mine.order && answer.attempt.status.PENDING?)
    {
      var InsertAttempt(o, number, ext, status) := requests[p];
      if KeyTaken(attempts, o, number, ext) {
        requests := requests - {p};
        var winner := Newest(attempts, o, PENDING);
        return if winner.Some? then Paying(winner.value) else UnexpectedConflict;
      }
      var a := Attempt(o, number, ext, status);
      attempts := attempts + [a];
      assert attempts[|attempts| - 1] == a;
      if status.SUCCEEDED? {
        requests := requests[p := Settle(ext, SUCCEEDED)];
      } else {
        requests := requests - {p};
      }
      return Paying(a);
    }

    /** The settlement transaction of a payment the provider has decided. */
    method ApplySettlement(p: Pid)
      requires p in requests && requests[p].Settle?
      modifies this
      ensures Seen() == Next(old(Seen()), Apply(p)) && p !in requests
      ensures var Settle(ext, event) := old(requests)[p];
              forall i :: 0 <= i < |attempts| && i < |old(attempts)| && Find(old(attempts), ext) == Some(i) ==>
                attempts[i] == old(attempts)[i].(status := event)
    {
      var Settle(ext, event) := requests[p];
      FindFinds(attempts, ext);
      var at := Find(attempts, ext);
      requests := requests - {p};
      if at.Some? {
        var o := attempts[at.value].order;
        attempts := attempts[at.value := attempts[at.value].(status := event)];
        shop := O.Next(shop, if event.SUCCEEDED? then O.PaymentSucceeded(o) else O.PaymentCanceled(o));
      }
    }

    /** The provider's answer, kept until the insert. */
    method TakeReply(p: Pid, reply: Reply)
      requires p in requests && requests[p].CallProvider?
      requires reply.ext in sessions ==>
        sessions[reply.ext].order == requests[p].order && sessions[reply.ext].number == requests[p].number
      modifies this
      ensures Seen() == Next(old(Seen()), ProviderReplies(p, reply.ext, reply.final, reply.immediate))
      ensures p in requests && requests[p].InsertAttempt?
      ensures requests[p].order == old(requests)[p].order && requests[p].number == old(requests)[p].number
          && requests[p].ext == reply.ext
    {
      var CallProvider(o, number) := requests[p];
      if reply.ext !in sessions {
        sessions := sessions[reply.ext := Session(o, number, reply.final)];
      }
      requests := requests[p := InsertAttempt(o, number, reply.ext, if reply.immediate then sessions[reply.ext].final
          else PENDING)];
      assert Seen().sessions == Next(old(Seen()), ProviderReplies(p, reply.ext, reply.final, reply.immediate)).sessions;
    }

    /** The insert, and the settlement of a payment that came back already paid. */
    method InsertAndSettle(p: Pid, beforeSettle: seq<Action>) returns (answer: PaymentAnswer)
      requires p in requests && requests[p].InsertAttempt? && Foreign(beforeSettle, p)
      modifies this
      ensures var inserted := Next(old(Seen()), Insert(p));
              Seen() == if p in inserted.requests then Next(Exec(inserted, beforeSettle), Apply(p)) else inserted
      ensures p !in requests
      ensures var mine := old(requests)[p];
              var taken := KeyTaken(old(attempts), mine.order, mine.number, mine.ext);
              && (!taken ==> answer == Paying(Attempt(mine.order, mine.number, mine.ext, mine.status)))
              && (taken ==> answer.Paying? || answer.UnexpectedConflict?)
              && (answer.Paying? ==> answer.attempt in attempts && answer.attempt.order == mine.order)
    {
      var InsertAttempt(o, number, ext, status) := requests[p];
      answer := InsertOrYield(p);
      if p !in requests {
        return;
      }
      ghost var inserted := Seen();
      Interfere(beforeSettle);
      ForeignRunKeepsRequest(inserted, beforeSettle, p);
      RunKeepsAttempt(inserted, beforeSettle, |inserted.attempts| - 1, o, number, ext);
      FindFinds(attempts, ext);
      ApplySettlement(p);
      assert attempts[|inserted.attempts| - 1] == Attempt(o, number, ext, SUCCEEDED);
    }

    /**
     * The whole request. `reply` is what the provider answers, if it does; the
     * schedules run before the reply, before the insert, and before the
     * settlement of a payment that comes back already paid.
     */
    method CreatePayment(p: Pid, o: O.OrderId, reply: Option<Reply>,
                         beforeReply: seq<Action>, beforeInsert: seq<Action>, beforeSettle: seq<Action>)
      returns (answer: PaymentAnswer)
      requires p !in requests && Foreign(beforeReply, p) && Foreign(beforeInsert, p) && Foreign(beforeSettle, p)
      requires var called := Exec(Next(Seen(), ReadAttempts(p, o)), beforeReply);
               reply.Some? && reply.value.ext in called.sessions ==>
                 && called.sessions[reply.value.ext].order == o
                 && called.sessions[reply.value.ext].number == Count(attempts, o) + 1
      modifies this
      ensures var read := Next(old(Seen()), ReadAttempts(p, o));
              var called := Exec(read, beforeReply);
              if p !in read.requests
                  then Seen() == old(Seen()) && (answer.OrderNotFound? || answer.AlreadyPaid? || answer.Paying?)
              else if reply.None? then answer.ProviderUnavailable? && Seen() == Next(called, ProviderFails(p))
              else
                var Reply(ext, final, immediate) := reply.value;
                var inserting := Exec(Next(called, ProviderReplies(p, ext, final, immediate)), beforeInsert);
                var inserted := Next(inserting, Insert(p));
                && Seen() == (if p in inserted.requests then Next(Exec(inserted, beforeSettle), Apply(p)) else inserted)
                && (answer.Paying? || answer.UnexpectedConflict?)
                && (answer.UnexpectedConflict? ==> KeyTaken(inserting.attempts, o, Count(old(attempts), o) + 1, ext))
      ensures answer.Paying? ==> answer.attempt in attempts && answer.attempt.order == o
      ensures p !in requests
    {
      var early := ReadOrder(p, o);
      if early.Some? {
        return early.value;
      }
      ghost var read := Seen();
      Interfere(beforeReply);
      ForeignRunKeepsRequest(read, beforeReply, p);
      if reply.None? {
        requests := requests - {p};
        return ProviderUnavailable;
      }
      TakeReply(p, reply.value);
      ghost var replied := Seen();
      Interfere(beforeInsert);
      ForeignRunKeepsRequest(replied, beforeInsert, p);
      answer := InsertAndSettle(p, beforeSettle);
    }

    /** A verified event for a pending payment settles it; everything else is only acknowledged. */
    method HandleWebhook(p: Pid, ext: ExtId, event: PayStatus, between: seq<Action>) returns (answer: WebhookAnswer)
      requires p !in requests && !event.PENDING? && Foreign(between, p)
      modifies this
      ensures var at := Find(old(attempts), ext);
              var verified := ext in old(sessions) && old(sessions)[ext].final == event;
              && (at.Some? ==> at.value < |old(attempts)|)
              && (at.None? || !verified ==> answer.Ignored? && Seen() == old(Seen()))
              && (at.Some? && verified && old(attempts)[at.value].status == event ==>
                  answer.Processed? && Seen() == old(Seen()))
              && (at.Some? && verified && old(attempts)[at.value].status.PENDING? ==>
                    answer.Processed? && Seen() ==
                        Next(Exec(Next(old(Seen()), Webhook(p, ext, event)), between), Apply(p)))
              && (at.Some? && verified && old(attempts)[at.value].status != event
                  && !old(attempts)[at.value].status.PENDING? ==>
                    answer.Ignored? && Seen() == old(Seen()))
    {
      FindFinds(attempts, ext);
      var at := Find(attempts, ext);
      if at.None? || ext !in sessions || sessions[ext].final != event {
        return Ignored;
      }
      var status := attempts[at.value].status;
      if status == event {
        return Processed;
      }
      if !status.PENDING? {
        return Ignored;
      }
      requests := requests[p := Settle(ext, event)];
      ghost var settling := Seen();
      assert settling == Next(old(Seen()), Webhook(p, ext, event));
      Interfere(between);
      ForeignRunKeepsRequest(settling, between, p);
      ApplySettlement(p);
      return Processed;
    }
  }
}
