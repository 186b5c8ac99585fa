/**
 * The branch fan-out of kitchen events: a Redis bus that keeps one reference-
 * counted channel subscription per branch, beside an in-process bus in which
 * every subscription stands alone. Redis delivers at once in this model.
 *
 * A call of subscribe makes a ticket, the closure that ends the subscription;
 * calling it again, or late, is allowed.
 */
module EventBus {
  type BranchId = string
  type Handler = nat
  type Payload = string

  datatype Ticket = Ticket(branch: BranchId, handler: Handler)

  datatype Op =
    | Subscribe(branch: BranchId, handler: Handler)
    | Unsubscribe(ticket: nat)
    | Publish(to: BranchId, event: Payload)

  datatype Delivery = Delivery(handler: Handler, event: Payload)

  /** Tickets in the order of subscription; the in-process bus marks them ended one by one. */
  datatype Memory = Memory(tickets: seq<Ticket>, ended: set<nat>)

  /** Handler sets are kept in insertion order, as a JavaScript Set iterates. */
  datatype Redis = Redis(tickets: seq<Ticket>, handlers: map<BranchId, seq<Handler>>, channels: set<BranchId>)

  // ----- the in-process bus -----

  function MemoryNext(m: Memory, op: Op): Memory {
    match op
    case Subscribe(branch, handler) => m.(tickets := m.tickets + [Ticket(branch, handler)])
    case Unsubscribe(ticket) => if ticket < |m.tickets| then m.(ended := m.ended + {ticket}) else m
    case Publish(_, _) => m
  }

  /** The handlers of a branch's open subscriptions, in the order of subscription. */
  function Open(tickets: seq<Ticket>, ended: set<nat>, branch: BranchId): seq<Handler> {
    if tickets == [] then []
    else
      var n := |tickets| - 1;
      Open(tickets[..n], ended, branch) + if n !in ended && tickets[n].branch == branch then [tickets[n].handler]
          else []
  }

  function Deliveries(handlers: seq<Handler>, event: Payload): (sent: seq<Delivery>)
    ensures |sent| == |handlers|
    ensures forall i :: 0 <= i < |handlers| ==> sent[i] == Delivery(handlers[i], event)
  {
    if handlers == [] then []
        else Deliveries(handlers[..|handlers| - 1], event) + [Delivery(handlers[|handlers| - 1], event)]
  }

  function MemorySends(m: Memory, op: Op): seq<Delivery> {
    if op.Publish? then Deliveries(Open(m.tickets, m.ended, op.to), op.event) else []
  }

  // ----- the Redis bus -----

  function HandlersOf(r: Redis, branch: BranchId): seq<Handler> {
    if branch in r.handlers then r.handlers[branch] else []
  }

  /** Set.add: a member keeps its place. */
  function Added(handlers: seq<Handler>, h: Handler): seq<Handler> {
    if h in handlers then handlers else handlers + [h]
  }

  /** Set.delete. */
  function Removed(handlers: seq<Handler>, h: Handler): seq<Handler> {
    if handlers == [] then []
    else Removed(handlers[..|handlers| - 1], h) + if handlers[|handlers| - 1] == h then []
        else [handlers[|handlers| - 1]]
  }

  function RedisNext(r: Redis, op: Op): Redis {
    match op
    case Subscribe(branch, handler) =>
      Redis(r.tickets + [Ticket(branch, handler)],
            r.handlers[branch := Added(HandlersOf(r, branch), handler)],
            if branch in r.handlers then r.channels else r.channels + {branch})
    case Unsubscribe(ticket) =>
      if ticket >= |r.tickets| || r.tickets[ticket].branch !in r.handlers then r
      else
        var Ticket(branch, handler) := r.tickets[ticket];
        var left := Removed(r.handlers[branch], handler);
        if left == [] then r.(handlers := r.handlers - {branch}, channels := r.channels - {branch})
        else r.(handlers := r.handlers[branch := left])
    case Publish(_, _) => r
  }

  /** A message reaches this instance only on a subscribed channel. */
  function RedisSends(r: Redis, op: Op): seq<Delivery> {
    if op.Publish? && op.to in r.channels then Deliveries(HandlersOf(r, op.to), op.event) else []
  }

  // ----- both side by side -----

  datatype Buses = Buses(memory: Memory, redis: Redis)

  const IDLE := Buses(Memory([], {}), Redis([], map[], {}))

  function Next(b: Buses, op: Op): Buses {
    Buses(MemoryNext(b.memory, op), RedisNext(b.redis, op))
  }

  function Exec(b: Buses, ops: seq<Op>): Buses {
    if ops == [] then b else Next(Exec(b, ops[..|ops| - 1]), ops[|ops| - 1])
  }

  ghost predicate Distinct(handlers: seq<Handler>) {
    forall i, j :: 0 <= i < j < |handlers| ==> handlers[i] != handlers[j]
  }

  /**
   * Holds in every run: both know the same tickets, sets have no repetitions,
   * and channels are those of nonempty sets.
   */
  ghost predicate Inv(b: Buses) {
    && b.redis.tickets == b.memory.tickets
    && (forall k :: k in b.memory.ended ==> k < |b.memory.tickets|)
    && (forall branch :: branch in b.redis.handlers ==> b.redis.handlers[branch] != [])
    && (forall branch :: Distinct(HandlersOf(b.redis, branch)))
    && b.redis.channels == b.redis.handlers.Keys
  }

  function OpenOf(m: Memory, branch: BranchId): seq<Handler> {
    Open(m.tickets, m.ended, branch)
  }

  /** Whatever is published, both buses deliver the same to the same handlers in the same order. */
  ghost predicate Agree(b: Buses) {
    forall branch, event :: RedisSends(b.redis, Publish(branch, event)) == MemorySends(b.memory, Publish(branch, event))
  }

  // ----- sets of handlers -----

  lemma {:induction false} RemovedMembers(handlers: seq<Handler>, h: Handler)
    ensures forall x :: x in Removed(handlers, h) <==> x in handlers && x != h
    ensures Distinct(handlers) ==> Distinct(Removed(handlers, h))
    decreases |handlers|
  {
    if handlers != [] {
      var before, last := handlers[..|handlers| - 1], handlers[|handlers| - 1];
      assert handlers == before + [last];
      RemovedMembers(before, h);
      if Distinct(handlers) {
        assert last !in before;
      }
    }
  }

  lemma {:induction false} RemovingAStranger(handlers: seq<Handler>, h: Handler)
    ensures |Removed(handlers, h)| <= |handlers|
    ensures h !in handlers <==> Removed(handlers, h) == handlers
    decreases |handlers|
  {
    if handlers != [] {
      var before, last := handlers[..|handlers| - 1], handlers[|handlers| - 1];
      assert handlers == before + [last];
      RemovingAStranger(before, h);
    }
  }

  lemma HandlersAfterUnsubscribe(r: Redis, ticket: nat, branch: BranchId)
    requires ticket < |r.tickets|
    ensures HandlersOf(RedisNext(r, Unsubscribe(ticket)), branch)
         == if r.tickets[ticket].branch == branch then Removed(HandlersOf(r, branch), r.tickets[ticket].handler)
             else HandlersOf(r, branch)
  {
  }

  lemma UnsubscribeKeepsSets(b: Buses, ticket: nat)
    requires Inv(b) && ticket < |b.redis.tickets|
    ensures forall branch :: Distinct(HandlersOf(RedisNext(b.redis, Unsubscribe(ticket)), branch))
  {
    forall branch ensures Distinct(HandlersOf(RedisNext(b.redis, Unsubscribe(ticket)), branch)) {
      HandlersAfterUnsubscribe(b.redis, ticket, branch);
      RemovedMembers(HandlersOf(b.redis, branch), b.redis.tickets[ticket].handler);
    }
  }

  lemma NextKeepsInv(b: Buses, op: Op)
    requires Inv(b)
    ensures Inv(Next(b, op))
  {
    match op
    case Subscribe(branch, handler) =>
      forall other ensures Distinct(HandlersOf(Next(b, op).redis, other)) {
        assert Distinct(HandlersOf(b.redis, other));
      }
    case Unsubscribe(ticket) =>
      if ticket < |b.redis.tickets| {
        UnsubscribeKeepsSets(b, ticket);
      }
    case Publish(_, _) =>
  }

  lemma {:induction false} RunsKeepInv(b: Buses, ops: seq<Op>)
    requires Inv(b)
    ensures Inv(Exec(b, ops))
    decreases |ops|
  {
    if ops != [] {
      RunsKeepInv(b, ops[..|ops| - 1]);
      NextKeepsInv(Exec(b, ops[..|ops| - 1]), ops[|ops| - 1]);
    }
  }

  lemma DeliveriesTellHandlers(a: seq<Handler>, b: seq<Handler>, event: Payload)
    requires Deliveries(a, event) == Deliveries(b, event)
    ensures a == b
  {
    forall i | 0 <= i < |a| ensures a[i] == b[i] {
      assert Deliveries(a, event)[i] == Deliveries(b, event)[i];
    }
  }

  ghost predicate SameHandlers(b: Buses) {
    forall branch :: HandlersOf(b.redis, branch) == OpenOf(b.memory, branch)
  }

  lemma SameHandlersAgree(b: Buses)
    requires Inv(b) && SameHandlers(b)
    ensures Agree(b)
    ensures forall branch :: branch in b.redis.channels <==> OpenOf(b.memory, branch) != []
  {
    forall branch, event ensures RedisSends(b.redis, Publish(branch, event)) ==
        MemorySends(b.memory, Publish(branch, event)) {
      assert HandlersOf(b.redis, branch) == OpenOf(b.memory, branch);
    }
    forall branch ensures branch in b.redis.channels <==> OpenOf(b.memory, branch) != [] {
      assert HandlersOf(b.redis, branch) == OpenOf(b.memory, branch);
    }
  }

  /** Equal deliveries mean equal handlers, and a channel is held exactly while its branch has an open subscription. */
  lemma AgreeMeansSameHandlers(b: Buses)
    requires Inv(b)
    ensures Agree(b) <==> SameHandlers(b)
    ensures Agree(b) ==> forall branch :: branch in b.redis.channels <==> OpenOf(b.memory, branch) != []
  {
    if Agree(b) {
      forall branch ensures HandlersOf(b.redis, branch) == OpenOf(b.memory, branch) {
        assert RedisSends(b.redis, Publish(branch, "")) == MemorySends(b.memory, Publish(branch, ""));
        DeliveriesTellHandlers(HandlersOf(b.redis, branch), OpenOf(b.memory, branch), "");
      }
    }
    if SameHandlers(b) {
      SameHandlersAgree(b);
    }
  }

  // ----- open subscriptions -----

  lemma OneMoreTicket(tickets: seq<Ticket>, ended: set<nat>, t: Ticket, branch: BranchId)
    requires |tickets| !in ended
    ensures Open(tickets + [t], ended, branch) == Open(tickets, ended, branch) + if t.branch == branch then [t.handler]
        else []
  {
    assert (tickets + [t])[..|tickets|] == tickets;
  }

  lemma {:induction false} OpenTicketsTellHandlers(tickets: seq<Ticket>, ended: set<nat>, branch: BranchId, h: Handler)
    ensures h in Open(tickets, ended, branch) <==>
        exists i :: 0 <= i < |tickets| && i !in ended && tickets[i] == Ticket(branch, h)
    decreases |tickets|
  {
    if tickets != [] {
      var n := |tickets| - 1;
      OpenTicketsTellHandlers(tickets[..n], ended, branch, h);
      if h in Open(tickets[..n], ended, branch) {
        var i :| 0 <= i < n && i !in ended && tickets[..n][i] == Ticket(branch, h);
        assert tickets[i] == Ticket(branch, h);
      }
      if i :| 0 <= i < |tickets| && i !in ended && tickets[i] == Ticket(branch, h) {
        assert i < n ==> tickets[..n][i] == Ticket(branch, h);
      }
    }
  }

  lemma RemovedLast(handlers: seq<Handler>, last: seq<Handler>, h: Handler)
    requires |last| <= 1
    ensures Removed(handlers + last, h) == Removed(handlers, h) + if last == [h] then [] else last
  {
    if last == [] {
      assert handlers + last == handlers;
    } else {
      assert (handlers + last)[..|handlers|] == handlers;
    }
  }

  /** What the last ticket adds to the open handlers of a branch. */
  function LastOpen(tickets: seq<Ticket>, ended: set<nat>, branch: BranchId): seq<Handler>
    requires tickets != []
  {
    var n := |tickets| - 1;
    if n !in ended && tickets[n].branch == branch then [tickets[n].handler] else []
  }

  /** A member of the front is not repeated at the end. */
  lemma DistinctFront(front: seq<Handler>, last: seq<Handler>)
    requires Distinct(front + last)
    ensures Distinct(front) && forall h :: h in front ==> h !in last
  {
    forall i, j | 0 <= i < j < |front| ensures front[i] != front[j] {
      assert (front + last)[i] == front[i] && (front + last)[j] == front[j];
    }
    forall i, j | 0 <= i < |front| && 0 <= j < |last| ensures front[i] != last[j] {
      assert (front + last)[i] == front[i] && (front + last)[|front| + j] == last[j];
    }
  }

  /** Ending the last ticket. */
  lemma EndingTheLast(tickets: seq<Ticket>, ended: set<nat>)
    requires tickets != [] && |tickets| - 1 !in ended && Distinct(Open(tickets, ended, tickets[|tickets| - 1].branch))
    ensures var last := tickets[|tickets| - 1];
            Open(tickets, ended + {|tickets| - 1}, last.branch) ==
                Removed(Open(tickets, ended, last.branch), last.handler)
  {
    var n := |tickets| - 1;
    var rest := Open(tickets[..n], ended, tickets[n].branch);
    DistinctFront(rest, [tickets[n].handler]);
    assert tickets[n].handler !in rest;
    SameEnds(tickets[..n], ended, ended + {n}, tickets[n].branch);
    RemovedLast(rest, [tickets[n].handler], tickets[n].handler);
    RemovingAStranger(rest, tickets[n].handler);
  }

  /** Ending one open subscription takes its handler out of its branch. */
  lemma {:induction false} EndingOne(tickets: seq<Ticket>, ended: set<nat>, k: nat)
    requires k < |tickets| && k !in ended && Distinct(Open(tickets, ended, tickets[k].branch))
    ensures Open(tickets, ended + {k}, tickets[k].branch) ==
        Removed(Open(tickets, ended, tickets[k].branch), tickets[k].handler)
    decreases |tickets|
  {
    var n := |tickets| - 1;
    if k < n {
      var before, branch, h := tickets[..n], tickets[k].branch, tickets[k].handler;
      var rest, last := Open(before, ended, branch), LastOpen(tickets, ended, branch);
      DistinctFront(rest, last);
      RemovedLast(rest, last, h);
      assert before[k] == tickets[k];
      OpenTicketsTellHandlers(before, ended, branch, h);
      assert h in rest;
      EndingOne(before, ended, k);
      assert LastOpen(tickets, ended + {k}, branch) == last;
    } else {
      EndingTheLast(tickets, ended);
    }
  }

  /** Other branches keep theirs. */
  lemma {:induction false} EndingElsewhere(tickets: seq<Ticket>, ended: set<nat>, k: nat, branch: BranchId)
    requires k < |tickets| && tickets[k].branch != branch
    ensures Open(tickets, ended + {k}, branch) == Open(tickets, ended, branch)
    decreases |tickets|
  {
    var n := |tickets| - 1;
    if k < n {
      EndingElsewhere(tickets[..n], ended, k, branch);
    } else {
      SameEnds(tickets[..n], ended, ended + {n}, branch);
    }
  }

  lemma {:induction false} SameEnds(tickets: seq<Ticket>, ended: set<nat>, more: set<nat>, branch: BranchId)
    requires forall i :: 0 <= i < |tickets| ==> (i in ended <==> i in more)
    ensures Open(tickets, ended, branch) == Open(tickets, more, branch)
    decreases |tickets|
  {
    if tickets != [] {
      SameEnds(tickets[..|tickets| - 1], ended, more, branch);
    }
  }

  // ----- exactly when the buses go on agreeing -----

  /**
   * Subscribing keeps the agreement exactly when the handler is not open on the
   * branch; otherwise one call too few goes out.
   */
  lemma SubscribeAgreesExactly(b: Buses, branch: BranchId, h: Handler)
    requires Inv(b) && Agree(b)
    ensures Agree(Next(b, Subscribe(branch, h))) <==> h !in HandlersOf(b.redis, branch)
    ensures h in HandlersOf(b.redis, branch) ==>
      OpenOf(Next(b, Subscribe(branch, h)).memory, branch) ==
          HandlersOf(Next(b, Subscribe(branch, h)).redis, branch) + [h]
  {
    var t := Next(b, Subscribe(branch, h));
    NextKeepsInv(b, Subscribe(branch, h));
    AgreeMeansSameHandlers(b);
    AgreeMeansSameHandlers(t);
    forall other
      ensures OpenOf(t.memory, other) == OpenOf(b.memory, other) + if other == branch then [h] else []
      ensures HandlersOf(t.redis, other) == if other == branch then Added(HandlersOf(b.redis, other), h)
          else HandlersOf(b.redis, other)
    {
      OneMoreTicket(b.memory.tickets, b.memory.ended, Ticket(branch, h), other);
    }
  }

  /** Ending an open subscription keeps the agreement. */
  lemma EndingKeepsAgree(b: Buses, k: nat)
    requires Inv(b) && Agree(b) && k < |b.memory.tickets| && k !in b.memory.ended
    ensures Agree(Next(b, Unsubscribe(k)))
  {
    var t := Next(b, Unsubscribe(k));
    NextKeepsInv(b, Unsubscribe(k));
    AgreeMeansSameHandlers(b);
    AgreeMeansSameHandlers(t);
    forall other ensures HandlersOf(t.redis, other) == OpenOf(t.memory, other) {
      assert Distinct(HandlersOf(b.redis, other)) && HandlersOf(b.redis, other) == OpenOf(b.memory, other);
      if b.memory.tickets[k].branch == other {
        EndingOne(b.memory.tickets, b.memory.ended, k);
      } else {
        EndingElsewhere(b.memory.tickets, b.memory.ended, k, other);
      }
      HandlersAfterUnsubscribe(b.redis, k, other);
    }
  }

  /** Ending an ended subscription again keeps the agreement exactly when its handler is not open on its branch. */
  lemma LateEndAgreesExactly(b: Buses, k: nat)
    requires Inv(b) && Agree(b) && k in b.memory.ended
    ensures Agree(Next(b, Unsubscribe(k))) <==>
        b.memory.tickets[k].handler !in HandlersOf(b.redis, b.memory.tickets[k].branch)
  {
    var t, ticket := Next(b, Unsubscribe(k)), b.memory.tickets[k];
    NextKeepsInv(b, Unsubscribe(k));
    AgreeMeansSameHandlers(b);
    AgreeMeansSameHandlers(t);
    assert b.memory.ended + {k} == b.memory.ended;
    RemovingAStranger(HandlersOf(b.redis, ticket.branch), ticket.handler);
    forall other
      ensures HandlersOf(t.redis, other) ==
                if ticket.branch == other then Removed(HandlersOf(b.redis, other), ticket.handler)
                    else HandlersOf(b.redis, other)
    {
      HandlersAfterUnsubscribe(b.redis, k, other);
    }
  }

  /**
   * A call that the two buses answer alike: no second subscription of an open
   * handler, no late end that hits an open one.
   */
  predicate Guarded(b: Buses, op: Op) {
    match op
    case Subscribe(branch, h) => h !in HandlersOf(b.redis, branch)
    case Unsubscribe(k) =>
      k < |b.memory.tickets| && k in b.memory.ended ==>
          b.memory.tickets[k].handler !in HandlersOf(b.redis, b.memory.tickets[k].branch)
    case Publish(_, _) => true
  }

  predicate GuardedRun(b: Buses, ops: seq<Op>) {
    ops == [] || (GuardedRun(b, ops[..|ops| - 1]) && Guarded(Exec(b, ops[..|ops| - 1]), ops[|ops| - 1]))
  }

  lemma StepAgreesExactly(b: Buses, op: Op)
    requires Inv(b) && Agree(b)
    ensures Agree(Next(b, op)) <==> Guarded(b, op)
  {
    match op
    case Subscribe(branch, h) => SubscribeAgreesExactly(b, branch, h);
    case Unsubscribe(k) =>
      if k < |b.memory.tickets| {
        if k in b.memory.ended { LateEndAgreesExactly(b, k); } else { EndingKeepsAgree(b, k); }
      } else {
        assert b.memory == Next(b, op).memory && b.redis == Next(b, op).redis;
      }
    case Publish(_, _) =>
  }

  /** The buses agree all along a run. */
  ghost predicate AgreeThroughout(b: Buses, ops: seq<Op>) {
    Agree(Exec(b, ops)) && (ops != [] ==> AgreeThroughout(b, ops[..|ops| - 1]))
  }

  /**
   * Through a run of subscribes, unsubscribes (repeated and late ones
   * included) and publishes, both buses deliver the same to the same handlers
   * in the same order exactly when every call is guarded.
   */
  lemma {:induction false} BusesAgreeExactly(ops: seq<Op>)
    ensures AgreeThroughout(IDLE, ops) <==> GuardedRun(IDLE, ops)
    decreases |ops|
  {
    if ops != [] {
      var before, op := ops[..|ops| - 1], ops[|ops| - 1];
      BusesAgreeExactly(before);
      if AgreeThroughout(IDLE, before) {
        RunsKeepInv(IDLE, before);
        StepAgreesExactly(Exec(IDLE, before), op);
      }
    }
  }

  /** After a guarded run: equal deliveries, and a channel exactly for a branch with an open subscription. */
  lemma BusesAgree(ops: seq<Op>, branch: BranchId, event: Payload)
    requires GuardedRun(IDLE, ops)
    ensures var b := Exec(IDLE, ops);
            && RedisSends(b.redis, Publish(branch, event)) == MemorySends(b.memory, Publish(branch, event))
            && (branch in b.redis.channels <==> OpenOf(b.memory, branch) != [])
  {
    BusesAgreeExactly(ops);
    RunsKeepInv(IDLE, ops);
    AgreeMeansSameHandlers(Exec(IDLE, ops));
  }

  /**
   * A handler open on a branch and subscribed again: ending the second
   * subscription ends both in Redis, and one in process.
   */
  lemma EndingOneEndsBoth(b: Buses, branch: BranchId, h: Handler)
    requires Inv(b) && Agree(b) && h in HandlersOf(b.redis, branch)
    ensures var ended := Next(Next(b, Subscribe(branch, h)), Unsubscribe(|b.memory.tickets|));
            && OpenOf(ended.memory, branch) == OpenOf(b.memory, branch)
            && HandlersOf(ended.redis, branch) == Removed(HandlersOf(b.redis, branch), h)
            && h in OpenOf(ended.memory, branch) && h !in HandlersOf(ended.redis, branch)
  {
    var n := |b.memory.tickets|;
    var twice := Next(b, Subscribe(branch, h));
    AgreeMeansSameHandlers(b);
    HandlersAfterUnsubscribe(twice.redis, n, branch);
    RemovedMembers(HandlersOf(b.redis, branch), h);
    assert twice.memory.tickets[..n] == b.memory.tickets;
    SameEnds(b.memory.tickets, b.memory.ended, b.memory.ended + {n}, branch);
  }

  // ----- a new closure for every subscription -----

  /** Every subscription of the run has a handler that no earlier ticket has. */
  predicate FreshHandlers(ops: seq<Op>) {
    forall i, j :: 0 <= i < j < |ops| && ops[i].Subscribe? && ops[j].Subscribe? ==> ops[i].handler != ops[j].handler
  }

  /** The handler of every ticket was subscribed by the run. */
  lemma {:induction false} TicketsComeFromRun(ops: seq<Op>, i: nat) returns (n: nat)
    requires i < |Exec(IDLE, ops).memory.tickets|
    ensures n < |ops| && ops[n].Subscribe? && ops[n].handler == Exec(IDLE, ops).memory.tickets[i].handler
    decreases |ops|
  {
    n := |ops| - 1;
    if i < |Exec(IDLE, ops[..n]).memory.tickets| {
      n := TicketsComeFromRun(ops[..n], i);
    }
  }

  lemma {:induction false} FreshTickets(ops: seq<Op>, i: nat, j: nat)
    requires FreshHandlers(ops) && i < j < |Exec(IDLE, ops).memory.tickets|
    ensures Exec(IDLE, ops).memory.tickets[i].handler != Exec(IDLE, ops).memory.tickets[j].handler
    decreases |ops|
  {
    var before := ops[..|ops| - 1];
    if j < |Exec(IDLE, before).memory.tickets| {
      FreshTickets(before, i, j);
    } else {
      var n := TicketsComeFromRun(before, i);
      assert ops[n] == before[n];
    }
  }

  /** A handler of the Redis bus has an open ticket. */
  lemma OpenTicket(b: Buses, branch: BranchId, h: Handler) returns (i: nat)
    requires Inv(b) && SameHandlers(b) && h in HandlersOf(b.redis, branch)
    ensures i < |b.memory.tickets| && i !in b.memory.ended && b.memory.tickets[i] == Ticket(branch, h)
  {
    assert HandlersOf(b.redis, branch) == OpenOf(b.memory, branch);
    OpenTicketsTellHandlers(b.memory.tickets, b.memory.ended, branch, h);
    i :| 0 <= i < |b.memory.tickets| && i !in b.memory.ended && b.memory.tickets[i] == Ticket(branch, h);
  }

  lemma FreshSubscribeIsGuarded(before: seq<Op>, branch: BranchId, h: Handler)
    requires FreshHandlers(before + [Op.Subscribe(branch, h)])
    requires Inv(Exec(IDLE, before)) && SameHandlers(Exec(IDLE, before))
    ensures h !in HandlersOf(Exec(IDLE, before).redis, branch)
  {
    if h in HandlersOf(Exec(IDLE, before).redis, branch) {
      var i := OpenTicket(Exec(IDLE, before), branch, h);
      var n := TicketsComeFromRun(before, i);
      NotSubscribedBefore(before, Op.Subscribe(branch, h), n);
      assert false;
    }
  }

  lemma LateEndIsGuarded(ops: seq<Op>, k: nat)
    requires FreshHandlers(ops) && Inv(Exec(IDLE, ops)) && SameHandlers(Exec(IDLE, ops))
        && k in Exec(IDLE, ops).memory.ended
    ensures var b := Exec(IDLE, ops);
            b.memory.tickets[k].handler !in HandlersOf(b.redis, b.memory.tickets[k].branch)
  {
    var b := Exec(IDLE, ops);
    var Ticket(branch, h) := b.memory.tickets[k];
    if h in HandlersOf(b.redis, branch) {
      var i := OpenTicket(b, branch, h);
      if i < k {
        FreshTickets(ops, i, k);
        assert false;
      } else {
        FreshTickets(ops, k, i);
        assert false;
      }
    }
  }

  lemma FreshCallIsGuarded(before: seq<Op>, op: Op)
    requires FreshHandlers(before + [op]) && Agree(Exec(IDLE, before))
    ensures Guarded(Exec(IDLE, before), op)
  {
    RunsKeepInv(IDLE, before);
    AgreeMeansSameHandlers(Exec(IDLE, before));
    match op
    case Subscribe(branch, h) => FreshSubscribeIsGuarded(before, branch, h);
    case Unsubscribe(k) =>
      FreshPrefix(before, op);
      if k in Exec(IDLE, before).memory.ended { LateEndIsGuarded(before, k); }
    case Publish(_, _) =>
  }

  lemma NotSubscribedBefore(before: seq<Op>, op: Op, n: nat)
    requires FreshHandlers(before + [op]) && n < |before| && before[n].Subscribe? && op.Subscribe?
    ensures before[n].handler != op.handler
  {
    assert (before + [op])[n] == before[n] && (before + [op])[|before|] == op;
  }

  lemma FreshPrefix(before: seq<Op>, op: Op)
    requires FreshHandlers(before + [op])
    ensures FreshHandlers(before)
  {
    assert forall i :: 0 <= i < |before| ==> (before + [op])[i] == before[i];
  }

  /** With a new handler for every subscription, as the caller has it, every run is guarded. */
  lemma {:induction false} FreshHandlersAreGuarded(ops: seq<Op>)
    requires FreshHandlers(ops)
    ensures GuardedRun(IDLE, ops)
    decreases |ops|
  {
    if ops != [] {
      var before, op := ops[..|ops| - 1], ops[|ops| - 1];
      assert ops == before + [op];
      FreshPrefix(before, op);
      FreshHandlersAreGuarded(before);
      BusesAgreeExactly(before);
      FreshCallIsGuarded(before, op);
    }
  }

  /** The Redis bus as an object: the map of handler sets and the channels it is subscribed to. */
  class RedisKitchenEventBus {
    var tickets: seq<Ticket>
    var handlers: map<BranchId, seq<Handler>>
    var channels: set<BranchId>

    function Seen(): Redis
      reads this
    {
      Redis(tickets, handlers, channels)
    }

    constructor ()
      ensures Seen() == IDLE.redis
    {
      tickets, handlers, channels := [], map[], {};
    }

    method Subscribe(branch: BranchId, handler: Handler) returns (ticket: nat)
      modifies this
      ensures Seen() == RedisNext(old(Seen()), Op.Subscribe(branch, handler))
      ensures ticket == |old(tickets)| && ticket < |tickets| && tickets[ticket] == Ticket(branch, handler)
      ensures branch in handlers && handler in handlers[branch]
    {
      if branch !in handlers {
        handlers := handlers[branch := []];
        channels := channels + {branch};
      }
      handlers := handlers[branch := Added(handlers[branch], handler)];
      ticket := |tickets|;
      tickets := tickets + [Ticket(branch, handler)];
    }

    /** The closure that a subscription returned. */
    method Unsubscribe(ticket: nat)
      requires ticket < |tickets|
      modifies this
      ensures Seen() == RedisNext(old(Seen()), Op.Unsubscribe(ticket))
      ensures tickets == old(tickets)
    {
      var Ticket(branch, handler) := tickets[ticket];
      if branch !in handlers {
        return;
      }
      var left := Removed(handlers[branch], handler);
      handlers := handlers[branch := left];
      if |left| == 0 {
        handlers := handlers - {branch};
        channels := channels - {branch};
        assert handlers == old(handlers) - {branch};
      }
    }

    /** A published event, as it comes back on the channel of its branch. */
    method Deliver(branch: BranchId, event: Payload) returns (sent: seq<Delivery>)
      ensures sent == RedisSends(Seen(), Publish(branch, event))
    {
      sent := [];
      if branch !in channels || branch !in handlers {
        return;
      }
      var members := handlers[branch];
      var i := 0;
      while i < |members|
        invariant i <= |members|
        invariant sent == Deliveries(members[..i], event)
      {
        assert members[..i + 1][..i] == members[..i];
        sent := sent + [Delivery(members[i], event)];
        i := i + 1;
      }
      assert members[..i] == members;
    }
  }
}
