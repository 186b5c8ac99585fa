/**
 * The customer service over its tables, statement by statement, with other
 * requests running in between. A running request's local variables and its
 * uncommitted burn are its entry in `requests`.
 */
module CustomersService {
  import opened Wrappers
  import opened OrderStatus
  import Ledger
  import opened Customers
  import CustomerTheorems
  import Pricing

  /** `DeletionWaits` means that another deletion holds the account; the transaction is still open. */
  datatype DeletionAnswer =
    | TokenInvalid
    | TokenMismatch
    | CustomerNotFound
    | AlreadyDeleted
    | ActiveOrdersExist
    | DeletionWaits
    | DeletedWith(burned: int)

  datatype RestoreAnswer = NotDeleted | WindowExpired | RestoreConflict | Restored(customer: Customer)

  datatype SignInAnswer = SignedIn(id: Ledger.CustomerId) | RestoreOffered(id: Ledger.CustomerId)

  datatype EntryAnswer = Skipped | EntryWaits | Booked

  /** The action belongs to request p. */
  predicate Touches(a: Action, p: Ledger.Pid) {
    match a
    case EarnCheck(q, _, _) => q == p
    case RefundCheck(q, _) => q == p
    case Enter(q) => q == p
    case DeleteLook(q, _, _) => q == p
    case DeleteCount(q) => q == p
    case Burn(q) => q == p
    case UpdateRow(q) => q == p
    case Abort(q) => q == p
    case SignInLook(q, _) => q == p
    case FrozenLook(q) => q == p
    case Upsert(q, _) => q == p
    case RestoreRead(q, _) => q == p
    case RestoreWrite(q) => q == p
    case _ => false
  }

  predicate Foreign(actions: seq<Action>, p: Ledger.Pid) {
    forall i :: 0 <= i < |actions| ==> !Touches(actions[i], p)
  }

  lemma ForeignStepKeepsRequest(w: World, a: Action, p: Ledger.Pid)
    requires p in w.requests && !Touches(a, p)
    ensures p in Next(w, a).requests && Next(w, a).requests[p] == w.requests[p]
  {
    hide DoCheckOut, DoReleasePhones, DoSetStatus, DoProvision, HasBlockingOrder, PhoneTaken, PhoneFrozen,
      Locked, Ledger.Post, RowWithKey, Pricing.CashbackPoints, FreshDeletion, Restorable;
  }

  lemma {:induction false} ForeignRunKeepsRequest(w: World, actions: seq<Action>, p: Ledger.Pid)
    requires p in w.requests && Foreign(actions, p)
    ensures p in Exec(w, actions).requests && Exec(w, actions).requests[p] == w.requests[p]
    decreases |actions|
  {
    hide Next, Touches;
    if actions != [] {
      ForeignStepKeepsRequest(w, actions[0], p);
      ForeignRunKeepsRequest(Next(w, actions[0]), actions[1..], p);
    }
  }

  /** Until its write a restore finds its own row and its own number. */
  lemma RowStays(w: World, p: Ledger.Pid, between: seq<Action>)
    requires Inv(w) && p in w.requests && w.requests[p].Restoring? && Foreign(between, p)
    ensures var writing := Exec(w, between);
            && p in writing.requests && writing.requests[p] == w.requests[p]
            && w.requests[p].phone.Some? && w.requests[p].subject in writing.customers
  {
    RunsKeepInv(w, between);
    ForeignRunKeepsRequest(w, between, p);
    assert RequestFits(Exec(w, between), Exec(w, between).requests[p]);
  }

  /** After a release, only phones within the window are still parked. */
  lemma ReleasedAreRecent(w: World)
    requires RowsAnonymized(w)
    ensures var w' := DoReleasePhones(w);
            forall c :: c in w'.customers && w'.customers[c].pendingRelease.Some? ==>
              w'.customers[c].deletedAt.Some? && w'.customers[c].deletedAt.value >= FreezeCutoff(w.now)
  {
  }

  /** An accrual ends with the row of its key in the ledger, whoever wrote it. */
  lemma AccrualIsBooked(db: Ledger.Db, req: Ledger.Request)
    requires Ledger.Consistent(db) && req.createIfMissing && req.amount.Fixed? && req.amount.points > 0
    ensures Ledger.HasKey(Ledger.Post(db, req).0.rows, req.key)
  {
    BalanceIsTotal(db, req.customer);
    if !Ledger.HasKey(db.rows, req.key) {
      HasKeyAppend(db.rows, Ledger.RowOf(req, Balance(db, req.customer)), req.key);
    }
  }

  lemma EntryIsBooked(w: World, p: Ledger.Pid)
    requires Inv(w) && p in w.requests && w.requests[p].Entering? && !Locked(w, w.requests[p].req.customer)
    ensures Ledger.HasKey(Next(w, Enter(p)).ledger.rows, w.requests[p].req.key)
  {
    EntriesAccrue(w, p);
    AccrualIsBooked(w.ledger, w.requests[p].req);
  }

  lemma EntriesAccrue(w: World, p: Ledger.Pid)
    requires Inv(w) && p in w.requests && w.requests[p].Entering?
    ensures w.requests[p].req.createIfMissing && w.requests[p].req.amount.Fixed? && w.requests[p].req.amount.points > 0
  {
    assert RequestFits(w, w.requests[p]);
  }

  lemma EntryOutcome(w: World, p: Ledger.Pid, between: seq<Action>)
    requires Inv(w) && p in w.requests && w.requests[p].Entering? && Foreign(between, p)
    ensures var entering := Exec(w, between);
            && p in entering.requests && entering.requests[p] == w.requests[p]
            && (!Locked(entering, w.requests[p].req.customer) ==>
                Ledger.HasKey(Next(entering, Enter(p)).ledger.rows, w.requests[p].req.key))
  {
    RunsKeepInv(w, between);
    ForeignRunKeepsRequest(w, between, p);
    if !Locked(Exec(w, between), w.requests[p].req.customer) {
      EntryIsBooked(Exec(w, between), p);
    }
  }

  /** The balance a burn found is still there at the commit, and is gone after it. */
  lemma BurnHolds(burnt: World, p: Ledger.Pid, beforeUpdate: seq<Action>)
    requires Inv(burnt) && p in burnt.requests && burnt.requests[p].Deleting? && burnt.requests[p].stage.Burned?
        && Foreign(beforeUpdate, p)
    ensures var c := burnt.requests[p].subject;
            var updating := Exec(burnt, beforeUpdate);
            var end := Next(updating, UpdateRow(p));
            && Deleted(end, c)
            && match burnt.requests[p].stage.entry
               case Some(row) => Balance(updating.ledger, c) == -row.points && Balance(end.ledger, c) == 0
               case None => end.ledger == updating.ledger
  {
    RunsKeepInv(burnt, beforeUpdate);
    ForeignRunKeepsRequest(burnt, beforeUpdate, p);
    CustomerTheorems.DeletionBurns(Exec(burnt, beforeUpdate), p);
  }

  /** A deletion that has been counted, from its burn to its commit. */
  lemma BurnOutcome(burning: World, p: Ledger.Pid, beforeUpdate: seq<Action>)
    requires Inv(burning) && p in burning.requests && burning.requests[p].Deleting?
        && burning.requests[p].stage.Counted?
    requires !Locked(burning, burning.requests[p].subject) && Foreign(beforeUpdate, p)
    ensures var c := burning.requests[p].subject;
            var updating := Exec(Next(burning, Burn(p)), beforeUpdate);
            var end := Next(updating, UpdateRow(p));
            && Deleted(end, c) && Balance(burning.ledger, c) >= 0
            && (Balance(burning.ledger, c) > 0 ==>
                Balance(updating.ledger, c) == Balance(burning.ledger, c) && Balance(end.ledger, c) == 0)
            && (Balance(burning.ledger, c) == 0 ==> end.ledger == updating.ledger)
  {
    hide DoSignInLook, DoFrozenLook, DoUpsert, DoCheckOut, DoEarnCheck, DoRefundCheck, DoEnter, DoDeleteLook,
      DoDeleteCount, DoUpdateRow, DoRestoreRead, DoRestoreWrite, DoReleasePhones, DoSetStatus, DoProvision;
    BalanceIsTotal(burning.ledger, burning.requests[p].subject);
    NextKeepsInv(burning, Burn(p));
    BurnHolds(Next(burning, Burn(p)), p, beforeUpdate);
  }

  /**
   * What the answer of a deletion means: points that were burned are the
   * balance up to the commit and nothing is left; after a burn of nothing the
   * ledger is as the others left it.
   */
  lemma DeletionOutcome(w: World, p: Ledger.Pid, customerId: Ledger.CustomerId, deletion: string,
                        beforeCount: seq<Action>, beforeBurn: seq<Action>, beforeUpdate: seq<Action>)
    requires Inv(w) && p !in w.requests && customerId in w.customers && !Deleted(w, customerId)
        && FreshDeletion(w, customerId, deletion)
    requires Foreign(beforeCount, p) && Foreign(beforeBurn, p) && Foreign(beforeUpdate, p)
    ensures var counting := Exec(Next(w, DeleteLook(p, customerId, deletion)), beforeCount);
            var burning := Exec(Next(counting, DeleteCount(p)), beforeBurn);
            var updating := Exec(Next(burning, Burn(p)), beforeUpdate);
            var end := Next(updating, UpdateRow(p));
            !HasBlockingOrder(counting, customerId) && !Locked(burning, customerId) ==>
              && Deleted(end, customerId) && Balance(burning.ledger, customerId) >= 0
              && (Balance(burning.ledger, customerId) > 0 ==>
                    Balance(updating.ledger, customerId) == Balance(burning.ledger, customerId)
                        && Balance(end.ledger, customerId) == 0)
              && (Balance(burning.ledger, customerId) == 0 ==> end.ledger == updating.ledger)
  {
    hide Inv, PhoneTaken, PhoneFrozen, DoSignInLook, DoFrozenLook, DoUpsert, DoCheckOut, DoEarnCheck,
      DoRefundCheck, DoEnter, DoBurn, DoUpdateRow, DoRestoreRead, DoRestoreWrite, DoReleasePhones,
      DoSetStatus, DoProvision;
    var looked := Next(w, DeleteLook(p, customerId, deletion));
    NextKeepsInv(w, DeleteLook(p, customerId, deletion));
    RunsKeepInv(looked, beforeCount);
    ForeignRunKeepsRequest(looked, beforeCount, p);
    var counting := Exec(looked, beforeCount);
    NextKeepsInv(counting, DeleteCount(p));
    if !HasBlockingOrder(counting, customerId) {
      var counted := Next(counting, DeleteCount(p));
      RunsKeepInv(counted, beforeBurn);
      ForeignRunKeepsRequest(counted, beforeBurn, p);
      if !Locked(Exec(counted, beforeBurn), customerId) {
        BurnOutcome(Exec(counted, beforeBurn), p, beforeUpdate);
      }
    }
  }

  /** The state in which a sign-in that is not offered a restore comes to its insert. */
  function BeforeInsert(w: World, p: Ledger.Pid, phone: Phone, beforeFrozen: seq<Action>,
                        beforeInsert: seq<Action>): World {
    var looked := Next(w, SignInLook(p, phone));
    if PhoneTaken(w, phone) then Exec(looked, beforeInsert)
    else Exec(Next(Exec(looked, beforeFrozen), FrozenLook(p)), beforeInsert)
  }

  class AccountStore {
    var customers: map<Ledger.CustomerId, Customer>
    var orders: map<Ledger.OrderId, Order>
    var ledger: Ledger.Db
    var requests: map<Ledger.Pid, Pending>
    var marks: map<Ledger.CustomerId, nat>
    var now: int

    function Seen(): World
      reads this
    {
      World(customers, orders, ledger, requests, marks, now)
    }

    constructor ()
      ensures Seen() == EMPTY && Inv(Seen())
    {
      customers, orders, ledger, requests, marks, now := map[], map[], Ledger.Db(map[], []), map[], map[], 0;
    }

    /** Everybody else's steps, one after another. */
    method Interfere(actions: seq<Action>)
      modifies this
      ensures Seen() == Exec(old(Seen()), actions)
    {
      var i := 0;
      while i < |actions|
        invariant i <= |actions|
        invariant Exec(Seen(), actions[i..]) == Exec(old(Seen()), actions)
      {
        assert actions[i..][1..] == actions[i + 1..];
        var w := Next(Seen(), actions[i]);
        customers, orders, ledger, requests, marks, now := w.customers, w.orders, w.ledger, w.requests, w.marks, w.now;
        i := i + 1;
      }
    }

    /** The drain inside the deletion: a row kept for the commit, or nothing; says what was burned. */
    method BurnBalance(p: Ledger.Pid) returns (burned: int)
      requires p in requests && requests[p].Deleting? && requests[p].stage.Counted?
          && !Locked(Seen(), requests[p].subject)
      modifies this
      ensures Seen() == Next(old(Seen()), Burn(p))
      ensures p in requests && requests[p].Deleting? && requests[p].subject == old(requests)[p].subject
          && requests[p].stage.Burned?
      ensures burned == Balance(ledger, requests[p].subject)
      ensures requests[p].stage.entry.Some? <==> burned != 0
    {
      var del := requests[p];
      burned := Balance(ledger, del.subject);
      var entry := if burned == 0 then None
          else Some(Ledger.RowOf(Ledger.ExpireRequest(del.subject, del.deletion), burned));
      requests := requests[p := del.(stage := Burned(entry, |ledger.rows|))];
    }

    /** Anonymizes the row, parks the phone and commits. */
    method Anonymize(p: Ledger.Pid)
      requires p in requests && requests[p].Deleting? && requests[p].stage.Burned?
      modifies this
      ensures Seen() == Next(old(Seen()), UpdateRow(p))
    {
      var del := requests[p];
      customers := customers[del.subject := Customer(None, None, Some(now), del.phone)];
      marks := marks[del.subject := if del.stage.entry.Some? then |ledger.rows| + 1 else del.stage.mark];
      if del.stage.entry.Some? {
        ledger := Ledger.Append(ledger, del.stage.entry.value);
      }
      requests := requests - {p};
    }

    /** The count of blocking orders; says whether the deletion goes on. */
    method CountBlocking(p: Ledger.Pid) returns (blocked: bool)
      requires p in requests && requests[p].Deleting? && requests[p].stage.Looked?
      modifies this
      ensures Seen() == Next(old(Seen()), DeleteCount(p))
      ensures blocked <==> old(HasBlockingOrder(Seen(), requests[p].subject))
      ensures !blocked ==> p in requests && requests[p] == old(requests)[p].(stage := Counted)
    {
      blocked := HasBlockingOrder(Seen(), requests[p].subject);
      if blocked {
        requests := requests - {p};
      } else {
        requests := requests[p := requests[p].(stage := Counted)];
      }
    }

    /** From the burn to the commit. */
    method FinishDeletion(p: Ledger.Pid, beforeBurn: seq<Action>, beforeUpdate: seq<Action>)
      returns (answer: DeletionAnswer)
      requires p in requests && requests[p].Deleting? && requests[p].stage.Counted?
      requires Foreign(beforeBurn, p) && Foreign(beforeUpdate, p)
      modifies this
      ensures var c := old(requests)[p].subject;
              var burning := Exec(old(Seen()), beforeBurn);
              match answer
              case DeletionWaits => Locked(burning, c) && Seen() == burning
              case DeletedWith(burned) =>
                && !Locked(burning, c) && burned == Balance(burning.ledger, c)
                && Seen() == Next(Exec(Next(burning, Burn(p)), beforeUpdate), UpdateRow(p))
              case _ => false
    {
      ForeignRunKeepsRequest(Seen(), beforeBurn, p);
      Interfere(beforeBurn);
      if Locked(Seen(), requests[p].subject) {
        return DeletionWaits;
      }
      var burned := BurnBalance(p);
      ForeignRunKeepsRequest(Seen(), beforeUpdate, p);
      Interfere(beforeUpdate);
      Anonymize(p);
      return DeletedWith(burned);
    }

    /** `tokenSub` is whom the confirmation token names, if it is valid at all; `deletion` is a new id. */
    method ConfirmDeletion(p: Ledger.Pid, customerId: Ledger.CustomerId, tokenSub: Option<Ledger.CustomerId>,
                           deletion: string,
                           beforeCount: seq<Action>, beforeBurn: seq<Action>, beforeUpdate: seq<Action>)
      returns (answer: DeletionAnswer)
      requires p !in requests && FreshDeletion(Seen(), customerId, deletion)
      requires Foreign(beforeCount, p) && Foreign(beforeBurn, p) && Foreign(beforeUpdate, p)
      modifies this
      ensures answer.TokenInvalid? <==> tokenSub.None?
      ensures answer.TokenMismatch? <==> tokenSub.Some? && tokenSub.value != customerId
      ensures answer.CustomerNotFound? <==> tokenSub == Some(customerId) && customerId !in old(customers)
      ensures answer.AlreadyDeleted? <==> tokenSub == Some(customerId) && old(Deleted(Seen(), customerId))
      ensures var counting := Exec(Next(old(Seen()), DeleteLook(p, customerId, deletion)), beforeCount);
              var burning := Exec(Next(counting, DeleteCount(p)), beforeBurn);
              match answer
              case ActiveOrdersExist =>
                  HasBlockingOrder(counting, customerId) && Seen() == Next(counting, DeleteCount(p))
              case DeletionWaits => !HasBlockingOrder(counting, customerId) && Locked(burning, customerId)
                  && Seen() == burning
              case DeletedWith(burned) =>
                && !HasBlockingOrder(counting, customerId) && !Locked(burning, customerId)
                && Seen() == Next(Exec(Next(burning, Burn(p)), beforeUpdate), UpdateRow(p))
                && burned == Balance(burning.ledger, customerId)
              case _ => Seen() == old(Seen())
    {
      hide PhoneTaken, PhoneFrozen, DoSignInLook, DoFrozenLook, DoUpsert, DoCheckOut, DoEarnCheck,
        DoRefundCheck, DoEnter, DoDeleteCount, DoBurn, DoUpdateRow, DoRestoreRead, DoRestoreWrite,
        DoReleasePhones, DoSetStatus, DoProvision;
      if tokenSub.None? {
        return TokenInvalid;
      }
      if tokenSub.value != customerId {
        return TokenMismatch;
      }
      if customerId !in customers {
        return CustomerNotFound;
      }
      var row := customers[customerId];
      if row.deletedAt.Some? {
        return AlreadyDeleted;
      }
      requests := requests[p := Deleting(customerId, row.phone, deletion, Looked)];
      ForeignRunKeepsRequest(Seen(), beforeCount, p);
      Interfere(beforeCount);
      var blocked := CountBlocking(p);
      if blocked {
        return ActiveOrdersExist;
      }
      answer := FinishDeletion(p, beforeBurn, beforeUpdate);
    }

    /** The newest deleted account still holding this phone inside the window. */
    method FindFrozenByPhone(phone: Phone) returns (found: Option<Ledger.CustomerId>)
      ensures found.Some? <==> PhoneFrozen(Seen(), phone)
      ensures found.Some? ==>
        && found.value in customers
        && Frozen(Seen(), found.value, phone)
        && forall c :: c in customers && Frozen(Seen(), c, phone) ==>
             customers[c].deletedAt.value <= customers[found.value].deletedAt.value
    {
      found := None;
      var rest := customers.Keys;
      while rest != {}
        invariant rest <= customers.Keys
        invariant found.Some? ==> found.value in customers && Frozen(Seen(), found.value, phone)
        invariant forall c :: c in customers && c !in rest && Frozen(Seen(), c, phone) ==>
          found.Some? && customers[c].deletedAt.value <= customers[found.value].deletedAt.value
        decreases rest
      {
        var c :| c in rest;
        rest := rest - {c};
        if Frozen(Seen(), c, phone)
            && (found.None? || customers[found.value].deletedAt.value < customers[c].deletedAt.value) {
          found := Some(c);
        }
      }
    }

    /** Reads the parked phone, and returns it to the account under the unique index on phones. */
    method Unfreeze(p: Ledger.Pid, customerId: Ledger.CustomerId, between: seq<Action>) returns (answer: RestoreAnswer)
      requires Inv(Seen()) && p !in requests && Foreign(between, p)
      modifies this
      ensures answer.NotDeleted? <==> !old(Deleted(Seen(), customerId))
      ensures answer.WindowExpired? <==>
          old(Deleted(Seen(), customerId)) && old(customers)[customerId].pendingRelease.None?
      ensures answer.NotDeleted? || answer.WindowExpired? ==> Seen() == old(Seen())
      ensures answer.Restored? || answer.RestoreConflict? ==>
        var number := old(customers)[customerId].pendingRelease;
        var writing := Exec(Next(old(Seen()), RestoreRead(p, customerId)), between);
        && number.Some? && Seen() == Next(writing, RestoreWrite(p))
        && (answer.RestoreConflict? <==> TakenByOther(writing, customerId, number.value))
      ensures answer.Restored? ==>
        && customerId in customers && answer.customer == customers[customerId]
        && answer.customer.phone == old(customers)[customerId].pendingRelease && answer.customer.deletedAt.None?
    {
      hide Inv, PhoneTaken, PhoneFrozen, Locked, DoSignInLook, DoFrozenLook, DoUpsert, DoCheckOut,
        DoEarnCheck, DoRefundCheck, DoEnter, DoDeleteLook, DoDeleteCount, DoBurn, DoUpdateRow, DoRestoreWrite,
        DoReleasePhones, DoSetStatus, DoProvision;
      if customerId !in customers || customers[customerId].deletedAt.None? {
        return NotDeleted;
      }
      var number := customers[customerId].pendingRelease;
      if number.None? {
        return WindowExpired;
      }
      NextKeepsInv(Seen(), RestoreRead(p, customerId));
      requests := requests[p := Restoring(customerId, number)];
      RowStays(Seen(), p, between);
      Interfere(between);
      answer := WriteRestore(p);
    }

    /** The restore's write. */
    method WriteRestore(p: Ledger.Pid) returns (answer: RestoreAnswer)
      requires p in requests && requests[p].Restoring? && requests[p].phone.Some? && requests[p].subject in customers
      modifies this
      ensures Seen() == Next(old(Seen()), RestoreWrite(p))
      ensures var Restoring(c, phone) := old(requests)[p];
              && (answer.RestoreConflict? <==> TakenByOther(old(Seen()), c, phone.value))
              && (!answer.RestoreConflict? ==>
                    c in customers && answer == Restored(customers[c]) && customers[c].phone == phone
                        && customers[c].deletedAt.None?)
    {
      var Restoring(c, phone) := requests[p];
      var taken := TakenByOther(Seen(), c, phone.value);
      requests := requests - {p};
      if taken {
        return RestoreConflict;
      }
      customers := customers[c := customers[c].(phone := phone, pendingRelease := None, deletedAt := None)];
      return Restored(customers[c]);
    }

    /**
     * What a verified code leads to: the live account, a restore offer, or a
     * new account, with other requests before the second look and before the
     * insert.
     */
    method CompleteSignIn(p: Ledger.Pid, phone: Phone, freshId: Ledger.CustomerId, beforeFrozen: seq<Action>,
                          beforeInsert: seq<Action>)
      returns (answer: SignInAnswer)
      requires p !in requests && Foreign(beforeFrozen, p) && Foreign(beforeInsert, p)
      requires freshId !in BeforeInsert(Seen(), p, phone, beforeFrozen, beforeInsert).customers
      modifies this
      ensures answer.RestoreOffered? <==>
        && !old(PhoneTaken(Seen(), phone))
        && PhoneFrozen(Exec(Next(old(Seen()), SignInLook(p, phone)), beforeFrozen), phone)
      ensures answer.RestoreOffered? ==>
        && Seen() == Next(Exec(Next(old(Seen()), SignInLook(p, phone)), beforeFrozen), FrozenLook(p))
        && answer.id in customers && customers[answer.id].pendingRelease == Some(phone)
      ensures answer.SignedIn? ==>
        && Seen() == Next(BeforeInsert(old(Seen()), p, phone, beforeFrozen, beforeInsert), Upsert(p, freshId))
        && answer.id in customers && customers[answer.id].phone == Some(phone)
    {
      if PhoneTaken(Seen(), phone) {
        requests := requests[p := Upserting(phone)];
      } else {
        requests := requests[p := Seeking(phone)];
        ForeignRunKeepsRequest(Seen(), beforeFrozen, p);
        Interfere(beforeFrozen);
        var offered := OfferRestore(p);
        if offered.Some? {
          return RestoreOffered(offered.value);
        }
      }
      ForeignRunKeepsRequest(Seen(), beforeInsert, p);
      Interfere(beforeInsert);
      var id := InsertCustomer(p, freshId);
      return SignedIn(id);
    }

    /** The second look of a sign-in. */
    method OfferRestore(p: Ledger.Pid) returns (frozen: Option<Ledger.CustomerId>)
      requires p in requests && requests[p].Seeking?
      modifies this
      ensures Seen() == Next(old(Seen()), FrozenLook(p))
      ensures frozen.Some? <==> PhoneFrozen(old(Seen()), old(requests)[p].number)
      ensures frozen.Some? ==>
        frozen.value in customers && customers[frozen.value].pendingRelease == Some(old(requests)[p].number)
      ensures frozen.None? ==> p in requests && requests[p] == Upserting(old(requests)[p].number)
    {
      var phone := requests[p].number;
      frozen := FindFrozenByPhone(phone);
      if frozen.Some? {
        requests := requests - {p};
      } else {
        requests := requests[p := Upserting(phone)];
      }
    }

    /** The insert of a sign-in, or the row that holds the number. */
    method InsertCustomer(p: Ledger.Pid, freshId: Ledger.CustomerId) returns (id: Ledger.CustomerId)
      requires p in requests && requests[p].Upserting? && freshId !in customers
      modifies this
      ensures Seen() == Next(old(Seen()), Upsert(p, freshId))
      ensures id in customers && customers[id].phone == Some(old(requests)[p].number)
    {
      var phone := requests[p].number;
      requests := requests - {p};
      if PhoneTaken(Seen(), phone) {
        id :| id in customers && customers[id].phone == Some(phone);
        return;
      }
      customers := customers[freshId := Customer(Some(phone), None, None, None)];
      id := freshId;
    }

    /** Erases the parked phones of accounts deleted longer ago than the window. */
    method ReleasePendingPhones() returns (count: nat)
      requires RowsAnonymized(Seen())
      modifies `customers
      ensures Seen() == DoReleasePhones(old(Seen()))
      ensures count == |set c | c in old(customers) && PastWindow(old(Seen()), old(customers)[c])|
      ensures forall c :: c in customers && customers[c].pendingRelease.Some? ==>
          customers[c].deletedAt.value >= FreezeCutoff(now)
    {
      ReleasedAreRecent(Seen());
      count := |set c | c in customers && PastWindow(Seen(), customers[c])|;
      customers := map c | c in customers ::
        if PastWindow(Seen(), customers[c]) then customers[c].(pendingRelease := None) else customers[c];
    }

    /** The transaction of an entry that passed its check. */
    method ApplyEntry(p: Ledger.Pid, between: seq<Action>) returns (answer: EntryAnswer)
      requires p in requests && requests[p].Entering? && Foreign(between, p)
      modifies this
      ensures !answer.Skipped?
      ensures Seen() == Next(Exec(old(Seen()), between), Enter(p))
      ensures answer.EntryWaits? <==> Locked(Exec(old(Seen()), between), old(requests)[p].req.customer)
    {
      ForeignRunKeepsRequest(Seen(), between, p);
      Interfere(between);
      var req := requests[p].req;
      if Locked(Seen(), req.customer) {
        return EntryWaits;
      }
      var (db, _) := Ledger.Post(ledger, req);
      requests := requests - {p};
      ledger := db;
      return Booked;
    }

    /** Checks order and customer on a read, and enters the cashback in a transaction of its own. */
    method EarnCashback(p: Ledger.Pid, orderId: Ledger.OrderId, rate: real, between: seq<Action>)
      returns (answer: EntryAnswer)
      requires p !in requests && Foreign(between, p)
      modifies this
      ensures answer.Skipped? <==> Next(old(Seen()), EarnCheck(p, orderId, rate)) == old(Seen())
      ensures answer.Skipped? ==> Seen() == old(Seen())
      ensures !answer.Skipped? ==>
        var checked := Next(old(Seen()), EarnCheck(p, orderId, rate));
        && p in checked.requests && checked.requests[p].Entering?
            && checked.requests[p].req.key == Ledger.EarnKey(orderId)
        && Seen() == Next(Exec(checked, between), Enter(p))
        && (answer.EntryWaits? <==> Locked(Exec(checked, between), checked.requests[p].req.customer))
    {
      if orderId !in orders || orders[orderId].customer.None? || Deleted(Seen(), orders[orderId].customer.value) {
        return Skipped;
      }
      var customerId := orders[orderId].customer.value;
      var points := Pricing.CashbackPoints(orders[orderId].total, if customerId in ledger.balances then rate else 0.0);
      if points <= 0 {
        return Skipped;
      }
      ghost var checked := Next(Seen(), EarnCheck(p, orderId, rate));
      requests := requests[p := Entering(Ledger.EarnRequest(customerId, orderId, points))];
      assert Seen() == checked;
      answer := ApplyEntry(p, between);
    }

    /** Checks order and customer, finds the spend, and enters its return in a transaction of its own. */
    method RefundOnCancel(p: Ledger.Pid, orderId: Ledger.OrderId, between: seq<Action>) returns (answer: EntryAnswer)
      requires p !in requests && Foreign(between, p)
      modifies this
      ensures answer.Skipped? <==> Next(old(Seen()), RefundCheck(p, orderId)) == old(Seen())
      ensures answer.Skipped? ==> Seen() == old(Seen())
      ensures !answer.Skipped? ==>
        var checked := Next(old(Seen()), RefundCheck(p, orderId));
        && p in checked.requests && checked.requests[p].Entering?
            && checked.requests[p].req.key == Ledger.RefundKey(orderId)
        && Seen() == Next(Exec(checked, between), Enter(p))
        && (answer.EntryWaits? <==> Locked(Exec(checked, between), checked.requests[p].req.customer))
    {
      if orderId !in orders || orders[orderId].customer.None? || Deleted(Seen(), orders[orderId].customer.value) {
        return Skipped;
      }
      var spend := RowWithKey(ledger.rows, Ledger.SpendKey(orderId));
      if spend.None? {
        return Skipped;
      }
      ghost var checked := Next(Seen(), RefundCheck(p, orderId));
      requests := requests[p := Entering(Ledger.RefundRequest(orders[orderId].customer.value, orderId,
          -spend.value.points))];
      assert Seen() == checked;
      answer := ApplyEntry(p, between);
    }
  }
}
