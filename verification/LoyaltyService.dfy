/**
 * The ledger service as it is written: one bounded loop that reads the
 * balance, tries a compare-and-set and appends a row, while other transactions
 * commit between its statements.
 */
module LoyaltyService {
  import opened Wrappers
  import opened Ledger

  function Flatten(rounds: seq<seq<Effect>>): seq<Effect> {
    if rounds == [] then [] else Flatten(rounds[..|rounds| - 1]) + rounds[|rounds| - 1]
  }

  /** The tables after the first n rounds of what the others commit. */
  function After(db: Db, others: seq<seq<Effect>>, n: nat): Db
    requires n <= |others|
  {
    Replay(db, Flatten(others[..n]))
  }

  lemma AfterStep(db: Db, others: seq<seq<Effect>>, n: nat)
    requires n < |others|
    ensures After(db, others, n + 1) == Replay(After(db, others, n), others[n])
  {
    assert others[..n + 1][..n] == others[..n];
    ReplayConcat(db, Flatten(others[..n]), others[n]);
  }

  /** What a read of the account sees: nothing, or the balance. */
  function Account(db: Db, c: CustomerId): Option<int> {
    if c in db.balances then Some(db.balances[c]) else None
  }

  /** A compare-and-set that finds what the read found writes exactly what `Post` would write now. */
  lemma SwapIsPost(db: Db, req: Request, balance: int)
    requires balance == (if Account(db, req.customer).Some? then Account(db, req.customer).value else 0)
    requires Account(db, req.customer).None? ==> req.createIfMissing && req.amount.Fixed?
    requires Delta(req, balance) != 0 && balance + Delta(req, balance) >= 0 && !HasKey(db.rows, req.key)
    ensures Post(db, req) == (Append(db, RowOf(req, balance)), Applied(Delta(req, balance)))
  {
  }

  /** Every compare-and-set of the first n - 1 attempts was overtaken. */
  ghost predicate Overtaken(db: Db, others: seq<seq<Effect>>, n: nat, c: CustomerId)
    requires n <= |others|
  {
    forall i :: 1 <= i < n ==> Account(After(db, others, i), c) != Account(After(db, others, i + 1), c)
  }

  /** What one turn of the loop promises about the tables it read and those it wrote on. */
  ghost predicate Turn(read: Db, now: Db, req: Request, result: Option<Outcome>, after: Db) {
    match result
    case None => after == now && Account(now, req.customer) != Account(read, req.customer)
    case Some(Applied(points)) => Post(now, req) == (after, Applied(points))
    case Some(Duplicate) => after == now && HasKey(now.rows, req.key)
    case Some(Nothing) => after == read && Post(read, req).1 == Nothing
    case Some(Insufficient(b, p)) =>
      && after == read
      && req.amount.Fixed?
      && (HasKey(read.rows, req.key) || Post(read, req).1 == Insufficient(b, p))
    case Some(_) => false
  }

  /**
   * What a call promises. `rounds` says how many rounds of foreign commits
   * happened before it ended. A call that applied its entry did exactly one
   * `Post` at the end of them; any other call left no trace of its own.
   */
  ghost predicate Promised(before: Db, others: seq<seq<Effect>>, rounds: nat, req: Request, outcome: Outcome,
                           after: Db) {
    && rounds <= |others|
    && var seen := After(before, others, rounds);
       match outcome
       case Applied(_) => Post(seen, req) == (after, outcome)
       case Nothing => after == seen && Post(seen, req).1 == Nothing
       case Insufficient(_, _) =>
           after == seen && req.amount.Fixed? && (HasKey(seen.rows, req.key) || Post(seen, req).1 == outcome)
       case Duplicate => after == seen && HasKey(seen.rows, req.key) && !HasKey(before.rows, req.key)
       case Conflict => after == seen && rounds == |others| && Overtaken(before, others, rounds, req.customer)
       case RolledBack => false
  }

  /** Whatever the others do and however the call ends, the ledger laws hold and no row is rewritten. */
  lemma PromisedKeepsConsistent(before: Db, others: seq<seq<Effect>>, rounds: nat, req: Request, outcome: Outcome,
                                after: Db)
    requires Consistent(before) && Promised(before, others, rounds, req, outcome, after)
    ensures Consistent(after) && before.rows <= after.rows
  {
    var seen := After(before, others, rounds);
    ReplayKeepsConsistent(before, Flatten(others[..rounds]));
    PostKeepsConsistent(seen, req);
  }

  class LedgerStore {
    var balances: map<CustomerId, int>
    var rows: seq<Row>

    function Tables(): Db
      reads this
    {
      Db(balances, rows)
    }

    constructor ()
      ensures Tables() == EMPTY.db && Consistent(Tables())
    {
      balances := map[];
      rows := [];
    }

    /** Other transactions commit here, one after another. */
    method Interfere(effects: seq<Effect>)
      modifies this
      ensures Tables() == Replay(old(Tables()), effects)
    {
      var i := 0;
      while i < |effects|
        invariant i <= |effects|
        invariant Replay(Tables(), effects[i..]) == Replay(old(Tables()), effects)
      {
        assert effects[i..][1..] == effects[i + 1..];
        var db := ApplyEffect(Tables(), effects[i]);
        balances, rows := db.balances, db.rows;
        i := i + 1;
      }
    }

    /**
     * One turn of the loop: read the account, let the others commit, then try
     * the compare-and-set. No result means that the balance had moved.
     */
    method Attempt(req: Request, others: seq<Effect>) returns (result: Option<Outcome>)
      requires Consistent(Tables())
      modifies this
      ensures Turn(old(Tables()), Replay(old(Tables()), others), req, result, Tables())
    {
      ghost var read := Tables();
      var account := Account(Tables(), req.customer);
      if account.None? {
        if req.amount.Drain? {
          return Some(Nothing);
        }
        if !req.createIfMissing {
          return Some(Insufficient(0, -Delta(req, 0)));
        }
      }
      var balance := if account.Some? then account.value else 0;
      var points := Delta(req, balance);
      if points == 0 {
        return Some(Nothing);
      }
      var balanceAfter := balance + points;
      if balanceAfter < 0 {
        return Some(Insufficient(balance, -points));
      }
      Interfere(others);
      if Account(Tables(), req.customer) != account {
        return None;
      }
      if HasKey(rows, req.key) {
        return Some(Duplicate);
      }
      SwapIsPost(Tables(), req, balance);
      balances := balances[req.customer := balanceAfter];
      rows := rows + [Row(req.customer, req.kind, points, balanceAfter, req.key)];
      return Some(Applied(points));
    }

    /**
     * Appends one row and moves the balance. `others[0]` commits after the key
     * check, `others[i]` after the i-th read of the account.
     */
    method ApplyLedgerEntry(req: Request, others: seq<seq<Effect>>) returns (outcome: Outcome, rounds: nat)
      requires Consistent(Tables()) && |others| == MAX_LEDGER_ATTEMPTS + 1
      modifies this
      ensures Promised(old(Tables()), others, rounds, req, outcome, Tables())
    {
      ghost var before := Tables();
      assert others[..0] == [];
      if HasKey(rows, req.key) {
        return Nothing, 0;
      }
      Interfere(others[0]);
      AfterStep(before, others, 0);
      ReplayKeepsConsistent(before, others[0]);
      var attempt := 0;
      while attempt < MAX_LEDGER_ATTEMPTS
        invariant attempt <= MAX_LEDGER_ATTEMPTS
        invariant Tables() == After(before, others, attempt + 1)
        invariant Consistent(Tables())
        invariant Overtaken(before, others, attempt + 1, req.customer)
      {
        ghost var read := Tables();
        var result := Attempt(req, others[attempt + 1]);
        AfterStep(before, others, attempt + 1);
        ReplayKeepsConsistent(read, others[attempt + 1]);
        if result.Some? {
          var waited := if result.value.Applied? || result.value.Duplicate? then 1 else 0;
          return result.value, attempt + 1 + waited;
        }
        attempt := attempt + 1;
      }
      return Conflict, attempt + 1;
    }

    /** Burns the whole balance as one entry and reports how much was burned. */
    method ExpireAllWithinTransaction(customer: CustomerId, deletion: string, others: seq<seq<Effect>>)
      returns (burned: int, outcome: Outcome, rounds: nat)
      requires Consistent(Tables()) && |others| == MAX_LEDGER_ATTEMPTS + 1
      modifies this
      ensures burned >= 0
      ensures Promised(old(Tables()), others, rounds, ExpireRequest(customer, deletion), outcome, Tables())
      ensures !outcome.Insufficient?
      ensures outcome.Applied? ==>
        && burned > 0
        && Account(After(old(Tables()), others, rounds), customer) == Some(burned)
        && Account(Tables(), customer) == Some(0)
      ensures outcome.Nothing? ==> burned == 0
    {
      outcome, rounds := ApplyLedgerEntry(ExpireRequest(customer, deletion), others);
      burned := match outcome
                case Applied(points) => if points < 0 then -points else points
                case _ => 0;
      ghost var seen := After(old(Tables()), others, rounds);
      ReplayKeepsConsistent(old(Tables()), Flatten(others[..rounds]));
    }
  }

  // ----- the keys as strings -----

  function Render(key: Key): string {
    match key
    case SpendKey(order) => "spend:" + order
    case EarnKey(order) => "earn:" + order
    case RefundKey(order) => "refund:" + order
    case ExpireKey(customer, deletion) => "expire:delete:" + customer + ":" + deletion
  }

  /** Identifiers never contain the separator: they are UUIDs. */
  predicate PlainIds(key: Key) {
    key.ExpireKey? ==> ':' !in key.customer
  }

  /** Two different ledger keys never share a string, so the unique index is an index on keys. */
  lemma RenderIsInjective(k1: Key, k2: Key)
    requires PlainIds(k1) && PlainIds(k2) && Render(k1) == Render(k2)
    ensures k1 == k2
  {
    var s1, s2 := Render(k1), Render(k2);
    assert s1[0] == s2[0] && s1[1] == s2[1];
    match (k1, k2) {
      case (SpendKey(a), SpendKey(b)) => assert a == s1[6..] && b == s2[6..];
      case (EarnKey(a), EarnKey(b)) => assert a == s1[5..] && b == s2[5..];
      case (RefundKey(a), RefundKey(b)) => assert a == s1[7..] && b == s2[7..];
      case (ExpireKey(c, x), ExpireKey(d, y)) =>
        assert c + ":" + x == s1[14..] && d + ":" + y == s2[14..];
        SplitAtColon(c, x, d, y);
      case _ =>
    }
  }
}
