/**
 * The bonus ledger as a database shared by concurrent transactions.
 *
 * `Post` is the ledger operation the service promises: one indivisible step.
 * `Next` is what the service runs: every transaction is a process that moves
 * one statement at a time, any transaction can stop at any point, and the
 * statements of different transactions interleave freely. A transaction holds
 * the row lock of an account from its successful compare-and-set (or from its
 * insert of the account row) until it commits or aborts; a statement that
 * needs a lock somebody else holds waits, which is a step that changes nothing.
 */
module Ledger {
  import opened Wrappers

  type CustomerId = string
  type OrderId = string

  datatype Key =
    | SpendKey(order: OrderId)
    | EarnKey(order: OrderId)
    | RefundKey(order: OrderId)
    | ExpireKey(customer: CustomerId, deletion: string)

  datatype Kind = EARN | SPEND | REFUND | EXPIRE

  /** How much an entry moves: a fixed signed amount, or the whole balance. */
  datatype Amount = Fixed(points: int) | Drain

  datatype Request = Request(customer: CustomerId, kind: Kind, key: Key, createIfMissing: bool, amount: Amount)

  datatype Row = Row(customer: CustomerId, kind: Kind, points: int, balanceAfter: int, key: Key)

  /** The committed tables: the balance projection and the append-only ledger. */
  datatype Db = Db(balances: map<CustomerId, int>, rows: seq<Row>)

  datatype Outcome =
    | Applied(points: int)
    | Nothing
    | Insufficient(balance: int, points: int)
    | Conflict
    | Duplicate
    | RolledBack

  /** The bound of the compare-and-set loop. */
  const MAX_LEDGER_ATTEMPTS: nat := 3

  // ----- requests: the four callers of the ledger -----

  function SpendRequest(customer: CustomerId, order: OrderId, points: int): Request {
    Request(customer, SPEND, SpendKey(order), false, Fixed(-points))
  }

  function EarnRequest(customer: CustomerId, order: OrderId, points: int): Request {
    Request(customer, EARN, EarnKey(order), true, Fixed(points))
  }

  function RefundRequest(customer: CustomerId, order: OrderId, points: int): Request {
    Request(customer, REFUND, RefundKey(order), true, Fixed(points))
  }

  function ExpireRequest(customer: CustomerId, deletion: string): Request {
    Request(customer, EXPIRE, ExpireKey(customer, deletion), false, Drain)
  }

  /** What the callers guarantee: spends are negative, accruals positive, only accruals open accounts. */
  predicate WellFormed(req: Request) {
    match req.kind
    case SPEND => req.key.SpendKey? && !req.createIfMissing && req.amount.Fixed? && req.amount.points < 0
    case EARN => req.key.EarnKey? && req.createIfMissing && req.amount.Fixed? && req.amount.points > 0
    case REFUND => req.key.RefundKey? && req.createIfMissing && req.amount.Fixed? && req.amount.points > 0
    case EXPIRE => req.key.ExpireKey? && !req.createIfMissing && req.amount.Drain?
  }

  function Delta(req: Request, balance: int): int {
    match req.amount
    case Fixed(points) => points
    case Drain => -balance
  }

  // ----- what a ledger means -----

  /** The points a customer's rows add up to. */
  function Total(rows: seq<Row>, c: CustomerId): int {
    if rows == [] then 0
    else Total(rows[..|rows| - 1], c) + (if rows[|rows| - 1].customer == c then rows[|rows| - 1].points else 0)
  }

  predicate HasKey(rows: seq<Row>, key: Key) {
    exists i :: 0 <= i < |rows| && rows[i].key == key
  }

  /** Every row records the running total of its own customer, is not zero and never below zero. */
  ghost predicate Chained(rows: seq<Row>) {
    forall i :: 0 <= i < |rows| ==>
      && rows[i].points != 0
      && rows[i].balanceAfter == Total(rows[..i + 1], rows[i].customer)
      && rows[i].balanceAfter >= 0
  }

  ghost predicate UniqueKeys(rows: seq<Row>) {
    forall i, j :: 0 <= i < j < |rows| ==> rows[i].key != rows[j].key
  }

  ghost predicate Consistent(db: Db) {
    && (forall c :: c in db.balances ==> db.balances[c] == Total(db.rows, c) && db.balances[c] >= 0)
    && (forall i :: 0 <= i < |db.rows| ==> db.rows[i].customer in db.balances)
    && Chained(db.rows)
    && UniqueKeys(db.rows)
  }

  // ----- the atomic specification -----

  function RowOf(req: Request, balance: int): Row {
    Row(req.customer, req.kind, Delta(req, balance), balance + Delta(req, balance), req.key)
  }

  /** One ledger entry applied in a single step. */
  function Post(db: Db, req: Request): (Db, Outcome) {
    if HasKey(db.rows, req.key) then (db, Nothing)
    else if req.customer !in db.balances && req.amount.Drain? then (db, Nothing)
    else if req.customer !in db.balances && !req.createIfMissing then (db, Insufficient(0, -Delta(req, 0)))
    else
      var balance := if req.customer in db.balances then db.balances[req.customer] else 0;
      var points := Delta(req, balance);
      if points == 0 then (db, Nothing)
      else if balance + points < 0 then (db, Insufficient(balance, -points))
      else (Append(db, RowOf(req, balance)), Applied(points))
  }

  function Append(db: Db, row: Row): Db {
    Db(db.balances[row.customer := row.balanceAfter], db.rows + [row])
  }

  lemma TotalAppend(rows: seq<Row>, row: Row, c: CustomerId)
    ensures Total(rows + [row], c) == Total(rows, c) + (if row.customer == c then row.points else 0)
  {
    assert (rows + [row])[..|rows|] == rows;
  }

  /** A customer none of the rows name has a total of zero. */
  lemma {:induction false} TotalOfStranger(rows: seq<Row>, c: CustomerId)
    requires forall i :: 0 <= i < |rows| ==> rows[i].customer != c
    ensures Total(rows, c) == 0
  {
    if rows != [] {
      TotalOfStranger(rows[..|rows| - 1], c);
    }
  }

  /** Appending a row that continues the customer's running total keeps the database consistent. */
  lemma AppendKeepsConsistent(db: Db, row: Row)
    requires Consistent(db) && !HasKey(db.rows, row.key)
    requires row.points != 0 && row.balanceAfter >= 0
    requires row.balanceAfter == row.points + (if row.customer in db.balances then db.balances[row.customer] else 0)
    ensures Consistent(Append(db, row))
  {
    var db' := Append(db, row);
    if row.customer !in db.balances {
      TotalOfStranger(db.rows, row.customer);
    }
    forall c | c in db'.balances
      ensures db'.balances[c] == Total(db'.rows, c) && db'.balances[c] >= 0
    {
      TotalAppend(db.rows, row, c);
    }
    forall i | 0 <= i < |db'.rows|
      ensures db'.rows[i].points != 0 && db'.rows[i].balanceAfter >= 0
      ensures db'.rows[i].balanceAfter == Total(db'.rows[..i + 1], db'.rows[i].customer)
    {
      if i < |db.rows| {
        assert db'.rows[..i + 1] == db.rows[..i + 1];
      } else {
        assert db'.rows[..i + 1] == db'.rows;
      }
    }
  }

  /** The atomic operation keeps every ledger law, whatever the request. */
  lemma PostKeepsConsistent(db: Db, req: Request)
    requires Consistent(db)
    ensures Consistent(Post(db, req).0)
    ensures Post(db, req).1.Applied? || Post(db, req).0 == db
  {
    if Post(db, req).1.Applied? {
      AppendKeepsConsistent(db, RowOf(req, if req.customer in db.balances then db.balances[req.customer] else 0));
    }
  }

  /** A drain is never refused: it takes exactly the points there are, and leaves zero behind. */
  lemma DrainEmptiesTheAccount(db: Db, req: Request)
    requires Consistent(db) && req.amount.Drain? && !HasKey(db.rows, req.key)
    ensures Post(db, req).1 == if Total(db.rows, req.customer) == 0 then Nothing
        else Applied(-Total(db.rows, req.customer))
    ensures req.customer in db.balances ==> Post(db, req).0.balances[req.customer] == 0
    ensures Total(Post(db, req).0.rows, req.customer) == 0
  {
    if req.customer !in db.balances {
      TotalOfStranger(db.rows, req.customer);
    } else {
      PostKeepsConsistent(db, req);
    }
  }

  lemma TotalWithNext(rows: seq<Row>, j: nat)
    requires j < |rows|
    ensures Total(rows[..j + 1], rows[j].customer) == Total(rows[..j], rows[j].customer) + rows[j].points
  {
    TotalAppend(rows[..j], rows[j], rows[j].customer);
    assert rows[..j] + [rows[j]] == rows[..j + 1];
  }

  /** Successive rows of one customer: each balance is the previous one plus the row's points. */
  lemma BalanceAfterChain(rows: seq<Row>, i: nat, j: nat)
    requires Chained(rows) && i < j < |rows|
    requires rows[i].customer == rows[j].customer
    requires forall k :: i < k < j ==> rows[k].customer != rows[j].customer
    ensures rows[j].balanceAfter == rows[i].balanceAfter + rows[j].points
  {
    var c := rows[j].customer;
    TotalUnchangedBetween(rows, i + 1, j, c);
    TotalWithNext(rows, j);
    assert rows[i].balanceAfter == Total(rows[..i + 1], c);
    assert rows[j].balanceAfter == Total(rows[..j + 1], c);
  }

  lemma {:induction false} TotalUnchangedBetween(rows: seq<Row>, lo: nat, hi: nat, c: CustomerId)
    requires lo <= hi <= |rows|
    requires forall k :: lo <= k < hi ==> rows[k].customer != c
    ensures Total(rows[..lo], c) == Total(rows[..hi], c)
  {
    if lo < hi {
      TotalUnchangedBetween(rows, lo, hi - 1, c);
      TotalAppend(rows[..hi - 1], rows[hi - 1], c);
      assert rows[..hi - 1] + [rows[hi - 1]] == rows[..hi];
    }
  }

  // ----- the interleaved machine -----

  type Pid = nat

  /**
   * Where a transaction stands. `mark` is how long the ledger was when the
   * balance was read; the code keeps no such value, it is here so that a lost
   * compare-and-set can be explained.
   */
  datatype Phase =
    | KeyCheck
    | ReadAccount(attempt: nat)
    | CreateAccount(attempt: nat)
    | Swap(attempt: nat, seen: int, mark: nat)
    | InsertRow(row: Row)
    | Ready(entry: Option<Row>)
    | Committed(entry: Option<Row>)
    | Aborted(reason: Outcome)

  /** `created` says that the transaction inserted the account row, which nobody else sees yet. */
  datatype Process = Process(req: Request, phase: Phase, created: bool)

  datatype State = State(db: Db, procs: map<Pid, Process>)

  datatype Action =
    | Begin(p: Pid, req: Request)
    | Advance(p: Pid)
    | Abort(p: Pid)
    | Provision(c: CustomerId)

  predicate Open(pr: Process) {
    !pr.phase.Committed? && !pr.phase.Aborted?
  }

  /** The transaction has inserted its ledger row, uncommitted. */
  predicate Inserted(pr: Process) {
    pr.phase.Ready? && pr.phase.entry.Some?
  }

  /** The transaction owns the lock of its account row. */
  predicate Holds(pr: Process) {
    Open(pr) && (pr.created || pr.phase.InsertRow? || Inserted(pr))
  }

  predicate LockedByOther(s: State, p: Pid, c: CustomerId) {
    exists q :: q in s.procs && q != p && Holds(s.procs[q]) && s.procs[q].req.customer == c
  }

  /** Another open transaction has inserted a row with this key and not committed yet. */
  predicate KeyHeldByOther(s: State, p: Pid, key: Key) {
    exists q :: q in s.procs && q != p && Inserted(s.procs[q]) && s.procs[q].req.key == key
  }

  function To(s: State, p: Pid, phase: Phase): State
    requires p in s.procs
  {
    s.(procs := s.procs[p := s.procs[p].(phase := phase)])
  }

  /** After the balance is known: compute the amount and decide whether to try the compare-and-set. */
  function Decide(req: Request, attempt: nat, seen: int, mark: nat): Phase {
    var points := Delta(req, seen);
    if points == 0 then Ready(None)
    else if seen + points < 0 then Aborted(Insufficient(seen, -points))
    else Swap(attempt, seen, mark)
  }

  function Commit(s: State, p: Pid, entry: Option<Row>): State
    requires p in s.procs
  {
    var s' := To(s, p, Committed(entry));
    match entry
    case None => s'
    case Some(row) => s'.(db := Append(s.db, row))
  }

  /** One statement of transaction p. */
  function Step(s: State, p: Pid): State
    requires p in s.procs
  {
    var pr := s.procs[p];
    var c := pr.req.customer;
    match pr.phase
    case KeyCheck =>
      To(s, p, if HasKey(s.db.rows, pr.req.key) then Ready(None) else ReadAccount(0))
    case ReadAccount(attempt) =>
      if attempt >= MAX_LEDGER_ATTEMPTS then To(s, p, Aborted(Conflict))
      else if c in s.db.balances then To(s, p, Decide(pr.req, attempt, s.db.balances[c], |s.db.rows|))
      else if pr.req.amount.Drain? then To(s, p, Ready(None))
      else if !pr.req.createIfMissing then To(s, p, Aborted(Insufficient(0, -Delta(pr.req, 0))))
      else To(s, p, CreateAccount(attempt))
    case CreateAccount(attempt) =>
      if c in s.db.balances then To(s, p, ReadAccount(attempt + 1))
      else if LockedByOther(s, p, c) then s
      else
        var s' := To(s, p, Decide(pr.req, attempt, 0, |s.db.rows|));
        s'.(procs := s'.procs[p := s'.procs[p].(created := true)])
    case Swap(attempt, seen, mark) =>
      if LockedByOther(s, p, c) then s
      else if pr.created || (c in s.db.balances && s.db.balances[c] == seen)
          then To(s, p, InsertRow(RowOf(pr.req, seen)))
      else To(s, p, ReadAccount(attempt + 1))
    case InsertRow(row) =>
      if HasKey(s.db.rows, row.key) then To(s, p, Aborted(Duplicate))
      else if KeyHeldByOther(s, p, row.key) then s
      else To(s, p, Ready(Some(row)))
    case Ready(entry) => Commit(s, p, entry)
    case Committed(_) => s
    case Aborted(_) => s
  }

  /** Every step anyone can take. An action that is not possible now changes nothing. */
  function Next(s: State, a: Action): State {
    match a
    case Begin(p, req) =>
      if p in s.procs || !WellFormed(req) then s
      else s.(procs := s.procs[p := Process(req, KeyCheck, false)])
    case Advance(p) => if p in s.procs then Step(s, p) else s
    case Abort(p) => if p in s.procs && Open(s.procs[p]) then To(s, p, Aborted(RolledBack)) else s
    case Provision(c) =>
      if c in s.db.balances || (exists q :: q in s.procs && Holds(s.procs[q]) && s.procs[q].req.customer == c) then s
      else s.(db := s.db.(balances := s.db.balances[c := 0]))
  }

  function Exec(s: State, actions: seq<Action>): State
    decreases |actions|
  {
    if actions == [] then s else Exec(Next(s, actions[0]), actions[1..])
  }

  const EMPTY := State(Db(map[], []), map[])

  // ----- the invariant of the machine -----

  ghost predicate RowFits(db: Db, pr: Process, row: Row) {
    && row == RowOf(pr.req, if pr.created then 0 else row.balanceAfter - row.points)
    && row.points != 0
    && row.balanceAfter >= 0
    && (pr.created ==> row.customer !in db.balances)
    && (!pr.created ==> row.customer in db.balances && row.balanceAfter == db.balances[row.customer] + row.points)
  }

  ghost predicate ProcessOk(db: Db, pr: Process) {
    && WellFormed(pr.req)
    && (Open(pr) && pr.created ==>
        pr.req.customer !in db.balances && (pr.phase.Swap? || pr.phase.InsertRow? || pr.phase.Ready?))
    && match pr.phase
       case Swap(_, seen, mark) =>
         && mark <= |db.rows|
         && Delta(pr.req, seen) != 0
         && seen + Delta(pr.req, seen) >= 0
         && (pr.created ==> seen == 0)
         && (!pr.created ==> pr.req.customer in db.balances && seen == Total(db.rows[..mark], pr.req.customer))
       case InsertRow(row) => RowFits(db, pr, row)
       case Ready(Some(row)) => RowFits(db, pr, row) && !HasKey(db.rows, row.key)
       case Ready(None) => !pr.created
       case CreateAccount(_) => pr.req.createIfMissing
       case Aborted(Duplicate) => HasKey(db.rows, pr.req.key)
       case Committed(Some(row)) => row in db.rows && row.key == pr.req.key
       case _ => true
  }

  ghost predicate Exclusive(s: State) {
    && (forall p, q :: p in s.procs && q in s.procs && p != q && Holds(s.procs[p]) && Holds(s.procs[q])
          ==> s.procs[p].req.customer != s.procs[q].req.customer)
    && (forall p, q :: p in s.procs && q in s.procs && p != q && Inserted(s.procs[p]) && Inserted(s.procs[q])
          ==> s.procs[p].req.key != s.procs[q].req.key)
  }

  ghost predicate Inv(s: State) {
    && Consistent(s.db)
    && (forall p :: p in s.procs ==> ProcessOk(s.db, s.procs[p]))
    && Exclusive(s)
  }

  /** A commit by the holder of a lock leaves every other transaction in order. */
  lemma OthersSurviveCommit(s: State, p: Pid, q: Pid, row: Row)
    requires Inv(s) && p in s.procs && q in s.procs && p != q
    requires s.procs[p].phase == Ready(Some(row))
    ensures ProcessOk(Append(s.db, row), s.procs[q])
  {
    var db' := Append(s.db, row);
    var pr := s.procs[q];
    assert Holds(s.procs[p]) && row.customer == s.procs[p].req.customer;
    match pr.phase {
      case Swap(_, seen, mark) =>
        assert db'.rows[..mark] == s.db.rows[..mark];
      case InsertRow(_) =>
        assert Holds(pr);
      case Ready(Some(mine)) =>
        assert Holds(pr) && Inserted(pr) && Inserted(s.procs[p]);
        assert row.key == s.procs[p].req.key;
      case Aborted(Duplicate) =>
        var i :| 0 <= i < |s.db.rows| && s.db.rows[i].key == pr.req.key;
        assert db'.rows[i].key == pr.req.key;
      case _ =>
    }
  }

  lemma CommitKeepsProcesses(s: State, p: Pid, row: Row)
    requires Inv(s) && p in s.procs && s.procs[p].phase == Ready(Some(row))
    ensures var s' := Step(s, p); forall q :: q in s'.procs ==> ProcessOk(s'.db, s'.procs[q])
  {
    var s' := Step(s, p);
    assert s'.db.rows[|s.db.rows|] == row;
    forall q | q in s'.procs ensures ProcessOk(s'.db, s'.procs[q]) {
      if q != p {
        OthersSurviveCommit(s, p, q, row);
      }
    }
  }

  lemma CommitKeepsExclusive(s: State, p: Pid)
    requires Exclusive(s) && p in s.procs && s.procs[p].phase.Ready?
    ensures Exclusive(Step(s, p))
  {
  }

  lemma CommitKeepsInv(s: State, p: Pid)
    requires Inv(s) && p in s.procs && s.procs[p].phase.Ready?
    ensures Inv(Step(s, p))
  {
    CommitKeepsExclusive(s, p);
    match s.procs[p].phase.entry {
      case None =>
      case Some(row) =>
        AppendKeepsConsistent(s.db, row);
        CommitKeepsProcesses(s, p, row);
    }
  }

  /** Replacing one transaction's state is safe if it fits the tables and takes no lock or key of another. */
  lemma MovedProcessKeepsInv(s: State, p: Pid, pr': Process)
    requires Inv(s) && p in s.procs && ProcessOk(s.db, pr') && pr'.req == s.procs[p].req
    requires Holds(pr') ==> Holds(s.procs[p]) || !LockedByOther(s, p, pr'.req.customer)
    requires Inserted(pr') ==> !KeyHeldByOther(s, p, pr'.req.key)
    ensures Inv(s.(procs := s.procs[p := pr']))
  {
    var s' := s.(procs := s.procs[p := pr']);
    forall q | q in s'.procs ensures ProcessOk(s'.db, s'.procs[q]) {
    }
  }

  /** The statements before the insert keep the transaction in order. */
  lemma EarlyStatementOk(s: State, p: Pid)
    requires Inv(s) && p in s.procs
    requires s.procs[p].phase.KeyCheck? || s.procs[p].phase.ReadAccount? || s.procs[p].phase.CreateAccount?
    ensures ProcessOk(s.db, Step(s, p).procs[p])
  {
    assert ProcessOk(s.db, s.procs[p]);
    assert s.db.rows[..|s.db.rows|] == s.db.rows;
  }

  /** The compare-and-set and the insert keep the transaction in order. */
  lemma LateStatementOk(s: State, p: Pid)
    requires Inv(s) && p in s.procs
    requires s.procs[p].phase.Swap? || s.procs[p].phase.InsertRow?
    ensures ProcessOk(s.db, Step(s, p).procs[p])
    ensures Inserted(Step(s, p).procs[p]) ==> !KeyHeldByOther(s, p, s.procs[p].req.key)
    ensures Holds(Step(s, p).procs[p]) ==> Holds(s.procs[p]) || !LockedByOther(s, p, s.procs[p].req.customer)
  {
    assert ProcessOk(s.db, s.procs[p]);
  }

  /** A statement before the commit changes the state of its own transaction and nothing else. */
  lemma StatementIsLocal(s: State, p: Pid)
    requires p in s.procs && !s.procs[p].phase.Ready?
    ensures p in Step(s, p).procs && Step(s, p).procs[p].req == s.procs[p].req
    ensures Step(s, p) == s.(procs := s.procs[p := Step(s, p).procs[p]])
  {
    var pr' := Step(s, p).procs[p];
    assert Step(s, p).procs == s.procs[p := pr'];
  }

  /** Any statement before the commit leaves the tables alone and the machine in order. */
  lemma StatementKeepsInv(s: State, p: Pid)
    requires Inv(s) && p in s.procs && !s.procs[p].phase.Ready?
    ensures Inv(Step(s, p)) && Step(s, p).db == s.db
  {
    StatementIsLocal(s, p);
    var phase := s.procs[p].phase;
    if phase.KeyCheck? || phase.ReadAccount? || phase.CreateAccount? {
      EarlyStatementOk(s, p);
    } else if phase.Swap? || phase.InsertRow? {
      LateStatementOk(s, p);
    }
    MovedProcessKeepsInv(s, p, Step(s, p).procs[p]);
  }

  lemma ProvisionKeepsInv(s: State, c: CustomerId)
    requires Inv(s)
    ensures Inv(Next(s, Provision(c)))
  {
    var s' := Next(s, Provision(c));
    if s'.db != s.db {
      TotalOfStranger(s.db.rows, c);
      forall q | q in s'.procs ensures ProcessOk(s'.db, s'.procs[q]) {
      }
    }
  }

  lemma NextKeepsInv(s: State, a: Action)
    requires Inv(s)
    ensures Inv(Next(s, a))
  {
    match a {
      case Begin(_, _) =>
      case Advance(p) =>
        if p in s.procs {
          if s.procs[p].phase.Ready? { CommitKeepsInv(s, p); } else { StatementKeepsInv(s, p); }
        }
      case Abort(_) =>
      case Provision(c) => ProvisionKeepsInv(s, c);
    }
  }

  // ----- theorems over whole runs -----

  /**
   * Every interleaving, with aborts, retries and waits, ends in a state where
   * balances equal the ledger, the running balances chain, nothing is zero or
   * negative and no key occurs twice.
   */
  lemma {:induction false} RunsAreConsistent(s: State, actions: seq<Action>)
    requires Inv(s)
    ensures Inv(Exec(s, actions)) && Consistent(Exec(s, actions).db)
    decreases |actions|
  {
    if actions != [] {
      NextKeepsInv(s, actions[0]);
      RunsAreConsistent(Next(s, actions[0]), actions[1..]);
    }
  }

  /** What one action does to the committed tables, as seen from outside. */
  datatype Effect = Posted(req: Request) | Provisioned(c: CustomerId)

  function EffectOf(s: State, a: Action): seq<Effect> {
    match a
    case Advance(p) => if p in s.procs && Inserted(s.procs[p]) then [Posted(s.procs[p].req)] else []
    case Provision(c) => if Next(s, a).db != s.db then [Provisioned(c)] else []
    case _ => []
  }

  function Effects(s: State, actions: seq<Action>): seq<Effect>
    decreases |actions|
  {
    if actions == [] then [] else EffectOf(s, actions[0]) + Effects(Next(s, actions[0]), actions[1..])
  }

  function ApplyEffect(db: Db, e: Effect): Db {
    match e
    case Posted(req) => Post(db, req).0
    case Provisioned(c) => if c in db.balances then db else db.(balances := db.balances[c := 0])
  }

  function Replay(db: Db, effects: seq<Effect>): Db
    decreases |effects|
  {
    if effects == [] then db else Replay(ApplyEffect(db, effects[0]), effects[1..])
  }

  lemma EffectKeepsConsistent(db: Db, e: Effect)
    requires Consistent(db)
    ensures Consistent(ApplyEffect(db, e)) && db.rows <= ApplyEffect(db, e).rows
  {
    match e {
      case Posted(req) => PostKeepsConsistent(db, req);
      case Provisioned(c) => if c !in db.balances { TotalOfStranger(db.rows, c); }
    }
  }

  /** Replaying any committed work keeps the ledger laws and never rewrites a row. */
  lemma {:induction false} ReplayKeepsConsistent(db: Db, effects: seq<Effect>)
    requires Consistent(db)
    ensures Consistent(Replay(db, effects)) && db.rows <= Replay(db, effects).rows
    decreases |effects|
  {
    if effects != [] {
      EffectKeepsConsistent(db, effects[0]);
      ReplayKeepsConsistent(ApplyEffect(db, effects[0]), effects[1..]);
    }
  }

  /** A transaction's commit is one atomic `Post` on the tables as they are at that moment. */
  lemma CommitIsAtomicPost(s: State, p: Pid)
    requires Inv(s) && p in s.procs && Inserted(s.procs[p])
    ensures Step(s, p).db == Post(s.db, s.procs[p].req).0
    ensures Post(s.db, s.procs[p].req).1 == Applied(s.procs[p].phase.entry.value.points)
  {
    var row := s.procs[p].phase.entry.value;
    assert ProcessOk(s.db, s.procs[p]);
    assert RowFits(s.db, s.procs[p], row);
  }

  lemma {:induction false} ReplayConcat(db: Db, e1: seq<Effect>, e2: seq<Effect>)
    ensures Replay(db, e1 + e2) == Replay(Replay(db, e1), e2)
    decreases |e1|
  {
    if e1 == [] {
      assert e1 + e2 == e2;
    } else {
      assert (e1 + e2)[1..] == e1[1..] + e2;
      ReplayConcat(ApplyEffect(db, e1[0]), e1[1..], e2);
    }
  }

  /**
   * The interleaved machine refines the one-step operation: whatever the
   * schedule, the final tables are those of running the committed requests one
   * after another, in commit order.
   */
  lemma {:induction false} RunsAreSerial(s: State, actions: seq<Action>)
    requires Inv(s)
    ensures Exec(s, actions).db == Replay(s.db, Effects(s, actions))
    decreases |actions|
  {
    if actions != [] {
      var a := actions[0];
      var s' := Next(s, a);
      NextKeepsInv(s, a);
      assert s'.db == Replay(s.db, EffectOf(s, a)) by {
        match a {
          case Advance(p) =>
            if p in s.procs {
              if Inserted(s.procs[p]) { CommitIsAtomicPost(s, p); }
                  else if !s.procs[p].phase.Ready? { StatementKeepsInv(s, p); }
            }
          case _ =>
        }
      }
      RunsAreSerial(s', actions[1..]);
      ReplayConcat(s.db, EffectOf(s, a), Effects(s', actions[1..]));
    }
  }

  /**
   * A compare-and-set loses only because somebody else moved this balance:
   * the rows committed since the read change the customer's total, so at least
   * one of them is the customer's.
   */
  lemma LostSwapMeansOthersMoved(s: State, p: Pid, attempt: nat, seen: int, mark: nat)
    requires Inv(s) && p in s.procs && s.procs[p].phase == Swap(attempt, seen, mark)
    requires Step(s, p).procs[p].phase == ReadAccount(attempt + 1)
    ensures s.procs[p].req.customer in s.db.balances && s.db.balances[s.procs[p].req.customer] != seen
    ensures Total(s.db.rows, s.procs[p].req.customer) != Total(s.db.rows[..mark], s.procs[p].req.customer)
    ensures exists i :: mark <= i < |s.db.rows| && s.db.rows[i].customer == s.procs[p].req.customer
  {
    var c := s.procs[p].req.customer;
    assert ProcessOk(s.db, s.procs[p]);
    assert s.db.rows[..|s.db.rows|] == s.db.rows;
    if forall i :: mark <= i < |s.db.rows| ==> s.db.rows[i].customer != c {
      TotalUnchangedBetween(s.db.rows, mark, |s.db.rows|, c);
    }
  }

  /**
   * A balance that went away and came back does no harm: a compare-and-set
   * that wins writes a row that is right for the tables at that moment, even
   * when other rows of the customer were committed since the read.
   */
  lemma WonSwapIsExact(s: State, p: Pid, attempt: nat, seen: int, mark: nat, row: Row)
    requires Inv(s) && p in s.procs && s.procs[p].phase == Swap(attempt, seen, mark)
    requires Step(s, p).procs[p].phase == InsertRow(row)
    ensures row.balanceAfter == Total(s.db.rows, row.customer) + row.points
    ensures Total(s.db.rows, row.customer) == seen
    ensures HasKey(s.db.rows, row.key) || Post(s.db, s.procs[p].req).0 == Append(s.db, row)
  {
    assert ProcessOk(s.db, s.procs[p]);
    if s.procs[p].created {
      TotalOfStranger(s.db.rows, row.customer);
    }
  }

  /**
   * In every run, a transaction turned away by the unique key leaves exactly
   * one committed row with its key: somebody else's, so the request is done.
   */
  lemma DuplicateMeansPostedOnce(s: State, actions: seq<Action>, p: Pid)
    requires Inv(s) && p in Exec(s, actions).procs && Exec(s, actions).procs[p].phase == Aborted(Duplicate)
    ensures var rows, key := Exec(s, actions).db.rows, Exec(s, actions).procs[p].req.key;
            exists i :: 0 <= i < |rows| && rows[i].key == key && forall j :: 0 <= j < |rows| && rows[j].key == key ==>
                j == i
  {
    RunsAreConsistent(s, actions);
    var t := Exec(s, actions);
    assert ProcessOk(t.db, t.procs[p]);
    var i :| 0 <= i < |t.db.rows| && t.db.rows[i].key == t.procs[p].req.key;
    assert forall j :: 0 <= j < |t.db.rows| && t.db.rows[j].key == t.db.rows[i].key ==> j == i;
  }

  /** The ledger only grows: what is committed once stays, in place. */
  lemma {:induction false} LedgerOnlyGrows(s: State, actions: seq<Action>)
    ensures s.db.rows <= Exec(s, actions).db.rows
    decreases |actions|
  {
    if actions != [] {
      LedgerOnlyGrows(Next(s, actions[0]), actions[1..]);
    }
  }

  /** While a transaction holds the lock of an account, nobody else changes its balance. */
  lemma LockFreezesBalance(s: State, p: Pid, a: Action)
    requires Inv(s) && p in s.procs && Holds(s.procs[p])
    requires a != Advance(p)
    ensures (s.procs[p].req.customer in s.db.balances) == (s.procs[p].req.customer in Next(s, a).db.balances)
    ensures s.procs[p].req.customer in s.db.balances ==>
              Next(s, a).db.balances[s.procs[p].req.customer] == s.db.balances[s.procs[p].req.customer]
  {
    if a.Advance? && a.p in s.procs && Inserted(s.procs[a.p]) {
      assert Holds(s.procs[a.p]);
      assert ProcessOk(s.db, s.procs[a.p]);
    }
  }
}
