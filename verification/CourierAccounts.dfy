/**
 * Courier accounts: soft deletion, a seven-day restore window and the sweep
 * that burns what the window leaves behind.
 *
 * The unique index over (tenant, phone) covers live rows only, so a deleted
 * row may share its number; a write that would make two live rows share one
 * is rejected. Reads and guarded writes of all requests interleave.
 */
module CourierAccounts {
  import opened Wrappers

  type CourierId = string
  type TenantId = string
  type BrandId = string
  type Phone = string
  type Pid = nat

  const WINDOW_MS := 7 * 24 * 60 * 60 * 1000

  /** `deletedAt` is None for a live row; a staff block only clears `active`. */
  datatype Row = Row(tenant: TenantId, brand: BrandId, phone: Option<Phone>, pin: string, active: bool,
                     deletedAt: Option<int>)

  type Rows = map<CourierId, Row>

  datatype Burn = Burn(id: CourierId, row: Row, at: int, cutoff: int, sweeper: Pid)

  datatype Request =
    | Deleting(courier: CourierId)
    | Restoring(target: CourierId, since: int, staffOf: Option<BrandId>)
    | Sweeping(cutoff: int, pending: seq<CourierId>)

  datatype State = State(rows: Rows, tenants: set<TenantId>, requests: map<Pid, Request>, burned: seq<Burn>, now: int)

  datatype Action =
    | Create(id: CourierId, tenant: TenantId, brand: BrandId, phone: Phone, pin: string)
    | StaffUpdate(id: CourierId, brand: BrandId, active: Option<bool>, newPin: Option<string>)
    | DeleteRead(p: Pid, id: CourierId, pin: string)
    | DeleteWrite(p: Pid, busy: bool)
    | RestoreRead(p: Pid, declared: Option<TenantId>, phone: Phone, pin: string, found: seq<CourierId>)
    | StaffRestoreRead(p: Pid, id: CourierId, brand: BrandId)
    | RestoreWrite(p: Pid)
    | SweepRead(p: Pid, order: seq<CourierId>)
    | SweepDelete(p: Pid)
    | SetTenant(tenant: TenantId, on: bool)
    | Tick(ms: nat)

  const EMPTY := State(map[], {}, map[], [], 0)

  predicate Live(row: Row) {
    row.deletedAt.None?
  }

  predicate DeletedAfter(row: Row, cutoff: int) {
    row.deletedAt.Some? && row.deletedAt.value > cutoff
  }

  predicate DeletedBefore(row: Row, cutoff: int) {
    row.deletedAt.Some? && row.deletedAt.value < cutoff
  }

  /** Some other live row of the tenant holds the number. */
  predicate PhoneTaken(rows: Rows, id: CourierId, tenant: TenantId, phone: Phone) {
    exists other :: other in rows && other != id && Live(rows[other]) && rows[other].tenant == tenant
        && rows[other].phone == Some(phone)
  }

  // ----- the login lookup -----

  datatype Resolution = Unknown | Resolved(id: CourierId) | AmbiguousTenant

  /** What a login or a restore picks from the two lookups; `found` holds at most two rows. */
  function ResolveLoginRow(declared: bool, found: seq<CourierId>, scoped: Option<CourierId>): Resolution {
    if declared then (if scoped.Some? then Resolved(scoped.value) else Unknown)
    else if |found| > 1 then AmbiguousTenant
    else if |found| == 1 then Resolved(found[0])
    else Unknown
  }

  /** Some answer of a query over `candidates` with `take: n`, in no particular order. */
  predicate Takes(found: seq<CourierId>, candidates: set<CourierId>, n: nat) {
    && (forall i :: 0 <= i < |found| ==> found[i] in candidates)
    && (forall i, j :: 0 <= i < j < |found| ==> found[i] != found[j])
    && |found| == (if |candidates| < n then |candidates| else n)
  }

  /** ... and sorted by the most recent deletion. */
  predicate TakesLatest(found: seq<CourierId>, rows: Rows, candidates: set<CourierId>, n: nat)
    requires forall id :: id in candidates ==> id in rows && rows[id].deletedAt.Some?
  {
    && Takes(found, candidates, n)
    && (forall i, j :: 0 <= i < j < |found| ==> rows[found[i]].deletedAt.value >= rows[found[j]].deletedAt.value)
    && (forall i, id :: 0 <= i < |found| && id in candidates && id !in found ==>
          rows[found[i]].deletedAt.value >= rows[id].deletedAt.value)
  }

  /** Live rows with the number in active tenants, or in the one declared. */
  function LoginCandidates(s: State, declared: Option<TenantId>, phone: Phone): set<CourierId> {
    set id | id in s.rows && Live(s.rows[id]) && s.rows[id].phone == Some(phone) && s.rows[id].tenant in s.tenants
             && (declared.None? || s.rows[id].tenant == declared.value)
  }

  function RestoreCandidates(s: State, declared: Option<TenantId>, phone: Phone, cutoff: int): set<CourierId> {
    set id | id in s.rows && DeletedAfter(s.rows[id], cutoff) && s.rows[id].phone == Some(phone)
        && s.rows[id].tenant in s.tenants
             && (declared.None? || s.rows[id].tenant == declared.value)
  }

  function Tenants(rows: Rows, ids: set<CourierId>): set<TenantId>
    requires ids <= rows.Keys
  {
    set id | id in ids :: rows[id].tenant
  }

  function First(found: seq<CourierId>): Option<CourierId> {
    if found == [] then None else Some(found[0])
  }

  // ----- steps -----

  function Hold(s: State, p: Pid, req: Request): State {
    s.(requests := s.requests[p := req])
  }

  function Drop(s: State, p: Pid): State {
    s.(requests := s.requests - {p})
  }

  function Cutoff(s: State): int {
    s.now - WINDOW_MS
  }

  function DoCreate(s: State, id: CourierId, tenant: TenantId, brand: BrandId, phone: Phone, pin: string): State {
    if id in s.rows || (exists b :: b in s.burned && b.id == id) || PhoneTaken(s.rows, id, tenant, phone) then s
    else s.(rows := s.rows[id := Row(tenant, brand, Some(phone), pin, true, None)])
  }

  function DoStaffUpdate(s: State, id: CourierId, brand: BrandId, active: Option<bool>, newPin: Option<string>): State {
    if id !in s.rows || s.rows[id].brand != brand then s
    else
      var row := s.rows[id];
      s.(rows := s.rows[id := row.(active := if active.Some? then active.value else row.active,
                                   pin := if newPin.Some? then newPin.value else row.pin)])
  }

  function DoDeleteRead(s: State, p: Pid, id: CourierId, pin: string): State {
    if p in s.requests || id !in s.rows || !s.rows[id].active || s.rows[id].pin != pin then s
        else Hold(s, p, Deleting(id))
  }

  function DoDeleteWrite(s: State, p: Pid, busy: bool): State {
    if p !in s.requests || !s.requests[p].Deleting? then s
    else
      var id := s.requests[p].courier;
      if id in s.rows && s.rows[id].active && !busy
      then Drop(s, p).(rows := s.rows[id := s.rows[id].(active := false, deletedAt := Some(s.now))])
      else Drop(s, p)
  }

  function DoRestoreRead(s: State, p: Pid, declared: Option<TenantId>, phone: Phone, pin: string,
                         found: seq<CourierId>): State {
    var candidates := RestoreCandidates(s, declared, phone, Cutoff(s));
    if p in s.requests || !TakesLatest(found, s.rows, candidates, if declared.Some? then 1 else 2) then s
    else
      var answer := ResolveLoginRow(declared.Some?, found, First(found));
      if answer.Resolved? && answer.id in s.rows && s.rows[answer.id].phone.Some? && s.rows[answer.id].pin == pin
      then Hold(s, p, Restoring(answer.id, Cutoff(s), None))
      else s
  }

  function DoStaffRestoreRead(s: State, p: Pid, id: CourierId, brand: BrandId): State {
    if p in s.requests then s else Hold(s, p, Restoring(id, Cutoff(s), Some(brand)))
  }

  /** The guard that rides on the write of a restore. */
  predicate Restorable(rows: Rows, id: CourierId, cutoff: int, staffOf: Option<BrandId>) {
    && id in rows
    && DeletedAfter(rows[id], cutoff)
    && (staffOf.Some? ==> rows[id].brand == staffOf.value && rows[id].phone.Some?)
  }

  /** The unique index refuses a second live row with the number. */
  predicate IndexRefuses(rows: Rows, id: CourierId)
    requires id in rows
  {
    rows[id].phone.Some? && PhoneTaken(rows, id, rows[id].tenant, rows[id].phone.value)
  }

  function DoRestoreWrite(s: State, p: Pid): State {
    if p !in s.requests || !s.requests[p].Restoring? then s
    else
      var Restoring(id, cutoff, staffOf) := s.requests[p];
      if Restorable(s.rows, id, cutoff, staffOf) && !IndexRefuses(s.rows, id)
      then Drop(s, p).(rows := s.rows[id := s.rows[id].(active := true, deletedAt := None)])
      else Drop(s, p)
  }

  function ExpiredIds(s: State, cutoff: int): set<CourierId> {
    set id | id in s.rows && DeletedBefore(s.rows[id], cutoff)
  }

  function DoSweepRead(s: State, p: Pid, order: seq<CourierId>): State {
    if p in s.requests || !Takes(order, ExpiredIds(s, Cutoff(s)), |ExpiredIds(s, Cutoff(s))|) then s
    else Hold(s, p, Sweeping(Cutoff(s), order))
  }

  function DoSweepDelete(s: State, p: Pid): State {
    if p !in s.requests || !s.requests[p].Sweeping? then s
    else
      var Sweeping(cutoff, pending) := s.requests[p];
      if pending == [] then Drop(s, p)
      else
        var id, t := pending[0], Hold(s, p, Sweeping(cutoff, pending[1..]));
        if id in s.rows && DeletedBefore(s.rows[id], cutoff)
        then t.(rows := s.rows - {id}, burned := s.burned + [Burn(id, s.rows[id], s.now, cutoff, p)])
        else t
  }

  function Next(s: State, a: Action): State {
    match a
    case Create(id, tenant, brand, phone, pin) => DoCreate(s, id, tenant, brand, phone, pin)
    case StaffUpdate(id, brand, active, newPin) => DoStaffUpdate(s, id, brand, active, newPin)
    case DeleteRead(p, id, pin) => DoDeleteRead(s, p, id, pin)
    case DeleteWrite(p, busy) => DoDeleteWrite(s, p, busy)
    case RestoreRead(p, declared, phone, pin, found) => DoRestoreRead(s, p, declared, phone, pin, found)
    case StaffRestoreRead(p, id, brand) => DoStaffRestoreRead(s, p, id, brand)
    case RestoreWrite(p) => DoRestoreWrite(s, p)
    case SweepRead(p, order) => DoSweepRead(s, p, order)
    case SweepDelete(p) => DoSweepDelete(s, p)
    case SetTenant(tenant, on) => s.(tenants := if on then s.tenants + {tenant} else s.tenants - {tenant})
    case Tick(ms) => s.(now := s.now + ms)
  }

  function Exec(s: State, actions: seq<Action>): State
    decreases |actions|
  {
    if actions == [] then s else Exec(Next(s, actions[0]), actions[1..])
  }

  // ----- the invariant -----

  /** At most one live row per tenant and number. */
  ghost predicate LiveUnique(rows: Rows) {
    forall i, j ::
      (i in rows && j in rows && i != j && Live(rows[i]) && Live(rows[j]) && rows[i].phone.Some?
       && rows[i].tenant == rows[j].tenant) ==>
      rows[i].phone != rows[j].phone
  }

  ghost predicate RequestOk(s: State, req: Request) {
    match req
    case Deleting(_) => true
    case Restoring(_, since, _) => since <= Cutoff(s)
    case Sweeping(cutoff, _) => cutoff <= Cutoff(s)
  }

  /** The burned row had been deleted for more than the whole window. */
  ghost predicate BurnOk(b: Burn) {
    b.row.deletedAt.Some? && b.row.deletedAt.value < b.cutoff <= b.at - WINDOW_MS
  }

  ghost predicate Inv(s: State) {
    && LiveUnique(s.rows)
    && (forall id :: id in s.rows && s.rows[id].deletedAt.Some? ==> s.rows[id].deletedAt.value <= s.now)
    && (forall p :: p in s.requests ==> RequestOk(s, s.requests[p]))
    && (forall b :: b in s.burned ==> BurnOk(b) && b.at <= s.now && b.id !in s.rows)
  }

  lemma SameButRequests(s: State, t: State)
    requires Inv(s) && t.rows == s.rows && t.burned == s.burned && t.now == s.now
    requires forall p :: p in t.requests ==> RequestOk(s, t.requests[p])
    ensures Inv(t)
  {
  }

  lemma RestoreWriteKeepsInv(s: State, p: Pid)
    requires Inv(s)
    ensures Inv(DoRestoreWrite(s, p))
  {
    if p in s.requests && s.requests[p].Restoring? {
      var Restoring(id, cutoff, staffOf) := s.requests[p];
      SameButRequests(s, Drop(s, p));
      if Restorable(s.rows, id, cutoff, staffOf) && !IndexRefuses(s.rows, id) {
        var t := DoRestoreWrite(s, p);
        forall i, j | i in t.rows && j in t.rows && i != j && Live(t.rows[i]) && Live(t.rows[j])
            && t.rows[i].phone.Some? && t.rows[i].tenant == t.rows[j].tenant
          ensures t.rows[i].phone != t.rows[j].phone
        {
          if i == id {
            assert !PhoneTaken(s.rows, id, s.rows[id].tenant, s.rows[id].phone.value);
          } else if j == id && s.rows[id].phone.Some? {
            assert !PhoneTaken(s.rows, id, s.rows[id].tenant, s.rows[id].phone.value);
          }
        }
      }
    }
  }

  lemma CreateKeepsInv(s: State, id: CourierId, tenant: TenantId, brand: BrandId, phone: Phone, pin: string)
    requires Inv(s)
    ensures Inv(DoCreate(s, id, tenant, brand, phone, pin))
  {
  }

  lemma SweepDeleteKeepsInv(s: State, p: Pid)
    requires Inv(s)
    ensures Inv(DoSweepDelete(s, p))
  {
    if p in s.requests && s.requests[p].Sweeping? {
      assert RequestOk(s, s.requests[p]);
    }
  }

  lemma StaffUpdateKeepsInv(s: State, id: CourierId, brand: BrandId, active: Option<bool>, newPin: Option<string>)
    requires Inv(s)
    ensures Inv(DoStaffUpdate(s, id, brand, active, newPin))
  {
  }

  lemma DeleteWriteKeepsInv(s: State, p: Pid, busy: bool)
    requires Inv(s)
    ensures Inv(DoDeleteWrite(s, p, busy))
  {
  }

  lemma NextKeepsInv(s: State, a: Action)
    requires Inv(s)
    ensures Inv(Next(s, a))
  {
    match a
    case Create(id, tenant, brand, phone, pin) => CreateKeepsInv(s, id, tenant, brand, phone, pin);
    case StaffUpdate(id, brand, active, newPin) => StaffUpdateKeepsInv(s, id, brand, active, newPin);
    case DeleteRead(p, id, pin) => SameButRequests(s, Next(s, a));
    case DeleteWrite(p, busy) => DeleteWriteKeepsInv(s, p, busy);
    case RestoreRead(p, declared, phone, pin, found) => SameButRequests(s, Next(s, a));
    case StaffRestoreRead(p, id, brand) => SameButRequests(s, Next(s, a));
    case RestoreWrite(p) => RestoreWriteKeepsInv(s, p);
    case SweepRead(p, order) => SameButRequests(s, Next(s, a));
    case SweepDelete(p) => SweepDeleteKeepsInv(s, p);
    case SetTenant(tenant, on) =>
    case Tick(ms) =>
  }

  lemma {:induction false} RunsKeepInv(s: State, actions: seq<Action>)
    requires Inv(s)
    ensures Inv(Exec(s, actions))
    decreases |actions|
  {
    if actions != [] {
      NextKeepsInv(s, actions[0]);
      RunsKeepInv(Next(s, actions[0]), actions[1..]);
    }
  }

  // ----- what is never burned -----

  /**
   * In every run, from no rows at all: no two live rows of a tenant share a
   * number, and what was burned was deleted more than seven days before.
   */
  lemma OnlyOldDeletionsBurn(actions: seq<Action>)
    ensures var s := Exec(EMPTY, actions);
            && LiveUnique(s.rows)
            && forall b :: b in s.burned ==>
                 && b.row.deletedAt.Some? && b.row.deletedAt.value + WINDOW_MS < b.at <= s.now
                 && b.id !in s.rows
  {
    RunsKeepInv(EMPTY, actions);
  }

  /** The row is live, or was deleted no earlier than t. */
  ghost predicate LiveSince(rows: Rows, id: CourierId, t: int) {
    id in rows && (Live(rows[id]) || rows[id].deletedAt.value >= t)
  }

  /** A row that is live at some moment is burned only by a sweep whose cutoff is later than that moment. */
  ghost predicate BurnsAreLater(s: State, id: CourierId, t: int) {
    || LiveSince(s.rows, id, t)
    || exists b :: b in s.burned && b.id == id && b.cutoff > t
  }

  lemma StepBurnsLater(s: State, a: Action, id: CourierId, t: int)
    requires BurnsAreLater(s, id, t) && t <= s.now
    ensures BurnsAreLater(Next(s, a), id, t) && t <= Next(s, a).now
  {
    if !LiveSince(s.rows, id, t) {
      var b :| b in s.burned && b.id == id && b.cutoff > t;
      assert b in Next(s, a).burned;
    } else if a.SweepDelete? && !LiveSince(Next(s, a).rows, id, t) {
      var u := Next(s, a);
      assert u.burned[|s.burned|] in u.burned;
    }
  }

  /**
   * Whatever interleaves afterwards, the only sweep that can burn a row that
   * was live at time `s.now` is one whose read came at least seven days later.
   * In particular a row restored after a sweep's read survives that sweep.
   */
  lemma {:induction false} RestoredRowsSurviveTheSweep(s: State, actions: seq<Action>, id: CourierId, t: int)
    requires BurnsAreLater(s, id, t) && t <= s.now
    ensures BurnsAreLater(Exec(s, actions), id, t)
    decreases |actions|
  {
    if actions != [] {
      StepBurnsLater(s, actions[0], id, t);
      RestoredRowsSurviveTheSweep(Next(s, actions[0]), actions[1..], id, t);
    }
  }

  /** A live row is still there a week later, deleted in the meantime or not. */
  lemma LiveRowsOutliveTheWindow(s: State, actions: seq<Action>, id: CourierId)
    requires Inv(s) && id in s.rows && Live(s.rows[id])
    requires Exec(s, actions).now <= s.now + WINDOW_MS
    ensures id in Exec(s, actions).rows
  {
    RestoredRowsSurviveTheSweep(s, actions, id, s.now);
    RunsKeepInv(s, actions);
  }

  /** A row comes back to life only inside the window that its request read, and never beside a live namesake. */
  lemma RevivalIsInTheWindow(s: State, a: Action, id: CourierId)
    requires Inv(s) && id in s.rows && !Live(s.rows[id]) && id in Next(s, a).rows && Live(Next(s, a).rows[id])
    ensures a.RestoreWrite? && a.p in s.requests && s.requests[a.p].Restoring?
    ensures s.requests[a.p].target == id && s.rows[id].deletedAt.value > s.requests[a.p].since
    ensures s.rows[id].phone.Some? ==> !PhoneTaken(s.rows, id, s.rows[id].tenant, s.rows[id].phone.value)
    ensures Next(s, a).rows[id] == s.rows[id].(active := true, deletedAt := None)
  {
  }

  /** No panel update and no restore of the row. */
  predicate LeavesRow(s: State, a: Action, id: CourierId) {
    && !(a.StaffUpdate? && a.id == id)
    && !(a.RestoreWrite? && a.p in s.requests && s.requests[a.p].Restoring? && s.requests[a.p].target == id)
  }

  predicate LeftAlone(s: State, actions: seq<Action>, id: CourierId)
    decreases |actions|
  {
    actions == [] || (LeavesRow(s, actions[0], id) && LeftAlone(Next(s, actions[0]), actions[1..], id))
  }

  /** Inside the window a self-deleted row changes only by such a write: every sweep passes it by. */
  lemma StepLeavesDeletedRow(s: State, a: Action, id: CourierId)
    requires Inv(s) && id in s.rows && !s.rows[id].active && s.rows[id].deletedAt.Some?
    requires LeavesRow(s, a, id) && s.now <= s.rows[id].deletedAt.value + WINDOW_MS
    ensures id in Next(s, a).rows && Next(s, a).rows[id] == s.rows[id]
  {
    if a.SweepDelete? && a.p in s.requests {
      assert RequestOk(s, s.requests[a.p]);
    }
  }

  lemma TimePasses(s: State, a: Action)
    ensures s.now <= Next(s, a).now
  {
  }

  lemma {:induction false} TimePassesThroughRuns(s: State, actions: seq<Action>)
    ensures s.now <= Exec(s, actions).now
    decreases |actions|
  {
    hide Next;
    if actions != [] {
      TimePasses(s, actions[0]);
      TimePassesThroughRuns(Next(s, actions[0]), actions[1..]);
    }
  }

  lemma {:induction false} RunLeavesDeletedRow(s: State, actions: seq<Action>, id: CourierId)
    requires Inv(s) && id in s.rows && !s.rows[id].active && s.rows[id].deletedAt.Some?
    requires LeftAlone(s, actions, id) && Exec(s, actions).now <= s.rows[id].deletedAt.value + WINDOW_MS
    ensures id in Exec(s, actions).rows && Exec(s, actions).rows[id] == s.rows[id]
    decreases |actions|
  {
    hide Inv, Next, LeavesRow;
    if actions != [] {
      TimePassesThroughRuns(s, actions);
      StepLeavesDeletedRow(s, actions[0], id);
      NextKeepsInv(s, actions[0]);
      RunLeavesDeletedRow(Next(s, actions[0]), actions[1..], id);
    }
  }

  /**
   * A self-deletion, any run inside the window that leaves the row alone, and
   * the write of a restore, by PIN or from the panel of the row's brand: the
   * row is what it was before the deletion, unless the index refuses because a
   * live namesake has come in between.
   */
  lemma RestoreUndoesDeletion(s: State, p: Pid, between: seq<Action>, q: Pid, id: CourierId)
    requires Inv(s) && id in s.rows && s.rows[id].active && Live(s.rows[id])
    requires p in s.requests && s.requests[p] == Deleting(id)
    requires var deleted := Next(s, DeleteWrite(p, false));
             var waiting := Exec(deleted, between);
             && LeftAlone(deleted, between, id) && waiting.now < s.now + WINDOW_MS
             && q in waiting.requests && waiting.requests[q].Restoring? && waiting.requests[q].target == id
             && (waiting.requests[q].staffOf.Some? ==>
                 waiting.requests[q].staffOf == Some(s.rows[id].brand) && s.rows[id].phone.Some?)
    ensures var deleted := Next(s, DeleteWrite(p, false));
            var waiting := Exec(deleted, between);
            && deleted.rows == s.rows[id := s.rows[id].(active := false, deletedAt := Some(s.now))]
            && id in waiting.rows && waiting.rows[id] == deleted.rows[id]
            && Next(waiting, RestoreWrite(q)).rows ==
                (if IndexRefuses(waiting.rows, id) then waiting.rows else waiting.rows[id := s.rows[id]])
  {
    hide Inv;
    var deleted := Next(s, DeleteWrite(p, false));
    var waiting := Exec(deleted, between);
    NextKeepsInv(s, DeleteWrite(p, false));
    RunLeavesDeletedRow(deleted, between, id);
    RunsKeepInv(deleted, between);
    ReadInTheWindow(waiting, q);
  }

  /** A restore's cutoff is a window old at least. */
  lemma ReadInTheWindow(s: State, q: Pid)
    requires Inv(s) && q in s.requests && s.requests[q].Restoring?
    ensures s.requests[q].since <= s.now - WINDOW_MS
  {
    assert RequestOk(s, s.requests[q]);
  }

  // ----- the two-row lookup -----

  lemma TakeTwo(found: seq<CourierId>, candidates: set<CourierId>)
    requires Takes(found, candidates, 2)
    ensures |found| == 0 ==> candidates == {}
    ensures |found| == 1 ==> candidates == {found[0]}
    ensures |found| >= 2 ==> |found| == 2 && found[0] in candidates && found[1] in candidates && found[0] != found[1]
  {
    if |found| == 1 {
      var rest := candidates - {found[0]};
      assert |rest| == 0;
      assert candidates == rest + {found[0]};
    }
  }

  lemma OneTenant(tenants: set<TenantId>, t: TenantId, u: TenantId)
    requires |tenants| == 1 && t in tenants && u in tenants
    ensures t == u
  {
    var rest := tenants - {t};
    assert |rest| == 0;
    assert u == t || u in rest;
  }

  /**
   * However the database picks its two rows, a login without a declared tenant
   * answers what the whole table says: unknown, the row, or ambiguous, exactly
   * when no, one or several active tenants have a live row with that number.
   */
  lemma LoginLookupAgreesWithTheTable(s: State, phone: Phone, found: seq<CourierId>)
    requires Inv(s) && Takes(found, LoginCandidates(s, None, phone), 2)
    ensures var owners := Tenants(s.rows, LoginCandidates(s, None, phone));
            var answer := ResolveLoginRow(false, found, None);
            && (answer.Unknown? <==> |owners| == 0)
            && (answer.Resolved? <==> |owners| == 1)
            && (answer.AmbiguousTenant? <==> |owners| >= 2)
            && (answer.Resolved? ==> LoginCandidates(s, None, phone) == {answer.id})
  {
    var candidates := LoginCandidates(s, None, phone);
    var owners := Tenants(s.rows, candidates);
    TakeTwo(found, candidates);
    if |found| == 1 {
      assert owners == {s.rows[found[0]].tenant};
    }
    if |found| >= 2 {
      var t, u := s.rows[found[0]].tenant, s.rows[found[1]].tenant;
      assert t != u;
      assert t in owners && u in owners;
      if |owners| == 1 { OneTenant(owners, t, u); }
    }
    if |found| == 0 {
      assert owners == {};
    }
  }

  /** With a declared tenant there is at most one row to find. */
  lemma DeclaredLoginIsExact(s: State, tenant: TenantId, phone: Phone, found: seq<CourierId>)
    requires Inv(s) && Takes(found, LoginCandidates(s, Some(tenant), phone), 1)
    ensures var answer := ResolveLoginRow(true, [], First(found));
            if answer.Resolved? then LoginCandidates(s, Some(tenant), phone) == {answer.id}
            else answer.Unknown? && LoginCandidates(s, Some(tenant), phone) == {}
  {
    var candidates := LoginCandidates(s, Some(tenant), phone);
    if found != [] {
      forall id | id in candidates
        ensures id == found[0]
      {
      }
    }
  }

  /**
   * A restore without a declared tenant says "several tenants" exactly when
   * two deleted rows are in the window, and that is true of the tenants
   * exactly when no single tenant owns all of several rows.
   */
  lemma RestoreIsAmbiguousExactly(s: State, phone: Phone, cutoff: int, found: seq<CourierId>)
    requires Takes(found, RestoreCandidates(s, None, phone, cutoff), 2)
    ensures var candidates := RestoreCandidates(s, None, phone, cutoff);
            var owners := Tenants(s.rows, candidates);
            var answer := ResolveLoginRow(false, found, None);
            && (answer.Unknown? <==> |owners| == 0)
            && (answer.AmbiguousTenant? <==> |candidates| >= 2)
            && ((answer.AmbiguousTenant? <==> |owners| >= 2) <==> (|candidates| <= 1 || |owners| >= 2))
            && (answer.Resolved? ==> candidates == {answer.id})
  {
    var candidates := RestoreCandidates(s, None, phone, cutoff);
    var owners := Tenants(s.rows, candidates);
    TakeTwo(found, candidates);
    if |found| == 1 {
      assert owners == {s.rows[found[0]].tenant};
    }
    if |found| >= 2 {
      assert s.rows[found[0]].tenant in owners;
    }
    if |found| == 0 {
      assert owners == {};
    }
  }

  const TWICE_DELETED := State(
    map["a" := Row("t", "b", Some("7"), "1", false, Some(10)), "c" := Row("t", "b", Some("7"), "2", false, Some(20))],
    {"t"}, map[], [], 30)

  /** One tenant, two deleted couriers with one number: the restore answers "several tenants". */
  lemma RestoreAmbiguityInOneTenant(found: seq<CourierId>)
    requires Takes(found, RestoreCandidates(TWICE_DELETED, None, "7", Cutoff(TWICE_DELETED)), 2)
    ensures Inv(TWICE_DELETED)
    ensures ResolveLoginRow(false, found, None).AmbiguousTenant?
    ensures Tenants(TWICE_DELETED.rows, RestoreCandidates(TWICE_DELETED, None, "7", Cutoff(TWICE_DELETED))) == {"t"}
  {
    var candidates := RestoreCandidates(TWICE_DELETED, None, "7", Cutoff(TWICE_DELETED));
    assert candidates == {"a", "c"};
  }

  /** With the tenant declared, the restore takes the row deleted last. */
  lemma DeclaredRestoreTakesTheLatest(s: State, tenant: TenantId, phone: Phone, cutoff: int, found: seq<CourierId>)
    requires TakesLatest(found, s.rows, RestoreCandidates(s, Some(tenant), phone, cutoff), 1)
    ensures var candidates := RestoreCandidates(s, Some(tenant), phone, cutoff);
            var answer := ResolveLoginRow(true, [], First(found));
            && (answer.Unknown? <==> candidates == {})
            && !answer.AmbiguousTenant?
            && (answer.Resolved? ==>
                  && answer.id in candidates
                  && forall id :: id in candidates ==> s.rows[id].deletedAt.value <= s.rows[answer.id].deletedAt.value)
  {
    var candidates := RestoreCandidates(s, Some(tenant), phone, cutoff);
    if found != [] {
      assert found[0] in candidates;
      forall id | id in candidates
        ensures s.rows[id].deletedAt.value <= s.rows[found[0]].deletedAt.value
      {
        if id in found {
          assert id == found[0];
        }
      }
    }
  }
}
