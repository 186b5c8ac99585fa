/**
 * Cook shifts: who is signed in at which kitchen terminal.
 *
 * A login locks the cook's row, then the terminal's row, and then closes and
 * opens shifts; what it writes becomes visible when it commits, and the shift
 * rows it has written stay locked until then. Logins, deactivations, logouts,
 * timeouts and kitchen writes interleave statement by statement; a statement
 * that needs a lock another transaction holds waits, which changes nothing.
 */
module Cooks {
  import opened Wrappers

  type CookId = string
  type TerminalId = string
  type ShiftId = string
  type BranchId = string
  type Pid = nat

  const COOK_TTL_MS := 8 * 60 * 60 * 1000

  datatype Cook = Cook(branch: BranchId, active: bool, pin: string)

  datatype Terminal = Terminal(branch: BranchId, active: bool)

  datatype Reason = TIMEOUT | SHIFT_CHANGE | LOGOUT

  datatype Ending = Ending(at: int, reason: Reason)

  datatype Shift = Shift(cook: CookId, terminal: TerminalId, branch: BranchId, startedAt: int, ended: Option<Ending>)

  /** A history row that names a cook. `checkedAt` is when the shift was found open and fresh. */
  datatype Attribution = Attribution(cook: CookId, shift: ShiftId, terminal: TerminalId, branch: BranchId,
                                     checkedAt: int)

  datatype Stage = Start | CookLocked | BothLocked | Rechecked | Expired | Searched | Closed | Created | Found

  /** A sign-in: `closes` and `newShift` are what it has written and not committed. */
  datatype SignIn = SignIn(
    cook: CookId,
    terminal: TerminalId,
    branch: BranchId,
    pin: string,
    stage: Stage,
    at: int,
    closes: map<ShiftId, Ending>,
    newShift: ShiftId)

  /** The owner changes a cook's PIN or activity. */
  datatype Edit = Edit(cook: CookId, active: Option<bool>, newPin: Option<string>, stage: Stage,
                       closes: map<ShiftId, Ending>)

  datatype Request = Login(login: SignIn) | Update(edit: Edit) | Kitchen(actor: Attribution, holding: bool)

  datatype State = State(
    cooks: map<CookId, Cook>,
    terminals: map<TerminalId, Terminal>,
    shifts: map<ShiftId, Shift>,
    requests: map<Pid, Request>,
    history: seq<Attribution>,
    now: int)

  datatype Action =
    | AddCook(cook: CookId, branch: BranchId, pin: string)
    | AddTerminal(terminal: TerminalId, branch: BranchId, on: bool)
    | LoginBegin(p: Pid, cook: CookId, terminal: TerminalId, pin: string)
    | LockCook(p: Pid)
    | LockTerminal(p: Pid)
    | Recheck(p: Pid)
    | Expire(p: Pid)
    | Search(p: Pid)
    | CloseOthers(p: Pid)
    | Create(p: Pid, id: ShiftId)
    | UpdateBegin(p: Pid, cook: CookId, active: Option<bool>, newPin: Option<string>)
    | CloseOwn(p: Pid)
    | Commit(p: Pid)
    | Abort(p: Pid)
    | Logout(cook: CookId, shift: ShiftId)
    | VerifyTimeout(shift: ShiftId)
    | KitchenBegin(p: Pid, cook: CookId, shift: ShiftId, terminal: TerminalId, branch: BranchId)
    | LockShift(p: Pid)
    | Tick(ms: nat)

  // ----- locks -----

  predicate HoldsCook(req: Request, c: CookId) {
    match req
    case Login(l) => l.cook == c && !l.stage.Start?
    case Update(e) => e.cook == c && !e.stage.Start?
    case Kitchen(_, _) => false
  }

  predicate HoldsTerminal(req: Request, t: TerminalId) {
    req.Login? && req.login.terminal == t && !req.login.stage.Start? && !req.login.stage.CookLocked?
  }

  predicate HoldsShift(req: Request, id: ShiftId) {
    match req
    case Login(l) => id in l.closes
    case Update(e) => id in e.closes
    case Kitchen(actor, holding) => holding && actor.shift == id
  }

  predicate CookBusy(s: State, p: Pid, c: CookId) {
    exists q :: q in s.requests && q != p && HoldsCook(s.requests[q], c)
  }

  predicate TerminalBusy(s: State, p: Pid, t: TerminalId) {
    exists q :: q in s.requests && q != p && HoldsTerminal(s.requests[q], t)
  }

  predicate ShiftBusy(s: State, p: Pid, id: ShiftId) {
    exists q :: q in s.requests && q != p && HoldsShift(s.requests[q], id)
  }

  predicate Locked(s: State, id: ShiftId) {
    exists q :: q in s.requests && HoldsShift(s.requests[q], id)
  }

  predicate Reserved(s: State, id: ShiftId) {
    exists q :: q in s.requests && s.requests[q].Login? && s.requests[q].login.stage.Created?
        && s.requests[q].login.newShift == id
  }

  // ----- shifts -----

  predicate Open(shift: Shift) {
    shift.ended.None?
  }

  predicate Touches(shift: Shift, c: CookId, t: TerminalId) {
    shift.cook == c || shift.terminal == t
  }

  predicate TimedOut(shift: Shift, at: int) {
    shift.startedAt <= at - COOK_TTL_MS
  }

  /** The open shifts of a cook or a terminal that the request has not closed yet. */
  function Remaining(s: State, c: CookId, t: TerminalId, closes: map<ShiftId, Ending>): set<ShiftId> {
    set id | id in s.shifts && Open(s.shifts[id]) && Touches(s.shifts[id], c, t) && id !in closes
  }

  function OwnOpen(s: State, c: CookId): set<ShiftId> {
    set id | id in s.shifts && Open(s.shifts[id]) && s.shifts[id].cook == c
  }

  function ExpiredIds(s: State, c: CookId, t: TerminalId, at: int): set<ShiftId> {
    set id | id in s.shifts && Open(s.shifts[id]) && Touches(s.shifts[id], c, t) && TimedOut(s.shifts[id], at)
  }

  predicate AnyBusy(s: State, p: Pid, ids: set<ShiftId>) {
    exists id :: id in ids && ShiftBusy(s, p, id)
  }

  function TimeoutEnding(shift: Shift): Ending {
    Ending(shift.startedAt + COOK_TTL_MS, TIMEOUT)
  }

  /** The committed effect of a set of closings. */
  function Ended(shifts: map<ShiftId, Shift>, closes: map<ShiftId, Ending>): map<ShiftId, Shift> {
    map id | id in shifts :: if id in closes then shifts[id].(ended := Some(closes[id])) else shifts[id]
  }

  function EndOne(s: State, id: ShiftId, ending: Ending): State
    requires id in s.shifts
  {
    s.(shifts := s.shifts[id := s.shifts[id].(ended := Some(ending))])
  }

  // ----- steps -----

  function Hold(s: State, p: Pid, req: Request): State {
    s.(requests := s.requests[p := req])
  }

  function Drop(s: State, p: Pid): State {
    s.(requests := s.requests - {p})
  }

  predicate AtStage(s: State, p: Pid, stage: Stage) {
    p in s.requests && s.requests[p].Login? && s.requests[p].login.stage == stage
  }

  predicate Admits(s: State, c: CookId, t: TerminalId, pin: string) {
    && c in s.cooks && t in s.terminals
    && s.cooks[c].active && s.cooks[c].pin == pin && s.cooks[c].branch == s.terminals[t].branch
  }

  function DoLoginBegin(s: State, p: Pid, c: CookId, t: TerminalId, pin: string): (s': State)
    ensures s' == s.(requests := s'.requests)
  {
    if p !in s.requests && Admits(s, c, t, pin)
    then Hold(s, p, Login(SignIn(c, t, s.terminals[t].branch, pin, Start, s.now, map[], "")))
    else s
  }

  function DoLockCook(s: State, p: Pid): (s': State)
    ensures s' == s.(requests := s'.requests)
  {
    if p !in s.requests then s
    else
      match s.requests[p]
      case Login(l) => if l.stage.Start? && !CookBusy(s, p, l.cook) then Hold(s, p, Login(l.(stage := CookLocked)))
          else s
      case Update(e) => if e.stage.Start? && !CookBusy(s, p, e.cook) then Hold(s, p, Update(e.(stage := CookLocked)))
          else s
      case Kitchen(_, _) => s
  }

  function DoLockTerminal(s: State, p: Pid): (s': State)
    ensures s' == s.(requests := s'.requests)
  {
    if AtStage(s, p, CookLocked) && !TerminalBusy(s, p, s.requests[p].login.terminal)
    then Hold(s, p, Login(s.requests[p].login.(stage := BothLocked)))
    else s
  }

  function DoRecheck(s: State, p: Pid): (s': State)
    ensures s' == s.(requests := s'.requests)
  {
    if !AtStage(s, p, BothLocked) then s
    else
      var l := s.requests[p].login;
      if Admits(s, l.cook, l.terminal, l.pin) && s.terminals[l.terminal].active
      then Hold(s, p, Login(l.(stage := Rechecked, at := s.now)))
      else Drop(s, p)
  }

  function DoExpire(s: State, p: Pid): (s': State)
    ensures s' == s.(requests := s'.requests)
  {
    if !AtStage(s, p, Rechecked) then s
    else
      var l := s.requests[p].login;
      var ids := ExpiredIds(s, l.cook, l.terminal, l.at);
      if AnyBusy(s, p, ids) then s
      else Hold(s, p, Login(l.(stage := Expired, closes := map id | id in ids :: TimeoutEnding(s.shifts[id]))))
  }

  function DoSearch(s: State, p: Pid): (s': State)
    ensures s' == s.(requests := s'.requests)
  {
    if !AtStage(s, p, Expired) then s
    else
      var l := s.requests[p].login;
      var found := exists id :: id in Remaining(s, l.cook, l.terminal, l.closes)
                                && s.shifts[id].cook == l.cook && s.shifts[id].terminal == l.terminal;
      Hold(s, p, Login(l.(stage := if found then Found else Searched)))
  }

  function DoCloseOthers(s: State, p: Pid): (s': State)
    ensures s' == s.(requests := s'.requests)
  {
    if !AtStage(s, p, Searched) then s
    else
      var l := s.requests[p].login;
      var ids := Remaining(s, l.cook, l.terminal, l.closes);
      if AnyBusy(s, p, ids) then s
      else Hold(s, p, Login(l.(stage := Closed, closes := l.closes + map id | id in ids :: Ending(l.at, SHIFT_CHANGE))))
  }

  function DoCreate(s: State, p: Pid, id: ShiftId): (s': State)
    ensures s' == s.(requests := s'.requests)
  {
    if AtStage(s, p, Closed) && id !in s.shifts && !Reserved(s, id)
    then Hold(s, p, Login(s.requests[p].login.(stage := Created, newShift := id)))
    else s
  }

  function DoUpdateBegin(s: State, p: Pid, c: CookId, active: Option<bool>, newPin: Option<string>): (s': State)
    ensures s' == s.(requests := s'.requests)
  {
    if p in s.requests || c !in s.cooks then s else Hold(s, p, Update(Edit(c, active, newPin, Start, map[])))
  }

  predicate EndsShifts(e: Edit) {
    e.active == Some(false) || e.newPin.Some?
  }

  function DoCloseOwn(s: State, p: Pid): (s': State)
    ensures s' == s.(requests := s'.requests)
  {
    if p !in s.requests || !s.requests[p].Update? || !s.requests[p].edit.stage.CookLocked? then s
    else
      var e := s.requests[p].edit;
      var ids := if EndsShifts(e) then OwnOpen(s, e.cook) else {};
      if AnyBusy(s, p, ids) then s
      else Hold(s, p, Update(e.(stage := Closed, closes := map id | id in ids :: Ending(s.now, SHIFT_CHANGE))))
  }

  function Edited(cook: Cook, e: Edit): Cook {
    Cook(cook.branch,
         if e.active.Some? then e.active.value else cook.active,
         if e.newPin.Some? then e.newPin.value else cook.pin)
  }

  function DoCommitLogin(s: State, p: Pid, l: SignIn): (s': State)
    ensures s' == s.(shifts := s'.shifts, requests := s'.requests)
  {
    if l.stage.Created?
    then Drop(s, p).(shifts := Ended(s.shifts, l.closes)[l.newShift := Shift(l.cook, l.terminal, l.branch, l.at, None)])
    else if l.stage.Found? then Drop(s, p).(shifts := Ended(s.shifts, l.closes))
    else s
  }

  function DoCommitUpdate(s: State, p: Pid, e: Edit): (s': State)
    ensures s' == s.(shifts := s'.shifts, cooks := s'.cooks, requests := s'.requests)
  {
    if e.stage.Closed? && e.cook in s.cooks
    then Drop(s, p).(shifts := Ended(s.shifts, e.closes), cooks := s.cooks[e.cook := Edited(s.cooks[e.cook], e)])
    else s
  }

  function DoCommit(s: State, p: Pid): (s': State)
    ensures s' == s.(shifts := s'.shifts, cooks := s'.cooks, history := s'.history, requests := s'.requests)
  {
    if p !in s.requests then s
    else
      match s.requests[p]
      case Login(l) => DoCommitLogin(s, p, l)
      case Update(e) => DoCommitUpdate(s, p, e)
      case Kitchen(actor, holding) => if holding then Drop(s, p).(history := s.history + [actor]) else s
  }

  function DoLogout(s: State, c: CookId, id: ShiftId): (s': State)
    ensures s' == s.(shifts := s'.shifts)
  {
    if id in s.shifts && s.shifts[id].cook == c && Open(s.shifts[id]) && !Locked(s, id)
    then EndOne(s, id, Ending(s.now, LOGOUT))
    else s
  }

  function DoVerifyTimeout(s: State, id: ShiftId): (s': State)
    ensures s' == s.(shifts := s'.shifts)
  {
    if id in s.shifts && Open(s.shifts[id]) && s.shifts[id].startedAt + COOK_TTL_MS <= s.now
       && !Locked(s, id)
    then EndOne(s, id, TimeoutEnding(s.shifts[id]))
    else s
  }

  function DoKitchenBegin(s: State, p: Pid, actor: Attribution): (s': State)
    ensures s' == s.(requests := s'.requests)
  {
    if p in s.requests then s else Hold(s, p, Kitchen(actor, false))
  }

  /** The shift a kitchen write may be signed with. */
  predicate Signs(s: State, actor: Attribution) {
    && actor.shift in s.shifts
    && var shift := s.shifts[actor.shift];
       && shift.cook == actor.cook && shift.terminal == actor.terminal && shift.branch == actor.branch
       && Open(shift) && shift.startedAt > s.now - COOK_TTL_MS
  }

  function DoLockShift(s: State, p: Pid): (s': State)
    ensures s' == s.(requests := s'.requests)
  {
    if p !in s.requests || !s.requests[p].Kitchen? || s.requests[p].holding
        || ShiftBusy(s, p, s.requests[p].actor.shift) then s
    else if Signs(s, s.requests[p].actor) then Hold(s, p, Kitchen(s.requests[p].actor.(checkedAt := s.now), true))
    else Drop(s, p)
  }

  function Next(s: State, a: Action): State {
    match a
    case AddCook(c, branch, pin) => if c in s.cooks then s else s.(cooks := s.cooks[c := Cook(branch, true, pin)])
    case AddTerminal(t, branch, on) =>
        if t in s.terminals then s else s.(terminals := s.terminals[t := Terminal(branch, on)])
    case LoginBegin(p, c, t, pin) => DoLoginBegin(s, p, c, t, pin)
    case LockCook(p) => DoLockCook(s, p)
    case LockTerminal(p) => DoLockTerminal(s, p)
    case Recheck(p) => DoRecheck(s, p)
    case Expire(p) => DoExpire(s, p)
    case Search(p) => DoSearch(s, p)
    case CloseOthers(p) => DoCloseOthers(s, p)
    case Create(p, id) => DoCreate(s, p, id)
    case UpdateBegin(p, c, active, newPin) => DoUpdateBegin(s, p, c, active, newPin)
    case CloseOwn(p) => DoCloseOwn(s, p)
    case Commit(p) => DoCommit(s, p)
    case Abort(p) => Drop(s, p)
    case Logout(c, id) => DoLogout(s, c, id)
    case VerifyTimeout(id) => DoVerifyTimeout(s, id)
    case KitchenBegin(p, c, shift, t, branch) => DoKitchenBegin(s, p, Attribution(c, shift, t, branch, 0))
    case LockShift(p) => DoLockShift(s, p)
    case Tick(ms) => s.(now := s.now + ms)
  }

  function Exec(s: State, actions: seq<Action>): State
    decreases |actions|
  {
    if actions == [] then s else Exec(Next(s, actions[0]), actions[1..])
  }

  const EMPTY := State(map[], map[], map[], map[], [], 0)

  // ----- the invariant -----

  /** Open shifts pair each cook with at most one terminal and each terminal with at most one cook. */
  ghost predicate Matching(shifts: map<ShiftId, Shift>) {
    forall i, j :: i in shifts && j in shifts && i != j && Open(shifts[i]) && Open(shifts[j]) ==>
      shifts[i].cook != shifts[j].cook && shifts[i].terminal != shifts[j].terminal
  }

  /** A shift ends after it started, and a timeout ends it after exactly eight hours. */
  predicate Sound(shift: Shift, ending: Ending) {
    shift.startedAt <= ending.at && (ending.reason.TIMEOUT? ==> ending.at == shift.startedAt + COOK_TTL_MS)
  }

  ghost predicate ShiftsOk(s: State) {
    && Matching(s.shifts)
    && (forall i :: i in s.shifts ==>
          && s.shifts[i].cook in s.cooks
          && s.shifts[i].startedAt <= s.now
          && (Open(s.shifts[i]) ==> s.cooks[s.shifts[i].cook].active)
          && (s.shifts[i].ended.Some? ==> Sound(s.shifts[i], s.shifts[i].ended.value)))
  }

  /** A closing that is not committed yet is a sound ending of an open shift. */
  ghost predicate ClosesOk(s: State, closes: map<ShiftId, Ending>) {
    forall i :: i in closes ==> i in s.shifts && Open(s.shifts[i]) && Sound(s.shifts[i], closes[i])
  }

  ghost predicate Settled(stage: Stage) {
    stage.Rechecked? || stage.Expired? || stage.Searched? || stage.Closed? || stage.Created? || stage.Found?
  }

  /** No open shift of the cook or at the terminal started after the login's own time. */
  ghost predicate NoneLater(s: State, c: CookId, t: TerminalId, at: int) {
    forall i :: i in s.shifts && Open(s.shifts[i]) && Touches(s.shifts[i], c, t) ==> s.shifts[i].startedAt <= at
  }

  ghost predicate LoginOk(s: State, l: SignIn) {
    && l.cook in s.cooks && l.terminal in s.terminals
    && l.at <= s.now
    && ClosesOk(s, l.closes)
    && (Settled(l.stage) ==> s.cooks[l.cook].active && NoneLater(s, l.cook, l.terminal, l.at))
    && (l.stage.Closed? || l.stage.Created? ==> Remaining(s, l.cook, l.terminal, l.closes) == {})
    && (l.stage.Created? ==> l.newShift !in s.shifts)
    && (!Settled(l.stage) || l.stage.Rechecked? ==> l.closes == map[])
  }

  ghost predicate UpdateOk(s: State, e: Edit) {
    && e.cook in s.cooks
    && ClosesOk(s, e.closes)
    && (e.stage.Closed? && EndsShifts(e) ==> OwnOpen(s, e.cook) <= e.closes.Keys)
    && (!e.stage.Closed? ==> e.closes == map[])
  }

  /** The actor's shift, found open and fresh at `checkedAt`. */
  ghost predicate Attributed(s: State, actor: Attribution) {
    && actor.shift in s.shifts
    && var shift := s.shifts[actor.shift];
       && shift.cook == actor.cook && shift.terminal == actor.terminal && shift.branch == actor.branch
       && shift.startedAt <= actor.checkedAt < shift.startedAt + COOK_TTL_MS
  }

  ghost predicate RequestOk(s: State, req: Request) {
    match req
    case Login(l) => LoginOk(s, l)
    case Update(e) => UpdateOk(s, e)
    case Kitchen(actor, holding) =>
        holding ==> Attributed(s, actor) && Open(s.shifts[actor.shift]) && actor.checkedAt <= s.now
  }

  /** Two transactions never hold the same lock, and never insert the same row. */
  ghost predicate Apart(a: Request, b: Request) {
    && (forall c :: !(HoldsCook(a, c) && HoldsCook(b, c)))
    && (forall t :: !(HoldsTerminal(a, t) && HoldsTerminal(b, t)))
    && (forall i :: !(HoldsShift(a, i) && HoldsShift(b, i)))
    && !(a.Login? && b.Login? && a.login.stage.Created? && b.login.stage.Created?
        && a.login.newShift == b.login.newShift)
  }

  ghost predicate Exclusive(s: State) {
    forall p, q :: p in s.requests && q in s.requests && p != q ==> Apart(s.requests[p], s.requests[q])
  }

  ghost predicate Inv(s: State) {
    && ShiftsOk(s)
    && (forall p :: p in s.requests ==> RequestOk(s, s.requests[p]))
    && Exclusive(s)
    && (forall i :: 0 <= i < |s.history| ==> Attributed(s, s.history[i]))
  }

  // ----- every step keeps it -----

  lemma HoldKeepsInv(s: State, p: Pid, req: Request)
    requires Inv(s) && RequestOk(s, req)
    requires forall q :: q in s.requests && q != p ==> Apart(req, s.requests[q])
    ensures Inv(Hold(s, p, req))
  {
    var t := Hold(s, p, req);
    forall q | q in t.requests
      ensures RequestOk(t, t.requests[q])
    {
      assert RequestOk(s, t.requests[q]);
      SameRowsKeepRequest(s, t, t.requests[q]);
    }
    forall q, r | q in t.requests && r in t.requests && q != r
      ensures Apart(t.requests[q], t.requests[r])
    {
    }
  }

  /** What a request relies on is only the rows, and a clock that does not run back. */
  lemma SameRowsKeepRequest(s: State, t: State, req: Request)
    requires RequestOk(s, req)
    requires t.shifts == s.shifts && t.cooks == s.cooks && t.terminals == s.terminals && t.now >= s.now
    ensures RequestOk(t, req)
  {
    if req.Login? {
      assert Remaining(t, req.login.cook, req.login.terminal, req.login.closes)
          == Remaining(s, req.login.cook, req.login.terminal, req.login.closes);
    }
    if req.Update? {
      assert OwnOpen(t, req.edit.cook) == OwnOpen(s, req.edit.cook);
    }
  }

  lemma DropKeepsInv(s: State, p: Pid)
    requires Inv(s)
    ensures Inv(Drop(s, p))
  {
    var t := Drop(s, p);
    forall q | q in t.requests
      ensures RequestOk(t, t.requests[q])
    {
      SameRowsKeepRequest(s, t, s.requests[q]);
    }
  }

  /** Locks grow one at a time, and only when they are free. */
  lemma GainingTheTerminal(l: SignIn, other: Request)
    requires Apart(Login(l), other) && l.stage.CookLocked? && !HoldsTerminal(other, l.terminal)
    ensures Apart(Login(l.(stage := BothLocked)), other)
  {
    var more := Login(l.(stage := BothLocked));
    assert forall c :: HoldsCook(more, c) == HoldsCook(Login(l), c);
    assert forall i :: HoldsShift(more, i) == HoldsShift(Login(l), i);
  }

  lemma GainingTheCook(before: Request, after: Request, other: Request)
    requires Apart(before, other)
    requires match before
             case Login(l) => l.stage.Start? && after == Login(l.(stage := CookLocked)) && !HoldsCook(other, l.cook)
             case Update(e) => e.stage.Start? && after == Update(e.(stage := CookLocked)) && !HoldsCook(other, e.cook)
             case Kitchen(_, _) => false
    ensures Apart(after, other)
  {
    assert forall t :: HoldsTerminal(after, t) == HoldsTerminal(before, t);
    assert forall i :: HoldsShift(after, i) == HoldsShift(before, i);
  }

  lemma LockCookKeepsInv(s: State, p: Pid)
    requires Inv(s)
    ensures Inv(DoLockCook(s, p))
  {
    var t := DoLockCook(s, p);
    if t != s {
      var req := t.requests[p];
      assert RequestOk(s, s.requests[p]);
      forall q | q in s.requests && q != p
        ensures Apart(req, s.requests[q])
      {
        GainingTheCook(s.requests[p], req, s.requests[q]);
      }
      HoldKeepsInv(s, p, req);
    }
  }

  lemma LockTerminalKeepsInv(s: State, p: Pid)
    requires Inv(s)
    ensures Inv(DoLockTerminal(s, p))
  {
    if AtStage(s, p, CookLocked) && !TerminalBusy(s, p, s.requests[p].login.terminal) {
      var l := s.requests[p].login;
      assert RequestOk(s, s.requests[p]);
      forall q | q in s.requests && q != p
        ensures Apart(Login(l.(stage := BothLocked)), s.requests[q])
      {
        GainingTheTerminal(l, s.requests[q]);
      }
      HoldKeepsInv(s, p, Login(l.(stage := BothLocked)));
    }
  }

  lemma RecheckKeepsInv(s: State, p: Pid)
    requires Inv(s)
    ensures Inv(DoRecheck(s, p))
  {
    if AtStage(s, p, BothLocked) {
      assert RequestOk(s, s.requests[p]);
      var l := s.requests[p].login;
      if Admits(s, l.cook, l.terminal, l.pin) && s.terminals[l.terminal].active {
        HoldKeepsInv(s, p, Login(l.(stage := Rechecked, at := s.now)));
      } else {
        DropKeepsInv(s, p);
      }
    }
  }

  lemma FreeShifts(s: State, p: Pid, ids: set<ShiftId>, q: Pid, i: ShiftId)
    requires !AnyBusy(s, p, ids) && q in s.requests && q != p && i in ids
    ensures !HoldsShift(s.requests[q], i)
  {
    assert !ShiftBusy(s, p, i);
  }

  lemma ExpireKeepsInv(s: State, p: Pid)
    requires Inv(s)
    ensures Inv(DoExpire(s, p))
  {
    if AtStage(s, p, Rechecked) {
      assert RequestOk(s, s.requests[p]);
      var l := s.requests[p].login;
      var ids := ExpiredIds(s, l.cook, l.terminal, l.at);
      if !AnyBusy(s, p, ids) {
        var req := Login(l.(stage := Expired, closes := map id | id in ids :: TimeoutEnding(s.shifts[id])));
        forall q | q in s.requests && q != p
          ensures Apart(req, s.requests[q])
        {
          assert Apart(s.requests[p], s.requests[q]);
          forall i
            ensures !(HoldsShift(req, i) && HoldsShift(s.requests[q], i))
          {
            if i in ids { FreeShifts(s, p, ids, q, i); }
          }
        }
        HoldKeepsInv(s, p, req);
      }
    }
  }

  lemma SearchKeepsInv(s: State, p: Pid)
    requires Inv(s)
    ensures Inv(DoSearch(s, p))
  {
    if AtStage(s, p, Expired) {
      assert RequestOk(s, s.requests[p]);
      HoldKeepsInv(s, p, DoSearch(s, p).requests[p]);
    }
  }

  lemma CloseOthersKeepsInv(s: State, p: Pid)
    requires Inv(s)
    ensures Inv(DoCloseOthers(s, p))
  {
    if AtStage(s, p, Searched) {
      assert RequestOk(s, s.requests[p]);
      var l := s.requests[p].login;
      var ids := Remaining(s, l.cook, l.terminal, l.closes);
      if !AnyBusy(s, p, ids) {
        var closes := l.closes + map id | id in ids :: Ending(l.at, SHIFT_CHANGE);
        var req := Login(l.(stage := Closed, closes := closes));
        assert Remaining(s, l.cook, l.terminal, closes) == {};
        forall q | q in s.requests && q != p
          ensures Apart(req, s.requests[q])
        {
          assert Apart(s.requests[p], s.requests[q]);
          forall i
            ensures !(HoldsShift(req, i) && HoldsShift(s.requests[q], i))
          {
            if i in ids {
              FreeShifts(s, p, ids, q, i);
            } else {
              assert HoldsShift(req, i) ==> HoldsShift(s.requests[p], i);
            }
          }
        }
        HoldKeepsInv(s, p, req);
      }
    }
  }

  lemma CreateKeepsInv(s: State, p: Pid, id: ShiftId)
    requires Inv(s)
    ensures Inv(DoCreate(s, p, id))
  {
    if AtStage(s, p, Closed) && id !in s.shifts && !Reserved(s, id) {
      assert RequestOk(s, s.requests[p]);
      var req := Login(s.requests[p].login.(stage := Created, newShift := id));
      forall q | q in s.requests && q != p
        ensures Apart(req, s.requests[q])
      {
        assert Apart(s.requests[p], s.requests[q]);
        forall i
          ensures !(HoldsShift(req, i) && HoldsShift(s.requests[q], i))
        {
          assert HoldsShift(req, i) == HoldsShift(s.requests[p], i);
        }
      }
      HoldKeepsInv(s, p, req);
    }
  }

  lemma CloseOwnKeepsInv(s: State, p: Pid)
    requires Inv(s)
    ensures Inv(DoCloseOwn(s, p))
  {
    if p in s.requests && s.requests[p].Update? && s.requests[p].edit.stage.CookLocked? {
      assert RequestOk(s, s.requests[p]);
      var e := s.requests[p].edit;
      var ids := if EndsShifts(e) then OwnOpen(s, e.cook) else {};
      if !AnyBusy(s, p, ids) {
        var req := Update(e.(stage := Closed, closes := map id | id in ids :: Ending(s.now, SHIFT_CHANGE)));
        forall q | q in s.requests && q != p
          ensures Apart(req, s.requests[q])
        {
          assert Apart(s.requests[p], s.requests[q]);
          forall i
            ensures !(HoldsShift(req, i) && HoldsShift(s.requests[q], i))
          {
            if i in ids { FreeShifts(s, p, ids, q, i); }
          }
        }
        HoldKeepsInv(s, p, req);
      }
    }
  }

  lemma LockShiftKeepsInv(s: State, p: Pid)
    requires Inv(s)
    ensures Inv(DoLockShift(s, p))
  {
    if p in s.requests && s.requests[p].Kitchen? && !s.requests[p].holding
        && !ShiftBusy(s, p, s.requests[p].actor.shift) {
      var actor := s.requests[p].actor;
      if Signs(s, actor) {
        HoldKeepsInv(s, p, Kitchen(actor.(checkedAt := s.now), true));
      } else {
        DropKeepsInv(s, p);
      }
    }
  }

  /** Shift rows are only added and ended, never rewritten. */
  ghost predicate Grows(before: map<ShiftId, Shift>, after: map<ShiftId, Shift>) {
    && before.Keys <= after.Keys
    && forall i :: i in before ==>
         && after[i] == before[i].(ended := after[i].ended)
         && (before[i].ended.Some? ==> after[i] == before[i])
  }

  /** What a step may change around a request that holds its own locks. */
  ghost predicate Around(s: State, t: State, req: Request) {
    && Grows(s.shifts, t.shifts)
    && (forall i :: i in s.shifts && HoldsShift(req, i) ==> t.shifts[i] == s.shifts[i])
    && (forall i :: i in t.shifts && i !in s.shifts ==>
          && !HoldsCook(req, t.shifts[i].cook) && !HoldsTerminal(req, t.shifts[i].terminal)
          && !(req.Login? && req.login.stage.Created? && req.login.newShift == i))
    && t.cooks.Keys == s.cooks.Keys
    && (forall c :: c in s.cooks && HoldsCook(req, c) ==> t.cooks[c] == s.cooks[c])
    && t.terminals == s.terminals && t.now == s.now
  }

  lemma AroundKeepsRequest(s: State, t: State, req: Request)
    requires RequestOk(s, req) && Around(s, t, req)
    ensures RequestOk(t, req)
  {
    match req
    case Login(l) =>
      if Settled(l.stage) {
        assert HoldsCook(req, l.cook) && HoldsTerminal(req, l.terminal);
        assert Remaining(t, l.cook, l.terminal, l.closes) <= Remaining(s, l.cook, l.terminal, l.closes);
      }
      forall i | i in l.closes
        ensures i in t.shifts && Open(t.shifts[i]) && Sound(t.shifts[i], l.closes[i])
      {
        assert HoldsShift(req, i);
      }
    case Update(e) =>
      if e.stage.Closed? {
        assert HoldsCook(req, e.cook);
        assert OwnOpen(t, e.cook) <= OwnOpen(s, e.cook);
      }
      forall i | i in e.closes
        ensures i in t.shifts && Open(t.shifts[i]) && Sound(t.shifts[i], e.closes[i])
      {
        assert HoldsShift(req, i);
      }
    case Kitchen(actor, holding) =>
      if holding {
        assert HoldsShift(req, actor.shift);
      }
  }

  lemma GrowingKeepsAttributed(s: State, t: State, actor: Attribution)
    requires Attributed(s, actor) && Grows(s.shifts, t.shifts)
    ensures Attributed(t, actor)
  {
  }

  /** The committed state after a change is in order if every remaining request held its own locks. */
  lemma ChangeKeepsInv(s: State, t: State, p: Pid)
    requires Inv(s) && ShiftsOk(t) && t.history == s.history && Grows(s.shifts, t.shifts)
    requires t.requests == s.requests - {p} || t.requests == s.requests
    requires forall q :: q in t.requests ==> Around(s, t, s.requests[q])
    ensures Inv(t)
  {
    forall q | q in t.requests
      ensures RequestOk(t, t.requests[q])
    {
      AroundKeepsRequest(s, t, s.requests[q]);
    }
    forall i | 0 <= i < |t.history|
      ensures Attributed(t, t.history[i])
    {
      GrowingKeepsAttributed(s, t, s.history[i]);
    }
  }

  lemma EndOneKeepsInv(s: State, id: ShiftId, ending: Ending)
    requires Inv(s) && id in s.shifts && Open(s.shifts[id]) && !Locked(s, id) && Sound(s.shifts[id], ending)
    ensures Inv(EndOne(s, id, ending))
  {
    var t := EndOne(s, id, ending);
    forall q | q in t.requests
      ensures Around(s, t, s.requests[q])
    {
      assert !HoldsShift(s.requests[q], id);
    }
    ChangeKeepsInv(s, t, 0);
  }

  lemma EndedGrows(s: State, closes: map<ShiftId, Ending>)
    requires ClosesOk(s, closes)
    ensures Grows(s.shifts, Ended(s.shifts, closes))
  {
  }

  /** The closings of one transaction leave every other transaction's shifts alone. */
  lemma ClosesApart(s: State, p: Pid, q: Pid, closes: map<ShiftId, Ending>, i: ShiftId)
    requires Inv(s) && p in s.requests && q in s.requests && p != q
    requires forall j :: j in closes ==> HoldsShift(s.requests[p], j)
    requires i in s.shifts && HoldsShift(s.requests[q], i)
    ensures Ended(s.shifts, closes)[i] == s.shifts[i]
  {
    assert Apart(s.requests[p], s.requests[q]);
  }

  /** Whatever is still open after a sign-in's closings is elsewhere. */
  lemma KeptIsElsewhere(s: State, l: SignIn, i: ShiftId)
    requires Remaining(s, l.cook, l.terminal, l.closes) == {}
    requires i in s.shifts && Open(Ended(s.shifts, l.closes)[i])
    ensures !Touches(Ended(s.shifts, l.closes)[i], l.cook, l.terminal)
  {
    assert i !in Remaining(s, l.cook, l.terminal, l.closes);
  }

  lemma NewShiftMatches(s: State, l: SignIn)
    requires Matching(s.shifts) && Remaining(s, l.cook, l.terminal, l.closes) == {} && l.newShift !in s.shifts
    ensures Matching(Ended(s.shifts, l.closes)[l.newShift := Shift(l.cook, l.terminal, l.branch, l.at, None)])
  {
    var shifts := Ended(s.shifts, l.closes)[l.newShift := Shift(l.cook, l.terminal, l.branch, l.at, None)];
    forall i, j | i in shifts && j in shifts && i != j && Open(shifts[i]) && Open(shifts[j])
      ensures shifts[i].cook != shifts[j].cook && shifts[i].terminal != shifts[j].terminal
    {
      if i == l.newShift {
        KeptIsElsewhere(s, l, j);
      } else if j == l.newShift {
        KeptIsElsewhere(s, l, i);
      }
    }
  }

  lemma CommitCreatedShiftsOk(s: State, p: Pid, l: SignIn)
    requires Inv(s) && p in s.requests && s.requests[p] == Login(l) && l.stage.Created?
    ensures ShiftsOk(DoCommitLogin(s, p, l)) && Grows(s.shifts, DoCommitLogin(s, p, l).shifts)
  {
    assert RequestOk(s, s.requests[p]);
    NewShiftMatches(s, l);
    EndedGrows(s, l.closes);
  }

  lemma LoginGoesAround(s: State, p: Pid, l: SignIn, q: Pid)
    requires Inv(s) && p in s.requests && s.requests[p] == Login(l) && (l.stage.Created? || l.stage.Found?)
    requires q in s.requests && p != q
    ensures Around(s, DoCommitLogin(s, p, l), s.requests[q])
  {
    assert RequestOk(s, s.requests[p]);
    assert Apart(s.requests[p], s.requests[q]);
    forall i | i in s.shifts && HoldsShift(s.requests[q], i)
      ensures Ended(s.shifts, l.closes)[i] == s.shifts[i]
    {
      ClosesApart(s, p, q, l.closes, i);
    }
    EndedGrows(s, l.closes);
    assert HoldsCook(s.requests[p], l.cook) && HoldsTerminal(s.requests[p], l.terminal);
  }

  lemma UpdateGoesAround(s: State, p: Pid, e: Edit, q: Pid)
    requires Inv(s) && p in s.requests && s.requests[p] == Update(e) && e.stage.Closed?
    requires q in s.requests && p != q
    ensures Around(s, DoCommitUpdate(s, p, e), s.requests[q])
  {
    assert RequestOk(s, s.requests[p]);
    assert Apart(s.requests[p], s.requests[q]);
    forall i | i in s.shifts && HoldsShift(s.requests[q], i)
      ensures Ended(s.shifts, e.closes)[i] == s.shifts[i]
    {
      ClosesApart(s, p, q, e.closes, i);
    }
    EndedGrows(s, e.closes);
    assert HoldsCook(s.requests[p], e.cook);
  }

  lemma CommitLoginKeepsInv(s: State, p: Pid, l: SignIn)
    requires Inv(s) && p in s.requests && s.requests[p] == Login(l)
    ensures Inv(DoCommitLogin(s, p, l))
  {
    assert RequestOk(s, s.requests[p]);
    var t := DoCommitLogin(s, p, l);
    if l.stage.Created? || l.stage.Found? {
      forall q | q in t.requests
        ensures Around(s, t, s.requests[q])
      {
        LoginGoesAround(s, p, l, q);
      }
      EndedGrows(s, l.closes);
      if l.stage.Created? {
        CommitCreatedShiftsOk(s, p, l);
      }
      ChangeKeepsInv(s, t, p);
    }
  }

  /** An edit that leaves a shift open leaves its cook active. */
  lemma OpenShiftsStayActive(s: State, p: Pid, e: Edit)
    requires Inv(s) && p in s.requests && s.requests[p] == Update(e) && e.stage.Closed?
    ensures var t := DoCommitUpdate(s, p, e);
            forall i :: i in t.shifts && Open(t.shifts[i]) ==>
                t.shifts[i].cook in t.cooks && t.cooks[t.shifts[i].cook].active
  {
    assert RequestOk(s, s.requests[p]);
    var t := DoCommitUpdate(s, p, e);
    forall i | i in t.shifts && Open(t.shifts[i]) ensures t.shifts[i].cook in t.cooks
        && t.cooks[t.shifts[i].cook].active {
      assert EndsShifts(e) ==> i !in OwnOpen(s, e.cook);
    }
  }

  lemma CommitUpdateKeepsInv(s: State, p: Pid, e: Edit)
    requires Inv(s) && p in s.requests && s.requests[p] == Update(e)
    ensures Inv(DoCommitUpdate(s, p, e))
  {
    assert RequestOk(s, s.requests[p]);
    var t := DoCommitUpdate(s, p, e);
    if e.stage.Closed? {
      forall q | q in t.requests
        ensures Around(s, t, s.requests[q])
      {
        UpdateGoesAround(s, p, e, q);
      }
      EndedGrows(s, e.closes);
      OpenShiftsStayActive(s, p, e);
      ChangeKeepsInv(s, t, p);
    }
  }

  lemma CommitKitchenKeepsInv(s: State, p: Pid)
    requires Inv(s) && p in s.requests && s.requests[p].Kitchen?
    ensures Inv(DoCommit(s, p))
  {
    var t := DoCommit(s, p);
    if s.requests[p].holding {
      assert RequestOk(s, s.requests[p]);
      DropKeepsInv(s, p);
      assert t == Drop(s, p).(history := s.history + [s.requests[p].actor]);
      forall q | q in t.requests
        ensures RequestOk(t, t.requests[q])
      {
        SameRowsKeepRequest(Drop(s, p), t, t.requests[q]);
      }
    }
  }

  /** New rows of cooks and terminals, and the clock, disturb nobody. */
  lemma BackgroundKeepsInv(s: State, t: State)
    requires Inv(s) && t.shifts == s.shifts && t.requests == s.requests && t.history == s.history && t.now >= s.now
    requires s.cooks.Keys <= t.cooks.Keys && s.terminals.Keys <= t.terminals.Keys
    requires forall c :: c in s.cooks ==> t.cooks[c] == s.cooks[c]
    ensures Inv(t)
  {
    forall q | q in t.requests
      ensures RequestOk(t, t.requests[q])
    {
      var req := s.requests[q];
      assert RequestOk(s, req);
      if req.Login? {
        assert Remaining(t, req.login.cook, req.login.terminal, req.login.closes)
            == Remaining(s, req.login.cook, req.login.terminal, req.login.closes);
      }
      if req.Update? {
        assert OwnOpen(t, req.edit.cook) == OwnOpen(s, req.edit.cook);
      }
    }
  }

  predicate HoldsNothing(req: Request) {
    match req
    case Login(l) => l.stage.Start? && l.closes == map[]
    case Update(e) => e.stage.Start? && e.closes == map[]
    case Kitchen(_, holding) => !holding
  }

  lemma BeginKeepsInv(s: State, p: Pid, req: Request)
    requires Inv(s) && p !in s.requests && RequestOk(s, req) && HoldsNothing(req)
    ensures Inv(Hold(s, p, req))
  {
    HoldKeepsInv(s, p, req);
  }

  /** The statements of a sign-in or an edit before its commit. */
  predicate StatementOfTransaction(a: Action) {
    || a.LockCook? || a.LockTerminal? || a.Recheck? || a.Expire? || a.Search? || a.CloseOthers? || a.Create?
        || a.CloseOwn?
  }

  lemma StatementKeepsInv(s: State, a: Action)
    requires Inv(s) && StatementOfTransaction(a)
    ensures Inv(Next(s, a))
  {
    match a
    case LockCook(p) => LockCookKeepsInv(s, p);
    case LockTerminal(p) => LockTerminalKeepsInv(s, p);
    case Recheck(p) => RecheckKeepsInv(s, p);
    case Expire(p) => ExpireKeepsInv(s, p);
    case Search(p) => SearchKeepsInv(s, p);
    case CloseOthers(p) => CloseOthersKeepsInv(s, p);
    case Create(p, id) => CreateKeepsInv(s, p, id);
    case CloseOwn(p) => CloseOwnKeepsInv(s, p);
  }

  lemma BeginningKeepsInv(s: State, a: Action)
    requires Inv(s) && (a.LoginBegin? || a.UpdateBegin? || a.KitchenBegin?)
    ensures Inv(Next(s, a))
  {
    match a
    case LoginBegin(p, c, t, pin) =>
      if p !in s.requests && Admits(s, c, t, pin) {
        BeginKeepsInv(s, p, Login(SignIn(c, t, s.terminals[t].branch, pin, Start, s.now, map[], "")));
      }
    case UpdateBegin(p, c, active, newPin) =>
      if p !in s.requests && c in s.cooks {
        BeginKeepsInv(s, p, Update(Edit(c, active, newPin, Start, map[])));
      }
    case KitchenBegin(p, c, shift, t, branch) =>
      if p !in s.requests { BeginKeepsInv(s, p, Kitchen(Attribution(c, shift, t, branch, 0), false)); }
  }

  lemma EndingKeepsInv(s: State, a: Action)
    requires Inv(s) && (a.Logout? || a.VerifyTimeout?)
    ensures Inv(Next(s, a))
  {
    match a
    case Logout(c, id) =>
      if DoLogout(s, c, id) != s { EndOneKeepsInv(s, id, Ending(s.now, LOGOUT)); }
    case VerifyTimeout(id) =>
      if DoVerifyTimeout(s, id) != s { EndOneKeepsInv(s, id, TimeoutEnding(s.shifts[id])); }
  }

  /** Every step of every transaction keeps the invariant. */
  lemma NextKeepsInv(s: State, a: Action)
    requires Inv(s)
    ensures Inv(Next(s, a))
  {
    match a
    case AddCook(c, branch, pin) => BackgroundKeepsInv(s, Next(s, a));
    case AddTerminal(t, branch, on) => BackgroundKeepsInv(s, Next(s, a));
    case LoginBegin(_, _, _, _) => BeginningKeepsInv(s, a);
    case UpdateBegin(_, _, _, _) => BeginningKeepsInv(s, a);
    case KitchenBegin(_, _, _, _, _) => BeginningKeepsInv(s, a);
    case Commit(p) => CommitKeepsInv(s, p);
    case Abort(p) => DropKeepsInv(s, p);
    case Logout(_, _) => EndingKeepsInv(s, a);
    case VerifyTimeout(_) => EndingKeepsInv(s, a);
    case LockShift(p) => LockShiftKeepsInv(s, p);
    case Tick(ms) => BackgroundKeepsInv(s, Next(s, a));
    case _ => StatementKeepsInv(s, a);
  }

  lemma CommitKeepsInv(s: State, p: Pid)
    requires Inv(s)
    ensures Inv(DoCommit(s, p))
  {
    if p in s.requests {
      match s.requests[p]
      case Login(l) => CommitLoginKeepsInv(s, p, l);
      case Update(e) => CommitUpdateKeepsInv(s, p, e);
      case Kitchen(_, _) => CommitKitchenKeepsInv(s, p);
    }
  }

  lemma {:induction false} RunsKeepInv(s: State, actions: seq<Action>)
    requires Inv(s)
    ensures Inv(Exec(s, actions))
    decreases |actions|
  {
    hide Inv, Next;
    if actions != [] {
      NextKeepsInv(s, actions[0]);
      RunsKeepInv(Next(s, actions[0]), actions[1..]);
    }
  }

  // ----- what the protocol guarantees -----

  /**
   * At every commit of every run, open shifts pair cooks and terminals one to
   * one (so the unique indexes over open shifts never reject a sign-in), an
   * open shift belongs to an active cook, and every ending is sound.
   */
  lemma ShiftsMatchCooksToTerminals(actions: seq<Action>)
    ensures var s := Exec(EMPTY, actions);
            && Matching(s.shifts)
            && forall i :: i in s.shifts ==>
                 && s.shifts[i].cook in s.cooks
                 && (Open(s.shifts[i]) ==> s.cooks[s.shifts[i].cook].active)
                 && (s.shifts[i].ended.Some? ==> Sound(s.shifts[i], s.shifts[i].ended.value))
  {
    assert Inv(EMPTY);
    RunsKeepInv(EMPTY, actions);
  }

  /** A committed sign-in leaves its own shift as the only open one of the cook and of the terminal. */
  lemma SignInLeavesOneShift(s: State, p: Pid, i: ShiftId)
    requires Inv(s) && AtStage(s, p, Created)
    ensures var l := s.requests[p].login;
            var t := Next(s, Commit(p));
            i in t.shifts && Open(t.shifts[i]) && Touches(t.shifts[i], l.cook, l.terminal) <==> i == l.newShift
  {
    hide DoLoginBegin, DoLockCook, DoLockTerminal, DoRecheck, DoExpire, DoSearch, DoCloseOthers, DoCreate,
      DoUpdateBegin, DoCloseOwn, DoKitchenBegin, DoLockShift, DoCommitUpdate, DoLogout, DoVerifyTimeout;
    assert RequestOk(s, s.requests[p]);
    var l := s.requests[p].login;
    assert i !in Remaining(s, l.cook, l.terminal, l.closes);
  }

  /** Once the owner's change of PIN or activity commits, the cook has no open shift. */
  lemma EditEndsEveryShift(s: State, p: Pid, i: ShiftId)
    requires Inv(s) && p in s.requests && s.requests[p].Update? && s.requests[p].edit.stage.Closed?
        && EndsShifts(s.requests[p].edit)
    ensures var t := Next(s, Commit(p));
            i in t.shifts && t.shifts[i].cook == s.requests[p].edit.cook ==> !Open(t.shifts[i])
  {
    assert RequestOk(s, s.requests[p]);
    assert i !in OwnOpen(s, s.requests[p].edit.cook) || i in s.requests[p].edit.closes;
  }

  lemma CommitGrows(s: State, p: Pid)
    requires Inv(s)
    ensures Grows(s.shifts, DoCommit(s, p).shifts)
  {
    if p in s.requests {
      assert RequestOk(s, s.requests[p]);
      match s.requests[p]
      case Login(l) => EndedGrows(s, l.closes);
      case Update(e) => EndedGrows(s, e.closes);
      case Kitchen(_, _) =>
    }
  }

  lemma StatementsKeepShifts(s: State, a: Action)
    requires StatementOfTransaction(a)
    ensures Next(s, a).shifts == s.shifts
  {
    hide DoLoginBegin, DoLockCook, DoLockTerminal, DoRecheck, DoExpire, DoSearch, DoCloseOthers, DoCreate,
      DoUpdateBegin, DoCloseOwn, DoKitchenBegin, DoLockShift, DoCommitLogin, DoCommitUpdate, DoCommit,
      DoLogout, DoVerifyTimeout;
  }

  lemma EndingGrows(s: State, a: Action)
    requires a.Logout? || a.VerifyTimeout?
    ensures Grows(s.shifts, Next(s, a).shifts)
  {
    hide DoLoginBegin, DoLockCook, DoLockTerminal, DoRecheck, DoExpire, DoSearch, DoCloseOthers, DoCreate,
      DoUpdateBegin, DoCloseOwn, DoKitchenBegin, DoLockShift, DoCommitLogin, DoCommitUpdate, DoCommit;
  }

  lemma OthersKeepShifts(s: State, a: Action)
    requires !a.Commit? && !a.Logout? && !a.VerifyTimeout?
    ensures Next(s, a).shifts == s.shifts
  {
    hide DoLoginBegin, DoLockCook, DoLockTerminal, DoRecheck, DoExpire, DoSearch, DoCloseOthers, DoCreate,
      DoUpdateBegin, DoCloseOwn, DoKitchenBegin, DoLockShift, DoCommitLogin, DoCommitUpdate, DoCommit,
      DoLogout, DoVerifyTimeout;
    if StatementOfTransaction(a) {
      StatementsKeepShifts(s, a);
    }
  }

  lemma StepGrows(s: State, a: Action)
    requires Inv(s)
    ensures Grows(s.shifts, Next(s, a).shifts)
  {
    hide Inv, DoLoginBegin, DoLockCook, DoLockTerminal, DoRecheck, DoExpire, DoSearch, DoCloseOthers,
      DoCreate, DoUpdateBegin, DoCloseOwn, DoKitchenBegin, DoLockShift, DoCommitLogin, DoCommitUpdate,
      DoCommit, DoLogout, DoVerifyTimeout;
    if a.Commit? {
      CommitGrows(s, a.p);
    } else if a.Logout? || a.VerifyTimeout? {
      EndingGrows(s, a);
    } else {
      OthersKeepShifts(s, a);
    }
  }

  /** A shift keeps its cook, terminal, branch and start for ever, and once ended it keeps its ending. */
  lemma {:induction false} EndedShiftsStayEnded(s: State, actions: seq<Action>)
    requires Inv(s)
    ensures Grows(s.shifts, Exec(s, actions).shifts)
    decreases |actions|
  {
    hide Inv, Next;
    if actions != [] {
      NextKeepsInv(s, actions[0]);
      StepGrows(s, actions[0]);
      EndedShiftsStayEnded(Next(s, actions[0]), actions[1..]);
    }
  }

  /** The row is written while the cook's own shift is open at that terminal and branch. */
  ghost predicate WrittenOnShift(s: State, actor: Attribution) {
    && actor.shift in s.shifts
    && Open(s.shifts[actor.shift])
    && s.shifts[actor.shift].cook == actor.cook
    && s.shifts[actor.shift].terminal == actor.terminal
    && s.shifts[actor.shift].branch == actor.branch
    && s.shifts[actor.shift].startedAt <= actor.checkedAt < s.shifts[actor.shift].startedAt + COOK_TTL_MS
    && actor.checkedAt <= s.now
    && actor.cook in s.cooks && s.cooks[actor.cook].active
  }

  lemma HistoryStep(s: State, a: Action)
    requires Inv(s)
    ensures var t := Next(s, a);
            || t.history == s.history
            || (|t.history| == |s.history| + 1 && t.history[..|s.history|] == s.history
                && WrittenOnShift(s, t.history[|s.history|]))
  {
    hide DoLoginBegin, DoLockCook, DoLockTerminal, DoRecheck, DoExpire, DoSearch, DoCloseOthers, DoCreate,
      DoUpdateBegin, DoCloseOwn, DoKitchenBegin, DoLockShift, DoCommitLogin, DoCommitUpdate, DoLogout,
      DoVerifyTimeout;
    if a.Commit? && a.p in s.requests {
      assert RequestOk(s, s.requests[a.p]);
    }
  }

  /**
   * Every history row that names a cook was committed at a moment when that
   * cook's shift, at that terminal and branch, was open, found fresh by the
   * same transaction, and the cook was active.
   */
  lemma {:induction false} CookRowsAreWrittenOnShift(s: State, actions: seq<Action>, k: nat)
    requires Inv(s) && |s.history| <= k < |Exec(s, actions).history|
    ensures exists n :: 0 <= n < |actions|
                        && |Exec(s, actions[..n]).history| == k
                        && WrittenOnShift(Exec(s, actions[..n]), Exec(s, actions).history[k])
    decreases |actions|
  {
    hide Inv, Next, WrittenOnShift;
    if actions != [] {
      var t := Next(s, actions[0]);
      NextKeepsInv(s, actions[0]);
      HistoryStep(s, actions[0]);
      if k < |t.history| {
        HistoryOnlyGrows(t, actions[1..]);
        assert actions[..0] == [];
        assert Exec(s, actions[..0]) == s;
      } else {
        CookRowsAreWrittenOnShift(t, actions[1..], k);
        var n :| 0 <= n < |actions[1..]|
                 && |Exec(t, actions[1..][..n]).history| == k
                 && WrittenOnShift(Exec(t, actions[1..][..n]), Exec(t, actions[1..]).history[k]);
        assert actions[..n + 1][1..] == actions[1..][..n];
        assert Exec(s, actions[..n + 1]) == Exec(t, actions[1..][..n]);
      }
    }
  }

  lemma StepKeepsHistory(s: State, a: Action)
    ensures s.history <= Next(s, a).history
  {
    hide DoLoginBegin, DoLockCook, DoLockTerminal, DoRecheck, DoExpire, DoSearch, DoCloseOthers, DoCreate,
      DoUpdateBegin, DoCloseOwn, DoKitchenBegin, DoLockShift, DoCommitLogin, DoCommitUpdate, DoLogout,
      DoVerifyTimeout;
  }

  lemma {:induction false} HistoryOnlyGrows(s: State, actions: seq<Action>)
    ensures s.history <= Exec(s, actions).history
    decreases |actions|
  {
    hide Next;
    if actions != [] {
      StepKeepsHistory(s, actions[0]);
      HistoryOnlyGrows(Next(s, actions[0]), actions[1..]);
    }
  }
}
