/**
 * Sign-in, sign-out and the session check of cooks, statement by statement,
 * with other transactions running in between. An open transaction's locals,
 * locks and uncommitted writes are its entry in `requests`.
 */
module CooksService {
  import opened Wrappers
  import opened Cooks

  /** `Waiting` means a lock was not granted; the transaction is still open. */
  datatype LoginAnswer =
    | InvalidCredentials
    | SessionUnavailable
    | Waiting
    | Resumed(shift: ShiftId)
    | SignedIn(shift: ShiftId)

  datatype EditAnswer = CookNotFound | EditWaiting | Edited

  datatype SigningAnswer = ShiftClosed | SigningWaits | Signed

  datatype SessionAnswer = ShiftExpired | ShiftNotActive | SessionOf(cook: CookId, terminal: TerminalId,
                                                                     branch: BranchId)

  /** The action belongs to transaction p. */
  predicate BelongsTo(a: Action, p: Pid) {
    match a
    case LoginBegin(q, _, _, _) => q == p
    case LockCook(q) => q == p
    case LockTerminal(q) => q == p
    case Recheck(q) => q == p
    case Expire(q) => q == p
    case Search(q) => q == p
    case CloseOthers(q) => q == p
    case Create(q, _) => q == p
    case UpdateBegin(q, _, _, _) => q == p
    case CloseOwn(q) => q == p
    case Commit(q) => q == p
    case Abort(q) => q == p
    case KitchenBegin(q, _, _, _, _) => q == p
    case LockShift(q) => q == p
    case _ => false
  }

  predicate Foreign(actions: seq<Action>, p: Pid) {
    forall i :: 0 <= i < |actions| ==> !BelongsTo(actions[i], p)
  }

  lemma ForeignStatementKeepsRequest(s: State, a: Action, p: Pid)
    requires p in s.requests && !BelongsTo(a, p) && StatementOfTransaction(a)
    ensures p in Next(s, a).requests && Next(s, a).requests[p] == s.requests[p]
  {
  }

  lemma ForeignStepKeepsRequest(s: State, a: Action, p: Pid)
    requires p in s.requests && !BelongsTo(a, p)
    ensures p in Next(s, a).requests && Next(s, a).requests[p] == s.requests[p]
  {
    if StatementOfTransaction(a) {
      ForeignStatementKeepsRequest(s, a, p);
    }
  }

  lemma {:induction false} ForeignRunKeepsRequest(s: State, actions: seq<Action>, p: Pid)
    requires p in s.requests && Foreign(actions, p)
    ensures p in Exec(s, actions).requests && Exec(s, actions).requests[p] == s.requests[p]
    decreases |actions|
  {
    if actions != [] {
      ForeignStepKeepsRequest(s, actions[0], p);
      ForeignRunKeepsRequest(Next(s, actions[0]), actions[1..], p);
    }
  }

  /** One run: everybody else's schedule, then one step of our own, and so on. */
  function Schedule(gaps: seq<seq<Action>>, steps: seq<Action>): seq<Action>
    requires |gaps| == |steps|
    decreases |steps|
  {
    if steps == [] then []
    else
      var n := |steps| - 1;
      Schedule(gaps[..n], steps[..n]) + (gaps[n] + [steps[n]])
  }

  lemma {:induction false} ExecConcat(s: State, before: seq<Action>, after: seq<Action>)
    ensures Exec(s, before + after) == Exec(Exec(s, before), after)
    decreases |before|
  {
    if before == [] {
      assert before + after == after;
    } else {
      assert (before + after)[1..] == before[1..] + after;
      ExecConcat(Next(s, before[0]), before[1..], after);
    }
  }

  /** Everybody else, then one step. */
  lemma Turn(s: State, gap: seq<Action>, a: Action)
    ensures Exec(s, gap + [a]) == Next(Exec(s, gap), a)
  {
    ExecConcat(s, gap, [a]);
    assert [a][1..] == [];
  }

  /** The two locks and the second look. */
  function LockSteps(p: Pid): seq<Action> {
    [LockCook(p), LockTerminal(p), Recheck(p)]
  }

  /** A new shift in the place of every other one. */
  function ReplaceSteps(p: Pid, id: ShiftId): seq<Action> {
    [CloseOthers(p), Create(p, id), Commit(p)]
  }

  function EditSteps(p: Pid): seq<Action> {
    [LockCook(p), CloseOwn(p), Commit(p)]
  }

  /** Cooks are never removed. */
  lemma {:induction false} CooksStay(s: State, actions: seq<Action>)
    ensures s.cooks.Keys <= Exec(s, actions).cooks.Keys
    decreases |actions|
  {
    if actions != [] {
      CookStays(s, actions[0]);
      CooksStay(Next(s, actions[0]), actions[1..]);
    }
  }

  lemma CookStays(s: State, a: Action)
    ensures s.cooks.Keys <= Next(s, a).cooks.Keys
  {
    if StatementOfTransaction(a) {
      StatementsKeepCooks(s, a);
    }
  }

  lemma StatementsKeepCooks(s: State, a: Action)
    requires StatementOfTransaction(a)
    ensures Next(s, a).cooks == s.cooks
  {
  }

  lemma OneMore(s: State, gaps: seq<seq<Action>>, steps: seq<Action>, k: nat)
    requires k < |gaps| && k < |steps|
    ensures Exec(s, Schedule(gaps[..k + 1], steps[..k + 1])) ==
        Exec(Exec(s, Schedule(gaps[..k], steps[..k])), gaps[k] + [steps[k]])
  {
    assert gaps[..k + 1][..k] == gaps[..k];
    assert steps[..k + 1][..k] == steps[..k];
    ExecConcat(s, Schedule(gaps[..k], steps[..k]), gaps[k] + [steps[k]]);
  }

  /** The second half of a sign-in: what it found decides which statements follow. */
  ghost predicate RenewRun(p: Pid, id: ShiftId, gaps: seq<seq<Action>>, answer: LoginAnswer, run: seq<Action>)
    requires |gaps| == 5
  {
    var searched := (gaps[0] + [Expire(p)]) + (gaps[1] + [Search(p)]);
    match answer
    case Resumed(_) => run == searched + (gaps[2] + [Commit(p)])
    case SignedIn(_) => run == searched + Schedule(gaps[2..], ReplaceSteps(p, id))
    case Waiting =>
      || run == gaps[0] + [Expire(p)]
      || exists k :: 0 <= k <= 3 && run == searched + Schedule(gaps[2..][..k], ReplaceSteps(p, id)[..k])
    case _ => false
  }

  class ShiftDesk {
    var cooks: map<CookId, Cook>
    var terminals: map<TerminalId, Terminal>
    var shifts: map<ShiftId, Shift>
    var requests: map<Pid, Request>
    var history: seq<Attribution>
    var now: int

    function Seen(): State
      reads this
    {
      State(cooks, terminals, shifts, requests, history, now)
    }

    constructor ()
      ensures Seen() == EMPTY
    {
      cooks, terminals, shifts, requests, history, now := map[], map[], map[], map[], [], 0;
    }

    /** Everybody else's steps, one after another. */
    method Interfere(actions: seq<Action>)
      modifies this
      ensures Seen() == Exec(old(Seen()), actions)
    {
      var i := 0;
      while i < |actions|
        invariant i <= |actions|
        invariant Exec(Seen(), actions[i..]) == Exec(old(Seen()), actions)
      {
        assert actions[i..][1..] == actions[i + 1..];
        var s := Next(Seen(), actions[i]);
        cooks, terminals, shifts, requests, history, now := s.cooks, s.terminals, s.shifts, s.requests, s.history,
            s.now;
        i := i + 1;
      }
    }

    /** Everybody else first; the transaction itself has not moved. */
    method Wait(p: Pid, actions: seq<Action>)
      requires p in requests && Foreign(actions, p)
      modifies this
      ensures Seen() == Exec(old(Seen()), actions)
      ensures p in requests && requests[p] == old(requests)[p]
      ensures old(cooks).Keys <= cooks.Keys
    {
      CooksStay(Seen(), actions);
      ForeignRunKeepsRequest(Seen(), actions, p);
      Interfere(actions);
    }

    method LockCookRow(p: Pid, gap: seq<Action>) returns (granted: bool)
      requires p in requests && requests[p].Login? && requests[p].login.stage.Start? && Foreign(gap, p)
      modifies this
      ensures Seen() == Exec(old(Seen()), gap + [LockCook(p)]) && p in requests
      ensures requests[p] == if granted then Request.Login(old(requests)[p].login.(stage := CookLocked))
          else old(requests)[p]
    {
      Turn(Seen(), gap, LockCook(p));
      Wait(p, gap);
      var l := requests[p].login;
      granted := !CookBusy(Seen(), p, l.cook);
      if granted {
        requests := requests[p := Request.Login(l.(stage := CookLocked))];
      }
    }

    method LockTerminalRow(p: Pid, gap: seq<Action>) returns (granted: bool)
      requires p in requests && requests[p].Login? && requests[p].login.stage.CookLocked? && Foreign(gap, p)
      modifies this
      ensures Seen() == Exec(old(Seen()), gap + [LockTerminal(p)]) && p in requests
      ensures requests[p] == if granted then Request.Login(old(requests)[p].login.(stage := BothLocked))
          else old(requests)[p]
    {
      Turn(Seen(), gap, LockTerminal(p));
      Wait(p, gap);
      var l := requests[p].login;
      granted := !TerminalBusy(Seen(), p, l.terminal);
      if granted {
        requests := requests[p := Request.Login(l.(stage := BothLocked))];
      }
    }

    /** Reads cook and terminal again under their locks. */
    method ReadAgain(p: Pid, gap: seq<Action>) returns (available: bool)
      requires p in requests && requests[p].Login? && requests[p].login.stage.BothLocked? && Foreign(gap, p)
      modifies this
      ensures Seen() == Exec(old(Seen()), gap + [Recheck(p)])
      ensures available <==> p in requests
      ensures available ==> requests[p] == Request.Login(old(requests)[p].login.(stage := Rechecked, at := now))
    {
      Turn(Seen(), gap, Recheck(p));
      Wait(p, gap);
      var l := requests[p].login;
      var c, t := l.cook, l.terminal;
      available := c in cooks && t in terminals && cooks[c].active && cooks[c].pin == l.pin
          && cooks[c].branch == terminals[t].branch && terminals[t].active;
      if available {
        requests := requests[p := Request.Login(l.(stage := Rechecked, at := now))];
      } else {
        requests := requests - {p};
      }
    }

    /** Ends the shifts that are eight hours old, at their eighth hour. */
    method EndTimedOut(p: Pid, gap: seq<Action>) returns (granted: bool)
      requires p in requests && requests[p].Login? && requests[p].login.stage.Rechecked? && Foreign(gap, p)
      modifies this
      ensures Seen() == Exec(old(Seen()), gap + [Expire(p)]) && p in requests && requests[p].Login?
      ensures requests[p].login.stage == if granted then Stage.Expired else Rechecked
      ensures requests[p].login ==
          old(requests)[p].login.(stage := requests[p].login.stage, closes := requests[p].login.closes)
    {
      Turn(Seen(), gap, Expire(p));
      Wait(p, gap);
      var l := requests[p].login;
      var ids := set id | id in shifts && shifts[id].ended.None?
          && (shifts[id].cook == l.cook || shifts[id].terminal == l.terminal)
                          && shifts[id].startedAt <= l.at - COOK_TTL_MS;
      assert ids == ExpiredIds(Seen(), l.cook, l.terminal, l.at);
      granted := !AnyBusy(Seen(), p, ids);
      if granted {
        var closes := map id | id in ids :: Ending(shifts[id].startedAt + COOK_TTL_MS, TIMEOUT);
        assert closes == map id | id in ids :: TimeoutEnding(Seen().shifts[id]);
        requests := requests[p := Request.Login(l.(stage := Stage.Expired, closes := closes))];
      }
    }

    /** Looks for an open shift of this cook at this terminal. */
    method FindExisting(p: Pid, gap: seq<Action>) returns (existing: Option<ShiftId>)
      requires p in requests && requests[p].Login? && requests[p].login.stage.Expired? && Foreign(gap, p)
      modifies this
      ensures Seen() == Exec(old(Seen()), gap + [Search(p)]) && p in requests && requests[p].Login?
      ensures requests[p].login.stage == if existing.Some? then Found else Searched
      ensures requests[p].login == old(requests)[p].login.(stage := requests[p].login.stage)
      ensures existing.Some? ==>
        var l := requests[p].login;
        existing.value in shifts && Cooks.Open(shifts[existing.value]) && existing.value !in l.closes
        && shifts[existing.value].cook == l.cook && shifts[existing.value].terminal == l.terminal
    {
      Turn(Seen(), gap, Search(p));
      Wait(p, gap);
      var l := requests[p].login;
      var open := Remaining(Seen(), l.cook, l.terminal, l.closes);
      if id :| id in open && shifts[id].cook == l.cook && shifts[id].terminal == l.terminal {
        requests := requests[p := Request.Login(l.(stage := Found))];
        return Some(id);
      }
      requests := requests[p := Request.Login(l.(stage := Searched))];
      return None;
    }

    /** Ends every other open shift of the cook or at the terminal. */
    method EndOthers(p: Pid, gap: seq<Action>) returns (granted: bool)
      requires p in requests && requests[p].Login? && requests[p].login.stage.Searched? && Foreign(gap, p)
      modifies this
      ensures Seen() == Exec(old(Seen()), gap + [CloseOthers(p)]) && p in requests && requests[p].Login?
      ensures requests[p].login.stage == if granted then Closed else Searched
      ensures requests[p].login ==
          old(requests)[p].login.(stage := requests[p].login.stage, closes := requests[p].login.closes)
    {
      Turn(Seen(), gap, CloseOthers(p));
      Wait(p, gap);
      var l := requests[p].login;
      var ids := Remaining(Seen(), l.cook, l.terminal, l.closes);
      granted := !AnyBusy(Seen(), p, ids);
      if granted {
        requests := requests[p := Request.Login(l.(stage := Closed, closes := l.closes + map id | id in ids ::
            Ending(l.at, SHIFT_CHANGE)))];
      }
    }

    method Open(p: Pid, id: ShiftId, gap: seq<Action>) returns (created: bool)
      requires p in requests && requests[p].Login? && requests[p].login.stage.Closed? && Foreign(gap, p)
      modifies this
      ensures Seen() == Exec(old(Seen()), gap + [Create(p, id)]) && p in requests
      ensures requests[p] == if created then Request.Login(old(requests)[p].login.(stage := Created, newShift := id))
          else old(requests)[p]
    {
      Turn(Seen(), gap, Create(p, id));
      Wait(p, gap);
      created := id !in shifts && !Reserved(Seen(), id);
      if created {
        requests := requests[p := Request.Login(requests[p].login.(stage := Created, newShift := id))];
      }
    }

    method CommitLogin(p: Pid, gap: seq<Action>)
      requires p in requests && requests[p].Login? && Foreign(gap, p)
      requires requests[p].login.stage.Created? || requests[p].login.stage.Found?
      modifies this
      ensures Seen() == Exec(old(Seen()), gap + [Commit(p)]) && p !in requests
      ensures var l := old(requests)[p].login;
              l.stage.Created? ==>
                l.newShift in shifts && shifts[l.newShift] == Shift(l.cook, l.terminal, l.branch, l.at, None)
    {
      Turn(Seen(), gap, Commit(p));
      Wait(p, gap);
      var l := requests[p].login;
      requests := requests - {p};
      shifts := Ended(shifts, l.closes);
      if l.stage.Created? {
        shifts := shifts[l.newShift := Shift(l.cook, l.terminal, l.branch, l.at, None)];
      }
    }

    /** The credentials, read before the transaction. */
    method CheckCredentials(p: Pid, c: CookId, t: TerminalId, pin: string) returns (ok: bool)
      requires p !in requests
      modifies this
      ensures Seen() == Next(old(Seen()), LoginBegin(p, c, t, pin))
      ensures ok <==> Admits(old(Seen()), c, t, pin)
      ensures ok <==> p in requests
      ensures !ok ==> Seen() == old(Seen())
      ensures ok ==> requests[p] == Request.Login(SignIn(c, t, old(terminals)[t].branch, pin, Start, now, map[], ""))
    {
      ok := c in cooks && t in terminals && cooks[c].active && cooks[c].pin == pin
          && cooks[c].branch == terminals[t].branch;
      if ok {
        requests := requests[p := Request.Login(SignIn(c, t, terminals[t].branch, pin, Start, now, map[], ""))];
      }
    }

    /** Both locks in their order, and the second look under them. */
    method LockAndRecheck(p: Pid, gaps: seq<seq<Action>>) returns (answer: LoginAnswer, taken: nat)
      requires p in requests && requests[p].Login? && requests[p].login.stage.Start?
      requires |gaps| == 3 && forall k :: 0 <= k < 3 ==> Foreign(gaps[k], p)
      modifies this
      ensures taken <= 3 && Seen() == Exec(old(Seen()), Schedule(gaps[..taken], LockSteps(p)[..taken]))
      ensures answer.Waiting? || answer.SessionUnavailable?
      ensures p in requests <==> answer.Waiting?
      ensures p in requests ==>
        && requests[p].Login?
        && requests[p].login == old(requests)[p].login.(stage := requests[p].login.stage, at := requests[p].login.at)
        && (taken == 3 <==> requests[p].login.stage.Rechecked?)
    {
      ghost var s := Seen();
      ghost var steps := LockSteps(p);
      answer, taken := Waiting, 1;
      OneMore(s, gaps, steps, 0);
      var granted := LockCookRow(p, gaps[0]);
      if !granted {
        return;
      }
      granted := LockTerminalRow(p, gaps[1]);
      OneMore(s, gaps, steps, 1);
      taken := 2;
      if !granted {
        return;
      }
      granted := ReadAgain(p, gaps[2]);
      OneMore(s, gaps, steps, 2);
      taken := 3;
      if !granted {
        answer := SessionUnavailable;
      }
    }

    /** The new shift; `id` is the row id the database chooses, and has not chosen before. */
    method Replace(p: Pid, id: ShiftId, gaps: seq<seq<Action>>) returns (answer: LoginAnswer, taken: nat)
      requires p in requests && requests[p].Login? && requests[p].login.stage.Searched?
      requires |gaps| == 3 && forall k :: 0 <= k < 3 ==> Foreign(gaps[k], p)
      modifies this
      ensures taken <= 3 && Seen() == Exec(old(Seen()), Schedule(gaps[..taken], ReplaceSteps(p, id)[..taken]))
      ensures answer.Waiting? || answer.SignedIn?
      ensures p in requests <==> answer.Waiting?
      ensures answer.SignedIn? ==>
        && taken == 3 && answer.shift == id && id in shifts && shifts[id].ended.None?
        && shifts[id].cook == old(requests)[p].login.cook && shifts[id].terminal == old(requests)[p].login.terminal
    {
      ghost var s := Seen();
      ghost var steps := ReplaceSteps(p, id);
      answer, taken := Waiting, 1;
      OneMore(s, gaps, steps, 0);
      var granted := EndOthers(p, gaps[0]);
      if !granted {
        return;
      }
      granted := Open(p, id, gaps[1]);
      OneMore(s, gaps, steps, 1);
      taken := 2;
      if !granted {
        return;
      }
      CommitLogin(p, gaps[2]);
      OneMore(s, gaps, steps, 2);
      return SignedIn(id), 3;
    }

    /** Ends what timed out, then resumes the shift found or opens a new one. */
    method Renew(p: Pid, id: ShiftId, gaps: seq<seq<Action>>) returns (answer: LoginAnswer, ghost run: seq<Action>)
      requires p in requests && requests[p].Login? && requests[p].login.stage.Rechecked?
      requires |gaps| == 5 && forall k :: 0 <= k < 5 ==> Foreign(gaps[k], p)
      modifies this
      ensures Seen() == Exec(old(Seen()), run)
      ensures RenewRun(p, id, gaps, answer, run)
      ensures answer.Waiting? || answer.Resumed? || answer.SignedIn?
      ensures p in requests <==> answer.Waiting?
      ensures answer.SignedIn? ==>
        && answer.shift == id && id in shifts && shifts[id].ended.None?
        && shifts[id].cook == old(requests)[p].login.cook && shifts[id].terminal == old(requests)[p].login.terminal
    {
      ghost var s := Seen();
      var granted := EndTimedOut(p, gaps[0]);
      run := gaps[0] + [Expire(p)];
      if !granted {
        return Waiting, run;
      }
      var existing := FindExisting(p, gaps[1]);
      ExecConcat(s, run, gaps[1] + [Search(p)]);
      run := run + (gaps[1] + [Search(p)]);
      if existing.Some? {
        CommitLogin(p, gaps[2]);
        ExecConcat(s, run, gaps[2] + [Commit(p)]);
        return Resumed(existing.value), run + (gaps[2] + [Commit(p)]);
      }
      var taken;
      answer, taken := Replace(p, id, gaps[2..]);
      ghost var rest := Schedule(gaps[2..][..taken], ReplaceSteps(p, id)[..taken]);
      ExecConcat(s, run, rest);
      if taken == 3 {
        assert gaps[2..][..taken] == gaps[2..] && ReplaceSteps(p, id)[..taken] == ReplaceSteps(p, id);
      }
      return answer, run + rest;
    }

    /** The whole sign-in. */
    method Login(p: Pid, c: CookId, t: TerminalId, pin: string, id: ShiftId, first: seq<seq<Action>>,
                 second: seq<seq<Action>>)
      returns (answer: LoginAnswer, locked: nat, ghost run: seq<Action>)
      requires p !in requests && |first| == 3 && |second| == 5
      requires forall k :: 0 <= k < 3 ==> Foreign(first[k], p)
      requires forall k :: 0 <= k < 5 ==> Foreign(second[k], p)
      modifies this
      ensures answer.InvalidCredentials? <==> !Admits(old(Seen()), c, t, pin)
      ensures answer.InvalidCredentials? ==> Seen() == old(Seen())
      ensures locked <= 3
      ensures !answer.InvalidCredentials? ==>
        Seen() == Exec(Next(old(Seen()), LoginBegin(p, c, t, pin)),
            Schedule(first[..locked], LockSteps(p)[..locked]) + run)
      ensures run == [] || (locked == 3 && RenewRun(p, id, second, answer, run))
      ensures p in requests <==> answer.Waiting?
      ensures answer.SignedIn? ==>
        answer.shift == id && id in shifts && shifts[id].ended.None? && shifts[id].cook == c && shifts[id].terminal == t
    {
      locked, run := 0, [];
      var ok := CheckCredentials(p, c, t, pin);
      if !ok {
        answer := InvalidCredentials;
        return;
      }
      ghost var s := Seen();
      answer, locked := LockAndRecheck(p, first);
      if p in requests && locked == 3 {
        answer, run := Renew(p, id, second);
      }
      ExecConcat(s, Schedule(first[..locked], LockSteps(p)[..locked]), run);
    }

    method BeginEdit(p: Pid, c: CookId, active: Option<bool>, newPin: Option<string>) returns (known: bool)
      requires p !in requests
      modifies this
      ensures Seen() == Next(old(Seen()), UpdateBegin(p, c, active, newPin))
      ensures known <==> c in old(cooks)
      ensures known <==> p in requests
      ensures !known ==> Seen() == old(Seen())
      ensures known ==> c in cooks && requests[p] == Request.Update(Edit(c, active, newPin, Start, map[]))
    {
      known := c in cooks;
      if known {
        requests := requests[p := Request.Update(Edit(c, active, newPin, Start, map[]))];
      }
    }

    method LockEditedCook(p: Pid, gap: seq<Action>) returns (granted: bool)
      requires p in requests && requests[p].Update? && requests[p].edit.stage.Start? && Foreign(gap, p)
      modifies this
      ensures Seen() == Exec(old(Seen()), gap + [LockCook(p)]) && p in requests
      ensures requests[p] == if granted then Request.Update(old(requests)[p].edit.(stage := CookLocked))
          else old(requests)[p]
      ensures old(cooks).Keys <= cooks.Keys
    {
      Turn(Seen(), gap, LockCook(p));
      Wait(p, gap);
      var e := requests[p].edit;
      granted := !CookBusy(Seen(), p, e.cook);
      if granted {
        requests := requests[p := Request.Update(e.(stage := CookLocked))];
      }
    }

    /** A cook who is switched off or gets a new PIN loses every open shift. */
    method EndOwn(p: Pid, gap: seq<Action>) returns (granted: bool)
      requires p in requests && requests[p].Update? && requests[p].edit.stage.CookLocked? && Foreign(gap, p)
      modifies this
      ensures Seen() == Exec(old(Seen()), gap + [CloseOwn(p)]) && p in requests && requests[p].Update?
      ensures requests[p].edit ==
          old(requests)[p].edit.(stage := requests[p].edit.stage, closes := requests[p].edit.closes)
      ensures requests[p].edit.stage == if granted then Closed else CookLocked
      ensures old(cooks).Keys <= cooks.Keys
    {
      Turn(Seen(), gap, CloseOwn(p));
      Wait(p, gap);
      var e := requests[p].edit;
      var ids := if e.active == Some(false) || e.newPin.Some? then OwnOpen(Seen(), e.cook) else {};
      granted := !AnyBusy(Seen(), p, ids);
      if granted {
        requests := requests[p := Request.Update(e.(stage := Closed, closes := map id | id in ids ::
            Ending(now, SHIFT_CHANGE)))];
      }
    }

    method CommitEdit(p: Pid, gap: seq<Action>)
      requires p in requests && requests[p].Update? && requests[p].edit.stage.Closed? && requests[p].edit.cook in cooks
          && Foreign(gap, p)
      modifies this
      ensures Seen() == Exec(old(Seen()), gap + [Commit(p)]) && p !in requests
      ensures var e := old(requests)[p].edit;
              && e.cook in cooks
              && (e.active.Some? ==> cooks[e.cook].active == e.active.value)
              && (e.newPin.Some? ==> cooks[e.cook].pin == e.newPin.value)
    {
      Turn(Seen(), gap, Commit(p));
      Wait(p, gap);
      var e := requests[p].edit;
      requests := requests - {p};
      shifts := Ended(shifts, e.closes);
      cooks := cooks[e.cook := Cooks.Edited(cooks[e.cook], e)];
    }

    /** The statements of the owner's edit: the cook's lock, the shifts it ends, the commit. */
    method ApplyEdit(p: Pid, gaps: seq<seq<Action>>) returns (applied: bool, taken: nat)
      requires p in requests && requests[p].Update? && requests[p].edit.stage.Start? && requests[p].edit.cook in cooks
      requires |gaps| == 3 && forall k :: 0 <= k < 3 ==> Foreign(gaps[k], p)
      modifies this
      ensures taken <= 3 && Seen() == Exec(old(Seen()), Schedule(gaps[..taken], EditSteps(p)[..taken]))
      ensures applied <==> p !in requests
      ensures var e := old(requests)[p].edit;
              applied ==>
                && taken == 3 && e.cook in cooks
                && (e.active.Some? ==> cooks[e.cook].active == e.active.value)
                && (e.newPin.Some? ==> cooks[e.cook].pin == e.newPin.value)
    {
      ghost var s := Seen();
      ghost var steps := EditSteps(p);
      applied, taken := false, 1;
      OneMore(s, gaps, steps, 0);
      var granted := LockEditedCook(p, gaps[0]);
      if !granted {
        return;
      }
      granted := EndOwn(p, gaps[1]);
      OneMore(s, gaps, steps, 1);
      taken := 2;
      if !granted {
        return;
      }
      CommitEdit(p, gaps[2]);
      OneMore(s, gaps, steps, 2);
      applied, taken := true, 3;
    }

    /** The owner's edit of a cook. */
    method Update(p: Pid, c: CookId, active: Option<bool>, newPin: Option<string>, gaps: seq<seq<Action>>)
      returns (answer: EditAnswer, taken: nat)
      requires p !in requests && |gaps| == 3 && forall k :: 0 <= k < 3 ==> Foreign(gaps[k], p)
      modifies this
      ensures answer.CookNotFound? <==> c !in old(cooks)
      ensures answer.CookNotFound? ==> Seen() == old(Seen())
      ensures taken <= 3
      ensures !answer.CookNotFound? ==>
        Seen() == Exec(Next(old(Seen()), UpdateBegin(p, c, active, newPin)),
            Schedule(gaps[..taken], EditSteps(p)[..taken]))
      ensures answer.EditWaiting? <==> p in requests
      ensures answer.Edited? ==>
        && taken == 3 && c in cooks
        && (active.Some? ==> cooks[c].active == active.value)
        && (newPin.Some? ==> cooks[c].pin == newPin.value)
    {
      taken := 0;
      var known := BeginEdit(p, c, active, newPin);
      if !known {
        answer := CookNotFound;
        return;
      }
      var applied;
      applied, taken := ApplyEdit(p, gaps);
      answer := if applied then EditAnswer.Edited else EditWaiting;
    }

    /** A signed-out shift ends now; anything else changes nothing. */
    method Logout(c: CookId, id: ShiftId)
      modifies this
      ensures Seen() == Next(old(Seen()), Action.Logout(c, id))
      ensures !Locked(old(Seen()), id) && id in shifts && shifts[id].cook == c ==> !Cooks.Open(shifts[id])
      ensures forall i :: i in old(shifts) && i != id ==> i in shifts && shifts[i] == old(shifts)[i]
    {
      if id in shifts && shifts[id].cook == c && shifts[id].ended.None? && !Locked(Seen(), id) {
        shifts := shifts[id := shifts[id].(ended := Some(Ending(now, LOGOUT)))];
      }
    }

    /** Locks the shift a kitchen write is signed with, if it is this cook's, open and fresh. */
    method LockShiftRow(p: Pid, gap: seq<Action>) returns (answer: SigningAnswer)
      requires p in requests && requests[p].Kitchen? && !requests[p].holding && Foreign(gap, p)
      modifies this
      ensures Seen() == Exec(old(Seen()), gap + [LockShift(p)])
      ensures p in requests <==> !answer.ShiftClosed?
      ensures answer.Signed? ==> requests[p] == Kitchen(old(requests)[p].actor.(checkedAt := now), true)
      ensures answer.SigningWaits? ==> requests[p] == old(requests)[p]
    {
      Turn(Seen(), gap, LockShift(p));
      Wait(p, gap);
      var actor := requests[p].actor;
      if ShiftBusy(Seen(), p, actor.shift) {
        return SigningWaits;
      }
      if actor.shift !in shifts || shifts[actor.shift].cook != actor.cook
          || shifts[actor.shift].terminal != actor.terminal
         || shifts[actor.shift].branch != actor.branch || shifts[actor.shift].ended.Some?
         || shifts[actor.shift].startedAt <= now - COOK_TTL_MS
      {
        requests := requests - {p};
        return ShiftClosed;
      }
      requests := requests[p := Kitchen(actor.(checkedAt := now), true)];
      return Signed;
    }

    method CommitRow(p: Pid, gap: seq<Action>)
      requires p in requests && requests[p].Kitchen? && requests[p].holding && Foreign(gap, p)
      modifies this
      ensures Seen() == Exec(old(Seen()), gap + [Commit(p)]) && p !in requests
      ensures |history| > 0 && history[|history| - 1] == old(requests)[p].actor
    {
      Turn(Seen(), gap, Commit(p));
      Wait(p, gap);
      history := history + [requests[p].actor];
      requests := requests - {p};
    }

    /** A kitchen write signed with a shift: the lock and check of the shift, then the commit of the row. */
    method SignRow(p: Pid, c: CookId, shift: ShiftId, t: TerminalId, branch: BranchId, first: seq<Action>,
                   second: seq<Action>)
      returns (answer: SigningAnswer)
      requires p !in requests && Foreign(first, p) && Foreign(second, p)
      modifies this
      ensures var begun := Next(old(Seen()), KitchenBegin(p, c, shift, t, branch));
              Seen() == Exec(begun, (first + [LockShift(p)]) + if answer.Signed? then second + [Commit(p)] else [])
      ensures p in requests <==> answer.SigningWaits?
      ensures answer.Signed? ==>
        && |history| > 0
        && history[|history| - 1].cook == c && history[|history| - 1].shift == shift
        && history[|history| - 1].terminal == t && history[|history| - 1].branch == branch
    {
      requests := requests[p := Kitchen(Attribution(c, shift, t, branch, 0), false)];
      ghost var begun := Seen();
      answer := LockShiftRow(p, first);
      if answer.Signed? {
        CommitRow(p, second);
        ExecConcat(begun, first + [LockShift(p)], second + [Commit(p)]);
      } else {
        assert (first + [LockShift(p)]) + [] == first + [LockShift(p)];
      }
    }

    /** The token's shift must be open, younger than eight hours and still match the rows it names. */
    method Verify(id: ShiftId, c: CookId, t: TerminalId, branch: BranchId) returns (answer: SessionAnswer)
      modifies this
      ensures Seen() == if answer.ShiftExpired? then Next(old(Seen()), VerifyTimeout(id)) else old(Seen())
      ensures answer.ShiftExpired? <==>
          id in old(shifts) && Cooks.Open(old(shifts)[id]) && old(shifts)[id].startedAt + COOK_TTL_MS <= now
      ensures answer.SessionOf? <==>
        && Signs(old(Seen()), Attribution(c, id, t, branch, 0))
        && c in cooks && cooks[c].active && cooks[c].branch == branch
        && t in terminals && terminals[t].active && terminals[t].branch == branch
      ensures answer.SessionOf? ==> answer == SessionOf(c, t, branch)
    {
      if id in shifts && shifts[id].ended.None? && shifts[id].startedAt + COOK_TTL_MS <= now {
        if !Locked(Seen(), id) {
          shifts := shifts[id := shifts[id].(ended := Some(Ending(shifts[id].startedAt + COOK_TTL_MS, TIMEOUT)))];
        }
        return ShiftExpired;
      }
      if id !in shifts || shifts[id].ended.Some? {
        return ShiftNotActive;
      }
      var shift := shifts[id];
      if shift.cook !in cooks || shift.terminal !in terminals || !cooks[shift.cook].active
          || !terminals[shift.terminal].active
         || shift.cook != c || shift.branch != branch || shift.terminal != t
         || cooks[shift.cook].branch != shift.branch || terminals[shift.terminal].branch != shift.branch
      {
        return ShiftNotActive;
      }
      return SessionOf(shift.cook, shift.terminal, shift.branch);
    }
  }
}
