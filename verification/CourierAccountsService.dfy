/**
 * The handlers of courier accounts and the nightly sweep, as they are
 * written: read, decide, and write under a predicate that is checked again,
 * with other requests in between.
 */
module CourierAccountsService {
  import opened Wrappers
  import opened CourierAccounts

  datatype AuthAnswer = InvalidCredentials | Ambiguous | SessionFor(id: CourierId)

  datatype WriteAnswer = Refused | ActiveOrdersExist | PhoneExists | Done

  /** The action belongs to request p. */
  predicate BelongsTo(a: Action, p: Pid) {
    match a
    case DeleteRead(q, _, _) => q == p
    case DeleteWrite(q, _) => q == p
    case RestoreRead(q, _, _, _, _) => q == p
    case StaffRestoreRead(q, _, _) => q == p
    case RestoreWrite(q) => q == p
    case SweepRead(q, _) => q == p
    case SweepDelete(q) => q == p
    case _ => false
  }

  predicate Foreign(actions: seq<Action>, p: Pid) {
    forall i :: 0 <= i < |actions| ==> !BelongsTo(actions[i], p)
  }

  /** How many rows this sweep has burned. */
  function BurnedBy(burned: seq<Burn>, p: Pid): nat {
    if burned == [] then 0
    else BurnedBy(burned[..|burned| - 1], p) + if burned[|burned| - 1].sweeper == p then 1 else 0
  }

  lemma ForeignStepKeepsRequest(s: State, a: Action, p: Pid)
    requires p in s.requests && !BelongsTo(a, p)
    ensures p in Next(s, a).requests && Next(s, a).requests[p] == s.requests[p]
    ensures BurnedBy(Next(s, a).burned, p) == BurnedBy(s.burned, p)
  {
    var t := Next(s, a);
    if t.burned != s.burned {
      assert t.burned[..|t.burned| - 1] == s.burned;
    }
  }

  lemma {:induction false} ForeignRunKeepsRequest(s: State, actions: seq<Action>, p: Pid)
    requires p in s.requests && Foreign(actions, p)
    ensures p in Exec(s, actions).requests && Exec(s, actions).requests[p] == s.requests[p]
    ensures BurnedBy(Exec(s, actions).burned, p) == BurnedBy(s.burned, p)
    decreases |actions|
  {
    if actions != [] {
      ForeignStepKeepsRequest(s, actions[0], p);
      ForeignRunKeepsRequest(Next(s, actions[0]), actions[1..], p);
    }
  }

  lemma {:induction false} ExecConcat(s: State, before: seq<Action>, after: seq<Action>)
    ensures Exec(s, before + after) == Exec(Exec(s, before), after)
    decreases |before|
  {
    if before == [] {
      assert before + after == after;
    } else {
      assert (before + after)[1..] == before[1..] + after;
      ExecConcat(Next(s, before[0]), before[1..], after);
    }
  }

  /** Everybody else, then one step. */
  lemma Turn(s: State, gap: seq<Action>, a: Action)
    ensures Exec(s, gap + [a]) == Next(Exec(s, gap), a)
  {
    ExecConcat(s, gap, [a]);
    assert [a][1..] == [];
  }

  /** A delete statement per gap, each after everybody else's steps. */
  function SweepRun(p: Pid, gaps: seq<seq<Action>>): seq<Action>
    decreases |gaps|
  {
    if gaps == [] then [] else SweepRun(p, gaps[..|gaps| - 1]) + (gaps[|gaps| - 1] + [SweepDelete(p)])
  }

  class CourierDesk {
    var rows: Rows
    var tenants: set<TenantId>
    var requests: map<Pid, Request>
    var burned: seq<Burn>
    var now: int

    function Seen(): State
      reads this
    {
      State(rows, tenants, requests, burned, now)
    }

    constructor ()
      ensures Seen() == EMPTY
    {
      rows, tenants, requests, burned, now := map[], {}, map[], [], 0;
    }

    /** Everybody else's steps, one after another. */
    method Interfere(actions: seq<Action>)
      modifies this
      ensures Seen() == Exec(old(Seen()), actions)
    {
      var i := 0;
      while i < |actions|
        invariant i <= |actions|
        invariant Exec(Seen(), actions[i..]) == Exec(old(Seen()), actions)
      {
        assert actions[i..][1..] == actions[i + 1..];
        var s := Next(Seen(), actions[i]);
        rows, tenants, requests, burned, now := s.rows, s.tenants, s.requests, s.burned, s.now;
        i := i + 1;
      }
    }

    /** Everybody else first; the request itself has not moved. */
    method Wait(p: Pid, actions: seq<Action>)
      requires p in requests && Foreign(actions, p)
      modifies this
      ensures Seen() == Exec(old(Seen()), actions)
      ensures p in requests && requests[p] == old(requests)[p]
      ensures BurnedBy(burned, p) == BurnedBy(old(burned), p)
    {
      ForeignRunKeepsRequest(Seen(), actions, p);
      Interfere(actions);
    }

    /** Staff adds a courier; a live courier of the tenant with the number stands in the way. */
    method AddCourier(id: CourierId, tenant: TenantId, brand: BrandId, phone: Phone, pin: string)
      returns (answer: WriteAnswer)
      requires id !in rows && forall b :: b in burned ==> b.id != id
      modifies this
      ensures Seen() == Next(old(Seen()), Create(id, tenant, brand, phone, pin))
      ensures answer == if PhoneTaken(old(rows), id, tenant, phone) then PhoneExists else Done
      ensures answer.Done? ==> id in rows && rows[id] == Row(tenant, brand, Some(phone), pin, true, None)
      ensures answer.PhoneExists? ==> Seen() == old(Seen())
    {
      if PhoneTaken(rows, id, tenant, phone) {
        return PhoneExists;
      }
      rows := rows[id := Row(tenant, brand, Some(phone), pin, true, None)];
      return Done;
    }

    /** Sign-in by phone and PIN; `found` is what the database returns, two rows at most. */
    method AuthenticateByPin(declared: Option<TenantId>, phone: Phone, pin: string, found: seq<CourierId>)
      returns (answer: AuthAnswer)
      requires Takes(found, LoginCandidates(Seen(), declared, phone), if declared.Some? then 1 else 2)
      ensures answer.Ambiguous? <==> declared.None? && |LoginCandidates(Seen(), declared, phone)| >= 2
      ensures answer.SessionFor? ==>
        && answer.id in LoginCandidates(Seen(), declared, phone)
        && rows[answer.id].active && rows[answer.id].pin == pin
      ensures declared.None? && answer.SessionFor? ==> LoginCandidates(Seen(), declared, phone) == {answer.id}
    {
      var resolved := ResolveLoginRow(declared.Some?, found, First(found));
      if declared.None? {
        TakeTwo(found, LoginCandidates(Seen(), declared, phone));
      }
      if resolved.AmbiguousTenant? {
        return Ambiguous;
      }
      if resolved.Unknown? || !rows[resolved.id].active || rows[resolved.id].phone.None?
          || rows[resolved.id].pin != pin {
        return InvalidCredentials;
      }
      return SessionFor(resolved.id);
    }

    /** Self-deletion: the PIN on a read, the rest on the write; `busy` says whether the courier owns an order then. */
    method DeleteOwnAccount(p: Pid, id: CourierId, pin: string, between: seq<Action>, busy: bool)
      returns (answer: WriteAnswer)
      requires p !in requests && Foreign(between, p)
      modifies this
      ensures answer.Refused? <==> id !in old(rows) || !old(rows)[id].active || old(rows)[id].pin != pin
      ensures answer.Refused? ==> Seen() == old(Seen())
      ensures !answer.Refused? ==>
          Seen() == Exec(Next(old(Seen()), DeleteRead(p, id, pin)), between + [DeleteWrite(p, busy)])
      ensures answer.Done? ==> id in rows && !rows[id].active && rows[id].deletedAt == Some(now)
      ensures busy ==> !answer.Done?
    {
      if id !in rows || !rows[id].active || rows[id].pin != pin {
        return Refused;
      }
      requests := requests[p := Deleting(id)];
      Turn(Seen(), between, DeleteWrite(p, busy));
      Wait(p, between);
      requests := requests - {p};
      if id in rows && rows[id].active && !busy {
        rows := rows[id := rows[id].(active := false, deletedAt := Some(now))];
        return Done;
      }
      return ActiveOrdersExist;
    }

    /** The guarded write both restores end with. */
    method WriteRestore(p: Pid, between: seq<Action>) returns (answer: WriteAnswer)
      requires p in requests && requests[p].Restoring? && Foreign(between, p)
      modifies this
      ensures Seen() == Exec(old(Seen()), between + [RestoreWrite(p)]) && p !in requests
      ensures var Restoring(id, since, staffOf) := old(requests)[p];
              var before := Exec(old(Seen()), between).rows;
              && (answer.Done? <==> Restorable(before, id, since, staffOf) && !IndexRefuses(before, id))
              && (answer.PhoneExists? <==> Restorable(before, id, since, staffOf) && IndexRefuses(before, id))
              && (answer.Done? ==> id in rows && Live(rows[id]) && rows[id].active)
              && (!answer.Done? ==> rows == before)
    {
      Turn(Seen(), between, RestoreWrite(p));
      Wait(p, between);
      var Restoring(id, since, staffOf) := requests[p];
      requests := requests - {p};
      if id !in rows || !DeletedAfter(rows[id], since)
          || (staffOf.Some? && (rows[id].brand != staffOf.value || rows[id].phone.None?)) {
        return Refused;
      }
      if rows[id].phone.Some? && PhoneTaken(rows, id, rows[id].tenant, rows[id].phone.value) {
        return PhoneExists;
      }
      rows := rows[id := rows[id].(active := true, deletedAt := None)];
      return Done;
    }

    /** The courier's own restore: one cutoff for the lookup and for the write. */
    method RestoreAccount(p: Pid, declared: Option<TenantId>, phone: Phone, pin: string, found: seq<CourierId>,
                          between: seq<Action>)
      returns (answer: AuthAnswer, written: WriteAnswer)
      requires p !in requests && Foreign(between, p)
      requires TakesLatest(found, rows, RestoreCandidates(Seen(), declared, phone, now - WINDOW_MS), if declared.Some?
          then 1 else 2)
      modifies this
      ensures answer.Ambiguous? <==>
          declared.None? && |RestoreCandidates(old(Seen()), declared, phone, old(now) - WINDOW_MS)| >= 2
      ensures answer.Ambiguous? ==> Seen() == old(Seen())
      ensures written.Done? <==> answer.SessionFor?
      ensures answer.SessionFor? ==>
        && answer.id in RestoreCandidates(old(Seen()), declared, phone, old(now) - WINDOW_MS)
        && old(rows)[answer.id].pin == pin
        && answer.id in rows && Live(rows[answer.id]) && rows[answer.id].active
      ensures Seen() == old(Seen())
              || Seen() == Exec(Next(old(Seen()), RestoreRead(p, declared, phone, pin, found)),
                  between + [RestoreWrite(p)])
    {
      hide CourierAccounts.Exec;
      var cutoff := now - WINDOW_MS;
      ghost var candidates := RestoreCandidates(Seen(), declared, phone, cutoff);
      written := Refused;
      var resolved := ResolveLoginRow(declared.Some?, found, First(found));
      if resolved.AmbiguousTenant? {
        return Ambiguous, Refused;
      }
      if resolved.Unknown? || rows[resolved.id].phone.None? || rows[resolved.id].pin != pin {
        return InvalidCredentials, Refused;
      }
      requests := requests[p := Restoring(resolved.id, cutoff, None)];
      written := WriteRestore(p, between);
      answer := if written.Done? then SessionFor(resolved.id) else InvalidCredentials;
    }

    /** The owner's restore from the panel. */
    method RestoreFromPanel(p: Pid, id: CourierId, brand: BrandId, between: seq<Action>) returns (answer: WriteAnswer)
      requires p !in requests && Foreign(between, p)
      modifies this
      ensures Seen() == Exec(Next(old(Seen()), StaffRestoreRead(p, id, brand)), between + [RestoreWrite(p)])
      ensures answer.Done? ==> id in rows && Live(rows[id]) && rows[id].active
    {
      requests := requests[p := Restoring(id, now - WINDOW_MS, Some(brand))];
      answer := WriteRestore(p, between);
    }

    method BurnNext(p: Pid, gap: seq<Action>) returns (count: nat)
      requires p in requests && requests[p].Sweeping? && requests[p].pending != [] && Foreign(gap, p)
      modifies this
      ensures Seen() == Exec(old(Seen()), gap + [SweepDelete(p)])
      ensures p in requests && requests[p] == Sweeping(old(requests)[p].cutoff, old(requests)[p].pending[1..])
      ensures BurnedBy(burned, p) == BurnedBy(old(burned), p) + count
      ensures old(requests)[p].pending[0] in rows ==>
          !DeletedBefore(rows[old(requests)[p].pending[0]], old(requests)[p].cutoff)
    {
      hide CourierAccounts.DoRestoreWrite;
      Turn(Seen(), gap, SweepDelete(p));
      Wait(p, gap);
      var Sweeping(cutoff, pending) := requests[p];
      var id := pending[0];
      requests := requests[p := Sweeping(cutoff, pending[1..])];
      if id !in rows || !DeletedBefore(rows[id], cutoff) {
        return 0;
      }
      ghost var before := burned;
      burned := burned + [Burn(id, rows[id], now, cutoff, p)];
      assert burned[..|burned| - 1] == before;
      rows := rows - {id};
      return 1;
    }

    /** The sweep: reads the expired rows once, then deletes them one by one, each under the predicate again. */
    method ExpireDeletedCouriers(p: Pid, order: seq<CourierId>, gaps: seq<seq<Action>>) returns (count: nat)
      requires p !in requests && BurnedBy(burned, p) == 0
      requires |gaps| == |order| && forall k :: 0 <= k < |gaps| ==> Foreign(gaps[k], p)
      requires Takes(order, ExpiredIds(Seen(), now - WINDOW_MS), |ExpiredIds(Seen(), now - WINDOW_MS)|)
      modifies this
      ensures Seen() == Exec(Next(old(Seen()), SweepRead(p, order)), SweepRun(p, gaps))
      ensures count == BurnedBy(burned, p)
    {
      hide BurnedBy;
      ghost var read := Next(Seen(), SweepRead(p, order));
      requests := requests[p := Sweeping(now - WINDOW_MS, order)];
      assert Seen() == read;
      count := 0;
      var i := 0;
      while i < |order|
        invariant i <= |order|
        invariant p in requests && requests[p] == Sweeping(old(now) - WINDOW_MS, order[i..])
        invariant Seen() == Exec(read, SweepRun(p, gaps[..i]))
        invariant count == BurnedBy(burned, p)
      {
        assert gaps[..i + 1][..i] == gaps[..i];
        ExecConcat(read, SweepRun(p, gaps[..i]), gaps[i] + [SweepDelete(p)]);
        var deleted := BurnNext(p, gaps[i]);
        count := count + deleted;
        i := i + 1;
      }
      assert gaps[..i] == gaps;
    }
  }
}
