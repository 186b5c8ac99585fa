/**
 * What the runs of customer accounts mean: when a deleted customer holds
 * points, what a deletion burns, and what a restore gives back.
 */
module CustomerTheorems {
  import opened Wrappers
  import opened OrderStatus
  import Ledger
  import opened Customers
  import Pricing

  // ----- runs -----

  lemma {:induction false} ExecConcat(w: World, a: seq<Action>, b: seq<Action>)
    ensures Exec(w, a + b) == Exec(Exec(w, a), b)
    decreases |a|
  {
    if a == [] {
      assert a + b == b;
    } else {
      assert (a + b)[0] == a[0] && (a + b)[1..] == a[1..] + b;
      ExecConcat(Next(w, a[0]), a[1..], b);
    }
  }

  lemma ExecOne(w: World, a: Action)
    ensures Exec(w, [a]) == Next(w, a)
  {
    assert [a][1..] == [];
  }

  /** The state after one more action. */
  lemma ExecStep(w: World, actions: seq<Action>, n: nat)
    requires n < |actions|
    ensures Exec(w, actions[..n + 1]) == Next(Exec(w, actions[..n]), actions[n])
  {
    assert actions[..n + 1] == actions[..n] + [actions[n]];
    ExecConcat(w, actions[..n], [actions[n]]);
    ExecOne(Exec(w, actions[..n]), actions[n]);
  }

  /** The run before, at and after its n-th action. */
  lemma ExecAround(w: World, actions: seq<Action>, n: nat)
    requires n < |actions|
    ensures Exec(w, actions) == Exec(Next(Exec(w, actions[..n]), actions[n]), actions[n + 1..])
  {
    ExecStep(w, actions, n);
    assert actions == actions[..n + 1] + actions[n + 1..];
    ExecConcat(w, actions[..n + 1], actions[n + 1..]);
  }

  lemma ReachableIsInOrder(actions: seq<Action>)
    ensures Inv(Exec(EMPTY, actions))
  {
    EmptyIsInOrder();
    RunsKeepInv(EMPTY, actions);
  }

  // ----- the rows a step adds -----

  /** A step appends one row or none; only the entry of a cashback or refund appends points above zero. */
  ghost predicate AddsRow(w: World, a: Action, row: Ledger.Row) {
    && Next(w, a).ledger.rows == w.ledger.rows + [row]
    && (row.points < 0 ||
        (a.Enter? && a.p in w.requests && w.requests[a.p].Entering? && w.requests[a.p].req.customer == row.customer
         && Next(w, a).customers == w.customers && Next(w, a).marks == w.marks
             && Next(w, a).requests == w.requests - {a.p}))
  }

  lemma CheckOutAdds(w: World, a: Action)
    requires a.CheckOut?
    ensures Next(w, a).ledger.rows == w.ledger.rows || exists row :: AddsRow(w, a, row)
  {
    if Next(w, a).ledger.rows != w.ledger.rows {
      var c := a.buyer.value;
      var req := Ledger.SpendRequest(c, a.order, a.points);
      var row := Ledger.RowOf(req, if c in w.ledger.balances then w.ledger.balances[c] else 0);
      assert Next(w, a).ledger == Ledger.Post(w.ledger, req).0;
      assert AddsRow(w, a, row);
    }
  }

  lemma EnterAdds(w: World, a: Action)
    requires a.Enter?
    ensures Next(w, a).ledger.rows == w.ledger.rows || exists row :: AddsRow(w, a, row)
  {
    if Next(w, a).ledger.rows != w.ledger.rows {
      var req := w.requests[a.p].req;
      var row := Ledger.RowOf(req, if req.customer in w.ledger.balances then w.ledger.balances[req.customer] else 0);
      assert Next(w, a).ledger == Ledger.Post(w.ledger, req).0;
      assert AddsRow(w, a, row);
    }
  }

  lemma UpdateAdds(w: World, a: Action)
    requires Inv(w) && a.UpdateRow?
    ensures Next(w, a).ledger.rows == w.ledger.rows || exists row :: AddsRow(w, a, row)
  {
    if Next(w, a).ledger.rows != w.ledger.rows {
      assert RequestFits(w, w.requests[a.p]);
      assert AddsRow(w, a, w.requests[a.p].stage.entry.value);
    }
  }

  lemma StepAdds(w: World, a: Action)
    requires Inv(w)
    ensures Next(w, a).ledger.rows == w.ledger.rows || exists row :: AddsRow(w, a, row)
  {
    hide Inv, AddsRow, DoSignInLook, DoFrozenLook, DoUpsert, DoCheckOut, DoEarnCheck, DoRefundCheck, DoEnter,
      DoDeleteLook, DoDeleteCount, DoBurn, DoUpdateRow, DoRestoreRead, DoRestoreWrite, DoReleasePhones,
      DoSetStatus;
    if a.CheckOut? {
      CheckOutAdds(w, a);
    } else if a.Enter? {
      EnterAdds(w, a);
    } else if a.UpdateRow? {
      UpdateAdds(w, a);
    }
  }

  lemma {:induction false} RowsStay(w: World, actions: seq<Action>)
    requires Inv(w)
    ensures w.ledger.rows <= Exec(w, actions).ledger.rows
    decreases |actions|
  {
    hide Inv, Next;
    if actions != [] {
      StepAdds(w, actions[0]);
      NextKeepsInv(w, actions[0]);
      RowsStay(Next(w, actions[0]), actions[1..]);
    }
  }

  // ----- late entries -----

  /** A deletion of the customer has burned nothing and not updated the row yet. */
  predicate EmptyBurn(req: Pending, c: Ledger.CustomerId) {
    req.Deleting? && req.subject == c && req.stage.Burned? && req.stage.entry.None?
  }

  predicate EmptyBurnPending(w: World, c: Ledger.CustomerId) {
    exists p :: p in w.requests && EmptyBurn(w.requests[p], c)
  }

  /** A checked cashback or refund enters its points after the deletion, or between an empty burn and the row update. */
  predicate LateEntry(w: World, a: Action, c: Ledger.CustomerId) {
    && a.Enter? && a.p in w.requests && w.requests[a.p].Entering? && w.requests[a.p].req.customer == c
    && (Deleted(w, c) || EmptyBurnPending(w, c))
    && Next(w, a).ledger.rows != w.ledger.rows
  }

  /** Step `n` of the run is a late entry, made when the ledger had at least `mark` rows. */
  predicate LateAt(w: World, actions: seq<Action>, n: int, c: Ledger.CustomerId, mark: nat) {
    && 0 <= n < |actions|
    && LateEntry(Exec(w, actions[..n]), actions[n], c)
    && |Exec(w, actions[..n]).ledger.rows| >= mark
  }

  /** An entry of the run from the empty tables came late, with the ledger at the mark or beyond. */
  ghost predicate SomeLate(actions: seq<Action>, c: Ledger.CustomerId, mark: nat) {
    exists n :: LateAt(EMPTY, actions, n, c, mark)
  }

  predicate NoLateEntries(w: World, actions: seq<Action>, c: Ledger.CustomerId) {
    forall n :: 0 <= n < |actions| ==> !LateEntry(Exec(w, actions[..n]), actions[n], c)
  }

  /** Ledger.Row `i` is before the mark of the deleted customer, and before that of every empty burn under way. */
  predicate Settled(w: World, c: Ledger.CustomerId, i: nat) {
    && (Deleted(w, c) ==> c in w.marks && w.marks[c] > i)
    && forall p :: p in w.requests && EmptyBurn(w.requests[p], c) ==> w.requests[p].stage.mark > i
  }

  lemma UpdateKeepsSettled(w: World, p: Ledger.Pid, c: Ledger.CustomerId, i: nat)
    requires Settled(w, c, i) && i < |w.ledger.rows|
    ensures Settled(DoUpdateRow(w, p), c, i)
  {
    if p in w.requests && w.requests[p].Deleting? && w.requests[p].stage.Burned? && w.requests[p].subject == c
        && w.requests[p].stage.entry.None? {
      assert EmptyBurn(w.requests[p], c);
    }
  }

  lemma StepKeepsSettled(w: World, a: Action, c: Ledger.CustomerId, i: nat)
    requires Settled(w, c, i) && i < |w.ledger.rows|
    ensures Settled(Next(w, a), c, i)
  {
    hide HasBlockingOrder, PhoneTaken, PhoneFrozen, Locked, Ledger.Post, RowWithKey, Pricing.CashbackPoints,
      FreshDeletion, Restorable, DoCheckOut, DoSetStatus, DoProvision;
    match a
    case UpdateRow(p) => UpdateKeepsSettled(w, p, c, i);
    case _ =>
  }

  lemma {:induction false} RunKeepsSettled(w: World, actions: seq<Action>, c: Ledger.CustomerId, i: nat)
    requires Inv(w) && Settled(w, c, i) && i < |w.ledger.rows|
    ensures Settled(Exec(w, actions), c, i)
    decreases |actions|
  {
    hide Inv, Next;
    if actions != [] {
      StepKeepsSettled(w, actions[0], c, i);
      StepAdds(w, actions[0]);
      NextKeepsInv(w, actions[0]);
      RunKeepsSettled(Next(w, actions[0]), actions[1..], c, i);
    }
  }

  /** Points entered in time are settled at once. */
  lemma TimelyEntryIsSettled(w: World, a: Action, c: Ledger.CustomerId)
    requires Inv(w) && Next(w, a).ledger.rows != w.ledger.rows && !LateEntry(w, a, c)
    requires |Next(w, a).ledger.rows| == |w.ledger.rows| + 1
    requires Next(w, a).ledger.rows[|w.ledger.rows|].customer == c
        && Next(w, a).ledger.rows[|w.ledger.rows|].points >= 0
    ensures Settled(Next(w, a), c, |w.ledger.rows|)
  {
    StepAdds(w, a);
    var row :| AddsRow(w, a, row);
    assert Next(w, a).ledger.rows[|w.ledger.rows|] == row;
    assert !Deleted(w, c) && !EmptyBurnPending(w, c);
  }

  lemma LateOrSettled(w: World, a: Action, rest: seq<Action>, c: Ledger.CustomerId)
    requires Inv(w) && |Next(w, a).ledger.rows| == |w.ledger.rows| + 1
    requires Next(w, a).ledger.rows[|w.ledger.rows|].customer == c
        && Next(w, a).ledger.rows[|w.ledger.rows|].points >= 0
    ensures LateEntry(w, a, c) || Settled(Exec(Next(w, a), rest), c, |w.ledger.rows|)
  {
    if !LateEntry(w, a, c) {
      TimelyEntryIsSettled(w, a, c);
      NextKeepsInv(w, a);
      RunKeepsSettled(Next(w, a), rest, c, |w.ledger.rows|);
    }
  }

  /** Points of a deleted customer behind the mark were entered late. */
  lemma {:induction false} StrayWasLate(w: World, actions: seq<Action>, c: Ledger.CustomerId, i: nat) returns (n: nat)
    requires Inv(w) && |w.ledger.rows| <= i < |Exec(w, actions).ledger.rows|
    requires !Settled(Exec(w, actions), c, i)
    requires Exec(w, actions).ledger.rows[i].customer == c && Exec(w, actions).ledger.rows[i].points > 0
    ensures n < |actions| && LateEntry(Exec(w, actions[..n]), actions[n], c) && |Exec(w, actions[..n]).ledger.rows| == i
    decreases |actions|
  {
    hide Inv, Next;
    var a, rest := actions[0], actions[1..];
    var w1 := Next(w, a);
    NextKeepsInv(w, a);
    StepAdds(w, a);
    RowsStay(w1, rest);
    if |w1.ledger.rows| <= i {
      var m := StrayWasLate(w1, rest, c, i);
      assert actions[..m + 1][0] == a && actions[..m + 1][1..] == rest[..m];
      n := m + 1;
    } else {
      assert w1.ledger.rows[i] == Exec(w1, rest).ledger.rows[i];
      LateOrSettled(w, a, rest, c);
      n := 0;
      assert actions[..0] == [];
    }
  }

  lemma LateEntryAdds(w: World, a: Action, c: Ledger.CustomerId)
    requires Inv(w) && LateEntry(w, a, c)
    ensures |Next(w, a).ledger.rows| == |w.ledger.rows| + 1
    ensures Next(w, a).ledger.rows[|w.ledger.rows|].customer == c && Next(w, a).ledger.rows[|w.ledger.rows|].points > 0
  {
    hide DoSignInLook, DoFrozenLook, DoUpsert, DoCheckOut, DoEarnCheck, DoRefundCheck, DoDeleteLook,
      DoDeleteCount, DoBurn, DoUpdateRow, DoRestoreRead, DoRestoreWrite, DoReleasePhones, DoSetStatus,
      DoProvision;
    assert RequestFits(w, w.requests[a.p]);
    assert Next(w, a).ledger == Ledger.Post(w.ledger, w.requests[a.p].req).0;
  }

  /** A late entry leaves a row of points that stays. */
  lemma LateEntryStays(w: World, actions: seq<Action>, n: nat, c: Ledger.CustomerId)
    requires Inv(w) && n < |actions| && LateEntry(Exec(w, actions[..n]), actions[n], c)
    ensures var i := |Exec(w, actions[..n]).ledger.rows|;
            var rows := Exec(w, actions).ledger.rows;
            i < |rows| && rows[i].customer == c && rows[i].points > 0
  {
    RunsKeepInv(w, actions[..n]);
    ExecAround(w, actions, n);
    LateRowStays(Exec(w, actions[..n]), actions[n], actions[n + 1..], c);
  }

  lemma LateRowStays(w: World, a: Action, rest: seq<Action>, c: Ledger.CustomerId)
    requires Inv(w) && LateEntry(w, a, c)
    ensures var i := |w.ledger.rows|;
            var rows := Exec(Next(w, a), rest).ledger.rows;
            i < |rows| && rows[i].customer == c && rows[i].points > 0
  {
    LateEntryAdds(w, a, c);
    NextKeepsInv(w, a);
    RowsStay(Next(w, a), rest);
  }

  // ----- the points of a deleted customer -----

  lemma {:induction false} TotalSplit(rows: seq<Ledger.Row>, k: nat, c: Ledger.CustomerId)
    requires k <= |rows|
    ensures Ledger.Total(rows, c) == Ledger.Total(rows[..k], c) + Ledger.Total(rows[k..], c)
  {
    if k == |rows| {
      assert rows[..k] == rows && rows[k..] == [];
    } else {
      var init, last := rows[..|rows| - 1], rows[|rows| - 1];
      TotalSplit(init, k, c);
      assert init[..k] == rows[..k];
      assert rows[k..] == init[k..] + [last];
      Ledger.TotalAppend(init[k..], last, c);
    }
  }

  lemma {:induction false} SignsOfTotal(rows: seq<Ledger.Row>, c: Ledger.CustomerId)
    ensures (forall i :: 0 <= i < |rows| && rows[i].customer == c ==> rows[i].points <= 0) ==>
        Ledger.Total(rows, c) <= 0
    ensures (forall i :: 0 <= i < |rows| && rows[i].customer == c ==> rows[i].points >= 0) ==>
        Ledger.Total(rows, c) >= 0
    ensures
      ((forall i :: 0 <= i < |rows| && rows[i].customer == c ==> rows[i].points >= 0)
       && (exists i :: 0 <= i < |rows| && rows[i].customer == c && rows[i].points > 0)) ==> Ledger.Total(rows, c) > 0
  {
    if rows != [] {
      SignsOfTotal(rows[..|rows| - 1], c);
    }
  }

  lemma BalanceFromMark(db: Ledger.Db, c: Ledger.CustomerId, mark: nat)
    requires Ledger.Consistent(db) && MarkOk(db.rows, c, mark)
    ensures Balance(db, c) == Ledger.Total(db.rows[mark..], c) >= 0
  {
    BalanceIsTotal(db, c);
    TotalSplit(db.rows, mark, c);
  }

  /** What a deleted customer holds is exactly what has been entered behind the mark. */
  lemma DeletedHoldsItsStrays(w: World, c: Ledger.CustomerId)
    requires Inv(w) && Deleted(w, c)
    ensures c in w.marks && w.marks[c] <= |w.ledger.rows|
    ensures Balance(w.ledger, c) == Ledger.Total(w.ledger.rows[w.marks[c]..], c) >= 0
  {
    BalanceFromMark(w.ledger, c, w.marks[c]);
  }

  /** The customer has spent and lost nothing since the burn of the deletion. */
  predicate NothingTakenSince(w: World, c: Ledger.CustomerId)
    requires c in w.marks
  {
    forall i :: w.marks[c] <= i < |w.ledger.rows| && w.ledger.rows[i].customer == c ==> w.ledger.rows[i].points > 0
  }

  /** A deleted customer holds points exactly when some were entered late since the burn. */
  lemma DeletedHoldsPointsExactly(actions: seq<Action>, c: Ledger.CustomerId)
    requires Deleted(Exec(EMPTY, actions), c)
    ensures var w := Exec(EMPTY, actions);
            && c in w.marks
            && (NothingTakenSince(w, c) ==> (Balance(w.ledger, c) > 0 <==> SomeLate(actions, c, w.marks[c])))
            && (Balance(w.ledger, c) > 0 ==> SomeLate(actions, c, w.marks[c]))
  {
    hide Inv, Next, Exec;
    var w := Exec(EMPTY, actions);
    ReachableIsInOrder(actions);
    DeletedHoldsItsStrays(w, c);
    var strays := w.ledger.rows[w.marks[c]..];
    SignsOfTotal(strays, c);
    if Balance(w.ledger, c) > 0 {
      var k :| 0 <= k < |strays| && strays[k].customer == c && strays[k].points > 0;
      EmptyIsInOrder();
      var n := StrayWasLate(EMPTY, actions, c, w.marks[c] + k);
      assert LateAt(EMPTY, actions, n, c, w.marks[c]);
    }
    if n :| LateAt(EMPTY, actions, n, c, w.marks[c]) {
      EmptyIsInOrder();
      LateEntryStays(EMPTY, actions, n, c);
      var i := |Exec(EMPTY, actions[..n]).ledger.rows|;
      assert strays[i - w.marks[c]] == w.ledger.rows[i];
      if NothingTakenSince(w, c) {
        forall j | 0 <= j < |strays| && strays[j].customer == c ensures strays[j].points >= 0 {
          assert strays[j] == w.ledger.rows[w.marks[c] + j];
        }
      }
    }
  }

  function MarkOf(w: World, c: Ledger.CustomerId): nat {
    if c in w.marks then w.marks[c] else 0
  }

  /** No entry of the run came late since the burn that the customer's mark stands for. */
  ghost predicate NoneLateSinceBurn(actions: seq<Action>, c: Ledger.CustomerId) {
    !SomeLate(actions, c, MarkOf(Exec(EMPTY, actions), c))
  }

  /** Without late entries since the burn a deleted customer has no points, no phone and no name. */
  lemma DeletedNeverHoldsPoints(actions: seq<Action>, c: Ledger.CustomerId)
    requires Deleted(Exec(EMPTY, actions), c) && NoneLateSinceBurn(actions, c)
    ensures var w := Exec(EMPTY, actions);
            Balance(w.ledger, c) == 0 && w.customers[c].phone.None? && w.customers[c].name.None?
  {
    hide Exec, SomeLate;
    DeletedIsAnonymous(actions, c);
    DeletedHoldsPointsExactly(actions, c);
  }

  lemma DeletedIsAnonymous(actions: seq<Action>, c: Ledger.CustomerId)
    requires Deleted(Exec(EMPTY, actions), c)
    ensures var w := Exec(EMPTY, actions);
            Balance(w.ledger, c) >= 0 && w.customers[c].phone.None? && w.customers[c].name.None?
  {
    ReachableIsInOrder(actions);
    BalanceIsTotal(Exec(EMPTY, actions).ledger, c);
  }

  // ----- entries are checked -----

  /** Step `n` is the check that let this entry through. */
  predicate CheckedAt(w: World, actions: seq<Action>, n: int, p: Ledger.Pid, c: Ledger.CustomerId) {
    && 0 <= n < |actions|
    && (actions[n].EarnCheck? || actions[n].RefundCheck?) && actions[n].p == p
    && c in Exec(w, actions[..n]).customers && !Deleted(Exec(w, actions[..n]), c)
  }

  lemma StepChecks(w: World, a: Action, p: Ledger.Pid)
    requires Inv(w) && p in Next(w, a).requests && Next(w, a).requests[p].Entering?
    requires !(p in w.requests && w.requests[p] == Next(w, a).requests[p])
    ensures a.EarnCheck? || a.RefundCheck?
    ensures a.p == p && Next(w, a).requests[p].req.customer in w.customers
        && !Deleted(w, Next(w, a).requests[p].req.customer)
  {
    hide HasBlockingOrder, PhoneTaken, PhoneFrozen, Locked, Ledger.Post, RowWithKey, Pricing.CashbackPoints,
      FreshDeletion, Restorable, DoCheckOut, DoReleasePhones, DoSetStatus, DoProvision;
  }

  /** Every pending entry was checked earlier in the run, when its customer was not deleted. */
  lemma {:induction false} EntriesWereChecked(actions: seq<Action>, p: Ledger.Pid)
    requires p in Exec(EMPTY, actions).requests && Exec(EMPTY, actions).requests[p].Entering?
    ensures exists n :: CheckedAt(EMPTY, actions, n, p, Exec(EMPTY, actions).requests[p].req.customer)
    decreases |actions|
  {
    hide Next, Inv;
    if actions != [] {
      var k := |actions| - 1;
      var before, a := actions[..k], actions[k];
      var v := Exec(EMPTY, before);
      assert actions[..k + 1] == actions;
      ExecStep(EMPTY, actions, k);
      ReachableIsInOrder(before);
      if p in v.requests && v.requests[p] == Next(v, a).requests[p] {
        EntriesWereChecked(before, p);
        var n :| CheckedAt(EMPTY, before, n, p, v.requests[p].req.customer);
        assert before[..n] == actions[..n];
        assert CheckedAt(EMPTY, actions, n, p, v.requests[p].req.customer);
      } else {
        StepChecks(v, a, p);
        assert CheckedAt(EMPTY, actions, k, p, Exec(EMPTY, actions).requests[p].req.customer);
      }
    }
  }

  // ----- what a deletion burns -----

  /** A burn is never refused: it waits for another deletion of the customer, or goes on. */
  lemma BurnGoesOn(w: World, p: Ledger.Pid)
    requires Inv(w) && p in w.requests && w.requests[p].Deleting? && w.requests[p].stage.Counted?
    ensures var del := w.requests[p];
            var w' := Next(w, Burn(p));
            && (Locked(w, del.subject) ==> w' == w)
            && (!Locked(w, del.subject) ==>
                  && w' == Hold(w, p, w'.requests[p]) && w'.requests[p].Deleting? && w'.requests[p].stage.Burned?
                  && (w'.requests[p].stage.entry.Some? <==> Balance(w.ledger, del.subject) > 0)
                  && !Ledger.Post(w.ledger, Ledger.ExpireRequest(del.subject, del.deletion)).1.Insufficient?)
  {
    hide DoSignInLook, DoFrozenLook, DoUpsert, DoCheckOut, DoEarnCheck, DoRefundCheck, DoEnter, DoDeleteLook,
      DoDeleteCount, DoUpdateRow, DoRestoreRead, DoRestoreWrite, DoReleasePhones, DoSetStatus, DoProvision;
    assert RequestFits(w, w.requests[p]);
    BalanceIsTotal(w.ledger, w.requests[p].subject);
  }

  lemma RowBurns(w: World, p: Ledger.Pid, row: Ledger.Row, mark: nat)
    requires Inv(w) && p in w.requests && w.requests[p].Deleting? && w.requests[p].stage == Burned(Some(row), mark)
    ensures var del := w.requests[p];
            var w' := Next(w, UpdateRow(p));
            && -row.points == Balance(w.ledger, del.subject) > 0
            && Balance(w'.ledger, del.subject) == 0
            && w'.ledger == Ledger.Post(w.ledger, Ledger.ExpireRequest(del.subject, del.deletion)).0
  {
    hide DoSignInLook, DoFrozenLook, DoUpsert, DoCheckOut, DoEarnCheck, DoRefundCheck, DoEnter, DoDeleteLook,
      DoDeleteCount, DoBurn, DoRestoreRead, DoRestoreWrite, DoReleasePhones, DoSetStatus, DoProvision;
    var del := w.requests[p];
    assert RequestFits(w, del);
    BurnedRowCommits(w, del.subject, del.deletion, row);
  }

  lemma NothingBurns(w: World, p: Ledger.Pid, mark: nat)
    requires Inv(w) && p in w.requests && w.requests[p].Deleting? && w.requests[p].stage == Burned(None, mark)
    ensures var del := w.requests[p];
            var w' := Next(w, UpdateRow(p));
            && w'.ledger == w.ledger && mark <= |w.ledger.rows|
            && Balance(w'.ledger, del.subject) == Ledger.Total(w.ledger.rows[mark..], del.subject)
  {
    hide Inv, DoSignInLook, DoFrozenLook, DoUpsert, DoCheckOut, DoEarnCheck, DoRefundCheck, DoEnter,
      DoDeleteLook, DoDeleteCount, DoBurn, DoRestoreRead, DoRestoreWrite, DoReleasePhones, DoSetStatus,
      DoProvision;
    EmptyBurnFits(w, p, mark);
    BalanceFromMark(w.ledger, w.requests[p].subject, mark);
  }

  lemma EmptyBurnFits(w: World, p: Ledger.Pid, mark: nat)
    requires Inv(w) && p in w.requests && w.requests[p].Deleting? && w.requests[p].stage == Burned(None, mark)
    ensures Ledger.Consistent(w.ledger) && MarkOk(w.ledger.rows, w.requests[p].subject, mark)
  {
    assert RequestFits(w, w.requests[p]);
  }

  /**
   * The commit of a deletion. A burn that wrote a row took exactly the balance
   * of the moment of the commit and leaves nothing, as one atomic drain would.
   * A burn that found nothing leaves exactly what was entered since.
   */
  lemma DeletionBurns(w: World, p: Ledger.Pid)
    requires Inv(w) && p in w.requests && w.requests[p].Deleting? && w.requests[p].stage.Burned?
    ensures var del := w.requests[p];
            var w' := Next(w, UpdateRow(p));
            && Deleted(w', del.subject) && w'.customers[del.subject] == Customer(None, None, Some(w.now), del.phone)
            && match del.stage
               case Burned(Some(row), _) =>
                 && -row.points == Balance(w.ledger, del.subject) > 0
                 && Balance(w'.ledger, del.subject) == 0
                 && w'.ledger == Ledger.Post(w.ledger, Ledger.ExpireRequest(del.subject, del.deletion)).0
               case Burned(None, mark) =>
                 && w'.ledger == w.ledger && mark <= |w.ledger.rows|
                 && Balance(w'.ledger, del.subject) == Ledger.Total(w.ledger.rows[mark..], del.subject)
  {
    hide Inv, Ledger.Post;
    match w.requests[p].stage
    case Burned(Some(row), mark) => RowBurns(w, p, row, mark);
    case Burned(None, mark) => NothingBurns(w, p, mark);
  }

  // ----- what an order spends and earns -----

  /** What an order spent is kept, or returned in full. */
  lemma SpendIsKeptOrReturned(actions: seq<Action>, o: Ledger.OrderId)
    requires o in Exec(EMPTY, actions).orders
    ensures var w := Exec(EMPTY, actions);
            var spent, returned := Ledger.HasKey(w.ledger.rows, Ledger.SpendKey(o)),
                Ledger.HasKey(w.ledger.rows, Ledger.RefundKey(o));
            && (returned ==> spent)
            && OrderSum(w.ledger.rows, o) == (if spent && !returned then -w.orders[o].spent else 0)
  {
    ReachableIsInOrder(actions);
    assert OrderSettled(Exec(EMPTY, actions), o);
  }

  /** Two cashback rows are for two orders, and each is for the customer who placed the order. */
  lemma EarnAtMostOnce(actions: seq<Action>, i: nat, j: nat)
    requires i < j < |Exec(EMPTY, actions).ledger.rows|
    requires Exec(EMPTY, actions).ledger.rows[i].kind == Ledger.EARN
        && Exec(EMPTY, actions).ledger.rows[j].kind == Ledger.EARN
    ensures var w := Exec(EMPTY, actions);
            var first, second := w.ledger.rows[i].key, w.ledger.rows[j].key;
            && first.EarnKey? && second.EarnKey? && first.order != second.order
            && first.order in w.orders && w.orders[first.order].customer == Some(w.ledger.rows[i].customer)
  {
    ReachableIsInOrder(actions);
    var w := Exec(EMPTY, actions);
    assert RowPlaced(w, w.ledger.rows[i]) && RowPlaced(w, w.ledger.rows[j]);
  }

  // ----- two ways to be late -----

  lemma ExecTwo(w: World, a: Action, b: Action)
    ensures Exec(w, [a, b]) == Next(Next(w, a), b)
  {
    assert [a, b][1..] == [b];
    ExecOne(Next(w, a), b);
  }

  /** A deletion that nothing stops, up to its burn. */
  predicate CanDelete(w: World, p: Ledger.Pid, c: Ledger.CustomerId, deletion: string) {
    && p !in w.requests && c in w.customers && !Deleted(w, c)
    && FreshDeletion(w, c, deletion) && !HasBlockingOrder(w, c) && !Locked(w, c)
  }

  /** The cashback of a finished order that has not been booked yet. */
  predicate CanEarn(w: World, q: Ledger.Pid, o: Ledger.OrderId, rate: real, c: Ledger.CustomerId) {
    && q !in w.requests && o in w.orders && w.orders[o].customer == Some(c)
    && c in w.ledger.balances && Pricing.CashbackPoints(w.orders[o].total, rate) > 0
    && !Ledger.HasKey(w.ledger.rows, Ledger.EarnKey(o))
  }

  function BurnedRequest(w: World, c: Ledger.CustomerId, deletion: string): Pending
    requires c in w.customers
  {
    var balance := Balance(w.ledger, c);
    var entry := if balance == 0 then None else Some(Ledger.RowOf(Ledger.ExpireRequest(c, deletion), balance));
    Deleting(c, w.customers[c].phone, deletion, Burned(entry, |w.ledger.rows|))
  }

  function DeletionToBurn(p: Ledger.Pid, c: Ledger.CustomerId, deletion: string): seq<Action> {
    [DeleteLook(p, c, deletion), DeleteCount(p), Burn(p)]
  }

  lemma DeletionReachesBurn(w: World, p: Ledger.Pid, c: Ledger.CustomerId, deletion: string)
    requires CanDelete(w, p, c, deletion)
    ensures Exec(w, DeletionToBurn(p, c, deletion)) == Hold(w, p, BurnedRequest(w, c, deletion))
  {
    hide DoSignInLook, DoFrozenLook, DoUpsert, DoCheckOut, DoEarnCheck, DoRefundCheck, DoEnter, DoUpdateRow,
      DoRestoreRead, DoRestoreWrite, DoReleasePhones, DoSetStatus, DoProvision;
    var w1 := Next(w, DeleteLook(p, c, deletion));
    assert w1 == Hold(w, p, Deleting(c, w.customers[c].phone, deletion, Looked));
    assert !HasBlockingOrder(w1, c);
    var w2 := Next(w1, DeleteCount(p));
    var counted := Deleting(c, w.customers[c].phone, deletion, Counted);
    assert w2 == Hold(w, p, counted) by { assert w1.requests[p := counted] == w.requests[p := counted]; }
    assert !Locked(w2, c) by {
      forall q | q in w2.requests ensures !HoldsAccount(w2.requests[q], c) {
        if q != p { assert !HoldsAccount(w.requests[q], c); }
      }
    }
    var burned := BurnedRequest(w, c, deletion);
    assert w2.requests[p := burned] == w.requests[p := burned];
    var run := DeletionToBurn(p, c, deletion);
    assert run[1..] == [DeleteCount(p), Burn(p)];
    ExecTwo(w1, DeleteCount(p), Burn(p));
  }

  lemma NoLockOnNothing(w: World, c: Ledger.CustomerId)
    requires Inv(w) && Balance(w.ledger, c) == 0
    ensures !Locked(w, c)
  {
    forall p | p in w.requests ensures !HoldsAccount(w.requests[p], c) {
      assert RequestFits(w, w.requests[p]);
    }
  }

  lemma CheckHolds(w: World, q: Ledger.Pid, o: Ledger.OrderId, rate: real, c: Ledger.CustomerId)
    requires CanEarn(w, q, o, rate, c) && !Deleted(w, c)
    ensures Next(w, EarnCheck(q, o, rate)) ==
        Hold(w, q, Entering(Ledger.EarnRequest(c, o, Pricing.CashbackPoints(w.orders[o].total, rate))))
  {
  }

  lemma CashbackEnters(w: World, q: Ledger.Pid, req: Ledger.Request)
    requires Inv(w) && q in w.requests && w.requests[q] == Entering(req) && req.amount.Fixed? && req.amount.points > 0
        && req.createIfMissing
    requires !Locked(w, req.customer) && !Ledger.HasKey(w.ledger.rows, req.key)
    ensures var w' := Next(w, Enter(q));
            && w' == Drop(w, q).(ledger := w'.ledger)
            && Balance(w'.ledger, req.customer) == Balance(w.ledger, req.customer) + req.amount.points
  {
    BalanceIsTotal(w.ledger, req.customer);
  }

  lemma HoldKeepsUnlocked(w: World, q: Ledger.Pid, req: Ledger.Request, c: Ledger.CustomerId)
    requires q !in w.requests && !Locked(w, c)
    ensures !Locked(Hold(w, q, Entering(req)), c)
  {
    var w1 := Hold(w, q, Entering(req));
    forall p | p in w1.requests ensures !HoldsAccount(w1.requests[p], c) {
      if p != q { assert !HoldsAccount(w.requests[p], c); }
    }
  }

  lemma EntersAfterCheck(w: World, q: Ledger.Pid, req: Ledger.Request)
    requires q !in w.requests && Inv(Hold(w, q, Entering(req))) && !Locked(w, req.customer)
    requires req.amount.Fixed? && req.amount.points > 0 && req.createIfMissing && !Ledger.HasKey(w.ledger.rows, req.key)
    ensures var w' := Next(Hold(w, q, Entering(req)), Enter(q));
            && w' == w.(ledger := w'.ledger)
            && Balance(w'.ledger, req.customer) == Balance(w.ledger, req.customer) + req.amount.points
  {
    var w1 := Hold(w, q, Entering(req));
    HoldKeepsUnlocked(w, q, req, req.customer);
    CashbackEnters(w1, q, req);
    assert w1.requests - {q} == w.requests;
  }

  /** Check and entry in a row. */
  lemma CashbackRuns(w: World, q: Ledger.Pid, o: Ledger.OrderId, rate: real, c: Ledger.CustomerId)
    requires Inv(w) && CanEarn(w, q, o, rate, c) && !Deleted(w, c) && !Locked(w, c)
    ensures var w' := Exec(w, [EarnCheck(q, o, rate), Enter(q)]);
            && w' == w.(ledger := w'.ledger)
            && Balance(w'.ledger, c) == Balance(w.ledger, c) + Pricing.CashbackPoints(w.orders[o].total, rate)
  {
    var req := Ledger.EarnRequest(c, o, Pricing.CashbackPoints(w.orders[o].total, rate));
    CheckHolds(w, q, o, rate, c);
    NextKeepsInv(w, EarnCheck(q, o, rate));
    EntersAfterCheck(w, q, req);
    ExecTwo(w, EarnCheck(q, o, rate), Enter(q));
  }

  lemma HoldKeepsCanEarn(w: World, p: Ledger.Pid, del: Pending, q: Ledger.Pid, o: Ledger.OrderId, rate: real,
                         c: Ledger.CustomerId)
    requires CanEarn(w, q, o, rate, c) && p != q
    ensures CanEarn(Hold(w, p, del), q, o, rate, c)
  {
  }

  /** The row update of a deletion whose burn wrote nothing. */
  lemma EmptyCommit(w: World, p: Ledger.Pid, c: Ledger.CustomerId)
    requires p in w.requests && EmptyBurn(w.requests[p], c)
    ensures Deleted(Next(w, UpdateRow(p)), c) && Next(w, UpdateRow(p)).ledger == w.ledger
  {
  }

  /** With nothing to burn the account is not held, and a cashback enters before the row update. */
  lemma CashbackSlipsIn(w: World, p: Ledger.Pid, c: Ledger.CustomerId, deletion: string, q: Ledger.Pid,
                        o: Ledger.OrderId, rate: real)
    requires Inv(w) && p != q && CanDelete(w, p, c, deletion) && CanEarn(w, q, o, rate, c) && Balance(w.ledger, c) == 0
    ensures var end := Exec(w, DeletionToBurn(p, c, deletion) + ([EarnCheck(q, o, rate), Enter(q)] + [UpdateRow(p)]));
            Deleted(end, c) && Balance(end.ledger, c) == Pricing.CashbackPoints(w.orders[o].total, rate)
  {
    var delete, cashback, update := DeletionToBurn(p, c, deletion), [EarnCheck(q, o, rate), Enter(q)], [UpdateRow(p)];
    var del := BurnedRequest(w, c, deletion);
    DeletionReachesBurn(w, p, c, deletion);
    RunsKeepInv(w, delete);
    NoLockOnNothing(Hold(w, p, del), c);
    HoldKeepsCanEarn(w, p, del, q, o, rate, c);
    CashbackBeforeCommit(Hold(w, p, del), p, q, o, rate, c);
    ExecConcat(w, delete, cashback + update);
  }

  lemma CashbackBeforeCommit(w: World, p: Ledger.Pid, q: Ledger.Pid, o: Ledger.OrderId, rate: real,
                             c: Ledger.CustomerId)
    requires Inv(w) && p in w.requests && EmptyBurn(w.requests[p], c)
    requires CanEarn(w, q, o, rate, c) && !Deleted(w, c) && !Locked(w, c)
    ensures var end := Exec(w, [EarnCheck(q, o, rate), Enter(q)] + [UpdateRow(p)]);
            Deleted(end, c) && Balance(end.ledger, c) ==
                Balance(w.ledger, c) + Pricing.CashbackPoints(w.orders[o].total, rate)
  {
    var cashback := [EarnCheck(q, o, rate), Enter(q)];
    CashbackRuns(w, q, o, rate, c);
    var w1 := Exec(w, cashback);
    EmptyCommit(w1, p, c);
    ExecConcat(w, cashback, [UpdateRow(p)]);
    ExecOne(w1, UpdateRow(p));
  }

  /** The row update adds no row but the burn's. */
  lemma UpdateLeaves(w: World, p: Ledger.Pid, key: Ledger.Key)
    requires Inv(w) && p in w.requests && w.requests[p].Deleting? && w.requests[p].stage.Burned?
    requires !key.ExpireKey? && !Ledger.HasKey(w.ledger.rows, key)
    ensures !Ledger.HasKey(Next(w, UpdateRow(p)).ledger.rows, key)
  {
    assert RequestFits(w, w.requests[p]);
    if w.requests[p].stage.entry.Some? {
      HasKeyAppend(w.ledger.rows, w.requests[p].stage.entry.value, key);
    }
  }

  lemma DeletionCommits(w: World, p: Ledger.Pid, c: Ledger.CustomerId, deletion: string)
    requires Inv(w) && CanDelete(w, p, c, deletion)
    ensures var end := Exec(w, DeletionToBurn(p, c, deletion) + [UpdateRow(p)]);
            && Inv(end) && end.requests == w.requests && Balance(end.ledger, c) == 0
            && end.customers == w.customers[c := Customer(None, None, Some(w.now), w.customers[c].phone)]
            && forall key: Ledger.Key ::
                 !key.ExpireKey? && !Ledger.HasKey(w.ledger.rows, key) ==> !Ledger.HasKey(end.ledger.rows, key)
  {
    var delete := DeletionToBurn(p, c, deletion);
    var w1 := Hold(w, p, BurnedRequest(w, c, deletion));
    DeletionReachesBurn(w, p, c, deletion);
    RunsKeepInv(w, delete);
    BurnedCommits(w, p, c, deletion);
    forall key: Ledger.Key | !key.ExpireKey? && !Ledger.HasKey(w.ledger.rows, key)
      ensures !Ledger.HasKey(Next(w1, UpdateRow(p)).ledger.rows, key)
    {
      UpdateLeaves(w1, p, key);
    }
    ExecConcat(w, delete, [UpdateRow(p)]);
    ExecOne(w1, UpdateRow(p));
  }

  lemma BurnedCommits(w: World, p: Ledger.Pid, c: Ledger.CustomerId, deletion: string)
    requires c in w.customers && p !in w.requests && Inv(Hold(w, p, BurnedRequest(w, c, deletion)))
    ensures var end := Next(Hold(w, p, BurnedRequest(w, c, deletion)), UpdateRow(p));
            && Inv(end) && end.requests == w.requests && Balance(end.ledger, c) == 0
            && end.customers == w.customers[c := Customer(None, None, Some(w.now), w.customers[c].phone)]
  {
    var w1 := Hold(w, p, BurnedRequest(w, c, deletion));
    NextKeepsInv(w1, UpdateRow(p));
    UpdateOfBurned(w, p, c, deletion);
    BurnedLeavesNothing(w, p, c, deletion);
  }

  lemma UpdateOfBurned(w: World, p: Ledger.Pid, c: Ledger.CustomerId, deletion: string)
    requires c in w.customers && p !in w.requests
    ensures var end := Next(Hold(w, p, BurnedRequest(w, c, deletion)), UpdateRow(p));
            && end.requests == w.requests && end.now == w.now
            && end.customers == w.customers[c := Customer(None, None, Some(w.now), w.customers[c].phone)]
  {
    assert Hold(w, p, BurnedRequest(w, c, deletion)).requests - {p} == w.requests;
  }

  lemma BurnedLeavesNothing(w: World, p: Ledger.Pid, c: Ledger.CustomerId, deletion: string)
    requires c in w.customers && Inv(Hold(w, p, BurnedRequest(w, c, deletion)))
    ensures Balance(Next(Hold(w, p, BurnedRequest(w, c, deletion)), UpdateRow(p)).ledger, c) == 0
  {
    DeletionBurns(Hold(w, p, BurnedRequest(w, c, deletion)), p);
  }

  /** A cashback that was checked before the deletion began enters after it. */
  lemma CashbackComesLate(w: World, p: Ledger.Pid, c: Ledger.CustomerId, deletion: string, q: Ledger.Pid,
                          o: Ledger.OrderId, rate: real)
    requires Inv(w) && p != q && CanDelete(w, p, c, deletion) && CanEarn(w, q, o, rate, c)
    ensures var end := Exec(w,
        [EarnCheck(q, o, rate)] + ((DeletionToBurn(p, c, deletion) + [UpdateRow(p)]) + [Enter(q)]));
            Deleted(end, c) && Balance(end.ledger, c) == Pricing.CashbackPoints(w.orders[o].total, rate)
  {
    hide Inv, DoSignInLook, DoFrozenLook, DoUpsert, DoCheckOut, DoRefundCheck, DoDeleteLook, DoDeleteCount,
      DoBurn, DoUpdateRow, DoRestoreRead, DoRestoreWrite, DoReleasePhones, DoSetStatus, DoProvision;
    var check, delete, enter := [EarnCheck(q, o, rate)], DeletionToBurn(p, c, deletion) + [UpdateRow(p)], [Enter(q)];
    var req := Ledger.EarnRequest(c, o, Pricing.CashbackPoints(w.orders[o].total, rate));
    CheckHolds(w, q, o, rate, c);
    NextKeepsInv(w, EarnCheck(q, o, rate));
    var w1 := Hold(w, q, Entering(req));
    assert CanDelete(w1, p, c, deletion) by { HoldKeepsCanDelete(w, q, Entering(req), p, c, deletion); }
    DeletionCommits(w1, p, c, deletion);
    var w2 := Exec(w1, delete);
    NoLockOnNothing(w2, c);
    CashbackEnters(w2, q, req);
    ExecOne(w, EarnCheck(q, o, rate));
    ExecOne(w2, Enter(q));
    ExecConcat(w1, delete, enter);
    ExecConcat(w, check, delete + enter);
  }

  lemma HoldKeepsCanDelete(w: World, q: Ledger.Pid, req: Pending, p: Ledger.Pid, c: Ledger.CustomerId, deletion: string)
    requires CanDelete(w, p, c, deletion) && q !in w.requests && q != p && !req.Deleting?
    ensures CanDelete(Hold(w, q, req), p, c, deletion)
  {
    var w1 := Hold(w, q, req);
    forall r | r in w1.requests
      ensures !HoldsAccount(w1.requests[r], c)
      ensures !(w1.requests[r].Deleting? && w1.requests[r].subject == c && w1.requests[r].deletion == deletion)
    {
      if r != q {
        assert r in w.requests && !HoldsAccount(w.requests[r], c);
      }
    }
    assert !HasBlockingOrder(w1, c);
  }

  // ----- while an account is deleted -----

  /** Only a late entry adds a row to a deleted customer who holds nothing. */
  lemma DeletedGainNoRows(w: World, a: Action, c: Ledger.CustomerId)
    requires Inv(w) && Deleted(w, c) && Balance(w.ledger, c) == 0 && !LateEntry(w, a, c)
    ensures Next(w, a).ledger.rows == w.ledger.rows
            || exists row :: Next(w, a).ledger.rows == w.ledger.rows + [row] && row.customer != c
  {
    hide Inv, HasBlockingOrder, PhoneTaken, PhoneFrozen, Locked, RowWithKey, Pricing.CashbackPoints,
      FreshDeletion, Restorable;
    StepAdds(w, a);
    if a.UpdateRow? {
      BurnsAreOfBalances(w, a.p);
    }
    if a.CheckOut? && a.buyer == Some(c) {
      assert Ledger.Post(w.ledger, Ledger.SpendRequest(c, a.order, a.points)).0 == w.ledger || a.points <= 0;
    }
  }

  lemma BurnsAreOfBalances(w: World, p: Ledger.Pid)
    requires Inv(w)
    ensures Next(w, UpdateRow(p)).ledger != w.ledger ==>
      && p in w.requests && w.requests[p].Deleting? && Balance(w.ledger, w.requests[p].subject) > 0
      && exists row :: Next(w, UpdateRow(p)).ledger.rows == w.ledger.rows + [row]
          && row.customer == w.requests[p].subject
  {
    if Next(w, UpdateRow(p)).ledger != w.ledger {
      assert RequestFits(w, w.requests[p]);
      var row := w.requests[p].stage.entry.value;
      assert Next(w, UpdateRow(p)).ledger.rows == w.ledger.rows + [row];
    }
  }

  /** A deleted account: no phone, no name, no points, and one number that it parks or has lost. */
  ghost predicate Asleep(w: World, c: Ledger.CustomerId, phone: Phone) {
    && Deleted(w, c) && w.customers[c].phone.None? && w.customers[c].name.None?
    && w.customers[c].pendingRelease in {None, Some(phone)}
    && Balance(w.ledger, c) == 0
    && (forall p :: p in w.requests && OnRow(w.requests[p]) && w.requests[p].subject == c ==>
        w.requests[p].phone == Some(phone))
  }

  /** The step is the write of the customer's restore. */
  predicate RestoresRow(w: World, a: Action, c: Ledger.CustomerId) {
    a.RestoreWrite? && a.p in w.requests && w.requests[a.p].Restoring? && w.requests[a.p].subject == c
  }

  predicate NoRestores(w: World, actions: seq<Action>, c: Ledger.CustomerId)
    decreases |actions|
  {
    actions == [] || (!RestoresRow(w, actions[0], c) && NoRestores(Next(w, actions[0]), actions[1..], c))
  }

  lemma StepKeepsSleepingRow(w: World, a: Action, c: Ledger.CustomerId, phone: Phone)
    requires Asleep(w, c, phone) && !RestoresRow(w, a, c)
    ensures var w' := Next(w, a);
            && Deleted(w', c) && w'.customers[c].phone.None? && w'.customers[c].name.None?
            && w'.customers[c].pendingRelease in {None, Some(phone)}
  {
    hide DoSignInLook, DoFrozenLook, DoCheckOut, DoEarnCheck, DoRefundCheck, DoEnter, DoDeleteLook,
      DoDeleteCount, DoBurn, DoRestoreRead, DoSetStatus, DoProvision;
  }

  /** Whoever reads the number of a deleted row reads the one it parks. */
  lemma StepKeepsNumberKnown(w: World, a: Action, c: Ledger.CustomerId, phone: Phone, p: Ledger.Pid)
    requires Deleted(w, c) && w.customers[c].pendingRelease in {None, Some(phone)}
    requires p in w.requests && OnRow(w.requests[p]) && w.requests[p].subject == c ==>
        w.requests[p].phone == Some(phone)
    requires p in Next(w, a).requests && OnRow(Next(w, a).requests[p]) && Next(w, a).requests[p].subject == c
    ensures Next(w, a).requests[p].phone == Some(phone)
  {
    hide HasBlockingOrder, PhoneTaken, PhoneFrozen, Locked, Ledger.Post, RowWithKey, Pricing.CashbackPoints,
      FreshDeletion, Restorable, DoCheckOut, DoReleasePhones, DoSetStatus, DoProvision;
  }

  lemma StepKeepsAsleep(w: World, a: Action, c: Ledger.CustomerId, phone: Phone)
    requires Inv(w) && Asleep(w, c, phone) && !RestoresRow(w, a, c) && !LateEntry(w, a, c)
    ensures Asleep(Next(w, a), c, phone)
  {
    StepKeepsSleepingRow(w, a, c, phone);
    forall p | p in Next(w, a).requests && OnRow(Next(w, a).requests[p]) && Next(w, a).requests[p].subject == c
      ensures Next(w, a).requests[p].phone == Some(phone)
    {
      StepKeepsNumberKnown(w, a, c, phone, p);
    }
    DeletedGainNoRows(w, a, c);
    NextKeepsInv(w, a);
    BalanceIsTotal(w.ledger, c);
    BalanceIsTotal(Next(w, a).ledger, c);
    if row :| Next(w, a).ledger.rows == w.ledger.rows + [row] && row.customer != c {
      Ledger.TotalAppend(w.ledger.rows, row, c);
    }
  }

  /** The rows of one customer, in order. */
  function Mine(rows: seq<Ledger.Row>, c: Ledger.CustomerId): seq<Ledger.Row> {
    if rows == [] then []
    else Mine(rows[..|rows| - 1], c) + (if rows[|rows| - 1].customer == c then [rows[|rows| - 1]] else [])
  }

  lemma TailIsNotLate(w: World, actions: seq<Action>, c: Ledger.CustomerId)
    requires actions != [] && NoLateEntries(w, actions, c)
    ensures !LateEntry(w, actions[0], c) && NoLateEntries(Next(w, actions[0]), actions[1..], c)
  {
    assert actions[..0] == [];
    forall n | 0 <= n < |actions[1..]| ensures !LateEntry(Exec(Next(w, actions[0]), actions[1..][..n]), actions[1..][n],
        c) {
      assert actions[..n + 1][0] == actions[0] && actions[..n + 1][1..] == actions[1..][..n];
      assert actions[n + 1] == actions[1..][n];
    }
  }

  /**
   * Through any run without its restore and without late entries a deleted
   * account sleeps, and its ledger does not move.
   */
  lemma {:induction false} SleepsThroughRuns(w: World, actions: seq<Action>, c: Ledger.CustomerId, phone: Phone)
    requires Inv(w) && Asleep(w, c, phone) && NoRestores(w, actions, c) && NoLateEntries(w, actions, c)
    ensures Asleep(Exec(w, actions), c, phone)
    ensures Mine(Exec(w, actions).ledger.rows, c) == Mine(w.ledger.rows, c)
    decreases |actions|
  {
    hide Inv, Next;
    if actions != [] {
      var a, w1 := actions[0], Next(w, actions[0]);
      TailIsNotLate(w, actions, c);
      StepKeepsAsleep(w, a, c, phone);
      DeletedGainNoRows(w, a, c);
      if row :| w1.ledger.rows == w.ledger.rows + [row] && row.customer != c {
        assert w1.ledger.rows[..|w.ledger.rows|] == w.ledger.rows;
      }
      NextKeepsInv(w, a);
      SleepsThroughRuns(w1, actions[1..], c, phone);
    }
  }

  // ----- the frozen number -----

  /** Deleted at `since` or later, and the number still parked. */
  ghost predicate Parked(w: World, c: Ledger.CustomerId, phone: Phone, since: int) {
    && Deleted(w, c) && w.customers[c].phone.None?
    && w.customers[c].deletedAt.value >= since && w.customers[c].pendingRelease == Some(phone)
    && (forall p :: p in w.requests && OnRow(w.requests[p]) && w.requests[p].subject == c ==>
        w.requests[p].phone == Some(phone))
  }

  /** Nobody but this customer holds the number, parks it, or is being deleted or restored with it. */
  ghost predicate NobodyElseOn(w: World, c: Ledger.CustomerId, phone: Phone) {
    && (forall d :: d in w.customers && d != c ==>
          w.customers[d].phone != Some(phone) && w.customers[d].pendingRelease != Some(phone))
    && (forall p :: p in w.requests && OnRow(w.requests[p]) && w.requests[p].subject != c ==>
        w.requests[p].phone != Some(phone))
  }

  /** A sign-in that is past its looks inserts a row with the number. */
  predicate Steals(w: World, a: Action, phone: Phone) {
    && a.Upsert? && a.p in w.requests && w.requests[a.p] == Upserting(phone)
    && !PhoneTaken(w, phone) && a.freshId !in w.customers
  }

  predicate NoSteals(w: World, actions: seq<Action>, phone: Phone)
    decreases |actions|
  {
    actions == [] || (!Steals(w, actions[0], phone) && NoSteals(Next(w, actions[0]), actions[1..], phone))
  }

  lemma OtherRowStaysOff(w: World, a: Action, c: Ledger.CustomerId, phone: Phone, d: Ledger.CustomerId)
    requires c in w.customers && w.customers[c].phone.None? && NobodyElseOn(w, c, phone) && !Steals(w, a, phone)
    requires d in Next(w, a).customers && d != c
    ensures Next(w, a).customers[d].phone != Some(phone) && Next(w, a).customers[d].pendingRelease != Some(phone)
  {
    hide DoSignInLook, DoFrozenLook, DoCheckOut, DoEarnCheck, DoRefundCheck, DoEnter, DoDeleteLook,
      DoDeleteCount, DoBurn, DoRestoreRead, DoSetStatus, DoProvision;
  }

  lemma OthersRequestsStayOff(w: World, a: Action, c: Ledger.CustomerId, phone: Phone, p: Ledger.Pid)
    requires NobodyElseOn(w, c, phone) && p in Next(w, a).requests && OnRow(Next(w, a).requests[p])
        && Next(w, a).requests[p].subject != c
    ensures Next(w, a).requests[p].phone != Some(phone)
  {
    hide HasBlockingOrder, PhoneTaken, PhoneFrozen, Locked, Ledger.Post, RowWithKey, Pricing.CashbackPoints,
      FreshDeletion, Restorable, DoCheckOut, DoReleasePhones, DoSetStatus, DoProvision;
  }

  /** While a number is parked, a step brings somebody else to it exactly if it is the insert of such a sign-in. */
  lemma NobodyElseArrivesExactly(w: World, a: Action, c: Ledger.CustomerId, phone: Phone)
    requires Deleted(w, c) && w.customers[c].phone.None? && NobodyElseOn(w, c, phone)
    ensures NobodyElseOn(Next(w, a), c, phone) <==> !Steals(w, a, phone)
  {
    if Steals(w, a, phone) {
      assert Next(w, a).customers[a.freshId].phone == Some(phone);
    } else {
      forall d | d in Next(w, a).customers && d != c
        ensures Next(w, a).customers[d].phone != Some(phone) && Next(w, a).customers[d].pendingRelease != Some(phone)
      {
        OtherRowStaysOff(w, a, c, phone, d);
      }
      forall p | p in Next(w, a).requests && OnRow(Next(w, a).requests[p]) && Next(w, a).requests[p].subject != c
        ensures Next(w, a).requests[p].phone != Some(phone)
      {
        OthersRequestsStayOff(w, a, c, phone, p);
      }
    }
  }

  lemma NowStep(w: World, a: Action)
    ensures Next(w, a).now == w.now + (if a.Tick? then a.ms else 0)
  {
    hide DoSignInLook, DoFrozenLook, DoUpsert, DoCheckOut, DoEarnCheck, DoRefundCheck, DoEnter, DoDeleteLook,
      DoDeleteCount, DoBurn, DoUpdateRow, DoRestoreRead, DoRestoreWrite, DoReleasePhones, DoSetStatus,
      DoProvision;
  }

  lemma {:induction false} NowGrows(w: World, actions: seq<Action>)
    ensures w.now <= Exec(w, actions).now
    decreases |actions|
  {
    hide Next;
    if actions != [] {
      NowStep(w, actions[0]);
      NowGrows(Next(w, actions[0]), actions[1..]);
    }
  }

  lemma ParkedRowStays(w: World, a: Action, c: Ledger.CustomerId, phone: Phone, since: int)
    requires Parked(w, c, phone, since) && !RestoresRow(w, a, c) && since <= w.now && since > FreezeCutoff(w.now)
    ensures var w' := Next(w, a);
            && Deleted(w', c) && w'.customers[c].phone.None?
            && w'.customers[c].deletedAt.value >= since && w'.customers[c].pendingRelease == Some(phone)
  {
    hide DoSignInLook, DoFrozenLook, DoCheckOut, DoEarnCheck, DoRefundCheck, DoEnter, DoDeleteLook,
      DoDeleteCount, DoBurn, DoRestoreRead, DoSetStatus, DoProvision;
  }

  lemma StepKeepsParked(w: World, a: Action, c: Ledger.CustomerId, phone: Phone, since: int)
    requires Parked(w, c, phone, since) && !RestoresRow(w, a, c) && since <= w.now && since > FreezeCutoff(w.now)
    ensures Parked(Next(w, a), c, phone, since)
  {
    ParkedRowStays(w, a, c, phone, since);
    forall p | p in Next(w, a).requests && OnRow(Next(w, a).requests[p]) && Next(w, a).requests[p].subject == c
      ensures Next(w, a).requests[p].phone == Some(phone)
    {
      StepKeepsNumberKnown(w, a, c, phone, p);
    }
  }

  /** The customer holds the number, or parked it at `since` or later. */
  ghost predicate IsOn(w: World, d: Ledger.CustomerId, phone: Phone, since: int) {
    && d in w.customers
    && (|| w.customers[d].phone == Some(phone)
        || (w.customers[d].pendingRelease == Some(phone) && w.customers[d].deletedAt.Some?
            && w.customers[d].deletedAt.value >= since))
  }

  lemma StealersAreOn(w: World, a: Action, phone: Phone, since: int)
    requires Steals(w, a, phone)
    ensures IsOn(Next(w, a), a.freshId, phone, since)
  {
  }

  /** Inside the window nobody leaves the number. */
  lemma StepKeepsOn(w: World, a: Action, d: Ledger.CustomerId, phone: Phone, since: int)
    requires Inv(w) && IsOn(w, d, phone, since) && since <= w.now && since > FreezeCutoff(w.now)
    ensures IsOn(Next(w, a), d, phone, since)
  {
    hide BooksOk, MarksOk, RowsAnonymized, DoSignInLook, DoFrozenLook, DoCheckOut, DoEarnCheck, DoRefundCheck,
      DoEnter, DoDeleteLook, DoDeleteCount, DoBurn, DoRestoreRead, DoSetStatus, DoProvision;
    if (a.UpdateRow? || a.RestoreWrite?) && a.p in w.requests {
      assert RequestFits(w, w.requests[a.p]);
    }
  }

  lemma {:induction false} RunKeepsOn(w: World, actions: seq<Action>, d: Ledger.CustomerId, phone: Phone, since: int)
    requires Inv(w) && IsOn(w, d, phone, since) && since <= w.now && since > FreezeCutoff(Exec(w, actions).now)
    ensures IsOn(Exec(w, actions), d, phone, since)
    decreases |actions|
  {
    hide Inv, Next, IsOn;
    if actions != [] {
      NowGrows(w, actions);
      NowGrows(w, [actions[0]]);
      ExecOne(w, actions[0]);
      StepKeepsOn(w, actions[0], d, phone, since);
      NextKeepsInv(w, actions[0]);
      RunKeepsOn(Next(w, actions[0]), actions[1..], d, phone, since);
    }
  }

  lemma {:induction false} RunKeepsParked(w: World, actions: seq<Action>, c: Ledger.CustomerId, phone: Phone,
                                          since: int)
    requires Parked(w, c, phone, since) && NoRestores(w, actions, c) && since <= w.now
        && since > FreezeCutoff(Exec(w, actions).now)
    ensures Parked(Exec(w, actions), c, phone, since)
    decreases |actions|
  {
    hide Next, Parked;
    if actions != [] {
      NowGrows(w, actions);
      NowGrows(w, [actions[0]]);
      ExecOne(w, actions[0]);
      StepKeepsParked(w, actions[0], c, phone, since);
      RunKeepsParked(Next(w, actions[0]), actions[1..], c, phone, since);
    }
  }

  /**
   * Through a run inside the window and without its restore a frozen number
   * stays with its owner alone exactly when no sign-in past its looks inserts
   * the number.
   */
  lemma {:induction false} FrozenNumberExactly(w: World, actions: seq<Action>, c: Ledger.CustomerId, phone: Phone,
                                               since: int)
    requires Inv(w) && Parked(w, c, phone, since) && NobodyElseOn(w, c, phone) && NoRestores(w, actions, c)
    requires since <= w.now && since > FreezeCutoff(Exec(w, actions).now)
    ensures NobodyElseOn(Exec(w, actions), c, phone) <==> NoSteals(w, actions, phone)
    decreases |actions|
  {
    hide Inv, Next;
    if actions != [] {
      var a, w1 := actions[0], Next(w, actions[0]);
      NowGrows(w, actions);
      NowGrows(w, [a]);
      ExecOne(w, a);
      StepKeepsParked(w, a, c, phone, since);
      NobodyElseArrivesExactly(w, a, c, phone);
      NextKeepsInv(w, a);
      if Steals(w, a, phone) {
        StealersAreOn(w, a, phone, since);
        RunKeepsOn(w1, actions[1..], a.freshId, phone, since);
      } else {
        FrozenNumberExactly(w1, actions[1..], c, phone, since);
      }
    }
  }

  lemma StepBringsNoUpsert(w: World, a: Action, c: Ledger.CustomerId, phone: Phone, q: Ledger.Pid)
    requires c in w.customers && Frozen(w, c, phone) && w.customers[c].phone.None? && NobodyElseOn(w, c, phone)
    requires q in Next(w, a).requests && Next(w, a).requests[q] == Upserting(phone)
    ensures q in w.requests && w.requests[q] == Upserting(phone)
  {
    hide HasBlockingOrder, Locked, Ledger.Post, RowWithKey, Pricing.CashbackPoints, FreshDeletion, Restorable,
      DoCheckOut, DoReleasePhones, DoSetStatus, DoProvision;
    assert PhoneFrozen(w, phone);
    assert !PhoneTaken(w, phone);
  }

  /** Such a sign-in was past its looks when the number was frozen: a later one is offered the restore. */
  lemma {:induction false} StealersLookedBefore(w: World, actions: seq<Action>, c: Ledger.CustomerId, phone: Phone,
                                                since: int, q: Ledger.Pid)
    requires Parked(w, c, phone, since) && NobodyElseOn(w, c, phone) && NoRestores(w, actions, c)
        && NoSteals(w, actions, phone)
    requires since <= w.now && since > FreezeCutoff(Exec(w, actions).now)
    requires q in Exec(w, actions).requests && Exec(w, actions).requests[q] == Upserting(phone)
    ensures q in w.requests && w.requests[q] == Upserting(phone)
    decreases |actions|
  {
    hide Next;
    if actions != [] {
      var a := actions[0];
      NowGrows(w, actions);
      NowGrows(w, [a]);
      ExecOne(w, a);
      StepKeepsParked(w, a, c, phone, since);
      NobodyElseArrivesExactly(w, a, c, phone);
      StealersLookedBefore(Next(w, a), actions[1..], c, phone, since, q);
      StepBringsNoUpsert(w, a, c, phone, q);
    }
  }

  /** An insert makes a possible restore impossible exactly if it is of the parked number. */
  lemma UpsertKeepsRestoreExactly(w: World, q: Ledger.Pid, other: Phone, freshId: Ledger.CustomerId,
                                  c: Ledger.CustomerId, phone: Phone)
    requires q in w.requests && w.requests[q] == Upserting(other) && !PhoneTaken(w, other) && freshId !in w.customers
    requires c in w.customers && !TakenByOther(w, c, phone)
    ensures TakenByOther(Next(w, Upsert(q, freshId)), c, phone) <==> other == phone
  {
    var w' := Next(w, Upsert(q, freshId));
    if other == phone {
      assert w'.customers[freshId].phone == Some(phone);
    }
  }

  // ----- a sign-in overtaken by the deletion -----

  /** The deletion of the number's owner from its look to its commit, while a sign-in is past its own looks. */
  function SignInAcrossDeletion(p: Ledger.Pid, c: Ledger.CustomerId, deletion: string, q: Ledger.Pid, phone: Phone,
                                freshId: Ledger.CustomerId, r: Ledger.Pid): seq<Action> {
    [SignInLook(q, phone)]
    + ((DeletionToBurn(p, c, deletion) + [UpdateRow(p)]) +
        ([Upsert(q, freshId)] + [RestoreRead(r, c), RestoreWrite(r)]))
  }

  lemma RefusedRestore(w: World, c: Ledger.CustomerId, phone: Phone, r: Ledger.Pid)
    requires Deleted(w, c) && w.customers[c].pendingRelease == Some(phone) && TakenByOther(w, c, phone)
        && r !in w.requests
    ensures Exec(w, [RestoreRead(r, c), RestoreWrite(r)]) == w
  {
    var w1 := Hold(w, r, Restoring(c, Some(phone)));
    assert Next(w, RestoreRead(r, c)) == w1;
    assert w1.requests - {r} == w.requests;
    assert !Restorable(w1, w1.requests[r]);
    ExecTwo(w, RestoreRead(r, c), RestoreWrite(r));
  }

  /** After the deletion the sign-in inserts the number, and the restore is refused. */
  lemma InsertBlocksRestore(w: World, c: Ledger.CustomerId, q: Ledger.Pid, phone: Phone, freshId: Ledger.CustomerId,
                            r: Ledger.Pid)
    requires Deleted(w, c) && w.customers[c].pendingRelease == Some(phone) && !PhoneTaken(w, phone)
    requires q in w.requests && w.requests[q] == Upserting(phone) && freshId !in w.customers && r !in w.requests
    ensures Exec(w, [Upsert(q, freshId)] + [RestoreRead(r, c), RestoreWrite(r)]) == SignedUp(Drop(w, q), phone, freshId)
  {
    var w1 := SignedUp(Drop(w, q), phone, freshId);
    ExecOne(w, Upsert(q, freshId));
    assert w1.customers[freshId].phone == Some(phone);
    RefusedRestore(w1, c, phone, r);
    ExecConcat(w, [Upsert(q, freshId)], [RestoreRead(r, c), RestoreWrite(r)]);
  }

  /**
   * From every state: the sign-in finds the account live, the deletion commits,
   * and a second account gets the frozen number.
   */
  lemma OvertakenSignInTakesNumber(w: World, p: Ledger.Pid, c: Ledger.CustomerId, deletion: string, q: Ledger.Pid,
                                   phone: Phone,
                                   freshId: Ledger.CustomerId, r: Ledger.Pid)
    requires Inv(w) && CanDelete(w, p, c, deletion) && w.customers[c].phone == Some(phone)
    requires p != q && q !in w.requests && r != q && r !in w.requests && freshId !in w.customers
    ensures var end := Exec(w, SignInAcrossDeletion(p, c, deletion, q, phone, freshId, r));
            && end.customers == w.customers[c := Customer(None, None, Some(w.now),
                Some(phone))][freshId := Customer(Some(phone), None, None, None)]
            && Frozen(end, c, phone)
  {
    var look, delete := [SignInLook(q, phone)], DeletionToBurn(p, c, deletion) + [UpdateRow(p)];
    var insert := [Upsert(q, freshId)] + [RestoreRead(r, c), RestoreWrite(r)];
    var w1 := Hold(w, q, Upserting(phone));
    assert PhoneTaken(w, phone);
    NextKeepsInv(w, look[0]);
    HoldKeepsCanDelete(w, q, Upserting(phone), p, c, deletion);
    DeletionCommits(w1, p, c, deletion);
    var w2 := Exec(w1, delete);
    NowStays(w1, p, c, deletion);
    FreedByDeletion(w1, w2, c, phone);
    InsertBlocksRestore(w2, c, q, phone, freshId, r);
    ExecOne(w, look[0]);
    ExecConcat(w1, delete, insert);
    ExecConcat(w, look, delete + insert);
  }

  lemma NowStays(w: World, p: Ledger.Pid, c: Ledger.CustomerId, deletion: string)
    requires CanDelete(w, p, c, deletion)
    ensures Exec(w, DeletionToBurn(p, c, deletion) + [UpdateRow(p)]).now == w.now
  {
    DeletionReachesBurn(w, p, c, deletion);
    ExecConcat(w, DeletionToBurn(p, c, deletion), [UpdateRow(p)]);
    ExecOne(Hold(w, p, BurnedRequest(w, c, deletion)), UpdateRow(p));
  }

  /** Nobody else held the number, so after the deletion nobody does. */
  lemma FreedByDeletion(w: World, w': World, c: Ledger.CustomerId, phone: Phone)
    requires RowsAnonymized(w) && c in w.customers && w.customers[c].phone == Some(phone)
    requires w'.customers == w.customers[c := Customer(None, None, Some(w.now), Some(phone))]
    ensures !PhoneTaken(w', phone)
  {
  }

  // ----- deletion and restore -----

  /** A deletion about to update the row. */
  predicate AboutToDelete(w: World, p: Ledger.Pid, c: Ledger.CustomerId, phone: Phone) {
    && p in w.requests && w.requests[p].Deleting? && w.requests[p].stage.Burned?
    && w.requests[p].subject == c && w.requests[p].phone == Some(phone)
  }

  /** The number is the one the customer was deleted with. */
  lemma ParksItsOwnNumber(w: World, p: Ledger.Pid, c: Ledger.CustomerId, phone: Phone)
    requires Inv(w) && AboutToDelete(w, p, c, phone)
    ensures c in w.customers && (!Deleted(w, c) ==> w.customers[c].phone == Some(phone))
  {
    assert RequestFits(w, w.requests[p]);
  }

  lemma FallsAsleep(w: World, p: Ledger.Pid, c: Ledger.CustomerId, phone: Phone)
    requires Inv(w) && AboutToDelete(w, p, c, phone)
    ensures Parked(Next(w, UpdateRow(p)), c, phone, w.now)
    ensures Balance(Next(w, UpdateRow(p)).ledger, c) == 0 ==> Asleep(Next(w, UpdateRow(p)), c, phone)
  {
    forall q | q in w.requests && q != p && OnRow(w.requests[q])
        && w.requests[q].subject == c ensures w.requests[q].phone == Some(phone) {
      assert Apart(w.requests[p], w.requests[q]);
    }
  }

  /** The restore of a sleeping account is refused exactly if somebody else holds the number. */
  lemma Wakes(w: World, q: Ledger.Pid, c: Ledger.CustomerId, phone: Phone)
    requires Asleep(w, c, phone) && q in w.requests && w.requests[q].Restoring? && w.requests[q].subject == c
    ensures var restored := Next(w, RestoreWrite(q));
            && restored.ledger == w.ledger
            && restored.customers == (if TakenByOther(w, c, phone) then w.customers
                                      else w.customers[c := Customer(Some(phone), None, None, None)])
  {
  }

  /**
   * A run up to and including the row update of a deletion, any run after it,
   * and the write of a restore: the same row with the same number, the points
   * gone and the customer's ledger as the deletion left it. It is refused
   * exactly if somebody else holds the number then.
   */
  lemma DeleteThenRestore(before: seq<Action>, p: Ledger.Pid, after: seq<Action>, q: Ledger.Pid, c: Ledger.CustomerId,
                          phone: Phone)
    requires AboutToDelete(Exec(EMPTY, before), p, c, phone) && NoneLateSinceBurn(before + [UpdateRow(p)], c)
    requires var deleted := Exec(EMPTY, before + [UpdateRow(p)]);
             NoRestores(deleted, after, c) && NoLateEntries(deleted, after, c)
    requires RestoresRow(Exec(Exec(EMPTY, before + [UpdateRow(p)]), after), RestoreWrite(q), c)
    ensures var deleted := Exec(EMPTY, before + [UpdateRow(p)]);
            var waiting := Exec(deleted, after);
            var restored := Next(waiting, RestoreWrite(q));
            && c in Exec(EMPTY, before).customers
            && (!Deleted(Exec(EMPTY, before), c) ==> Exec(EMPTY, before).customers[c].phone == Some(phone))
            && Mine(restored.ledger.rows, c) == Mine(deleted.ledger.rows, c) && Balance(restored.ledger, c) == 0
            && restored.customers == (if TakenByOther(waiting, c, phone) then waiting.customers
                                      else waiting.customers[c := Customer(Some(phone), None, None, None)])
  {
    hide Inv, DoSignInLook, DoFrozenLook, DoUpsert, DoCheckOut, DoEarnCheck, DoRefundCheck, DoEnter,
      DoDeleteLook, DoDeleteCount, DoBurn, DoRestoreRead, DoRestoreWrite, DoReleasePhones, DoSetStatus,
      DoProvision;
    var w := Exec(EMPTY, before);
    var upTo := before + [UpdateRow(p)];
    var deleted := Exec(EMPTY, upTo);
    ReachableIsInOrder(before);
    ReachableIsInOrder(upTo);
    ExecConcat(EMPTY, before, [UpdateRow(p)]);
    ExecOne(w, UpdateRow(p));
    ParksItsOwnNumber(w, p, c, phone);
    DeletedNeverHoldsPoints(upTo, c);
    FallsAsleep(w, p, c, phone);
    SleepsThroughRuns(deleted, after, c, phone);
    Wakes(Exec(deleted, after), q, c, phone);
  }

  /**
   * Inside the window: if nobody else was on the number at the deletion, then
   * nobody else comes to it exactly when no sign-in past its looks inserts it,
   * and then the restore is there to be read and its write cannot be refused.
   */
  lemma RestoreStaysOpen(before: seq<Action>, p: Ledger.Pid, after: seq<Action>, c: Ledger.CustomerId, phone: Phone)
    requires AboutToDelete(Exec(EMPTY, before), p, c, phone)
    requires var deleted := Exec(EMPTY, before + [UpdateRow(p)]);
             && NobodyElseOn(deleted, c, phone) && NoRestores(deleted, after, c)
             && deleted.now > FreezeCutoff(Exec(deleted, after).now)
    ensures var deleted := Exec(EMPTY, before + [UpdateRow(p)]);
            var waiting := Exec(deleted, after);
            && Parked(waiting, c, phone, deleted.now)
            && (NobodyElseOn(waiting, c, phone) <==> NoSteals(deleted, after, phone))
            && (NoSteals(deleted, after, phone) ==> !TakenByOther(waiting, c, phone))
            && (forall q :: q !in waiting.requests ==>
                Next(waiting, RestoreRead(q, c)) == Hold(waiting, q, Restoring(c, Some(phone))))
  {
    var deleted := Exec(EMPTY, before + [UpdateRow(p)]);
    ReachableIsInOrder(before + [UpdateRow(p)]);
    ParkedAtDeletion(before, p, c, phone);
    RunKeepsParked(deleted, after, c, phone, deleted.now);
    FrozenNumberExactly(deleted, after, c, phone, deleted.now);
    ParkedIsOpen(Exec(deleted, after), c, phone, deleted.now);
  }

  lemma ParkedAtDeletion(before: seq<Action>, p: Ledger.Pid, c: Ledger.CustomerId, phone: Phone)
    requires AboutToDelete(Exec(EMPTY, before), p, c, phone)
    ensures var deleted := Exec(EMPTY, before + [UpdateRow(p)]);
            Parked(deleted, c, phone, deleted.now)
  {
    hide Inv, DoSignInLook, DoFrozenLook, DoUpsert, DoCheckOut, DoEarnCheck, DoRefundCheck, DoEnter,
      DoDeleteLook, DoDeleteCount, DoBurn, DoUpdateRow, DoRestoreRead, DoRestoreWrite, DoReleasePhones,
      DoSetStatus, DoProvision;
    ReachableIsInOrder(before);
    ExecConcat(EMPTY, before, [UpdateRow(p)]);
    ExecOne(Exec(EMPTY, before), UpdateRow(p));
    FallsAsleep(Exec(EMPTY, before), p, c, phone);
  }

  lemma ParkedIsOpen(w: World, c: Ledger.CustomerId, phone: Phone, since: int)
    requires Parked(w, c, phone, since)
    ensures NobodyElseOn(w, c, phone) ==> !TakenByOther(w, c, phone)
    ensures forall q :: q !in w.requests ==> Next(w, RestoreRead(q, c)) == Hold(w, q, Restoring(c, Some(phone)))
  {
  }
}
