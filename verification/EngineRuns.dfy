/**
 Whole runs of the money machine: the invariant holds after every sequence of transactions, and the
 ledger only ever grows, its rows keeping who they pay and how much.
 */
module EngineRuns {
  import opened Prelude
  import opened Commission
  import opened Tables
  import opened Ledger
  import opened EngineSpec
  import opened EngineInv
  import opened BooksProofs
  import opened SettleProofs
  import opened ReserveProofs

  /** One call of a money transaction, with everything it reads from outside the tables. */
  datatype Step =
    | DoCreateDraft(id: SaleId, tenant: TenantId, seller: MemberId, amount: nat, saleDate: int, createdBy: Option<UserId>)
    | DoDeleteDraft(tenant: TenantId, id: SaleId)
    | DoApprove(id: SaleId, actor: Option<UserId>, expectedTenant: Option<TenantId>, q: ApplyInputs)
    | DoApply(id: SaleId, q: ApplyInputs)
    | DoVoid(id: SaleId, expectedTenant: Option<TenantId>, monthKey: MonthKey)
    | DoDeliver(id: SaleId, at: int, policy: TenantPolicy)
    | DoMature(now: int, limit: int, lockedRows: set<RowId>, monthKey: MonthKey)
    | DoAward(tenant: TenantId, member: MemberId, bonus: int, month: Month)
    | DoLock(tenant: TenantId, month: Month)
    | DoUnlock(tenant: TenantId, month: Month)
    | DoRequest(tenant: TenantId, member: MemberId, r: RequestInputs)
    | DoReject(tenant: TenantId, payout: PayoutId)
    | DoReserve(p: ReserveParams, env: ReserveEnv)
    | DoDispatch(tenant: TenantId, batch: BatchId, compliant: bool)
    | DoSettle(tenant: TenantId, batch: BatchId)
    | DoFail(tenant: TenantId, batch: BatchId)

  datatype Answer = Done(db: Db) | Refused(error: Error)

  function AnswerOf<T>(o: Outcome<T>): Answer {
    match o
    case Committed(db, _) => Done(db)
    case Aborted(e) => Refused(e)
  }

  function Perform(db: Db, s: Step): Answer {
    match s
    case DoCreateDraft(id, t, seller, amount, saleDate, author) => AnswerOf(CreateDraft(db, id, t, seller, amount, saleDate, author))
    case DoDeleteDraft(t, id) => AnswerOf(DeleteDraft(db, t, id))
    case DoApprove(id, actor, expected, q) => AnswerOf(Approve(db, id, actor, expected, q))
    case DoApply(id, q) => AnswerOf(Apply(db, id, q))
    case DoVoid(id, expected, mk) => AnswerOf(VoidSale(db, id, expected, mk))
    case DoDeliver(id, at, policy) => AnswerOf(MarkDelivered(db, id, at, policy))
    case DoMature(now, limit, locked, mk) => AnswerOf(Mature(db, now, limit, locked, mk))
    case DoAward(t, m, bonus, month) => AnswerOf(AwardBonus(db, t, m, bonus, month))
    case DoLock(t, month) => AnswerOf(LockPeriod(db, t, month))
    case DoUnlock(t, month) => AnswerOf(UnlockPeriod(db, t, month))
    case DoRequest(t, m, r) => AnswerOf(RequestPayout(db, t, m, r))
    case DoReject(t, id) => AnswerOf(RejectRequest(db, t, id))
    case DoReserve(p, env) => AnswerOf(ReserveBatch(db, p, env))
    case DoDispatch(t, b, compliant) => AnswerOf(Dispatch(db, t, b, compliant))
    case DoSettle(t, b) => AnswerOf(EngineSpec.Settle(db, t, b))
    case DoFail(t, b) => AnswerOf(EngineSpec.Fail(db, t, b))
  }

  /** A refused transaction rolls back. */
  function Next(db: Db, s: Step): Db {
    var a := Perform(db, s);
    if a.Done? then a.db else db
  }

  /** The tables after each of the steps, the ones before the first step included. */
  ghost predicate History(dbs: seq<Db>, steps: seq<Step>) {
    && |dbs| == |steps| + 1
    && forall i {:trigger steps[i]} :: 0 <= i < |steps| ==> dbs[i + 1] == Next(dbs[i], steps[i])
  }

  ghost predicate Leads(db: Db, steps: seq<Step>, d: Db) {
    exists dbs :: History(dbs, steps) && dbs[0] == db && dbs[|steps|] == d
  }

  /** The tables after some run from empty tables. */
  ghost predicate Reached(db: Db) {
    exists steps :: Leads(EMPTY_DB, steps, db)
  }

  function Run(db: Db, steps: seq<Step>): Db {
    if steps == [] then db else Next(Run(db, steps[..|steps| - 1]), steps[|steps| - 1])
  }

  lemma LeadsOn(db: Db, steps: seq<Step>, d: Db, s: Step)
    requires Leads(db, steps, d)
    ensures Leads(db, steps + [s], Next(d, s))
  {
    var dbs :| History(dbs, steps) && dbs[0] == db && dbs[|steps|] == d;
    var longer := dbs + [Next(d, s)];
    forall i | 0 <= i < |steps + [s]| ensures longer[i + 1] == Next(longer[i], (steps + [s])[i]) {
      if i < |steps| {
        assert (steps + [s])[i] == steps[i];
      }
    }
    assert History(longer, steps + [s]);
  }

  lemma {:induction false} RunLeads(db: Db, steps: seq<Step>)
    ensures Leads(db, steps, Run(db, steps))
  {
    if steps == [] {
      assert History([db], steps);
    } else {
      var front, s := steps[..|steps| - 1], steps[|steps| - 1];
      RunLeads(db, front);
      LeadsOn(db, front, Run(db, front), s);
      assert front + [s] == steps;
    }
  }

  lemma {:induction false} HistoryRuns(dbs: seq<Db>, steps: seq<Step>)
    requires History(dbs, steps)
    ensures dbs[|steps|] == Run(dbs[0], steps)
  {
    if steps != [] {
      var n := |steps| - 1;
      assert steps[n] == steps[n];
      assert History(dbs[..n + 1], steps[..n]) by {
        forall i | 0 <= i < n ensures dbs[..n + 1][i + 1] == Next(dbs[..n + 1][i], steps[..n][i]) {
          assert steps[..n][i] == steps[i];
        }
      }
      HistoryRuns(dbs[..n + 1], steps[..n]);
    }
  }

  /** Every list of steps leads to exactly one state, the one that doing them one by one computes. */
  lemma LeadsIsRun(db: Db, steps: seq<Step>, d: Db)
    ensures Leads(db, steps, d) <==> d == Run(db, steps)
  {
    RunLeads(db, steps);
    if Leads(db, steps, d) {
      var dbs :| History(dbs, steps) && dbs[0] == db && dbs[|steps|] == d;
      HistoryRuns(dbs, steps);
    }
  }

  // ------------------------------------------------------------------ the invariant

  lemma SaleStepKeeps(db: Db, s: Step)
    requires Inv(db) && (s.DoCreateDraft? || s.DoDeleteDraft? || s.DoApprove? || s.DoApply? || s.DoVoid?)
    ensures Inv(Next(db, s)) == true
  {
    match s
    case DoCreateDraft(id, t, seller, amount, saleDate, author) => DraftStepsKeep(db, id, t, seller, amount, saleDate, author);
    case DoDeleteDraft(t, id) => DraftStepsKeep(db, id, t, 0, 0, 0, None);
    case DoApprove(id, actor, expected, q) => ApproveKeeps(db, id, actor, expected, q);
    case DoApply(id, q) => if id in db.sales { ApplyKeeps(db, id, q); }
    case DoVoid(id, expected, mk) => VoidKeeps(db, id, expected, mk);
  }

  lemma BookStepKeeps(db: Db, s: Step)
    requires Inv(db) && (s.DoDeliver? || s.DoMature? || s.DoAward? || s.DoLock? || s.DoUnlock?)
    ensures Inv(Next(db, s)) == true
  {
    match s
    case DoDeliver(id, at, policy) => DeliverKeeps(db, id, at, policy);
    case DoMature(now, limit, locked, mk) => MatureKeeps(db, now, limit, locked, mk);
    case DoAward(t, m, bonus, month) => AwardKeeps(db, t, m, bonus, month);
    case DoLock(_, _) =>
    case DoUnlock(_, _) =>
  }

  lemma PayoutStepKeeps(db: Db, s: Step)
    requires Inv(db) && (s.DoRequest? || s.DoReject? || s.DoReserve? || s.DoDispatch? || s.DoSettle? || s.DoFail?)
    ensures Inv(Next(db, s)) == true
  {
    match s
    case DoRequest(t, m, r) => RequestKeeps(db, t, m, r);
    case DoReject(t, id) => RejectKeeps(db, t, id);
    case DoReserve(p, env) => ReserveKeeps(db, p, env);
    case DoDispatch(t, b, compliant) => DispatchKeeps(db, t, b, compliant);
    case DoSettle(t, b) => SettleKeeps(db, t, b);
    case DoFail(t, b) => FailKeeps(db, t, b);
  }

  lemma StepKeeps(db: Db, s: Step)
    requires Inv(db)
    ensures Inv(Next(db, s)) == true
  {
    if s.DoCreateDraft? || s.DoDeleteDraft? || s.DoApprove? || s.DoApply? || s.DoVoid? {
      SaleStepKeeps(db, s);
    } else if s.DoDeliver? || s.DoMature? || s.DoAward? || s.DoLock? || s.DoUnlock? {
      BookStepKeeps(db, s);
    } else {
      PayoutStepKeeps(db, s);
    }
  }

  /** The invariant holds after every run. */
  lemma {:induction false} RunKeeps(db: Db, steps: seq<Step>)
    requires Inv(db)
    ensures Inv(Run(db, steps)) == true
  {
    if steps != [] {
      RunKeeps(db, steps[..|steps| - 1]);
      StepKeeps(Run(db, steps[..|steps| - 1]), steps[|steps| - 1]);
    }
  }

  lemma LeadsKeeps(db: Db, steps: seq<Step>, d: Db)
    requires Inv(db) && Leads(db, steps, d)
    ensures Inv(d) == true
  {
    LeadsIsRun(db, steps, d);
    RunKeeps(db, steps);
  }

  /** Every reachable state keeps the invariant. */
  lemma Reachable(db: Db)
    requires Reached(db)
    ensures Inv(db) == true
  {
    var steps :| Leads(EMPTY_DB, steps, db);
    InvEmpty();
    LeadsKeeps(EMPTY_DB, steps, db);
  }

  // ------------------------------------------------------------------ what a step may do to the ledger

  /** The life of a row. */
  predicate Advance(a: LedgerStatus, b: LedgerStatus) {
    a == b
    || match a
       case Pending => b.Payable? || b.Reversed?
       case Payable => b.Processing? || b.Reversed?
       case Processing => b.Paid? || b.Payable?
       case Paid => false
       case Reversed => false
  }

  /** A row keeps its identity and moves one step in its life; only commissions, which are positive, are closed. */
  predicate RowEvolves(a: Row, b: Row) {
    SameIdentity(a, b) && Advance(a.status, b.status) && (b.status.Reversed? && a.status != b.status ==> a.amount > 0)
  }

  /** A new row is of no closed sale, and in a locked month it adds nothing. */
  predicate RowArrives(db: Db, d: Db, r: Row) {
    && (r.sale.Some? ==> r.sale.value in db.sales && db.sales[r.sale.value].status != Void)
    && (r.status.Reversed? || r.amount <= 0 || (r.tenant, BookedMonth(d.sales, r)) !in db.locks)
  }

  ghost predicate LedgerEvolves(db: Db, d: Db) {
    && |db.ledger| <= |d.ledger|
    && (forall i :: 0 <= i < |db.ledger| ==> RowEvolves(db.ledger[i], d.ledger[i]))
    && (forall i :: |db.ledger| <= i < |d.ledger| ==> RowArrives(db, d, d.ledger[i]))
  }

  /** Existing rows stay in their month and void sales stay as they are. */
  ghost predicate SalesEvolve(db: Db, d: Db) {
    && (forall i :: 0 <= i < |db.ledger| ==> BookedMonth(d.sales, db.ledger[i]) == BookedMonth(db.sales, db.ledger[i]))
    && (forall id :: id in db.sales && db.sales[id].status == Void ==> id in d.sales && d.sales[id] == db.sales[id])
  }

  ghost predicate Evolves(db: Db, d: Db) {
    LedgerEvolves(db, d) && SalesEvolve(db, d)
  }

  lemma {:induction false} PostLinesAdds(b: Books, month: Month, tenant: TenantId, id: SaleId, lines: seq<Line>,
                                         start: (LedgerStatus, Option<int>))
    ensures var out := PostLines(b, month, tenant, id, lines, start).ledger;
            |out| == |b.ledger| + |lines| && out[..|b.ledger|] == b.ledger
            && forall i :: |b.ledger| <= i < |out| ==>
                 out[i].sale == Some(id) && out[i].tenant == tenant && out[i].summaryMonth.None?
  {
    if lines != [] {
      PostLinesAdds(b, month, tenant, id, lines[..|lines| - 1], start);
    }
  }

  lemma ApplyAdds(db: Db, id: SaleId, q: ApplyInputs)
    requires Inv(db) && id in db.sales
    ensures ApplyInTx(db, id, q).Committed? ==> AddedFor(db, ApplyInTx(db, id, q).db, id) == true
  {
    var out := ApplyInTx(db, id, q);
    if out.Committed? && out.value.applied {
      LiveWithoutCommissions(db, id);
      AppliedTables(db, id, q);
      AllBooksAtOnce(db, id, q);
      var sale := db.sales[id];
      PostLinesAdds(Books(db.ledger, db.summaries), SaleMonth(sale, q.monthKey), sale.tenant, id, AllLines(db, id, q),
                    Maturation(q.policy, sale, q.now));
    }
  }

  /** Rows are appended for one live sale, in a month that is not locked; that sale is the only one to change. */
  ghost predicate AddedFor(db: Db, d: Db, id: SaleId) {
    && id in db.sales && id in d.sales && d.sales == db.sales[id := d.sales[id]] && db.locks == d.locks
    && d.sales[id].tenant == db.sales[id].tenant
    && (d != db ==> db.sales[id].status == Approved && NoRowsOf(db.ledger, id) && d.sales[id].summaryMonth.Some?
                    && (d.sales[id].tenant, d.sales[id].summaryMonth.value) !in db.locks)
    && |db.ledger| <= |d.ledger| && d.ledger[..|db.ledger|] == db.ledger
    && (forall i :: |db.ledger| <= i < |d.ledger| ==>
          d.ledger[i].sale == Some(id) && d.ledger[i].tenant == d.sales[id].tenant && d.ledger[i].summaryMonth.None?)
  }

  lemma AddedEvolves(db: Db, d: Db, id: SaleId)
    requires AddedFor(db, d, id)
    ensures Evolves(db, d)
  {
    forall i | 0 <= i < |db.ledger| ensures RowEvolves(db.ledger[i], d.ledger[i]) {
      assert d.ledger[..|db.ledger|][i] == db.ledger[i];
    }
    forall i | |db.ledger| <= i < |d.ledger| ensures RowArrives(db, d, d.ledger[i]) {
      assert d != db;
    }
  }

  lemma ApproveEvolves(db: Db, id: SaleId, actor: Option<UserId>, expectedTenant: Option<TenantId>, q: ApplyInputs)
    requires Inv(db)
    ensures Approve(db, id, actor, expectedTenant, q).Committed? ==> Evolves(db, Approve(db, id, actor, expectedTenant, q).db) == true
  {
    var out := Approve(db, id, actor, expectedTenant, q);
    if out.Committed? {
      if db.sales[id].status == Draft {
        DraftHasNoRows(db, id);
        var db1 := db.(sales := db.sales[id := db.sales[id].(status := Approved, approvedAt := Some(q.now))]);
        SalesFrame(db, db1.sales);
        ApplyAdds(db1, id, q);
        AddedEvolves(db1, out.db, id);
        DraftThenAdded(db, db1, out.db, id);
      } else {
        ApplyAdds(db, id, q);
        AddedEvolves(db, out.db, id);
      }
    }
  }

  /** Approving a draft first changes nothing that a row can see. */
  lemma DraftThenAdded(db: Db, db1: Db, d: Db, id: SaleId)
    requires id in db.sales && db.sales[id].status == Draft && NoRowsOf(db.ledger, id)
    requires id in db1.sales && db1 == db.(sales := db.sales[id := db1.sales[id]])
    requires Evolves(db1, d)
    ensures Evolves(db, d)
  {
    forall i | 0 <= i < |db.ledger| ensures BookedMonth(db1.sales, db.ledger[i]) == BookedMonth(db.sales, db.ledger[i]) {
      assert db.ledger[i].sale != Some(id);
    }
    forall i | |db.ledger| <= i < |d.ledger| ensures RowArrives(db, d, d.ledger[i]) {
      assert RowArrives(db1, d, d.ledger[i]);
    }
    forall s | s in db.sales && db.sales[s].status == Void ensures s in d.sales && d.sales[s] == db.sales[s] {
      assert db1.sales[s] == db.sales[s];
    }
  }

  lemma VoidEvolves(db: Db, id: SaleId, expectedTenant: Option<TenantId>, monthKey: MonthKey)
    requires Inv(db)
    ensures VoidSale(db, id, expectedTenant, monthKey).Committed? ==> Evolves(db, VoidSale(db, id, expectedTenant, monthKey).db) == true
  {
    var out := VoidSale(db, id, expectedTenant, monthKey);
    if out.Committed? && out.value.voided {
      VoidMeaning(db, id, expectedTenant, monthKey);
      var entries := RowsWhere(db.ledger, VoidableOf(id));
      VoidedEvolves(db, out.db, id, entries);
    }
  }

  lemma ReversalArrives(db: Db, d: Db, id: SaleId, entries: seq<RowId>, a: nat)
    requires RowsOk(db.sales, db.ledger) && id in db.sales && db.sales[id].status != Void
    requires VoidEntries(db.ledger, id, entries) && VoidedBooks(db.ledger, d.ledger, entries) && a < |entries|
    ensures RowArrives(db, d, d.ledger[|db.ledger| + a])
  {
    var e := entries[a];
    assert e in entries;
    assert Selects(VoidableOf(id), e, db.ledger[e]) && RowOk(db.sales, db.ledger[e]);
    assert d.ledger[|db.ledger| + a] == ReversalOf(db.ledger[entries[a]]);
  }

  lemma VoidedEvolves(db: Db, d: Db, id: SaleId, entries: seq<RowId>)
    requires RowsOk(db.sales, db.ledger) && id in db.sales && db.sales[id].status != Void
    requires d.sales == db.sales[id := db.sales[id].(status := Void)]
    requires VoidEntries(db.ledger, id, entries) && VoidedBooks(db.ledger, d.ledger, entries)
    ensures Evolves(db, d)
  {
    forall i | 0 <= i < |db.ledger| ensures RowEvolves(db.ledger[i], d.ledger[i]) {
      VoidedIdentity(db.ledger, d.ledger, entries, i);
      assert RowOk(db.sales, db.ledger[i]);
      assert i in entries <==> Selects(VoidableOf(id), i, db.ledger[i]);
    }
    forall i | |db.ledger| <= i < |d.ledger| ensures RowArrives(db, d, d.ledger[i]) {
      ReversalArrives(db, d, id, entries, i - |db.ledger|);
    }
  }

  /** Row by row evolution with the sales as they are. */
  lemma SameSalesEvolve(db: Db, d: Db)
    requires d.sales == db.sales && |d.ledger| == |db.ledger|
    requires forall i :: 0 <= i < |db.ledger| ==> RowEvolves(db.ledger[i], d.ledger[i])
    ensures Evolves(db, d)
  {}

  lemma DeliveredEvolves(db: Db, d: Db, id: SaleId)
    requires id in d.sales && id in db.sales && db.sales[id].status == Approved
    requires d.sales == db.sales[id := db.sales[id].(deliveredAt := d.sales[id].deliveredAt)]
    requires |d.ledger| == |db.ledger| && forall i :: 0 <= i < |db.ledger| ==> MaturityOnly(db.ledger[i], d.ledger[i])
    ensures Evolves(db, d)
  {
    forall i | 0 <= i < |db.ledger| ensures RowEvolves(db.ledger[i], d.ledger[i]) {
      assert MaturityOnly(db.ledger[i], d.ledger[i]);
    }
  }

  lemma DeliverEvolves(db: Db, id: SaleId, at: int, policy: TenantPolicy)
    ensures MarkDelivered(db, id, at, policy).Committed? ==> Evolves(db, MarkDelivered(db, id, at, policy).db) == true
  {
    var out := MarkDelivered(db, id, at, policy);
    if out.Committed? {
      if out.value {
        var matures := if policy.maturationRule.DaysAfterDelivery? then at + policy.maturationDays * DAY_MS else at;
        SetMaturityMeaning(db.ledger, RowsWhere(db.ledger, AwaitingDelivery(id)), matures);
        DeliveredEvolves(db, out.db, id);
      } else {
        SameSalesEvolve(db, db);
      }
    }
  }

  lemma MatureEvolves(db: Db, now: int, limit: int, lockedRows: set<RowId>, monthKey: MonthKey)
    requires Inv(db)
    ensures Mature(db, now, limit, lockedRows, monthKey).Committed? ==> Evolves(db, Mature(db, now, limit, lockedRows, monthKey).db) == true
  {
    if limit > 0 {
      var ids := MatureBatch(db, now, limit, lockedRows);
      MatureBatchDue(db, now, limit, lockedRows);
      MatureRowsMeaning(Books(db.ledger, db.summaries), db.sales, monthKey, ids);
      var d := Mature(db, now, limit, lockedRows, monthKey).db;
      forall i | 0 <= i < |db.ledger| ensures RowEvolves(db.ledger[i], d.ledger[i]) {
        if i in ids {
          assert db.ledger[i].status.Pending?;
        }
      }
      SameSalesEvolve(db, d);
    }
  }

  lemma ReserveEvolves(db: Db, p: ReserveParams, env: ReserveEnv)
    requires Inv(db)
    ensures ReserveBatch(db, p, env).Committed? ==> Evolves(db, ReserveBatch(db, p, env).db) == true
  {
    ReserveTakes(db, p, env);
    if ReserveBatch(db, p, env).Committed? {
      var d := ReserveBatch(db, p, env).db;
      forall i | 0 <= i < |db.ledger| ensures RowEvolves(db.ledger[i], d.ledger[i]) {
        assert RowTaken(db.ledger[i], d.ledger[i], |db.batches|);
      }
      SameSalesEvolve(db, d);
    }
  }

  lemma EndEvolves(db: Db, b: BatchId, e: Ending)
    requires Inv(db) && Ends(db, b, e)
    ensures Evolves(db, EndDb(db, b, e))
  {
    forall i | 0 <= i < |db.ledger| ensures RowEvolves(db.ledger[i], EndLedger(db, b, e)[i]) {
      EndRow(db, b, e, i);
      assert RowLinked(db.payouts, db.batches, i, db.ledger[i]) && RowOk(db.sales, db.ledger[i]);
    }
    SameSalesEvolve(db, EndDb(db, b, e));
  }

  lemma EndStepEvolves(db: Db, t: TenantId, b: BatchId)
    requires Inv(db)
    ensures EngineSpec.Settle(db, t, b).Committed? ==> Evolves(db, EngineSpec.Settle(db, t, b).db) == true
    ensures EngineSpec.Fail(db, t, b).Committed? ==> Evolves(db, EngineSpec.Fail(db, t, b).db) == true
  {
    SameSalesEvolve(db, db);
    if Known(db, t, b) && db.batches[b].status.Dispatched? {
      SettleKeeps(db, t, b);
      EndEvolves(db, b, SettleEnding(b));
    }
    if Known(db, t, b) && db.batches[b].status.Processing? {
      FailKeeps(db, t, b);
      EndEvolves(db, b, FailEnding(b));
    }
  }

  lemma DraftEvolves(db: Db, id: SaleId, tenant: TenantId, seller: MemberId, amount: nat, saleDate: int, author: Option<UserId>)
    requires Inv(db)
    ensures CreateDraft(db, id, tenant, seller, amount, saleDate, author).Committed? ==>
              Evolves(db, CreateDraft(db, id, tenant, seller, amount, saleDate, author).db) == true
    ensures DeleteDraft(db, tenant, id).Committed? ==> Evolves(db, DeleteDraft(db, tenant, id).db) == true
  {
    if id !in db.sales || db.sales[id].status == Draft {
      DraftHasNoRows(db, id);
      DraftsUnseen(db, db.sales[id := Sale(tenant, seller, amount, saleDate, author, Draft, None, None, None, None)], id);
      DraftsUnseen(db, db.sales - {id}, id);
    }
  }

  lemma DraftsUnseen(db: Db, sales': map<SaleId, Sale>, id: SaleId)
    requires NoRowsOf(db.ledger, id) && (id in db.sales ==> db.sales[id].status == Draft)
    requires forall s :: s != id ==> (s in db.sales <==> s in sales') && (s in db.sales ==> sales'[s] == db.sales[s])
    ensures Evolves(db, db.(sales := sales'))
  {
    forall i | 0 <= i < |db.ledger| ensures BookedMonth(sales', db.ledger[i]) == BookedMonth(db.sales, db.ledger[i]) {
      assert db.ledger[i].sale != Some(id);
    }
  }

  lemma SaleStepEvolves(db: Db, s: Step)
    requires Inv(db) && (s.DoCreateDraft? || s.DoDeleteDraft? || s.DoApprove? || s.DoApply? || s.DoVoid?)
    ensures Evolves(db, Next(db, s)) == true
  {
    SameSalesEvolve(db, db);
    match s
    case DoCreateDraft(id, t, seller, amount, saleDate, author) => DraftEvolves(db, id, t, seller, amount, saleDate, author);
    case DoDeleteDraft(t, id) => DraftEvolves(db, id, t, 0, 0, 0, None);
    case DoApprove(id, actor, expected, q) => ApproveEvolves(db, id, actor, expected, q);
    case DoApply(id, q) =>
      if id in db.sales && Apply(db, id, q).Committed? {
        ApplyAdds(db, id, q);
        AddedEvolves(db, Apply(db, id, q).db, id);
      }
    case DoVoid(id, expected, mk) => VoidEvolves(db, id, expected, mk);
  }

  lemma PayoutStepEvolves(db: Db, s: Step)
    requires Inv(db) && (s.DoRequest? || s.DoReject? || s.DoReserve? || s.DoDispatch? || s.DoSettle? || s.DoFail?)
    ensures Evolves(db, Next(db, s)) == true
  {
    if s.DoRequest? || s.DoReject? || s.DoDispatch? {
      PayoutsOnly(db, s);
      SameSalesEvolve(db, Next(db, s));
    } else {
      SameSalesEvolve(db, db);
      BatchStepEvolves(db, s);
    }
  }

  lemma PayoutsOnly(db: Db, s: Step)
    requires s.DoRequest? || s.DoReject? || s.DoDispatch?
    ensures Next(db, s).sales == db.sales && Next(db, s).ledger == db.ledger
  {}

  lemma BatchStepEvolves(db: Db, s: Step)
    requires Inv(db) && (s.DoReserve? || s.DoSettle? || s.DoFail?) && Evolves(db, db)
    ensures Evolves(db, Next(db, s)) == true
  {
    match s
    case DoReserve(p, env) => ReserveEvolves(db, p, env);
    case DoSettle(t, b) => EndStepEvolves(db, t, b);
    case DoFail(t, b) => EndStepEvolves(db, t, b);
  }

  /** Every transaction lets the ledger evolve: nothing is deleted, rewritten or revived. */
  lemma StepEvolves(db: Db, s: Step)
    requires Inv(db)
    ensures Evolves(db, Next(db, s)) == true
  {
    if s.DoCreateDraft? || s.DoDeleteDraft? || s.DoApprove? || s.DoApply? || s.DoVoid? {
      SaleStepEvolves(db, s);
    } else if s.DoDeliver? || s.DoMature? || s.DoAward? || s.DoLock? || s.DoUnlock? {
      SameSalesEvolve(db, db);
      match s
      case DoDeliver(id, at, policy) => DeliverEvolves(db, id, at, policy);
      case DoMature(now, limit, locked, mk) => MatureEvolves(db, now, limit, locked, mk);
      case DoAward(t, m, bonus, month) =>
      case DoLock(_, _) => SameSalesEvolve(db, Next(db, s));
      case DoUnlock(_, _) => SameSalesEvolve(db, Next(db, s));
    } else {
      PayoutStepEvolves(db, s);
    }
  }
}
