/** A locked month can only lose money. */
module LockTheorems {
  import opened Prelude
  import opened Commission
  import opened Tables
  import opened Ledger
  import opened EngineSpec
  import opened EngineInv
  import opened BooksProofs
  import opened SettleProofs
  import opened ReserveProofs
  import opened EngineRuns

  function CellTotal(c: Cell): int {
    c.pending + c.payable + c.processing + c.paid
  }

  function LiveAmount(sales: map<SaleId, Sale>, r: Row, k: Key): int {
    if !r.status.Reversed? && KeyOf(sales, r) == k then r.amount else 0
  }

  /** Everything in a bucket that is not reversed. */
  function LiveSum(sales: map<SaleId, Sale>, ledger: seq<Row>, k: Key): int {
    if ledger == [] then 0
    else LiveSum(sales, ledger[..|ledger| - 1], k) + LiveAmount(sales, ledger[|ledger| - 1], k)
  }

  lemma {:induction false} ColumnsAddUp(sales: map<SaleId, Sale>, ledger: seq<Row>, k: Key)
    ensures LiveSum(sales, ledger, k)
            == LedgerSum(sales, ledger, k, LedgerStatus.Pending) + LedgerSum(sales, ledger, k, LedgerStatus.Payable)
               + LedgerSum(sales, ledger, k, LedgerStatus.Processing) + LedgerSum(sales, ledger, k, LedgerStatus.Paid)
  {
    if ledger != [] {
      ColumnsAddUp(sales, ledger[..|ledger| - 1], k);
    }
  }

  lemma CellColumns(sales: map<SaleId, Sale>, ledger: seq<Row>, summaries: map<Key, Cell>, k: Key)
    requires Balanced(sales, ledger, summaries)
    ensures At(summaries, k).pending == LedgerSum(sales, ledger, k, LedgerStatus.Pending)
    ensures At(summaries, k).payable == LedgerSum(sales, ledger, k, LedgerStatus.Payable)
    ensures At(summaries, k).processing == LedgerSum(sales, ledger, k, LedgerStatus.Processing)
    ensures At(summaries, k).paid == LedgerSum(sales, ledger, k, LedgerStatus.Paid)
  {
    assert forall st :: Col(At(summaries, k), st) == LedgerSum(sales, ledger, k, st);
  }

  lemma CellIsLiveSum(db: Db, k: Key)
    requires Inv(db)
    ensures CellTotal(At(db.summaries, k)) == LiveSum(db.sales, db.ledger, k)
  {
    ColumnsAddUp(db.sales, db.ledger, k);
    CellColumns(db.sales, db.ledger, db.summaries, k);
  }

  lemma {:induction false} LiveSumFalls(sales: map<SaleId, Sale>, ledger: seq<Row>, sales': map<SaleId, Sale>, ledger': seq<Row>, k: Key)
    requires |ledger| <= |ledger'|
    requires forall i :: 0 <= i < |ledger| ==> LiveAmount(sales', ledger'[i], k) <= LiveAmount(sales, ledger[i], k)
    requires forall i :: |ledger| <= i < |ledger'| ==> LiveAmount(sales', ledger'[i], k) <= 0
    ensures LiveSum(sales', ledger', k) <= LiveSum(sales, ledger, k)
    decreases |ledger'|
  {
    if |ledger| < |ledger'| {
      LiveSumFalls(sales, ledger, sales', ledger'[..|ledger'| - 1], k);
    } else if ledger != [] {
      LiveSumFalls(sales, ledger[..|ledger| - 1], sales', ledger'[..|ledger'| - 1], k);
    }
  }

  lemma StepFalls(db: Db, s: Step, k: Key)
    requires Inv(db) && (k.tenant, k.month) in db.locks
    ensures LiveSum(Next(db, s).sales, Next(db, s).ledger, k) <= LiveSum(db.sales, db.ledger, k)
  {
    StepEvolves(db, s);
    var d := Next(db, s);
    forall i | 0 <= i < |db.ledger| ensures LiveAmount(d.sales, d.ledger[i], k) <= LiveAmount(db.sales, db.ledger[i], k) {
      assert RowEvolves(db.ledger[i], d.ledger[i]);
      assert BookedMonth(d.sales, db.ledger[i]) == BookedMonth(db.sales, db.ledger[i]);
    }
    forall i | |db.ledger| <= i < |d.ledger| ensures LiveAmount(d.sales, d.ledger[i], k) <= 0 {
      assert RowArrives(db, d, d.ledger[i]);
    }
    LiveSumFalls(db.sales, db.ledger, d.sales, d.ledger, k);
  }

  lemma ApplyLocks(db: Db, s: Step)
    requires s.DoApprove? || s.DoApply?
    ensures Next(db, s).locks == db.locks
  {}

  lemma VoidLocks(db: Db, s: Step)
    requires s.DoVoid?
    ensures Next(db, s).locks == db.locks
  {}

  lemma SaleStepLocks(db: Db, s: Step)
    requires s.DoCreateDraft? || s.DoDeleteDraft? || s.DoApprove? || s.DoApply? || s.DoVoid? || s.DoDeliver?
    ensures Next(db, s).locks == db.locks
  {
    if s.DoApprove? || s.DoApply? {
      ApplyLocks(db, s);
    } else if s.DoVoid? {
      VoidLocks(db, s);
    }
  }

  lemma PayoutStepLocks(db: Db, s: Step)
    requires s.DoRequest? || s.DoReject? || s.DoDispatch? || s.DoSettle? || s.DoFail?
    ensures Next(db, s).locks == db.locks
  {}

  /** Only an unlock takes a lock away. */
  lemma LocksKept(db: Db, s: Step, t: TenantId, month: Month)
    requires Inv(db) && (t, month) in db.locks && s != DoUnlock(t, month)
    ensures (t, month) in Next(db, s).locks
  {
    if s.DoCreateDraft? || s.DoDeleteDraft? || s.DoApprove? || s.DoApply? || s.DoVoid? || s.DoDeliver? {
      SaleStepLocks(db, s);
    } else if s.DoReserve? {
      ReserveTakes(db, s.p, s.env);
    } else if !(s.DoMature? || s.DoAward? || s.DoLock? || s.DoUnlock?) {
      PayoutStepLocks(db, s);
    }
  }

  ghost predicate Locked(db: Db, k: Key) {
    (k.tenant, k.month) in db.locks
  }

  lemma {:induction false} LockedRun(db: Db, steps: seq<Step>, k: Key)
    requires Inv(db) && Locked(db, k) && DoUnlock(k.tenant, k.month) !in steps
    ensures Locked(Run(db, steps), k)
    ensures CellTotal(At(Run(db, steps).summaries, k)) <= CellTotal(At(db.summaries, k))
  {
    if steps != [] {
      var front, s := steps[..|steps| - 1], steps[|steps| - 1];
      LockedRun(db, front, k);
      RunKeeps(db, front);
      RunKeeps(db, steps);
      var d := Run(db, front);
      LocksKept(d, s, k.tenant, k.month);
      StepFalls(d, s, k);
      CellIsLiveSum(d, k);
      CellIsLiveSum(Run(db, steps), k);
    }
  }

  /**
   While a month stays locked, the pending + payable + processing + paid total of each of its cells
   never increases, whatever transactions run.
   */
  lemma LockedMonthNeverGrows(db: Db, steps: seq<Step>, d: Db, k: Key)
    requires Reached(db) && Leads(db, steps, d)
    requires Locked(db, k) && DoUnlock(k.tenant, k.month) !in steps
    ensures Locked(d, k) && CellTotal(At(d.summaries, k)) <= CellTotal(At(db.summaries, k))
  {
    Reachable(db);
    LeadsIsRun(db, steps, d);
    LockedRun(db, steps, k);
  }

  // ------------------------------------------------------------------ only void moves a locked cell

  /** No row is reversed, and no row arrives in a locked month. */
  ghost predicate Quiet(db: Db, d: Db) {
    && |db.ledger| <= |d.ledger|
    && (forall i :: 0 <= i < |db.ledger| ==> (d.ledger[i].status.Reversed? <==> db.ledger[i].status.Reversed?))
    && (forall i :: |db.ledger| <= i < |d.ledger| ==> (d.ledger[i].tenant, BookedMonth(d.sales, d.ledger[i])) !in db.locks)
  }

  lemma SameLedgerQuiet(db: Db, d: Db)
    requires d.ledger == db.ledger
    ensures Quiet(db, d)
  {}

  lemma AddedQuiet(db: Db, d: Db, id: SaleId)
    requires AddedFor(db, d, id)
    ensures Quiet(db, d)
  {
    forall i | 0 <= i < |db.ledger| ensures d.ledger[i] == db.ledger[i] {
      assert d.ledger[..|db.ledger|][i] == db.ledger[i];
    }
    forall i | |db.ledger| <= i < |d.ledger| ensures (d.ledger[i].tenant, BookedMonth(d.sales, d.ledger[i])) !in db.locks {
      assert d != db;
    }
  }

  lemma ApplyQuiet(db: Db, id: SaleId, q: ApplyInputs)
    requires Inv(db) && id in db.sales
    ensures ApplyInTx(db, id, q).Committed? ==> Quiet(db, ApplyInTx(db, id, q).db) == true
  {
    ApplyAdds(db, id, q);
    if ApplyInTx(db, id, q).Committed? {
      AddedQuiet(db, ApplyInTx(db, id, q).db, id);
    }
  }

  /** Marking a draft approved first leaves ledger and locks alone. */
  lemma ApproveQuiet(db: Db, id: SaleId, actor: Option<UserId>, expectedTenant: Option<TenantId>, q: ApplyInputs)
    requires Inv(db)
    ensures Approve(db, id, actor, expectedTenant, q).Committed? ==> Quiet(db, Approve(db, id, actor, expectedTenant, q).db) == true
  {
    if Approve(db, id, actor, expectedTenant, q).Committed? {
      if db.sales[id].status == Draft {
        DraftHasNoRows(db, id);
        var db1 := db.(sales := db.sales[id := db.sales[id].(status := Approved, approvedAt := Some(q.now))]);
        SalesFrame(db, db1.sales);
        ApplyQuiet(db1, id, q);
        QuietFrom(db, db1, ApplyInTx(db1, id, q));
      } else {
        ApplyQuiet(db, id, q);
      }
    }
  }

  lemma QuietFrom(db: Db, db1: Db, o: Outcome<ApplyResult>)
    requires db1.ledger == db.ledger && db1.locks == db.locks && (o.Committed? ==> Quiet(db1, o.db))
    ensures o.Committed? ==> Quiet(db, o.db) == true
  {}

  lemma DeliverQuiet(db: Db, id: SaleId, at: int, policy: TenantPolicy)
    ensures MarkDelivered(db, id, at, policy).Committed? ==> Quiet(db, MarkDelivered(db, id, at, policy).db) == true
  {
    var o := MarkDelivered(db, id, at, policy);
    if o.Committed? && o.value {
      var ids := RowsWhere(db.ledger, AwaitingDelivery(id));
      var matures := if policy.maturationRule.DaysAfterDelivery? then at + policy.maturationDays * DAY_MS else at;
      SetMaturityMeaning(db.ledger, ids, matures);
      assert forall i :: 0 <= i < |db.ledger| ==> MaturityOnly(db.ledger[i], o.db.ledger[i]);
    }
  }

  lemma MatureQuiet(db: Db, now: int, limit: int, lockedRows: set<RowId>, monthKey: MonthKey)
    ensures Mature(db, now, limit, lockedRows, monthKey).Committed? ==> Quiet(db, Mature(db, now, limit, lockedRows, monthKey).db) == true
  {
    if limit > 0 {
      var ids := MatureBatch(db, now, limit, lockedRows);
      MatureBatchDue(db, now, limit, lockedRows);
      MatureRowsMeaning(Books(db.ledger, db.summaries), db.sales, monthKey, ids);
      forall i: nat | i < |db.ledger| && i in ids ensures db.ledger[i].status.Pending? {}
    }
  }

  lemma ReserveQuiet(db: Db, p: ReserveParams, env: ReserveEnv)
    requires Inv(db)
    ensures ReserveBatch(db, p, env).Committed? ==> Quiet(db, ReserveBatch(db, p, env).db) == true
  {
    ReserveTakes(db, p, env);
    if ReserveBatch(db, p, env).Committed? {
      TakenQuiet(db, |db.batches|, ReserveBatch(db, p, env).db);
    }
  }

  lemma TakenQuiet(db: Db, b: BatchId, d: Db)
    requires Taken(db, b, d)
    ensures Quiet(db, d) == true
  {
    forall i | 0 <= i < |db.ledger| ensures d.ledger[i].status.Reversed? <==> db.ledger[i].status.Reversed? {
      assert RowTaken(db.ledger[i], d.ledger[i], b);
    }
  }

  lemma EndQuiet(db: Db, b: BatchId, e: Ending)
    requires Inv(db) && Ends(db, b, e)
    ensures Quiet(db, EndDb(db, b, e)) == true
  {
    forall i | 0 <= i < |db.ledger| ensures EndLedger(db, b, e)[i].status.Reversed? <==> db.ledger[i].status.Reversed? {
      EndRow(db, b, e, i);
      assert RowLinked(db.payouts, db.batches, i, db.ledger[i]) && RowOk(db.sales, db.ledger[i]);
    }
  }

  lemma SettleQuiet(db: Db, t: TenantId, b: BatchId)
    requires Inv(db)
    ensures EngineSpec.Settle(db, t, b).Committed? ==> Quiet(db, EngineSpec.Settle(db, t, b).db) == true
  {
    if Known(db, t, b) && db.batches[b].status.Dispatched? {
      SettleKeeps(db, t, b);
      EndQuiet(db, b, SettleEnding(b));
    }
  }

  lemma FailQuiet(db: Db, t: TenantId, b: BatchId)
    requires Inv(db)
    ensures EngineSpec.Fail(db, t, b).Committed? ==> Quiet(db, EngineSpec.Fail(db, t, b).db) == true
  {
    if Known(db, t, b) && db.batches[b].status.Processing? {
      FailKeeps(db, t, b);
      EndQuiet(db, b, FailEnding(b));
    }
  }

  /** Steps that write no ledger row. */
  predicate LeavesLedger(s: Step) {
    s.DoCreateDraft? || s.DoDeleteDraft? || s.DoLock? || s.DoUnlock? || s.DoRequest? || s.DoReject? || s.DoDispatch?
  }

  lemma LedgerLeft(db: Db, s: Step)
    requires LeavesLedger(s)
    ensures Next(db, s).ledger == db.ledger
  {}

  lemma AwardQuiet(db: Db, s: Step)
    requires s.DoAward?
    ensures Quiet(db, Next(db, s)) == true
  {}

  lemma StepQuiet(db: Db, s: Step)
    requires Inv(db) && !s.DoVoid?
    ensures Quiet(db, Next(db, s)) == true
  {
    if LeavesLedger(s) {
      LedgerLeft(db, s);
      SameLedgerQuiet(db, Next(db, s));
    } else {
      RowStepQuiet(db, s);
    }
  }

  lemma RowStepQuiet(db: Db, s: Step)
    requires Inv(db) && !s.DoVoid? && !LeavesLedger(s)
    ensures Quiet(db, Next(db, s)) == true
  {
    match s
    case DoApprove(id, actor, expected, q) => ApproveQuiet(db, id, actor, expected, q);
    case DoApply(id, q) => if id in db.sales { ApplyQuiet(db, id, q); }
    case DoDeliver(id, at, policy) => DeliverQuiet(db, id, at, policy);
    case DoMature(now, limit, locked, mk) => MatureQuiet(db, now, limit, locked, mk);
    case DoAward(_, _, _, _) => AwardQuiet(db, s);
    case DoReserve(p, env) => ReserveQuiet(db, p, env);
    case DoSettle(t, b) => SettleQuiet(db, t, b);
    case DoFail(t, b) => FailQuiet(db, t, b);
    case _ =>
  }

  lemma {:induction false} LiveSumStands(sales: map<SaleId, Sale>, ledger: seq<Row>, sales': map<SaleId, Sale>, ledger': seq<Row>, k: Key)
    requires |ledger| <= |ledger'|
    requires forall i :: 0 <= i < |ledger| ==> LiveAmount(sales', ledger'[i], k) == LiveAmount(sales, ledger[i], k)
    requires forall i :: |ledger| <= i < |ledger'| ==> LiveAmount(sales', ledger'[i], k) == 0
    ensures LiveSum(sales', ledger', k) == LiveSum(sales, ledger, k)
    decreases |ledger'|
  {
    if |ledger| < |ledger'| {
      LiveSumStands(sales, ledger, sales', ledger'[..|ledger'| - 1], k);
    } else if ledger != [] {
      LiveSumStands(sales, ledger[..|ledger| - 1], sales', ledger'[..|ledger'| - 1], k);
    }
  }

  lemma QuietStands(db: Db, d: Db, k: Key)
    requires Evolves(db, d) && Quiet(db, d) && Locked(db, k)
    ensures LiveSum(d.sales, d.ledger, k) == LiveSum(db.sales, db.ledger, k)
  {
    forall i | 0 <= i < |db.ledger| ensures LiveAmount(d.sales, d.ledger[i], k) == LiveAmount(db.sales, db.ledger[i], k) {
      assert RowEvolves(db.ledger[i], d.ledger[i]);
      assert BookedMonth(d.sales, db.ledger[i]) == BookedMonth(db.sales, db.ledger[i]);
    }
    LiveSumStands(db.sales, db.ledger, d.sales, d.ledger, k);
  }

  /** Only voiding a sale moves the total of a cell in a locked month: every other step keeps it exactly. */
  lemma OnlyVoidMoves(db: Db, s: Step, k: Key)
    requires Reached(db) && Locked(db, k) && !s.DoVoid?
    ensures CellTotal(At(Next(db, s).summaries, k)) == CellTotal(At(db.summaries, k))
  {
    Reachable(db);
    StepKeeps(db, s);
    StepEvolves(db, s);
    StepQuiet(db, s);
    QuietStands(db, Next(db, s), k);
    CellIsLiveSum(db, k);
    CellIsLiveSum(Next(db, s), k);
  }
}
