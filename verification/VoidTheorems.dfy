/** What voiding a sale leaves behind, now and after any later transactions. */
module VoidTheorems {
  import opened Prelude
  import opened Commission
  import opened Tables
  import opened Ledger
  import opened EngineSpec
  import opened EngineInv
  import opened BooksProofs
  import opened EngineRuns

  // ------------------------------------------------------------------ a void sale nets to zero

  predicate OnLine(id: SaleId, m: MemberId, level: nat, r: Row) {
    r.sale == Some(id) && r.member == m && r.level == level
  }

  /** All rows of a sale for one member on one level. */
  function LineSum(ledger: seq<Row>, id: SaleId, m: MemberId, level: nat): int {
    if ledger == [] then 0
    else LineSum(ledger[..|ledger| - 1], id, m, level)
         + (if OnLine(id, m, level, ledger[|ledger| - 1]) then ledger[|ledger| - 1].amount else 0)
  }

  function KindSum(ledger: seq<Row>, id: SaleId, m: MemberId, level: nat, kind: LedgerType): int {
    if ledger == [] then 0
    else
      var r := ledger[|ledger| - 1];
      KindSum(ledger[..|ledger| - 1], id, m, level, kind) + (if OnLine(id, m, level, r) && r.kind == kind then r.amount else 0)
  }

  lemma {:induction false} KindsAddUp(ledger: seq<Row>, id: SaleId, m: MemberId, level: nat)
    ensures LineSum(ledger, id, m, level)
            == KindSum(ledger, id, m, level, Commission) + KindSum(ledger, id, m, level, Reversal)
               + KindSum(ledger, id, m, level, Adjustment)
  {
    if ledger != [] {
      KindsAddUp(ledger[..|ledger| - 1], id, m, level);
    }
  }

  lemma {:induction false} NoneOnLine(ledger: seq<Row>, id: SaleId, m: MemberId, level: nat, kind: LedgerType)
    requires forall i :: 0 <= i < |ledger| ==> !(OnLine(id, m, level, ledger[i]) && ledger[i].kind == kind)
    ensures KindSum(ledger, id, m, level, kind) == 0
  {
    if ledger != [] {
      NoneOnLine(ledger[..|ledger| - 1], id, m, level, kind);
    }
  }

  /** One row on a line of the unique index is the whole sum. */
  lemma {:induction false} OneOnLine(ledger: seq<Row>, id: SaleId, m: MemberId, level: nat, kind: LedgerType, i: nat)
    requires UniqueLines(ledger) && i < |ledger| && OnLine(id, m, level, ledger[i]) && ledger[i].kind == kind
    ensures KindSum(ledger, id, m, level, kind) == ledger[i].amount
  {
    var front := ledger[..|ledger| - 1];
    if i < |front| {
      OneOnLine(front, id, m, level, kind, i);
      assert !SameLine(ledger[i], ledger[|front|]);
    } else {
      forall n | 0 <= n < |front| ensures !(OnLine(id, m, level, front[n]) && front[n].kind == kind) {
        assert !SameLine(ledger[n], ledger[i]);
      }
      NoneOnLine(front, id, m, level, kind);
    }
  }

  lemma VoidLine(db: Db, id: SaleId, m: MemberId, level: nat)
    requires Inv(db) && id in db.sales && db.sales[id].status == Void
    ensures KindSum(db.ledger, id, m, level, Commission) + KindSum(db.ledger, id, m, level, Reversal) == 0
  {
    if i :| 0 <= i < |db.ledger| && OnLine(id, m, level, db.ledger[i]) && db.ledger[i].kind == Commission {
      assert CommissionClosed(db.sales, db.ledger, db.ledger[i]);
      var j :| 0 <= j < |db.ledger| && Mirror(db.ledger[i], db.ledger[j]);
      OneOnLine(db.ledger, id, m, level, Commission, i);
      OneOnLine(db.ledger, id, m, level, Reversal, j);
    } else {
      NoneOnLine(db.ledger, id, m, level, Commission);
      forall j | 0 <= j < |db.ledger| ensures !(OnLine(id, m, level, db.ledger[j]) && db.ledger[j].kind == Reversal) {
        if db.ledger[j].kind == Reversal {
          assert HasOriginal(db.ledger, db.ledger[j]);
        }
      }
      NoneOnLine(db.ledger, id, m, level, Reversal);
    }
  }

  /** In every reachable state, what a void sale paid and took back from each member on each level nets to zero. */
  lemma VoidNetsToZero(db: Db, id: SaleId, m: MemberId, level: nat)
    requires Reached(db) && id in db.sales && db.sales[id].status == Void
    ensures LineSum(db.ledger, id, m, level) == 0
  {
    Reachable(db);
    KindsAddUp(db.ledger, id, m, level);
    VoidLine(db, id, m, level);
    forall i | 0 <= i < |db.ledger| ensures !(OnLine(id, m, level, db.ledger[i]) && db.ledger[i].kind == Adjustment) {
      assert RowOk(db.sales, db.ledger[i]);
    }
    NoneOnLine(db.ledger, id, m, level, Adjustment);
  }

  /** Each commission of a void sale has exactly one reversal, equal and opposite; a live sale has none. */
  lemma OneReversal(db: Db, i: RowId)
    requires Reached(db) && i < |db.ledger| && db.ledger[i].kind == Commission
    ensures var c := db.ledger[i];
            if SaleVoid(db.sales, c)
            then exists j :: 0 <= j < |db.ledger| && Mirror(c, db.ledger[j])
                             && forall n :: 0 <= n < |db.ledger| && n != j ==> !(db.ledger[n].kind == Reversal && OnLine(c.sale.value, c.member, c.level, db.ledger[n]))
            else forall n :: 0 <= n < |db.ledger| ==> !(db.ledger[n].kind == Reversal && db.ledger[n].sale == c.sale)
  {
    Reachable(db);
    var c := db.ledger[i];
    assert CommissionClosed(db.sales, db.ledger, c);
    if SaleVoid(db.sales, c) {
      var j :| 0 <= j < |db.ledger| && Mirror(c, db.ledger[j]);
      forall n | 0 <= n < |db.ledger| && n != j ensures !(db.ledger[n].kind == Reversal && OnLine(c.sale.value, c.member, c.level, db.ledger[n])) {
        if n < j {
          assert !SameLine(db.ledger[n], db.ledger[j]);
        } else {
          assert !SameLine(db.ledger[j], db.ledger[n]);
        }
      }
    } else {
      forall n | 0 <= n < |db.ledger| ensures !(db.ledger[n].kind == Reversal && db.ledger[n].sale == c.sale) {
        assert RowOk(db.sales, db.ledger[n]);
        if db.ledger[n].kind == Reversal {
          assert SaleVoid(db.sales, db.ledger[n]);
        }
      }
    }
  }

  // ------------------------------------------------------------------ what voiding does to the cells

  function EntrySum(sales: map<SaleId, Sale>, ledger: seq<Row>, entries: seq<RowId>, k: Key, st: LedgerStatus): int
    requires forall a :: 0 <= a < |entries| ==> entries[a] < |ledger|
  {
    if entries == [] then 0
    else EntrySum(sales, ledger, entries[..|entries| - 1], k, st) + RowAmount(sales, ledger[entries[|entries| - 1]], k, st)
  }

  function SaleAmount(sales: map<SaleId, Sale>, r: Row, id: SaleId, k: Key, st: LedgerStatus): int {
    if r.sale == Some(id) && r.kind == Commission then RowAmount(sales, r, k, st) else 0
  }

  /** What the commissions of one sale have in one column of one bucket. */
  function SaleSum(sales: map<SaleId, Sale>, ledger: seq<Row>, id: SaleId, k: Key, st: LedgerStatus): int {
    if ledger == [] then 0
    else SaleSum(sales, ledger[..|ledger| - 1], id, k, st) + SaleAmount(sales, ledger[|ledger| - 1], id, k, st)
  }

  lemma VoidableAmount(sales: map<SaleId, Sale>, i: RowId, r: Row, id: SaleId, k: Key, st: LedgerStatus)
    ensures SaleAmount(sales, r, id, k, st) == if Selects(VoidableOf(id), i, r) then RowAmount(sales, r, k, st) else 0
  {}

  lemma {:induction false} EntrySumFrame(sales: map<SaleId, Sale>, ledger: seq<Row>, n: nat, entries: seq<RowId>, k: Key, st: LedgerStatus)
    requires n <= |ledger| && forall a :: 0 <= a < |entries| ==> entries[a] < n
    ensures EntrySum(sales, ledger, entries, k, st) == EntrySum(sales, ledger[..n], entries, k, st)
  {
    if entries != [] {
      EntrySumFrame(sales, ledger, n, entries[..|entries| - 1], k, st);
    }
  }

  lemma EntrySumAppend(sales: map<SaleId, Sale>, ledger: seq<Row>, entries: seq<RowId>, e: RowId, k: Key, st: LedgerStatus)
    requires e < |ledger| && forall a :: 0 <= a < |entries| ==> entries[a] < |ledger|
    ensures EntrySum(sales, ledger, entries + [e], k, st) == EntrySum(sales, ledger, entries, k, st) + RowAmount(sales, ledger[e], k, st)
  {
    assert (entries + [e])[..|entries|] == entries;
  }

  /** The sale's voidable rows are all its commissions that count in a column. */
  lemma {:induction false} EntriesAreSale(sales: map<SaleId, Sale>, ledger: seq<Row>, id: SaleId, entries: seq<RowId>, k: Key, st: LedgerStatus)
    requires entries == RowsWhere(ledger, VoidableOf(id))
    ensures EntrySum(sales, ledger, entries, k, st) == SaleSum(sales, ledger, id, k, st)
  {
    if ledger != [] {
      var n := |ledger| - 1;
      var front := RowsWhere(ledger[..n], VoidableOf(id));
      EntriesAreSale(sales, ledger[..n], id, front, k, st);
      EntriesStep(sales, ledger, id, front, k, st);
      LastSelected(ledger, VoidableOf(id));
    }
  }

  lemma LastSelected(ledger: seq<Row>, f: Filter)
    requires ledger != []
    ensures var n := |ledger| - 1;
            RowsWhere(ledger, f) == if Selects(f, n, ledger[n]) then RowsWhere(ledger[..n], f) + [n] else RowsWhere(ledger[..n], f)
  {}

  lemma EntriesStep(sales: map<SaleId, Sale>, ledger: seq<Row>, id: SaleId, front: seq<RowId>, k: Key, st: LedgerStatus)
    requires ledger != [] && forall a :: 0 <= a < |front| ==> front[a] < |ledger| - 1
    ensures var n := |ledger| - 1;
            EntrySum(sales, ledger, if Selects(VoidableOf(id), n, ledger[n]) then front + [n] else front, k, st)
            == EntrySum(sales, ledger[..n], front, k, st) + SaleAmount(sales, ledger[n], id, k, st)
  {
    var n := |ledger| - 1;
    EntrySumFrame(sales, ledger, n, front, k, st);
    EntrySumAppend(sales, ledger, front, n, k, st);
    VoidableAmount(sales, n, ledger[n], id, k, st);
  }

  /** What one column loses: unpaid rows leave theirs, paid rows are clawed back from payable. */
  function Lost(pending: int, payable: int, paid: int, st: LedgerStatus): int {
    match st
    case Pending => pending
    case Payable => payable + paid
    case Processing => 0
    case Paid => 0
    case Reversed => 0
  }

  lemma {:induction false} VoidRowsCells(sales: map<SaleId, Sale>, b: Books, month: Month, entries: seq<RowId>, k: Key, st: LedgerStatus)
    requires forall a :: 0 <= a < |entries| ==> entries[a] < |b.ledger|
    requires forall a :: 0 <= a < |entries| ==> VoidableIn(sales, month, b.ledger[entries[a]])
    requires DistinctIds(entries) && Balanced(sales, b.ledger, b.summaries)
    ensures Col(At(VoidRows(b, month, entries).summaries, k), st)
            == Col(At(b.summaries, k), st)
               - Lost(EntrySum(sales, b.ledger, entries, k, LedgerStatus.Pending), EntrySum(sales, b.ledger, entries, k, LedgerStatus.Payable),
                      EntrySum(sales, b.ledger, entries, k, LedgerStatus.Paid), st)
  {
    if entries != [] {
      var front, e := entries[..|entries| - 1], entries[|entries| - 1];
      VoidRowsCells(sales, b, month, front, k, st);
      VoidRowsMeaning(sales, b, month, front);
      var mid := VoidRows(b, month, front);
      assert e !in front;
      assert mid.ledger[e] == b.ledger[e];
      var r := b.ledger[e];
      BumpAt(mid.summaries, Key(r.tenant, r.member, month, r.level), VoidDelta(r), k, st);
    }
  }

  /** The cells after voiding, column by column. */
  ghost predicate CellsVoided(db: Db, d: Db, id: SaleId, k: Key, st: LedgerStatus) {
    Col(At(d.summaries, k), st)
    == Col(At(db.summaries, k), st)
       - Lost(SaleSum(db.sales, db.ledger, id, k, LedgerStatus.Pending), SaleSum(db.sales, db.ledger, id, k, LedgerStatus.Payable),
              SaleSum(db.sales, db.ledger, id, k, LedgerStatus.Paid), st)
  }

  lemma VoidCells(db: Db, d: Db, id: SaleId, month: Month, entries: seq<RowId>, k: Key, st: LedgerStatus)
    requires Inv(db) && id in db.sales && (db.sales[id].summaryMonth.Some? ==> month == db.sales[id].summaryMonth.value)
    requires entries == RowsWhere(db.ledger, VoidableOf(id)) && VoidEntries(db.ledger, id, entries)
    requires d.summaries == VoidRows(Books(db.ledger, db.summaries), month, entries).summaries
    ensures CellsVoided(db, d, id, k, st)
  {
    forall a | 0 <= a < |entries| ensures VoidableIn(db.sales, month, db.ledger[entries[a]]) {
      assert RowOk(db.sales, db.ledger[entries[a]]);
    }
    VoidRowsCells(db.sales, Books(db.ledger, db.summaries), month, entries, k, st);
    EntriesAreSale(db.sales, db.ledger, id, entries, k, LedgerStatus.Pending);
    EntriesAreSale(db.sales, db.ledger, id, entries, k, LedgerStatus.Payable);
    EntriesAreSale(db.sales, db.ledger, id, entries, k, LedgerStatus.Paid);
  }

  lemma VoidedCells(db: Db, id: SaleId, expectedTenant: Option<TenantId>, monthKey: MonthKey, k: Key, st: LedgerStatus)
    requires Inv(db)
    ensures var out := VoidSale(db, id, expectedTenant, monthKey);
            out.Committed? && out.value.voided ==> CellsVoided(db, out.db, id, k, st) == true
  {
    var out := VoidSale(db, id, expectedTenant, monthKey);
    VoidMeaning(db, id, expectedTenant, monthKey);
    if out.Committed? && out.value.voided {
      VoidCells(db, out.db, id, SaleMonth(db.sales[id], monthKey), RowsWhere(db.ledger, VoidableOf(id)), k, st);
    }
  }

  /**
   Voiding takes the sale's unpaid rows out of the cells and puts exactly minus its paid rows into
   payable; the processing and paid columns do not move.
   */
  lemma VoidMovesCells(db: Db, id: SaleId, expectedTenant: Option<TenantId>, monthKey: MonthKey, k: Key, st: LedgerStatus)
    requires Reached(db)
    ensures var out := VoidSale(db, id, expectedTenant, monthKey);
            out.Committed? && out.value.voided ==> CellsVoided(db, out.db, id, k, st) == true
  {
    Reachable(db);
    VoidedCells(db, id, expectedTenant, monthKey, k, st);
  }

  // ------------------------------------------------------------------ void is final

  /** Approving, applying or voiding again changes nothing, and maturation passes the sale's rows by. */
  lemma VoidedStepsAddNothing(db: Db, id: SaleId, s: Step)
    requires Reached(db) && id in db.sales && db.sales[id].status == Void
    ensures (s.DoApprove? || s.DoApply? || s.DoVoid? || s.DoDeliver?) && s.id == id ==> Next(db, s) == db
    ensures s.DoMature? ==> forall i :: 0 <= i < |db.ledger| && db.ledger[i].sale == Some(id) ==>
                              i < |Next(db, s).ledger| && Next(db, s).ledger[i] == db.ledger[i]
  {
    Reachable(db);
    if s.DoMature? && s.limit > 0 {
      MatureSkips(db, id, s.now, s.limit, s.lockedRows, s.monthKey);
    } else if !s.DoMature? && (s.DoApprove? || s.DoApply? || s.DoVoid? || s.DoDeliver?) && s.id == id {
      VoidedSaleStays(db, id, s);
    }
  }

  lemma VoidedSaleStays(db: Db, id: SaleId, s: Step)
    requires id in db.sales && db.sales[id].status == Void
    requires (s.DoApprove? || s.DoApply? || s.DoVoid? || s.DoDeliver?) && s.id == id
    ensures Next(db, s) == db
  {}

  lemma NotPending(db: Db, id: SaleId, i: RowId)
    requires Inv(db) && id in db.sales && db.sales[id].status == Void && i < |db.ledger| && db.ledger[i].sale == Some(id)
    ensures !db.ledger[i].status.Pending?
  {
    assert RowOk(db.sales, db.ledger[i]);
    assert db.ledger[i].kind == Commission ==> CommissionClosed(db.sales, db.ledger, db.ledger[i]);
  }

  lemma MatureSkips(db: Db, id: SaleId, now: int, limit: int, lockedRows: set<RowId>, monthKey: MonthKey)
    requires Inv(db) && id in db.sales && db.sales[id].status == Void && limit > 0
    ensures var d := Next(db, DoMature(now, limit, lockedRows, monthKey));
            forall i :: 0 <= i < |db.ledger| && db.ledger[i].sale == Some(id) ==> i < |d.ledger| && d.ledger[i] == db.ledger[i]
  {
    var ids := MatureBatch(db, now, limit, lockedRows);
    var d := Next(db, DoMature(now, limit, lockedRows, monthKey));
    NextMatured(db, now, limit, lockedRows, monthKey);
    forall i | 0 <= i < |db.ledger| && db.ledger[i].sale == Some(id) ensures i < |d.ledger| && d.ledger[i] == db.ledger[i] {
      NotPending(db, id, i);
      MatureBatchDue(db, now, limit, lockedRows);
      assert i !in ids;
    }
  }

  lemma NextMatured(db: Db, now: int, limit: int, lockedRows: set<RowId>, monthKey: MonthKey)
    requires limit > 0
    ensures MaturedRows(db.ledger, Next(db, DoMature(now, limit, lockedRows, monthKey)).ledger, MatureBatch(db, now, limit, lockedRows))
  {
    MatureBatchDue(db, now, limit, lockedRows);
    MatureRowsMeaning(Books(db.ledger, db.summaries), db.sales, monthKey, MatureBatch(db, now, limit, lockedRows));
  }

  /** The sale stays void, it gets no further row, and its rows stay who and how much they were. */
  ghost predicate SaleFrozen(db: Db, d: Db, id: SaleId) {
    && id in db.sales && id in d.sales && d.sales[id] == db.sales[id]
    && |db.ledger| <= |d.ledger|
    && (forall i :: 0 <= i < |d.ledger| && d.ledger[i].sale == Some(id) ==> i < |db.ledger|)
    && (forall i :: 0 <= i < |db.ledger| ==> SameIdentity(db.ledger[i], d.ledger[i]))
    && (forall i :: 0 <= i < |db.ledger| && (db.ledger[i].status.Reversed? || db.ledger[i].status.Paid?) ==>
          d.ledger[i].status == db.ledger[i].status)
  }

  lemma FrozenStep(db: Db, d: Db, s: Step, id: SaleId)
    requires SaleFrozen(db, d, id) && Inv(d) && db.sales[id].status == Void
    ensures SaleFrozen(db, Next(d, s), id)
  {
    StepEvolves(d, s);
    var n := Next(d, s);
    forall i | |d.ledger| <= i < |n.ledger| ensures n.ledger[i].sale != Some(id) {
      assert RowArrives(d, n, n.ledger[i]);
    }
    forall i | 0 <= i < |d.ledger| && n.ledger[i].sale == Some(id) ensures i < |db.ledger| {
      assert RowEvolves(d.ledger[i], n.ledger[i]);
    }
    forall i | 0 <= i < |db.ledger|
      ensures SameIdentity(db.ledger[i], n.ledger[i])
      ensures db.ledger[i].status.Reversed? || db.ledger[i].status.Paid? ==> n.ledger[i].status == db.ledger[i].status
    {
      assert RowEvolves(d.ledger[i], n.ledger[i]);
    }
  }

  lemma {:induction false} FrozenRun(db: Db, steps: seq<Step>, id: SaleId)
    requires Inv(db) && id in db.sales && db.sales[id].status == Void
    ensures SaleFrozen(db, Run(db, steps), id) == true
  {
    if steps != [] {
      var front := steps[..|steps| - 1];
      FrozenRun(db, front, id);
      RunKeeps(db, front);
      FrozenStep(db, Run(db, front), steps[|steps| - 1], id);
    }
  }

  /** Whatever happens later, a void sale is frozen. */
  lemma VoidIsFinal(db: Db, steps: seq<Step>, d: Db, id: SaleId)
    requires Reached(db) && Leads(db, steps, d)
    requires id in db.sales && db.sales[id].status == Void
    ensures SaleFrozen(db, d, id)
  {
    Reachable(db);
    LeadsIsRun(db, steps, d);
    FrozenRun(db, steps, id);
  }
}
