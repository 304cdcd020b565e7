/** What holds of the money tables in every reachable state. */
module EngineInv {
  import opened Prelude
  import opened Commission
  import opened Tables
  import opened Ledger
  import opened EngineSpec

  // ------------------------------------------------------------------ rows and sales

  predicate InSettlement(st: LedgerStatus) {
    st.Processing? || st.Paid?
  }

  /** A row's own consistency: where its month comes from, its sign, and no payout link outside settlement. */
  predicate RowOk(sales: map<SaleId, Sale>, r: Row) {
    && (r.sale.Some? ==>
          && r.sale.value in sales
          && sales[r.sale.value].tenant == r.tenant
          && sales[r.sale.value].summaryMonth.Some?
          && sales[r.sale.value].status != Draft
          && r.kind != Adjustment && r.summaryMonth.None?)
    && (r.sale.None? ==> r.kind == Adjustment && r.summaryMonth.Some?)
    && (r.kind == Commission ==> r.amount > 0)
    && (r.status.Pending? ==> r.kind == Commission)
    && (!InSettlement(r.status) ==> r.payout.None? && r.batch.None?)
  }

  predicate RowsOk(sales: map<SaleId, Sale>, ledger: seq<Row>) {
    forall i :: 0 <= i < |ledger| ==> RowOk(sales, ledger[i])
  }

  /** Two rows that the unique index (sale, level, type) would not let coexist. */
  predicate SameLine(a: Row, b: Row) {
    a.sale.Some? && a.sale == b.sale && a.level == b.level && a.kind == b.kind
  }

  predicate UniqueLines(ledger: seq<Row>) {
    forall i, j :: 0 <= i < j < |ledger| ==> !SameLine(ledger[i], ledger[j])
  }

  /** `v` is the equal-and-opposite reversal of commission `c`; both closed, or paid with a clawback. */
  predicate Mirror(c: Row, v: Row) {
    && c.kind == Commission && v.kind == Reversal
    && c.sale == v.sale && c.tenant == v.tenant && c.member == v.member && c.level == v.level && c.rateBps == v.rateBps
    && v.amount == -c.amount
    && ((c.status.Reversed? && v.status.Reversed?)
        || (c.status.Paid? && (v.status.Payable? || v.status.Processing? || v.status.Paid?)))
  }

  ghost predicate HasReversal(ledger: seq<Row>, c: Row) {
    exists j :: 0 <= j < |ledger| && Mirror(c, ledger[j])
  }

  ghost predicate HasOriginal(ledger: seq<Row>, v: Row) {
    exists i :: 0 <= i < |ledger| && Mirror(ledger[i], v)
  }

  predicate SaleVoid(sales: map<SaleId, Sale>, r: Row) {
    r.sale.Some? && r.sale.value in sales && sales[r.sale.value].status == Void
  }

  ghost predicate CommissionClosed(sales: map<SaleId, Sale>, ledger: seq<Row>, c: Row) {
    if SaleVoid(sales, c) then HasReversal(ledger, c) else !c.status.Reversed?
  }

  /** Commissions of a void sale have their reversal, those of a live sale are not reversed, and reversals are never alone. */
  ghost predicate SalesClosed(sales: map<SaleId, Sale>, ledger: seq<Row>) {
    && (forall i :: 0 <= i < |ledger| && ledger[i].kind == Commission ==> CommissionClosed(sales, ledger, ledger[i]))
    && (forall j :: 0 <= j < |ledger| && ledger[j].kind == Reversal ==>
          SaleVoid(sales, ledger[j]) && HasOriginal(ledger, ledger[j]))
  }

  ghost predicate BooksInv(sales: map<SaleId, Sale>, ledger: seq<Row>) {
    RowsOk(sales, ledger) && UniqueLines(ledger) && SalesClosed(sales, ledger)
  }

  // ------------------------------------------------------------------ settlement

  predicate HasItem(items: seq<Item>, row: RowId, payout: PayoutId) {
    exists n :: 0 <= n < |items| && items[n].row == row && items[n].payout == payout
  }

  /** The batch status that a row in settlement goes with. */
  predicate StatusFits(row: LedgerStatus, batch: BatchStatus) {
    (row.Processing? && (batch.Processing? || batch.Dispatched?)) || (row.Paid? && batch.Settled?)
  }

  /** A processing or paid row points to one payout and one batch of which it is an item. */
  predicate RowLinked(payouts: seq<Payout>, batches: seq<Batch>, i: RowId, r: Row) {
    InSettlement(r.status) ==>
      && r.payout.Some? && r.batch.Some?
      && r.payout.value < |payouts| && r.batch.value < |batches|
      && HasItem(batches[r.batch.value].items, i, r.payout.value)
      && StatusFits(r.status, batches[r.batch.value].status)
  }

  /** An item still describes its row, and the row is where the batch's status says. */
  predicate ItemOk(sales: map<SaleId, Sale>, ledger: seq<Row>, payouts: seq<Payout>, batch: Batch, b: BatchId, it: Item) {
    && it.row < |ledger| && it.payout < |payouts|
    && payouts[it.payout].batch == Some(b) && payouts[it.payout].member == it.member
    && (var r := ledger[it.row];
        && r.tenant == batch.tenant && r.member == it.member && r.level == it.level && r.amount == it.amount
        && it.month == BookedMonth(sales, r)
        && (!batch.status.Failed? ==> StatusFits(r.status, batch.status) && r.batch == Some(b) && r.payout == Some(it.payout)))
  }

  predicate DistinctRows(items: seq<Item>) {
    forall n, k :: 0 <= n < k < |items| ==> items[n].row != items[k].row
  }

  ghost predicate BatchOk(sales: map<SaleId, Sale>, ledger: seq<Row>, payouts: seq<Payout>, batch: Batch, b: BatchId) {
    && DistinctRows(batch.items)
    && (forall n :: 0 <= n < |batch.items| ==> ItemOk(sales, ledger, payouts, batch, b, batch.items[n]))
  }

  function ItemSum(items: seq<Item>, id: PayoutId): int {
    if items == [] then 0
    else ItemSum(items[..|items| - 1], id) + (if items[|items| - 1].payout == id then items[|items| - 1].amount else 0)
  }

  predicate PayoutStatusFits(p: PayoutStatus, batch: BatchStatus) {
    match p
    case Requested => false
    case Processing => batch.Processing? || batch.Dispatched?
    case Paid => batch.Settled?
    case Rejected => false
    case Failed => batch.Failed?
  }

  /** The active key is set exactly while the payout is open; a batched payout is the sum of its items. */
  predicate PayoutOk(batches: seq<Batch>, id: PayoutId, p: Payout) {
    && p.activeKey == (if Open(p) then Some(ActiveKey(p.tenant, p.member, p.period)) else None)
    && (p.batch.None? ==> p.status.Requested? || p.status.Rejected?)
    && (p.batch.Some? ==>
          && p.batch.value < |batches|
          && batches[p.batch.value].tenant == p.tenant
          && PayoutStatusFits(p.status, batches[p.batch.value].status)
          && HasPayout(batches[p.batch.value].items, id)
          && p.total == ItemSum(batches[p.batch.value].items, id))
  }

  /** At most one open payout for a member. */
  predicate OneOpen(payouts: seq<Payout>) {
    forall i, j :: 0 <= i < j < |payouts| && Open(payouts[i]) && Open(payouts[j]) ==>
      !(payouts[i].tenant == payouts[j].tenant && payouts[i].member == payouts[j].member)
  }

  /** Amount of the ledger rows that point to a payout. */
  function PayoutSum(ledger: seq<Row>, id: PayoutId): int {
    if ledger == [] then 0
    else PayoutSum(ledger[..|ledger| - 1], id) + (if ledger[|ledger| - 1].payout == Some(id) then ledger[|ledger| - 1].amount else 0)
  }

  predicate Funded(ledger: seq<Row>, id: PayoutId, p: Payout) {
    PayoutSum(ledger, id) == if p.status.Processing? || p.status.Paid? then p.total else 0
  }

  ghost predicate SettlementInv(sales: map<SaleId, Sale>, ledger: seq<Row>, payouts: seq<Payout>, batches: seq<Batch>) {
    && (forall i :: 0 <= i < |ledger| ==> RowLinked(payouts, batches, i, ledger[i]))
    && (forall b :: 0 <= b < |batches| ==> BatchOk(sales, ledger, payouts, batches[b], b))
    && (forall id :: 0 <= id < |payouts| ==> PayoutOk(batches, id, payouts[id]))
    && (forall id :: 0 <= id < |payouts| ==> Funded(ledger, id, payouts[id]))
    && OneOpen(payouts)
  }

  predicate BatchesFilled(batches: seq<Batch>) {
    forall b :: 0 <= b < |batches| ==> batches[b].items != []
  }

  ghost predicate Inv(db: Db) {
    && BooksInv(db.sales, db.ledger)
    && Balanced(db.sales, db.ledger, db.summaries)
    && SettlementInv(db.sales, db.ledger, db.payouts, db.batches)
    && BatchesFilled(db.batches)
  }

  lemma InvEmpty()
    ensures Inv(EMPTY_DB)
  {
    assert forall k, st :: Col(At(EMPTY_DB.summaries, k), st) == 0 == LedgerSum(EMPTY_DB.sales, EMPTY_DB.ledger, k, st);
  }

  // ------------------------------------------------------------------ frames

  /** Sales may change in any way that the rows of the ledger do not see. */
  predicate RowsSeeSame(sales: map<SaleId, Sale>, sales': map<SaleId, Sale>, ledger: seq<Row>) {
    forall i :: 0 <= i < |ledger| && ledger[i].sale.Some? && ledger[i].sale.value in sales ==>
      && ledger[i].sale.value in sales'
      && sales'[ledger[i].sale.value].tenant == sales[ledger[i].sale.value].tenant
      && sales'[ledger[i].sale.value].status == sales[ledger[i].sale.value].status
      && sales'[ledger[i].sale.value].summaryMonth == sales[ledger[i].sale.value].summaryMonth
  }

  lemma SalesFrame(db: Db, sales': map<SaleId, Sale>)
    requires Inv(db) && RowsSeeSame(db.sales, sales', db.ledger)
    ensures Inv(db.(sales := sales'))
  {
    forall i | 0 <= i < |db.ledger|
      ensures RowOk(sales', db.ledger[i]) && BookedMonth(sales', db.ledger[i]) == BookedMonth(db.sales, db.ledger[i])
      ensures SaleVoid(sales', db.ledger[i]) == SaleVoid(db.sales, db.ledger[i])
    {
      assert RowOk(db.sales, db.ledger[i]);
    }
    BalancedFrame(db.sales, sales', db.ledger, db.summaries);
    forall b | 0 <= b < |db.batches| ensures BatchOk(sales', db.ledger, db.payouts, db.batches[b], b) {
      assert BatchOk(db.sales, db.ledger, db.payouts, db.batches[b], b);
      forall n | 0 <= n < |db.batches[b].items| ensures ItemOk(sales', db.ledger, db.payouts, db.batches[b], b, db.batches[b].items[n]) {
        assert ItemOk(db.sales, db.ledger, db.payouts, db.batches[b], b, db.batches[b].items[n]);
      }
    }
    assert SalesClosed(sales', db.ledger);
  }

  /** The columns that identify a row and never change. */
  predicate SameIdentity(a: Row, b: Row) {
    && a.tenant == b.tenant && a.sale == b.sale && a.member == b.member && a.level == b.level && a.rateBps == b.rateBps
    && a.amount == b.amount && a.kind == b.kind && a.summaryMonth == b.summaryMonth
  }

  /** Old rows keep identity and links, rows in settlement keep their status, new rows are outside settlement. */
  ghost predicate OutsideSettlement(ledger: seq<Row>, ledger': seq<Row>) {
    && |ledger| <= |ledger'|
    && (forall i :: 0 <= i < |ledger| ==>
          && SameIdentity(ledger[i], ledger'[i])
          && ledger'[i].payout == ledger[i].payout && ledger'[i].batch == ledger[i].batch
          && (InSettlement(ledger[i].status) || InSettlement(ledger'[i].status) ==> ledger'[i].status == ledger[i].status))
    && (forall i :: |ledger| <= i < |ledger'| ==> ledger'[i].payout.None? && !InSettlement(ledger'[i].status))
  }

  lemma {:induction false} PayoutSumFrame(ledger: seq<Row>, ledger': seq<Row>, id: PayoutId)
    requires OutsideSettlement(ledger, ledger')
    ensures PayoutSum(ledger', id) == PayoutSum(ledger, id)
    decreases |ledger'|
  {
    if |ledger'| > |ledger| {
      PayoutSumFrame(ledger, ledger'[..|ledger'| - 1], id);
    } else if ledger != [] {
      PayoutSumFrame(ledger[..|ledger| - 1], ledger'[..|ledger| - 1], id);
    }
  }

  /** Row changes outside settlement do not disturb payouts and batches. */
  lemma SettlementFrame(sales: map<SaleId, Sale>, ledger: seq<Row>, ledger': seq<Row>, payouts: seq<Payout>, batches: seq<Batch>)
    requires SettlementInv(sales, ledger, payouts, batches) && OutsideSettlement(ledger, ledger')
    ensures SettlementInv(sales, ledger', payouts, batches)
  {
    forall i | 0 <= i < |ledger'| ensures RowLinked(payouts, batches, i, ledger'[i]) {
      if i < |ledger| {
        assert RowLinked(payouts, batches, i, ledger[i]);
      }
    }
    forall b | 0 <= b < |batches| ensures BatchOk(sales, ledger', payouts, batches[b], b) {
      assert BatchOk(sales, ledger, payouts, batches[b], b);
      forall n | 0 <= n < |batches[b].items| ensures ItemOk(sales, ledger', payouts, batches[b], b, batches[b].items[n]) {
        assert ItemOk(sales, ledger, payouts, batches[b], b, batches[b].items[n]);
      }
    }
    forall id | 0 <= id < |payouts| ensures Funded(ledger', id, payouts[id]) {
      assert Funded(ledger, id, payouts[id]);
      PayoutSumFrame(ledger, ledger', id);
    }
  }
}
