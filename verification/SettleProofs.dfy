/** Payout requests and settlement batches keep the invariant; the guards against changed rows never fire. */
module SettleProofs {
  import opened Prelude
  import opened Commission
  import opened Tables
  import opened Ledger
  import opened EngineSpec
  import opened EngineInv
  import opened BooksProofs

  // ------------------------------------------------------------------ moving a batch of rows

  predicate Touches(items: seq<Item>, i: RowId) {
    exists n :: 0 <= n < |items| && items[n].row == i
  }

  /** Every item names a different row, and each row can make the move. */
  ghost predicate AllMovable(ledger: seq<Row>, items: seq<Item>, m: Move) {
    DistinctRows(items) && forall n :: 0 <= n < |items| ==> items[n].row < |ledger| && Movable(m, ledger[items[n].row])
  }

  ghost predicate MovedAll(ledger: seq<Row>, after: seq<Row>, items: seq<Item>, m: Move) {
    && |after| == |ledger|
    && (forall n {:trigger Moved(m, items[n], ledger[items[n].row])} :: 0 <= n < |items| ==>
          items[n].row < |ledger| && after[items[n].row] == Moved(m, items[n], ledger[items[n].row]))
    && (forall i: nat {:trigger after[i]} :: i < |ledger| && !Touches(items, i) ==> after[i] == ledger[i])
  }

  lemma TouchesSplit(items: seq<Item>, i: RowId)
    requires items != []
    ensures Touches(items, i) <==> Touches(items[..|items| - 1], i) || items[|items| - 1].row == i
  {
    var front := items[..|items| - 1];
    if Touches(items, i) && items[|items| - 1].row != i {
      var n :| 0 <= n < |items| && items[n].row == i;
      assert front[n].row == i;
    }
    if Touches(front, i) {
      var n :| 0 <= n < |front| && front[n].row == i;
      assert items[n].row == i;
    }
  }

  /** updateMany moves exactly the items' rows and counts them all. */
  lemma {:induction false} UpdateManyMeaning(ledger: seq<Row>, items: seq<Item>, m: Move)
    requires AllMovable(ledger, items, m)
    ensures UpdateMany(ledger, items, m).1 == |items|
    ensures MovedAll(ledger, UpdateMany(ledger, items, m).0, items, m)
  {
    if items != [] {
      var front, it := items[..|items| - 1], items[|items| - 1];
      UpdateManyMeaning(ledger, front, m);
      var mid := UpdateMany(ledger, front, m).0;
      assert !Touches(front, it.row);
      assert mid[it.row] == ledger[it.row];
      var after := mid[it.row := Moved(m, it, ledger[it.row])];
      forall n | 0 <= n < |items| ensures after[items[n].row] == Moved(m, items[n], ledger[items[n].row]) {
        if n < |front| {
          assert mid[front[n].row] == Moved(m, front[n], ledger[front[n].row]);
          assert front[n].row != it.row;
        }
      }
      forall i: nat | i < |ledger| && !Touches(items, i) ensures after[i] == ledger[i] {
        TouchesSplit(items, i);
        assert mid[i] == ledger[i];
      }
    }
  }

  /** The item's bucket and amount are those of its row. */
  predicate Describes(sales: map<SaleId, Sale>, tenant: TenantId, it: Item, r: Row) {
    ItemKey(tenant, it) == KeyOf(sales, r) && it.amount == r.amount
  }

  lemma MoveOneBalanced(sales: map<SaleId, Sale>, ledger: seq<Row>, summaries: map<Key, Cell>, tenant: TenantId, it: Item, m: Move)
    requires Balanced(sales, ledger, summaries) && it.row < |ledger| && Movable(m, ledger[it.row])
    requires Describes(sales, tenant, it, ledger[it.row])
    ensures Balanced(sales, ledger[it.row := Moved(m, it, ledger[it.row])], Bump(summaries, ItemKey(tenant, it), MoveDelta(m, it.amount)))
  {
    BalancedUpdate(sales, ledger, summaries, it.row, Moved(m, it, ledger[it.row]), ItemKey(tenant, it), MoveDelta(m, it.amount));
  }

  /** Moving the rows with one bump an item keeps the index right. */
  lemma {:induction false} MoveBalanced(sales: map<SaleId, Sale>, ledger: seq<Row>, summaries: map<Key, Cell>, tenant: TenantId,
                                        items: seq<Item>, m: Move)
    requires Balanced(sales, ledger, summaries) && AllMovable(ledger, items, m)
    requires forall n :: 0 <= n < |items| ==> Describes(sales, tenant, items[n], ledger[items[n].row])
    ensures Balanced(sales, UpdateMany(ledger, items, m).0, BumpItems(summaries, tenant, items, m))
  {
    if items != [] {
      var front, it := items[..|items| - 1], items[|items| - 1];
      MoveBalanced(sales, ledger, summaries, tenant, front, m);
      UpdateManyMeaning(ledger, front, m);
      var mid := UpdateMany(ledger, front, m).0;
      assert !Touches(front, it.row);
      assert mid[it.row] == ledger[it.row];
      MoveOneBalanced(sales, mid, BumpItems(summaries, tenant, front, m), tenant, it, m);
    }
  }

  lemma {:induction false} PayoutSumUpdate(ledger: seq<Row>, i: nat, r: Row, id: PayoutId)
    requires i < |ledger|
    ensures PayoutSum(ledger[i := r], id) == PayoutSum(ledger, id)
            - (if ledger[i].payout == Some(id) then ledger[i].amount else 0) + (if r.payout == Some(id) then r.amount else 0)
  {
    var n := |ledger| - 1;
    if i < n {
      PayoutSumUpdate(ledger[..n], i, r, id);
      assert ledger[i := r][..n] == ledger[..n][i := r];
    } else {
      assert ledger[i := r][..n] == ledger[..n];
    }
  }

  /** How a move changes what a payout has in the ledger. */
  function MoveSign(m: Move): int {
    match m
    case Claim(_) => 1
    case Settle(_) => 0
    case Release(_) => -1
  }

  lemma {:induction false} MovePayoutSum(ledger: seq<Row>, items: seq<Item>, m: Move, id: PayoutId)
    requires AllMovable(ledger, items, m)
    requires forall n :: 0 <= n < |items| ==> items[n].amount == ledger[items[n].row].amount
    requires m.Release? ==> forall n :: 0 <= n < |items| ==> ledger[items[n].row].payout == Some(items[n].payout)
    ensures PayoutSum(UpdateMany(ledger, items, m).0, id) == PayoutSum(ledger, id) + MoveSign(m) * ItemSum(items, id)
  {
    if items != [] {
      var front, it := items[..|items| - 1], items[|items| - 1];
      MovePayoutSum(ledger, front, m, id);
      UpdateManyMeaning(ledger, front, m);
      var mid := UpdateMany(ledger, front, m).0;
      assert !Touches(front, it.row);
      assert mid[it.row] == ledger[it.row];
      PayoutSumUpdate(mid, it.row, Moved(m, it, mid[it.row]), id);
    }
  }

  lemma MoveShifts(sales: map<SaleId, Sale>, ledger: seq<Row>, after: seq<Row>, items: seq<Item>, m: Move)
    requires RowsOk(sales, ledger) && AllMovable(ledger, items, m) && MovedAll(ledger, after, items, m)
    ensures AllShifted(ledger, after)
  {
    forall i | 0 <= i < |ledger| ensures Shifted(ledger[i], after[i]) {
      assert RowOk(sales, ledger[i]);
      if Touches(items, i) {
        var n :| 0 <= n < |items| && items[n].row == i;
        assert after[items[n].row] == Moved(m, items[n], ledger[items[n].row]);
      }
    }
  }

  // ------------------------------------------------------------------ closing payouts

  lemma {:induction false} ClosePayoutsMeaning(payouts: seq<Payout>, ids: seq<PayoutId>, b: BatchId, to: PayoutStatus)
    requires DistinctIds(ids)
    requires forall a :: 0 <= a < |ids| ==> ids[a] < |payouts| && payouts[ids[a]].batch == Some(b) && payouts[ids[a]].status.Processing?
    ensures ClosePayouts(payouts, ids, b, to).1 == |ids|
    ensures forall i: nat :: i < |payouts| ==>
              ClosePayouts(payouts, ids, b, to).0[i] == if i in ids then payouts[i].(status := to, activeKey := None) else payouts[i]
  {
    if ids != [] {
      var front, last := ids[..|ids| - 1], ids[|ids| - 1];
      ClosePayoutsMeaning(payouts, front, b, to);
      assert ids == front + [last];
      assert last !in front;
    }
  }

  // ------------------------------------------------------------------ request and reject

  lemma NoRowOfNewPayout(db: Db)
    requires Inv(db)
    ensures PayoutSum(db.ledger, |db.payouts|) == 0
  {
    forall i | 0 <= i < |db.ledger| ensures db.ledger[i].payout != Some(|db.payouts|) {
      assert RowLinked(db.payouts, db.batches, i, db.ledger[i]) && RowOk(db.sales, db.ledger[i]);
    }
    NoRowNoSum(db.ledger, |db.payouts|);
  }

  lemma {:induction false} NoRowNoSum(ledger: seq<Row>, id: PayoutId)
    requires forall i :: 0 <= i < |ledger| ==> ledger[i].payout != Some(id)
    ensures PayoutSum(ledger, id) == 0
  {
    if ledger != [] {
      NoRowNoSum(ledger[..|ledger| - 1], id);
    }
  }

  /** Batches and rows refer to payouts by position, batch and member only. */
  lemma PayoutsFrame(sales: map<SaleId, Sale>, ledger: seq<Row>, payouts: seq<Payout>, payouts': seq<Payout>, batches: seq<Batch>)
    requires SettlementInv(sales, ledger, payouts, batches)
    requires |payouts| <= |payouts'|
    requires forall id :: 0 <= id < |payouts| ==> payouts'[id].batch == payouts[id].batch && payouts'[id].member == payouts[id].member
    ensures forall i :: 0 <= i < |ledger| ==> RowLinked(payouts', batches, i, ledger[i])
    ensures forall b :: 0 <= b < |batches| ==> BatchOk(sales, ledger, payouts', batches[b], b)
  {
    forall i | 0 <= i < |ledger| ensures RowLinked(payouts', batches, i, ledger[i]) {
      assert RowLinked(payouts, batches, i, ledger[i]);
    }
    forall b | 0 <= b < |batches| ensures BatchOk(sales, ledger, payouts', batches[b], b) {
      assert BatchOk(sales, ledger, payouts, batches[b], b);
      forall n | 0 <= n < |batches[b].items| ensures ItemOk(sales, ledger, payouts', batches[b], b, batches[b].items[n]) {
        assert ItemOk(sales, ledger, payouts, batches[b], b, batches[b].items[n]);
      }
    }
  }

  /** The payout that a request adds. */
  function RequestOf(tenant: TenantId, member: MemberId, total: int, period: Month): Payout {
    Payout(tenant, member, None, total, Requested, period, Some(ActiveKey(tenant, member, period)))
  }

  lemma NewRequestOk(db: Db, new_: Payout)
    requires Inv(db) && new_ == RequestOf(new_.tenant, new_.member, new_.total, new_.period)
    ensures PayoutOk(db.batches, |db.payouts|, new_) && Funded(db.ledger, |db.payouts|, new_)
  {
    NoRowOfNewPayout(db);
  }

  lemma OneOpenMore(payouts: seq<Payout>, new_: Payout)
    requires OneOpen(payouts)
    requires forall i :: 0 <= i < |payouts| ==> !(Open(payouts[i]) && payouts[i].tenant == new_.tenant && payouts[i].member == new_.member)
    ensures OneOpen(payouts + [new_])
  {}

  lemma RequestAddedKeeps(db: Db, new_: Payout)
    requires Inv(db) && new_ == RequestOf(new_.tenant, new_.member, new_.total, new_.period)
    requires forall i :: 0 <= i < |db.payouts| ==>
               !(Open(db.payouts[i]) && db.payouts[i].tenant == new_.tenant && db.payouts[i].member == new_.member)
    ensures Inv(db.(payouts := db.payouts + [new_])) == true
  {
    var payouts' := db.payouts + [new_];
    PayoutsFrame(db.sales, db.ledger, db.payouts, payouts', db.batches);
    NewRequestOk(db, new_);
    OneOpenMore(db.payouts, new_);
    forall id | 0 <= id < |payouts'| ensures PayoutOk(db.batches, id, payouts'[id]) && Funded(db.ledger, id, payouts'[id]) {
      assert id < |db.payouts| ==> PayoutOk(db.batches, id, db.payouts[id]) && Funded(db.ledger, id, db.payouts[id]);
    }
  }

  /** What a created request commits, and that the member had nothing open. */
  lemma RequestCreated(db: Db, tenant: TenantId, member: MemberId, q: RequestInputs)
    ensures var out := RequestPayout(db, tenant, member, q);
            out.Committed? ==>
              if out.value.created
              then exists total :: out.db == db.(payouts := db.payouts + [RequestOf(tenant, member, total, q.period)])
              else out.db == db
    ensures var out := RequestPayout(db, tenant, member, q);
            out.Committed? && out.value.created ==> PayoutsWhere(db.payouts, OpenOf(tenant, member)) == []
  {
    var net := SumRows(db.ledger, RowsWhere(db.ledger, PayableOf(tenant, member)));
    var out := RequestPayout(db, tenant, member, q);
    assert out.Committed? && out.value.created ==>
             out.db == db.(payouts := db.payouts + [RequestOf(tenant, member, net, q.period)]);
  }

  lemma RequestKeeps(db: Db, tenant: TenantId, member: MemberId, q: RequestInputs)
    requires Inv(db)
    ensures RequestPayout(db, tenant, member, q).Committed? ==> Inv(RequestPayout(db, tenant, member, q).db) == true
  {
    var out := RequestPayout(db, tenant, member, q);
    RequestCreated(db, tenant, member, q);
    if out.Committed? && out.value.created {
      var total :| out.db == db.(payouts := db.payouts + [RequestOf(tenant, member, total, q.period)]);
      forall i | 0 <= i < |db.payouts| ensures !(Open(db.payouts[i]) && db.payouts[i].tenant == tenant && db.payouts[i].member == member) {
        assert i !in PayoutsWhere(db.payouts, OpenOf(tenant, member));
      }
      RequestAddedKeeps(db, RequestOf(tenant, member, total, q.period));
    }
  }

  lemma RejectKeeps(db: Db, tenant: TenantId, id: PayoutId)
    requires Inv(db)
    ensures RejectRequest(db, tenant, id).Committed? ==> Inv(RejectRequest(db, tenant, id).db)
  {
    var out := RejectRequest(db, tenant, id);
    if out.Committed? {
      PayoutsFrame(db.sales, db.ledger, db.payouts, out.db.payouts, db.batches);
      forall i | 0 <= i < |db.payouts| ensures PayoutOk(db.batches, i, out.db.payouts[i]) && Funded(db.ledger, i, out.db.payouts[i]) {
        assert PayoutOk(db.batches, i, db.payouts[i]) && Funded(db.ledger, i, db.payouts[i]);
      }
    }
  }

  // ------------------------------------------------------------------ dispatch

  /** A batch that is processing or dispatched is intact: the guards on rows and payouts pass. */
  lemma LiveBatchIntact(db: Db, b: BatchId)
    requires Inv(db) && b < |db.batches| && (db.batches[b].status.Processing? || db.batches[b].status.Dispatched?)
    ensures RowsIntact(db, b) && PayoutsCovered(db, b)
    ensures PayoutsWhere(db.payouts, OfBatch(b)) != []
    ensures forall id: nat :: id in PayoutsWhere(db.payouts, OfBatch(b)) ==> db.payouts[id].status.Processing?
  {
    var items := db.batches[b].items;
    assert BatchOk(db.sales, db.ledger, db.payouts, db.batches[b], b);
    assert forall n :: 0 <= n < |items| ==> ItemOk(db.sales, db.ledger, db.payouts, db.batches[b], b, items[n]);
    forall id: nat | id in PayoutsWhere(db.payouts, OfBatch(b)) ensures HasPayout(items, id) && db.payouts[id].status.Processing? {
      assert PayoutSelects(OfBatch(b), db.payouts[id]);
      assert PayoutOk(db.batches, id, db.payouts[id]);
    }
    assert items != [];
    assert items[0].payout in PayoutsWhere(db.payouts, OfBatch(b)) by {
      assert PayoutSelects(OfBatch(b), db.payouts[items[0].payout]);
    }
  }

  lemma DispatchedBatchOk(db: Db, b: BatchId, c: BatchId)
    requires Inv(db) && b < |db.batches| && db.batches[b].status.Processing? && c < |db.batches|
    ensures BatchOk(db.sales, db.ledger, db.payouts, db.batches[b := db.batches[b].(status := Dispatched)][c], c)
  {
    var batch := db.batches[b := db.batches[b].(status := Dispatched)][c];
    assert BatchOk(db.sales, db.ledger, db.payouts, db.batches[c], c);
    forall n | 0 <= n < |batch.items| ensures ItemOk(db.sales, db.ledger, db.payouts, batch, c, batch.items[n]) {
      assert ItemOk(db.sales, db.ledger, db.payouts, db.batches[c], c, db.batches[c].items[n]);
    }
  }

  /** Rows, items and payouts fit a dispatched batch as they fitted the processing one. */
  lemma DispatchedKeeps(db: Db, b: BatchId)
    requires Inv(db) && b < |db.batches| && db.batches[b].status.Processing?
    ensures Inv(db.(batches := db.batches[b := db.batches[b].(status := Dispatched)])) == true
  {
    var batches' := db.batches[b := db.batches[b].(status := Dispatched)];
    forall i | 0 <= i < |db.ledger| ensures RowLinked(db.payouts, batches', i, db.ledger[i]) {
      assert RowLinked(db.payouts, db.batches, i, db.ledger[i]);
    }
    forall c | 0 <= c < |batches'| ensures BatchOk(db.sales, db.ledger, db.payouts, batches'[c], c) {
      DispatchedBatchOk(db, b, c);
    }
    forall id | 0 <= id < |db.payouts| ensures PayoutOk(batches', id, db.payouts[id]) {
      assert PayoutOk(db.batches, id, db.payouts[id]);
    }
  }

  lemma DispatchKeeps(db: Db, tenant: TenantId, b: BatchId, compliant: bool)
    requires Inv(db)
    ensures Dispatch(db, tenant, b, compliant).Committed? ==> Inv(Dispatch(db, tenant, b, compliant).db) == true
    ensures Dispatch(db, tenant, b, compliant) !in {Aborted(NotIntact), Aborted(NoPayouts)}
  {
    if Known(db, tenant, b) && db.batches[b].status.Processing? {
      LiveBatchIntact(db, b);
      DispatchedKeeps(db, b);
    }
  }

  /** The two ways in which a live batch ends. */
  datatype Ending = Ending(move: Move, payout: PayoutStatus, batch: BatchStatus)

  function SettleEnding(b: BatchId): Ending {
    Ending(Move.Settle(b), PayoutStatus.Paid, Settled)
  }

  function FailEnding(b: BatchId): Ending {
    Ending(Release(b), PayoutStatus.Failed, BatchStatus.Failed)
  }

  predicate Ends(db: Db, b: BatchId, e: Ending) {
    && b < |db.batches|
    && (db.batches[b].status.Processing? || db.batches[b].status.Dispatched?)
    && (e == SettleEnding(b) || e == FailEnding(b))
  }

  function EndLedger(db: Db, b: BatchId, e: Ending): seq<Row>
    requires b < |db.batches|
  {
    UpdateMany(db.ledger, db.batches[b].items, e.move).0
  }

  function EndPayouts(db: Db, b: BatchId, e: Ending): seq<Payout> {
    ClosePayouts(db.payouts, PayoutsWhere(db.payouts, OfBatch(b)), b, e.payout).0
  }

  function EndBatches(db: Db, b: BatchId, e: Ending): seq<Batch>
    requires b < |db.batches|
  {
    db.batches[b := db.batches[b].(status := e.batch)]
  }

  function EndDb(db: Db, b: BatchId, e: Ending): Db
    requires b < |db.batches|
  {
    db.(ledger := EndLedger(db, b, e), payouts := EndPayouts(db, b, e), batches := EndBatches(db, b, e),
        summaries := BumpItems(db.summaries, db.batches[b].tenant, db.batches[b].items, e.move))
  }

  lemma LiveItems(db: Db, b: BatchId, e: Ending)
    requires Inv(db) && Ends(db, b, e)
    ensures AllMovable(db.ledger, db.batches[b].items, e.move)
    ensures forall n :: 0 <= n < |db.batches[b].items| ==>
              && Describes(db.sales, db.batches[b].tenant, db.batches[b].items[n], db.ledger[db.batches[b].items[n].row])
              && db.ledger[db.batches[b].items[n].row].payout == Some(db.batches[b].items[n].payout)
  {
    assert BatchOk(db.sales, db.ledger, db.payouts, db.batches[b], b);
    forall n | 0 <= n < |db.batches[b].items|
      ensures var it := db.batches[b].items[n];
              it.row < |db.ledger| && Movable(e.move, db.ledger[it.row])
              && Describes(db.sales, db.batches[b].tenant, it, db.ledger[it.row]) && db.ledger[it.row].payout == Some(it.payout)
    {
      assert ItemOk(db.sales, db.ledger, db.payouts, db.batches[b], b, db.batches[b].items[n]);
    }
  }

  /** Both guards that compare an update count with the list length pass. */
  lemma EndCounts(db: Db, b: BatchId, e: Ending)
    requires Inv(db) && Ends(db, b, e)
    ensures UpdateMany(db.ledger, db.batches[b].items, e.move).1 == |db.batches[b].items|
    ensures MovedAll(db.ledger, EndLedger(db, b, e), db.batches[b].items, e.move)
    ensures ClosePayouts(db.payouts, PayoutsWhere(db.payouts, OfBatch(b)), b, e.payout).1 == |PayoutsWhere(db.payouts, OfBatch(b))|
    ensures forall i: nat :: i < |db.payouts| ==>
              EndPayouts(db, b, e)[i]
              == if db.payouts[i].batch == Some(b) then db.payouts[i].(status := e.payout, activeKey := None) else db.payouts[i]
  {
    LiveItems(db, b, e);
    LiveBatchIntact(db, b);
    UpdateManyMeaning(db.ledger, db.batches[b].items, e.move);
    var ids := PayoutsWhere(db.payouts, OfBatch(b));
    forall a | 0 <= a < |ids| ensures ids[a] < |db.payouts| && db.payouts[ids[a]].batch == Some(b) && db.payouts[ids[a]].status.Processing? {
      assert ids[a] in ids;
      assert PayoutSelects(OfBatch(b), db.payouts[ids[a]]);
    }
    ClosePayoutsMeaning(db.payouts, ids, b, e.payout);
    forall i: nat | i < |db.payouts| ensures i in ids <==> db.payouts[i].batch == Some(b) {
      assert i in ids <==> PayoutSelects(OfBatch(b), db.payouts[i]);
    }
  }

  /**
   The items of a batch are exactly the rows with its id. Settling or failing it makes those paid, or
   payable and free of payout and batch, and changes no other row.
   */
  lemma EndRow(db: Db, b: BatchId, e: Ending, i: RowId)
    requires Inv(db) && Ends(db, b, e) && i < |db.ledger|
    ensures |EndLedger(db, b, e)| == |db.ledger|
    ensures db.ledger[i].batch == Some(b) <==> Touches(db.batches[b].items, i)
    ensures db.ledger[i].batch != Some(b) ==> EndLedger(db, b, e)[i] == db.ledger[i]
    ensures db.ledger[i].batch == Some(b) ==>
              EndLedger(db, b, e)[i]
              == if e.move.Settle? then db.ledger[i].(status := LedgerStatus.Paid)
                 else db.ledger[i].(status := LedgerStatus.Payable, payout := None, batch := None)
  {
    EndCounts(db, b, e);
    assert RowLinked(db.payouts, db.batches, i, db.ledger[i]) && RowOk(db.sales, db.ledger[i]);
    var items := db.batches[b].items;
    assert BatchOk(db.sales, db.ledger, db.payouts, db.batches[b], b);
    if Touches(items, i) {
      var n :| 0 <= n < |items| && items[n].row == i;
      assert ItemOk(db.sales, db.ledger, db.payouts, db.batches[b], b, items[n]);
      assert EndLedger(db, b, e)[items[n].row] == Moved(e.move, items[n], db.ledger[items[n].row]);
    }
  }

  /** Links of a row whose batch did not end: only another batch's status and payouts changed. */
  lemma OtherLinks(db: Db, b: BatchId, e: Ending, i: RowId)
    requires Ends(db, b, e) && i < |db.ledger| && RowLinked(db.payouts, db.batches, i, db.ledger[i]) && db.ledger[i].batch != Some(b)
    requires |EndPayouts(db, b, e)| == |db.payouts|
    requires forall id: nat :: id < |db.payouts| ==>
               EndPayouts(db, b, e)[id].batch == db.payouts[id].batch && EndPayouts(db, b, e)[id].member == db.payouts[id].member
    ensures RowLinked(EndPayouts(db, b, e), EndBatches(db, b, e), i, db.ledger[i])
  {}

  lemma OwnLinks(db: Db, b: BatchId, e: Ending, i: RowId, row: Row)
    requires Ends(db, b, e) && i < |db.ledger| && RowLinked(db.payouts, db.batches, i, db.ledger[i])
    requires db.ledger[i].batch == Some(b) && InSettlement(db.ledger[i].status)
    requires row == if e.move.Settle? then db.ledger[i].(status := LedgerStatus.Paid)
                    else db.ledger[i].(status := LedgerStatus.Payable, payout := None, batch := None)
    requires |EndPayouts(db, b, e)| == |db.payouts|
    requires forall id: nat :: id < |db.payouts| ==>
               EndPayouts(db, b, e)[id].batch == db.payouts[id].batch && EndPayouts(db, b, e)[id].member == db.payouts[id].member
    ensures RowLinked(EndPayouts(db, b, e), EndBatches(db, b, e), i, row)
  {}

  lemma EndLinks(db: Db, b: BatchId, e: Ending, i: RowId)
    requires Inv(db) && Ends(db, b, e) && i < |db.ledger|
    ensures |EndLedger(db, b, e)| == |db.ledger|
    ensures RowLinked(EndPayouts(db, b, e), EndBatches(db, b, e), i, EndLedger(db, b, e)[i])
  {
    EndRow(db, b, e, i);
    EndCounts(db, b, e);
    assert RowLinked(db.payouts, db.batches, i, db.ledger[i]) && RowOk(db.sales, db.ledger[i]);
    if db.ledger[i].batch == Some(b) {
      OwnLinks(db, b, e, i, EndLedger(db, b, e)[i]);
    } else {
      OtherLinks(db, b, e, i);
    }
  }

  lemma EndItem(db: Db, b: BatchId, e: Ending, c: BatchId, n: nat)
    requires Inv(db) && Ends(db, b, e) && c < |db.batches| && n < |db.batches[c].items|
    ensures ItemOk(db.sales, EndLedger(db, b, e), EndPayouts(db, b, e), EndBatches(db, b, e)[c], c, db.batches[c].items[n])
  {
    var it := db.batches[c].items[n];
    assert BatchOk(db.sales, db.ledger, db.payouts, db.batches[c], c);
    assert ItemOk(db.sales, db.ledger, db.payouts, db.batches[c], c, it);
    EndRow(db, b, e, it.row);
    EndCounts(db, b, e);
  }

  /** What the ending leaves of a payout, and what its rows then sum to. */
  lemma EndFacts(db: Db, b: BatchId, e: Ending, id: PayoutId)
    requires Inv(db) && Ends(db, b, e) && id < |db.payouts|
    ensures |EndPayouts(db, b, e)| == |db.payouts|
    ensures PayoutSum(EndLedger(db, b, e), id) == PayoutSum(db.ledger, id) + MoveSign(e.move) * ItemSum(db.batches[b].items, id)
    ensures db.payouts[id].batch != Some(b) ==> EndPayouts(db, b, e)[id] == db.payouts[id] && ItemSum(db.batches[b].items, id) == 0
    ensures db.payouts[id].batch == Some(b) ==>
              EndPayouts(db, b, e)[id] == db.payouts[id].(status := e.payout, activeKey := None) && db.payouts[id].status.Processing?
  {
    EndCounts(db, b, e);
    LiveItems(db, b, e);
    MovePayoutSum(db.ledger, db.batches[b].items, e.move, id);
    assert PayoutOk(db.batches, id, db.payouts[id]);
    if db.payouts[id].batch != Some(b) {
      NotItsPayout(db, b, id, |db.batches[b].items|);
      assert db.batches[b].items[..|db.batches[b].items|] == db.batches[b].items;
    }
  }

  lemma EndPayoutOk(db: Db, b: BatchId, e: Ending, id: PayoutId)
    requires Inv(db) && Ends(db, b, e) && id < |db.payouts|
    ensures |EndPayouts(db, b, e)| == |db.payouts|
    ensures PayoutOk(EndBatches(db, b, e), id, EndPayouts(db, b, e)[id])
    ensures Funded(EndLedger(db, b, e), id, EndPayouts(db, b, e)[id])
  {
    EndFacts(db, b, e, id);
    assert PayoutOk(db.batches, id, db.payouts[id]) && Funded(db.ledger, id, db.payouts[id]);
    if db.payouts[id].batch == Some(b) {
      OwnPayoutOk(db, b, e, id);
    } else {
      OtherPayoutOk(db, b, e, id);
    }
  }

  lemma OwnPayoutOk(db: Db, b: BatchId, e: Ending, id: PayoutId)
    requires Ends(db, b, e) && id < |db.payouts| && PayoutOk(db.batches, id, db.payouts[id]) && db.payouts[id].batch == Some(b)
    ensures PayoutOk(EndBatches(db, b, e), id, db.payouts[id].(status := e.payout, activeKey := None))
  {}

  lemma OtherPayoutOk(db: Db, b: BatchId, e: Ending, id: PayoutId)
    requires Ends(db, b, e) && id < |db.payouts| && PayoutOk(db.batches, id, db.payouts[id]) && db.payouts[id].batch != Some(b)
    ensures PayoutOk(EndBatches(db, b, e), id, db.payouts[id])
  {}

  lemma {:induction false} NotItsPayout(db: Db, b: BatchId, id: PayoutId, n: nat)
    requires Inv(db) && b < |db.batches| && id < |db.payouts| && db.payouts[id].batch != Some(b) && n <= |db.batches[b].items|
    ensures ItemSum(db.batches[b].items[..n], id) == 0
  {
    if n > 0 {
      NotItsPayout(db, b, id, n - 1);
      assert BatchOk(db.sales, db.ledger, db.payouts, db.batches[b], b);
      assert ItemOk(db.sales, db.ledger, db.payouts, db.batches[b], b, db.batches[b].items[n - 1]);
      assert db.batches[b].items[..n][..n - 1] == db.batches[b].items[..n - 1];
    }
  }

  lemma EndOneOpen(db: Db, b: BatchId, e: Ending)
    requires Inv(db) && Ends(db, b, e)
    ensures OneOpen(EndPayouts(db, b, e))
  {
    EndCounts(db, b, e);
    var ps := EndPayouts(db, b, e);
    forall i, j | 0 <= i < j < |ps| && Open(ps[i]) && Open(ps[j]) ensures !(ps[i].tenant == ps[j].tenant && ps[i].member == ps[j].member) {
      assert ps[i] == db.payouts[i] && ps[j] == db.payouts[j];
    }
  }

  /** Ending a live batch keeps the invariant, whichever way it ends. */
  lemma EndKeeps(db: Db, b: BatchId, e: Ending)
    requires Inv(db) && Ends(db, b, e)
    ensures Inv(EndDb(db, b, e))
  {
    LiveItems(db, b, e);
    EndCounts(db, b, e);
    var items := db.batches[b].items;
    MoveBalanced(db.sales, db.ledger, db.summaries, db.batches[b].tenant, items, e.move);
    MoveShifts(db.sales, db.ledger, EndLedger(db, b, e), items, e.move);
    ShiftKeepsBooks(db.sales, db.ledger, EndLedger(db, b, e));
    EndSettlement(db, b, e);
  }

  lemma EndSettlement(db: Db, b: BatchId, e: Ending)
    requires Inv(db) && Ends(db, b, e)
    ensures SettlementInv(db.sales, EndLedger(db, b, e), EndPayouts(db, b, e), EndBatches(db, b, e))
  {
    forall i | 0 <= i < |EndLedger(db, b, e)| ensures RowLinked(EndPayouts(db, b, e), EndBatches(db, b, e), i, EndLedger(db, b, e)[i]) {
      EndLinks(db, b, e, i);
    }
    forall c | 0 <= c < |db.batches| ensures BatchOk(db.sales, EndLedger(db, b, e), EndPayouts(db, b, e), EndBatches(db, b, e)[c], c) {
      assert BatchOk(db.sales, db.ledger, db.payouts, db.batches[c], c);
      forall n | 0 <= n < |db.batches[c].items|
        ensures ItemOk(db.sales, EndLedger(db, b, e), EndPayouts(db, b, e), EndBatches(db, b, e)[c], c, db.batches[c].items[n])
      {
        EndItem(db, b, e, c, n);
      }
    }
    forall id | 0 <= id < |db.payouts|
      ensures PayoutOk(EndBatches(db, b, e), id, EndPayouts(db, b, e)[id]) && Funded(EndLedger(db, b, e), id, EndPayouts(db, b, e)[id])
    {
      EndPayoutOk(db, b, e, id);
    }
    EndOneOpen(db, b, e);
  }

  /**
   Settlement of a dispatched batch always goes through: none of its guards on rows and payouts can
   fire, and it commits the ending.
   */
  lemma SettleKeeps(db: Db, tenant: TenantId, b: BatchId)
    requires Inv(db)
    ensures EngineSpec.Settle(db, tenant, b).Committed? ==> Inv(EngineSpec.Settle(db, tenant, b).db)
    ensures Known(db, tenant, b) && db.batches[b].status.Dispatched? ==>
              EngineSpec.Settle(db, tenant, b) ==
              Committed(EndDb(db, b, SettleEnding(b)), BatchResult(true, |PayoutsWhere(db.payouts, OfBatch(b))|))
  {
    if Known(db, tenant, b) && db.batches[b].status.Dispatched? {
      LiveBatchIntact(db, b);
      EndCounts(db, b, SettleEnding(b));
      EndKeeps(db, b, SettleEnding(b));
    }
  }

  /** The same for failing a processing batch. */
  lemma FailKeeps(db: Db, tenant: TenantId, b: BatchId)
    requires Inv(db)
    ensures EngineSpec.Fail(db, tenant, b).Committed? ==> Inv(EngineSpec.Fail(db, tenant, b).db)
    ensures Known(db, tenant, b) && db.batches[b].status.Processing? ==>
              EngineSpec.Fail(db, tenant, b) ==
              Committed(EndDb(db, b, FailEnding(b)), BatchResult(true, |PayoutsWhere(db.payouts, OfBatch(b))|))
  {
    if Known(db, tenant, b) && db.batches[b].status.Processing? {
      LiveBatchIntact(db, b);
      EndCounts(db, b, FailEnding(b));
      EndKeeps(db, b, FailEnding(b));
    }
  }
}
