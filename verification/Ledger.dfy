/**
 The ledger and its incremental index monthly_summaries: cells, bumps, and the plain sum that the
 index has to equal.
 */
module Ledger {
  import opened Prelude
  import opened Commission
  import opened Tables

  const ZERO: Cell := Cell(0, 0, 0, 0)

  function Plus(a: Cell, b: Cell): Cell {
    Cell(a.pending + b.pending, a.payable + b.payable, a.processing + b.processing, a.paid + b.paid)
  }

  /** The amount of one column; a reversed row is in no column. */
  function Col(c: Cell, status: LedgerStatus): int {
    match status
    case Pending => c.pending
    case Payable => c.payable
    case Processing => c.processing
    case Paid => c.paid
    case Reversed => 0
  }

  function StatusCell(status: LedgerStatus, amount: int): Cell {
    match status
    case Pending => Cell(amount, 0, 0, 0)
    case Payable => Cell(0, amount, 0, 0)
    case Processing => Cell(0, 0, amount, 0)
    case Paid => Cell(0, 0, 0, amount)
    case Reversed => ZERO
  }

  function At(summaries: map<Key, Cell>, k: Key): Cell {
    if k in summaries then summaries[k] else ZERO
  }

  /** The upsert: insert the delta, or add it to the existing columns. */
  function Bump(summaries: map<Key, Cell>, k: Key, delta: Cell): map<Key, Cell> {
    summaries[k := Plus(At(summaries, k), delta)]
  }

  lemma BumpAt(summaries: map<Key, Cell>, k: Key, delta: Cell, other: Key, st: LedgerStatus)
    ensures Col(At(Bump(summaries, k, delta), other), st)
            == Col(At(summaries, other), st) + if other == k then Col(delta, st) else 0
  {}

  // ------------------------------------------------------------------ months and keys

  /** COALESCE(row.summary_month, sale.summary_month, month of the sale date). */
  function MonthOf(sales: map<SaleId, Sale>, r: Row, monthKey: MonthKey): Month {
    if r.summaryMonth.Some? then r.summaryMonth.value
    else if r.sale.Some? && r.sale.value in sales then
      var s := sales[r.sale.value];
      if s.summaryMonth.Some? then s.summaryMonth.value else monthKey(s.tenant, s.saleDate)
    else 0
  }

  /** The frozen month of a row, which no later call of monthKey can move. */
  function BookedMonth(sales: map<SaleId, Sale>, r: Row): Month {
    if r.summaryMonth.Some? then r.summaryMonth.value
    else if r.sale.Some? && r.sale.value in sales && sales[r.sale.value].summaryMonth.Some?
    then sales[r.sale.value].summaryMonth.value
    else 0
  }

  function KeyOf(sales: map<SaleId, Sale>, r: Row): Key {
    Key(r.tenant, r.member, BookedMonth(sales, r), r.level)
  }

  /** What one row adds to one column of one bucket. */
  function RowAmount(sales: map<SaleId, Sale>, r: Row, k: Key, st: LedgerStatus): int {
    if r.status == st && st != LedgerStatus.Reversed && KeyOf(sales, r) == k then r.amount else 0
  }

  /** The plain sum over the ledger for one column of one bucket. */
  function LedgerSum(sales: map<SaleId, Sale>, ledger: seq<Row>, k: Key, st: LedgerStatus): int {
    if ledger == [] then 0
    else LedgerSum(sales, ledger[..|ledger| - 1], k, st) + RowAmount(sales, ledger[|ledger| - 1], k, st)
  }

  /** The index equals the sum, bucket by bucket and status by status. */
  ghost predicate Balanced(sales: map<SaleId, Sale>, ledger: seq<Row>, summaries: map<Key, Cell>) {
    forall k, st :: Col(At(summaries, k), st) == LedgerSum(sales, ledger, k, st)
  }

  lemma SumAppend(sales: map<SaleId, Sale>, ledger: seq<Row>, r: Row, k: Key, st: LedgerStatus)
    ensures LedgerSum(sales, ledger + [r], k, st) == LedgerSum(sales, ledger, k, st) + RowAmount(sales, r, k, st)
  {
    assert (ledger + [r])[..|ledger|] == ledger;
  }

  lemma {:induction false} SumUpdate(sales: map<SaleId, Sale>, ledger: seq<Row>, i: nat, r: Row, k: Key, st: LedgerStatus)
    requires i < |ledger|
    ensures LedgerSum(sales, ledger[i := r], k, st) ==
            LedgerSum(sales, ledger, k, st) - RowAmount(sales, ledger[i], k, st) + RowAmount(sales, r, k, st)
  {
    var n := |ledger| - 1;
    if i < n {
      SumUpdate(sales, ledger[..n], i, r, k, st);
      assert ledger[i := r][..n] == ledger[..n][i := r];
    } else {
      assert ledger[i := r][..n] == ledger[..n];
    }
  }

  lemma {:induction false} SumFrame(sales: map<SaleId, Sale>, sales': map<SaleId, Sale>, ledger: seq<Row>, k: Key, st: LedgerStatus)
    requires forall i :: 0 <= i < |ledger| ==> KeyOf(sales, ledger[i]) == KeyOf(sales', ledger[i])
    ensures LedgerSum(sales, ledger, k, st) == LedgerSum(sales', ledger, k, st)
  {
    if ledger != [] {
      SumFrame(sales, sales', ledger[..|ledger| - 1], k, st);
    }
  }

  /** Changing sales without moving any row to another month keeps the index right. */
  lemma BalancedFrame(sales: map<SaleId, Sale>, sales': map<SaleId, Sale>, ledger: seq<Row>, summaries: map<Key, Cell>)
    requires Balanced(sales, ledger, summaries)
    requires forall i :: 0 <= i < |ledger| ==> KeyOf(sales, ledger[i]) == KeyOf(sales', ledger[i])
    ensures Balanced(sales', ledger, summaries)
  {
    forall k, st ensures Col(At(summaries, k), st) == LedgerSum(sales', ledger, k, st) {
      SumFrame(sales, sales', ledger, k, st);
    }
  }

  lemma InsertAt(sales: map<SaleId, Sale>, ledger: seq<Row>, summaries: map<Key, Cell>, r: Row, key: Key, delta: Cell,
                 k: Key, st: LedgerStatus)
    requires Col(At(summaries, k), st) == LedgerSum(sales, ledger, k, st)
    requires key == KeyOf(sales, r) && delta == StatusCell(r.status, r.amount)
    ensures Col(At(Bump(summaries, key, delta), k), st) == LedgerSum(sales, ledger + [r], k, st)
  {
    SumAppend(sales, ledger, r, k, st);
    BumpAt(summaries, key, delta, k, st);
  }

  /** Inserting a row with a bump of its amount keeps the index right. */
  lemma BalancedInsert(sales: map<SaleId, Sale>, ledger: seq<Row>, summaries: map<Key, Cell>, r: Row, key: Key, delta: Cell)
    requires Balanced(sales, ledger, summaries)
    requires key == KeyOf(sales, r) && delta == StatusCell(r.status, r.amount)
    ensures Balanced(sales, ledger + [r], Bump(summaries, key, delta))
  {
    forall k, st ensures Col(At(Bump(summaries, key, delta), k), st) == LedgerSum(sales, ledger + [r], k, st) {
      InsertAt(sales, ledger, summaries, r, key, delta, k, st);
    }
  }

  /** A delta that moves an amount from one row's column to another's. */
  ghost predicate MovesTo(delta: Cell, was: Row, now: Row) {
    forall st :: Col(delta, st) == Col(StatusCell(now.status, now.amount), st) - Col(StatusCell(was.status, was.amount), st)
  }

  lemma UpdateAt(sales: map<SaleId, Sale>, ledger: seq<Row>, summaries: map<Key, Cell>, i: nat, r: Row, key: Key, delta: Cell,
                 k: Key, st: LedgerStatus)
    requires i < |ledger| && Col(At(summaries, k), st) == LedgerSum(sales, ledger, k, st)
    requires key == KeyOf(sales, r) == KeyOf(sales, ledger[i]) && MovesTo(delta, ledger[i], r)
    ensures Col(At(Bump(summaries, key, delta), k), st) == LedgerSum(sales, ledger[i := r], k, st)
  {
    SumUpdate(sales, ledger, i, r, k, st);
    BumpAt(summaries, key, delta, k, st);
  }

  /** Changing a row in its bucket with a bump of the difference keeps the index right. */
  lemma BalancedUpdate(sales: map<SaleId, Sale>, ledger: seq<Row>, summaries: map<Key, Cell>, i: nat, r: Row, key: Key, delta: Cell)
    requires Balanced(sales, ledger, summaries) && i < |ledger|
    requires key == KeyOf(sales, r) == KeyOf(sales, ledger[i]) && MovesTo(delta, ledger[i], r)
    ensures Balanced(sales, ledger[i := r], Bump(summaries, key, delta))
  {
    forall k, st ensures Col(At(Bump(summaries, key, delta), k), st) == LedgerSum(sales, ledger[i := r], k, st) {
      UpdateAt(sales, ledger, summaries, i, r, key, delta, k, st);
    }
  }

  // ------------------------------------------------------------------ queries

  /** The WHERE clauses of the engine's ledger queries. */
  datatype Filter =
    | CommissionsOf(sale: SaleId)
    | VoidableOf(sale: SaleId)
    | AwaitingDelivery(sale: SaleId)
    | Due(now: int, lockedRows: set<RowId>)
    | PayableOf(tenant: TenantId, member: MemberId)
    | PayableIn(tenant: TenantId)

  predicate Selects(f: Filter, i: RowId, r: Row) {
    match f
    case CommissionsOf(s) => r.sale == Some(s) && r.kind == Commission
    case VoidableOf(s) => r.sale == Some(s) && r.kind == Commission && r.status != LedgerStatus.Reversed
    case AwaitingDelivery(s) =>
      r.sale == Some(s) && r.kind == Commission && r.status == LedgerStatus.Pending && r.maturesAt.None?
    case Due(now, lockedRows) =>
      r.kind == Commission && r.status == LedgerStatus.Pending && r.maturesAt.Some? && r.maturesAt.value <= now
      && i !in lockedRows
    case PayableOf(t, m) => r.tenant == t && r.member == m && r.status == LedgerStatus.Payable
    case PayableIn(t) => r.tenant == t && r.status == LedgerStatus.Payable
  }

  /** SELECT id ... WHERE, oldest row first. */
  function RowsWhere(ledger: seq<Row>, f: Filter): (ids: seq<RowId>)
    ensures forall i: nat :: i in ids <==> i < |ledger| && Selects(f, i, ledger[i])
    ensures forall a: nat, b: nat :: a < b < |ids| ==> ids[a] < ids[b]
    ensures forall a :: 0 <= a < |ids| ==> ids[a] < |ledger| && Selects(f, ids[a], ledger[ids[a]])
  {
    if ledger == [] then []
    else
      var n := |ledger| - 1;
      var front := RowsWhere(ledger[..n], f);
      assert forall i: nat :: i < n ==> ledger[..n][i] == ledger[i];
      assert forall a: nat :: a < |front| ==> front[a] in front;
      if Selects(f, n, ledger[n]) then front + [n] else front
  }

  function SumRows(ledger: seq<Row>, ids: seq<RowId>): int
    requires forall a :: 0 <= a < |ids| ==> ids[a] < |ledger|
  {
    if ids == [] then 0 else SumRows(ledger, ids[..|ids| - 1]) + ledger[ids[|ids| - 1]].amount
  }

  /** Payable, processing and paid amounts of a member: the rank service's earnings. */
  function Earnings(ledger: seq<Row>, tenant: TenantId, member: MemberId): int {
    if ledger == [] then 0
    else
      var r := ledger[|ledger| - 1];
      Earnings(ledger[..|ledger| - 1], tenant, member)
      + (if r.tenant == tenant && r.member == member && (r.status.Payable? || r.status.Processing? || r.status.Paid?)
         then r.amount else 0)
  }

  // ------------------------------------------------------------------ batch moves

  /** The three moves that settlement makes on the rows of a batch. */
  datatype Move = Claim(batch: BatchId) | Settle(batch: BatchId) | Release(batch: BatchId)

  /** The WHERE clause of the move's updateMany, besides the row id. */
  predicate Movable(m: Move, r: Row) {
    match m
    case Claim(_) => r.status == LedgerStatus.Payable && r.payout.None? && r.batch.None?
    case Settle(b) => r.status == LedgerStatus.Processing && r.batch == Some(b)
    case Release(b) => r.status == LedgerStatus.Processing && r.batch == Some(b)
  }

  function Moved(m: Move, it: Item, r: Row): Row {
    match m
    case Claim(b) => r.(status := LedgerStatus.Processing, payout := Some(it.payout), batch := Some(b))
    case Settle(_) => r.(status := LedgerStatus.Paid)
    case Release(_) => r.(status := LedgerStatus.Payable, payout := None, batch := None)
  }

  function MoveDelta(m: Move, amount: int): Cell {
    match m
    case Claim(_) => Cell(0, -amount, amount, 0)
    case Settle(_) => Cell(0, 0, -amount, amount)
    case Release(_) => Cell(0, amount, -amount, 0)
  }

  /** updateMany over the rows of `items`: the new ledger and the number of rows it touched. */
  function UpdateMany(ledger: seq<Row>, items: seq<Item>, m: Move): (out: (seq<Row>, nat))
    ensures |out.0| == |ledger|
  {
    if items == [] then (ledger, 0)
    else
      var before := UpdateMany(ledger, items[..|items| - 1], m);
      var it := items[|items| - 1];
      if it.row < |ledger| && Movable(m, before.0[it.row])
      then (before.0[it.row := Moved(m, it, before.0[it.row])], before.1 + 1)
      else before
  }

  function ItemKey(tenant: TenantId, it: Item): Key {
    Key(tenant, it.member, it.month, it.level)
  }

  /** One bump for every item. */
  function BumpItems(summaries: map<Key, Cell>, tenant: TenantId, items: seq<Item>, m: Move): map<Key, Cell> {
    if items == [] then summaries
    else
      var it := items[|items| - 1];
      Bump(BumpItems(summaries, tenant, items[..|items| - 1], m), ItemKey(tenant, it), MoveDelta(m, it.amount))
  }

  /** Amount of the items in one bucket. */
  function GroupTotal(tenant: TenantId, items: seq<Item>, k: Key): int {
    if items == [] then 0
    else GroupTotal(tenant, items[..|items| - 1], k)
         + (if ItemKey(tenant, items[|items| - 1]) == k then items[|items| - 1].amount else 0)
  }

  function GroupKeys(tenant: TenantId, items: seq<Item>): set<Key> {
    if items == [] then {}
    else GroupKeys(tenant, items[..|items| - 1]) + {ItemKey(tenant, items[|items| - 1])}
  }

  /** Bumping item by item adds each bucket's total once. */
  lemma {:induction false} BumpItemsAt(summaries: map<Key, Cell>, tenant: TenantId, items: seq<Item>, m: Move, k: Key, st: LedgerStatus)
    ensures Col(At(BumpItems(summaries, tenant, items, m), k), st)
            == Col(At(summaries, k), st) + Col(MoveDelta(m, GroupTotal(tenant, items, k)), st)
  {
    if items != [] {
      var front, it := items[..|items| - 1], items[|items| - 1];
      BumpItemsAt(summaries, tenant, front, m, k, st);
      BumpAt(BumpItems(summaries, tenant, front, m), ItemKey(tenant, it), MoveDelta(m, it.amount), k, st);
    }
  }

  lemma {:induction false} BumpItemsKeys(summaries: map<Key, Cell>, tenant: TenantId, items: seq<Item>, m: Move)
    ensures BumpItems(summaries, tenant, items, m).Keys == summaries.Keys + GroupKeys(tenant, items)
  {
    if items != [] {
      BumpItemsKeys(summaries, tenant, items[..|items| - 1], m);
    }
  }

  lemma {:induction false} NoGroup(tenant: TenantId, items: seq<Item>, k: Key)
    requires k !in GroupKeys(tenant, items)
    ensures GroupTotal(tenant, items, k) == 0
  {
    if items != [] {
      NoGroup(tenant, items[..|items| - 1], k);
    }
  }

  /** Amounts collected per bucket, in one pass over the items. */
  method CollectGroups(tenant: TenantId, items: seq<Item>) returns (groups: map<Key, int>)
    ensures groups.Keys == GroupKeys(tenant, items)
    ensures forall k :: k in groups ==> groups[k] == GroupTotal(tenant, items, k)
  {
    groups := map[];
    for i := 0 to |items|
      invariant groups.Keys == GroupKeys(tenant, items[..i])
      invariant forall k :: k in groups ==> groups[k] == GroupTotal(tenant, items[..i], k)
    {
      assert items[..i + 1][..i] == items[..i];
      var key := ItemKey(tenant, items[i]);
      if key !in groups {
        NoGroup(tenant, items[..i], key);
      }
      groups := groups[key := (if key in groups then groups[key] else 0) + items[i].amount];
    }
    assert items[..|items|] == items;
  }

  /** The buckets in `left` are still untouched; the other groups have had their one bump. */
  ghost predicate PartlyGrouped(summaries: map<Key, Cell>, groups: map<Key, int>, left: set<Key>, m: Move, out: map<Key, Cell>) {
    && out.Keys == summaries.Keys + (groups.Keys - left)
    && (forall k :: k in groups && k !in left ==> At(out, k) == Plus(At(summaries, k), MoveDelta(m, groups[k])))
    && (forall k :: k !in groups || k in left ==> At(out, k) == At(summaries, k))
  }

  lemma GroupStep(summaries: map<Key, Cell>, groups: map<Key, int>, left: set<Key>, m: Move, out: map<Key, Cell>, k: Key)
    requires PartlyGrouped(summaries, groups, left, m, out) && k in left && left <= groups.Keys
    ensures PartlyGrouped(summaries, groups, left - {k}, m, Bump(out, k, MoveDelta(m, groups[k])))
  {
    var next := Bump(out, k, MoveDelta(m, groups[k]));
    assert forall other :: other != k ==> At(next, other) == At(out, other);
    assert At(next, k) == Plus(At(summaries, k), MoveDelta(m, groups[k]));
  }

  /**
   The engine's grouped form: amounts are collected per bucket first, then every bucket is bumped
   once. It ends in the same index as one bump an item.
   */
  method MoveBatchSummary(summaries: map<Key, Cell>, tenant: TenantId, items: seq<Item>, m: Move)
    returns (out: map<Key, Cell>)
    ensures out == BumpItems(summaries, tenant, items, m)
  {
    var groups := CollectGroups(tenant, items);
    out := summaries;
    var keys := groups.Keys;
    while keys != {}
      invariant keys <= groups.Keys
      invariant PartlyGrouped(summaries, groups, keys, m, out)
      decreases |keys|
    {
      var k :| k in keys;
      GroupStep(summaries, groups, keys, m, out, k);
      out := Bump(out, k, MoveDelta(m, groups[k]));
      keys := keys - {k};
    }
    GroupsDone(summaries, groups, tenant, items, m, out);
  }

  lemma GroupsDone(summaries: map<Key, Cell>, groups: map<Key, int>, tenant: TenantId, items: seq<Item>, m: Move, out: map<Key, Cell>)
    requires groups.Keys == GroupKeys(tenant, items)
    requires forall k :: k in groups ==> groups[k] == GroupTotal(tenant, items, k)
    requires PartlyGrouped(summaries, groups, {}, m, out)
    ensures out == BumpItems(summaries, tenant, items, m)
  {
    var one := BumpItems(summaries, tenant, items, m);
    BumpItemsKeys(summaries, tenant, items, m);
    assert out.Keys == one.Keys;
    forall k | k in out.Keys ensures out[k] == one[k] {
      GroupedAt(summaries, tenant, items, m, k);
      assert At(out, k) == At(one, k);
    }
  }

  lemma GroupedAt(summaries: map<Key, Cell>, tenant: TenantId, items: seq<Item>, m: Move, k: Key)
    ensures At(BumpItems(summaries, tenant, items, m), k) ==
            if k in GroupKeys(tenant, items) then Plus(At(summaries, k), MoveDelta(m, GroupTotal(tenant, items, k)))
            else At(summaries, k)
  {
    if k !in GroupKeys(tenant, items) {
      NoGroup(tenant, items, k);
    }
    BumpItemsAt(summaries, tenant, items, m, k, LedgerStatus.Pending);
    BumpItemsAt(summaries, tenant, items, m, k, LedgerStatus.Payable);
    BumpItemsAt(summaries, tenant, items, m, k, LedgerStatus.Processing);
    BumpItemsAt(summaries, tenant, items, m, k, LedgerStatus.Paid);
  }
}
