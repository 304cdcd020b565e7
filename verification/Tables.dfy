/** The rows of the money tables, as the engine reads and writes them. */
module Tables {
  import opened Prelude
  import opened Commission

  type TenantId = nat
  type UserId = nat
  type SaleId = nat
  type RowId = nat
  type PayoutId = nat
  type BatchId = nat

  /** A month label ("YYYY-MM"); only equality matters. */
  type Month = nat

  /** monthKey(date, tenant timezone) as it answers at the moment of a call. */
  type MonthKey = (TenantId, int) -> Month

  datatype SaleStatus = Draft | Approved | Void

  datatype Sale = Sale(
    tenant: TenantId, seller: MemberId, amount: nat, saleDate: int, createdBy: Option<UserId>,
    status: SaleStatus, summaryMonth: Option<Month>, planId: Option<nat>,
    approvedAt: Option<int>, deliveredAt: Option<int>)

  datatype LedgerType = Commission | Reversal | Adjustment

  datatype LedgerStatus = Pending | Payable | Processing | Paid | Reversed

  datatype Row = Row(
    tenant: TenantId, sale: Option<SaleId>, member: MemberId, level: nat, rateBps: Bps, amount: int,
    kind: LedgerType, status: LedgerStatus, summaryMonth: Option<Month>, maturesAt: Option<int>,
    payout: Option<PayoutId>, batch: Option<BatchId>)

  /** Unique key of monthly_summaries. */
  datatype Key = Key(tenant: TenantId, member: MemberId, month: Month, level: nat)

  datatype Cell = Cell(pending: int, payable: int, processing: int, paid: int)

  datatype PayoutStatus = Requested | Processing | Paid | Rejected | Failed

  datatype ActiveKey = ActiveKey(tenant: TenantId, member: MemberId, period: Month)

  datatype Payout = Payout(
    tenant: TenantId, member: MemberId, batch: Option<BatchId>, total: int, status: PayoutStatus,
    period: Month, activeKey: Option<ActiveKey>)

  datatype BatchStatus = Processing | Dispatched | Settled | Failed

  /** Immutable snapshot of one reserved ledger row. */
  datatype Item = Item(payout: PayoutId, row: RowId, member: MemberId, month: Month, level: nat, amount: int)

  datatype Batch = Batch(tenant: TenantId, period: Month, status: BatchStatus, items: seq<Item>)

  /** Row ids are positions: ledger rows, payouts and batches are never deleted. */
  datatype Db = Db(
    sales: map<SaleId, Sale>, ledger: seq<Row>, summaries: map<Key, Cell>,
    payouts: seq<Payout>, batches: seq<Batch>, locks: set<(TenantId, Month)>)

  const EMPTY_DB: Db := Db(map[], [], map[], [], [], {})
}
