/**
 Every money transaction of the engine as one function on the tables: what it commits, what it
 answers, and when it aborts and leaves the tables alone.
 */
module EngineSpec {
  import opened Prelude
  import opened Commission
  import opened Tables
  import opened Ledger

  datatype Error =
    | NotFound | VoidedSale | SelfApproval | LinkedPayoutProcessing | NotApproved | BadLimit
    | NoEffectivePlan | PeriodLocked | CeilingExceeded | NoTargets | TooManyTargets | NoOpenRequest
    | Blocked | PayoutNotReady | UniqueIndex | RowsChanged | NotIntact | NoPayouts | ComplianceChanged
    | WrongBatchState | PayoutsChanged | NotRequested | NotDraft

  datatype Outcome<+T> = Committed(db: Db, value: T) | Aborted(error: Error)

  // ------------------------------------------------------------------ sales

  function CreateDraft(db: Db, id: SaleId, tenant: TenantId, seller: MemberId, amount: nat, saleDate: int,
                       createdBy: Option<UserId>): Outcome<()> {
    if id in db.sales then Aborted(UniqueIndex)
    else Committed(db.(sales := db.sales[id := Sale(tenant, seller, amount, saleDate, createdBy, Draft, None, None, None, None)]), ())
  }

  function DeleteDraft(db: Db, tenant: TenantId, id: SaleId): Outcome<()> {
    if id !in db.sales || db.sales[id].tenant != tenant then Aborted(NotFound)
    else if db.sales[id].status != Draft then Aborted(NotDraft)
    else Committed(db.(sales := db.sales - {id}), ())
  }

  // ------------------------------------------------------------------ apply

  datatype ApplyInputs = ApplyInputs(
    now: int, plan: Option<StoredPlan>, chain: Option<seq<Upline>>, policy: TenantPolicy,
    sellerJoinedAt: Option<int>, tiers: seq<Tier>, team: Option<nat>, monthKey: MonthKey)

  datatype ApplyResult = ApplyResult(applied: bool, entryCount: nat)

  /** Initial status and maturity date of a sale's rows. */
  function Maturation(t: TenantPolicy, sale: Sale, now: int): (LedgerStatus, Option<int>) {
    match t.maturationRule
    case OnApproval => (LedgerStatus.Payable, None)
    case OnDelivery => (LedgerStatus.Pending, sale.deliveredAt)
    case DaysAfterApproval =>
      (LedgerStatus.Pending,
       Some((if sale.approvedAt.Some? then sale.approvedAt.value else now) + t.maturationDays * DAY_MS))
    case DaysAfterDelivery =>
      (LedgerStatus.Pending,
       if sale.deliveredAt.Some? then Some(sale.deliveredAt.value + t.maturationDays * DAY_MS) else None)
  }

  datatype Books = Books(ledger: seq<Row>, summaries: map<Key, Cell>)

  /** Insert a row and bump its bucket by its amount. */
  function Post(b: Books, month: Month, r: Row): Books {
    Books(b.ledger + [r], Bump(b.summaries, Key(r.tenant, r.member, month, r.level), StatusCell(r.status, r.amount)))
  }

  function CommissionRow(tenant: TenantId, sale: SaleId, line: Line, start: (LedgerStatus, Option<int>)): Row {
    Row(tenant, Some(sale), line.member, line.level, line.rateBps, line.amount, Commission, start.0, None, start.1, None, None)
  }

  function PostLines(b: Books, month: Month, tenant: TenantId, sale: SaleId, lines: seq<Line>,
                     start: (LedgerStatus, Option<int>)): Books {
    if lines == [] then b
    else Post(PostLines(b, month, tenant, sale, lines[..|lines| - 1], start), month,
              CommissionRow(tenant, sale, lines[|lines| - 1], start))
  }

  function SaleMonth(sale: Sale, monthKey: MonthKey): Month {
    if sale.summaryMonth.Some? then sale.summaryMonth.value else monthKey(sale.tenant, sale.saleDate)
  }

  /** Base lines and sponsor bonuses of a sale. */
  function EarnedLines(sale: Sale, plan: StoredPlan, chain: seq<Upline>, q: ApplyInputs): seq<Line> {
    var base := CommissionLines(sale.amount, plan.levels, EffectiveBaseChain(chain, q.policy));
    base + BonusLines(sale.amount, plan, chain, q.policy, sale.saleDate, q.sellerJoinedAt, base)
  }

  /** The seller's rank override, with the rank read after the other rows are written. */
  function RankLines(sale: Sale, ledger: seq<Row>, q: ApplyInputs): seq<Line> {
    OverrideLines(sale.amount, OverrideBpsFor(q.tiers, q.team, Earnings(ledger, sale.tenant, sale.seller)), sale.seller)
  }

  /** The books with the base lines and the sponsor bonuses of a sale. */
  function EarnedBooks(db: Db, id: SaleId, q: ApplyInputs): Books
    requires id in db.sales && q.plan.Some? && q.chain.Some?
  {
    var sale := db.sales[id];
    PostLines(Books(db.ledger, db.summaries), SaleMonth(sale, q.monthKey), sale.tenant, id,
              EarnedLines(sale, q.plan.value, q.chain.value, q), Maturation(q.policy, sale, q.now))
  }

  /** ... and with the override, at the rank that the seller has with those rows. */
  function AllBooks(db: Db, id: SaleId, q: ApplyInputs): Books
    requires id in db.sales && q.plan.Some? && q.chain.Some?
  {
    var sale := db.sales[id];
    var earned := EarnedBooks(db, id, q);
    PostLines(earned, SaleMonth(sale, q.monthKey), sale.tenant, id, RankLines(sale, earned.ledger, q), Maturation(q.policy, sale, q.now))
  }

  /** All lines that an application writes. */
  function AllLines(db: Db, id: SaleId, q: ApplyInputs): seq<Line>
    requires id in db.sales && q.plan.Some? && q.chain.Some?
  {
    EarnedLines(db.sales[id], q.plan.value, q.chain.value, q) + RankLines(db.sales[id], EarnedBooks(db, id, q).ledger, q)
  }

  /** The sale with its plan and month fixed, unless they already are. */
  function Pinned(sale: Sale, q: ApplyInputs): Sale
    requires q.plan.Some?
  {
    sale.(planId := if sale.planId.Some? then sale.planId else Some(q.plan.value.id), summaryMonth := Some(SaleMonth(sale, q.monthKey)))
  }

  /** Commissions that an application leaves alone: those of an approved sale, none of another. */
  function Present(db: Db, id: SaleId): nat
    requires id in db.sales
  {
    if db.sales[id].status == Approved then |RowsWhere(db.ledger, CommissionsOf(id))| else 0
  }

  function ApplyInTx(db: Db, id: SaleId, q: ApplyInputs): (o: Outcome<ApplyResult>)
    requires id in db.sales
    ensures o == Aborted(CeilingExceeded) ==>
              q.plan.Some? && q.chain.Some?
              && Distributed(AllLines(db, id, q)) > CeilingCents(db.sales[id].amount, q.plan.value, q.tiers)
    ensures o.Aborted? ==> o.error in {NoEffectivePlan, NotFound, PeriodLocked, CeilingExceeded}
    ensures o.Committed? ==> o.db.locks == db.locks
    ensures o.Committed? && !o.value.applied ==>
              && o == Committed(db, ApplyResult(false, Present(db, id)))
              && (db.sales[id].status == Approved ==> Present(db, id) > 0)
  {
    var sale := db.sales[id];
    var existing := RowsWhere(db.ledger, CommissionsOf(id));
    if sale.status != Approved then Committed(db, ApplyResult(false, 0))
    else if existing != [] then Committed(db, ApplyResult(false, |existing|))
    else if q.plan.None? then Aborted(NoEffectivePlan)
    else if q.chain.None? then Aborted(NotFound)
    else if (sale.tenant, SaleMonth(sale, q.monthKey)) in db.locks then Aborted(PeriodLocked)
    else
      var lines := AllLines(db, id, q);
      if Distributed(lines) > CeilingCents(sale.amount, q.plan.value, q.tiers) then Aborted(CeilingExceeded)
      else
        var b := AllBooks(db, id, q);
        Committed(db.(sales := db.sales[id := Pinned(sale, q)], ledger := b.ledger, summaries := b.summaries),
                  ApplyResult(true, |lines|))
  }

  function Apply(db: Db, id: SaleId, q: ApplyInputs): Outcome<ApplyResult> {
    if id !in db.sales then Aborted(NotFound) else ApplyInTx(db, id, q)
  }

  function Approve(db: Db, id: SaleId, actor: Option<UserId>, expectedTenant: Option<TenantId>, q: ApplyInputs)
    : Outcome<ApplyResult>
  {
    if id !in db.sales || (expectedTenant.Some? && db.sales[id].tenant != expectedTenant.value) then Aborted(NotFound)
    else
      var sale := db.sales[id];
      if sale.status == Void then Aborted(VoidedSale)
      else if sale.status == Draft then
        if actor.Some? && actor == sale.createdBy && q.policy.requireSeparateApprover then Aborted(SelfApproval)
        else ApplyInTx(db.(sales := db.sales[id := sale.(status := Approved, approvedAt := Some(q.now))]), id, q)
      else ApplyInTx(db, id, q)
  }

  // ------------------------------------------------------------------ void

  datatype VoidResult = VoidResult(voided: bool, reversalCount: nat)

  /** The equal-and-opposite row: a paid original leaves a payable clawback. */
  function ReversalOf(r: Row): Row {
    Row(r.tenant, r.sale, r.member, r.level, r.rateBps, -r.amount, Reversal,
        if r.status.Paid? then LedgerStatus.Payable else LedgerStatus.Reversed, None, None, None, None)
  }

  function Closed(r: Row): Row {
    if r.status.Paid? then r else r.(status := LedgerStatus.Reversed)
  }

  function VoidDelta(r: Row): Cell {
    if r.status.Pending? then Cell(-r.amount, 0, 0, 0) else Cell(0, -r.amount, 0, 0)
  }

  function VoidRow(b: Books, month: Month, e: RowId): Books
    requires e < |b.ledger|
  {
    var r := b.ledger[e];
    Books((b.ledger + [ReversalOf(r)])[e := Closed(r)],
          Bump(b.summaries, Key(r.tenant, r.member, month, r.level), VoidDelta(r)))
  }

  function VoidRows(b: Books, month: Month, entries: seq<RowId>): (out: Books)
    requires forall a :: 0 <= a < |entries| ==> entries[a] < |b.ledger|
    ensures |out.ledger| == |b.ledger| + |entries|
  {
    if entries == [] then b
    else VoidRow(VoidRows(b, month, entries[..|entries| - 1]), month, entries[|entries| - 1])
  }

  function VoidSale(db: Db, id: SaleId, expectedTenant: Option<TenantId>, monthKey: MonthKey): Outcome<VoidResult> {
    if id !in db.sales || (expectedTenant.Some? && db.sales[id].tenant != expectedTenant.value) then Aborted(NotFound)
    else
      var sale := db.sales[id];
      var entries := RowsWhere(db.ledger, VoidableOf(id));
      if sale.status == Void then Committed(db, VoidResult(false, 0))
      else if exists a :: 0 <= a < |entries| && db.ledger[entries[a]].status.Processing? then
        Aborted(LinkedPayoutProcessing)
      else
        var b := VoidRows(Books(db.ledger, db.summaries), SaleMonth(sale, monthKey), entries);
        Committed(db.(sales := db.sales[id := sale.(status := Void)], ledger := b.ledger, summaries := b.summaries),
                  VoidResult(true, |entries|))
  }

  // ------------------------------------------------------------------ delivery and maturation

  function SetMaturity(ledger: seq<Row>, ids: seq<RowId>, at: int): (out: seq<Row>)
    requires forall a :: 0 <= a < |ids| ==> ids[a] < |ledger|
    ensures |out| == |ledger|
  {
    if ids == [] then ledger
    else
      var before := SetMaturity(ledger, ids[..|ids| - 1], at);
      var i := ids[|ids| - 1];
      before[i := before[i].(maturesAt := Some(at))]
  }

  function MarkDelivered(db: Db, id: SaleId, at: int, policy: TenantPolicy): Outcome<bool> {
    if id !in db.sales then Aborted(NotFound)
    else
      var sale := db.sales[id];
      if sale.status != Approved then Aborted(NotApproved)
      else if sale.deliveredAt.Some? then Committed(db, false)
      else
        var matures := if policy.maturationRule.DaysAfterDelivery? then at + policy.maturationDays * DAY_MS else at;
        Committed(db.(sales := db.sales[id := sale.(deliveredAt := Some(at))],
                      ledger := SetMaturity(db.ledger, RowsWhere(db.ledger, AwaitingDelivery(id)), matures)), true)
  }

  datatype MatureResult = MatureResult(matured: nat, hasMore: bool)

  function MatureRow(b: Books, month: Month, i: RowId): Books
    requires i < |b.ledger|
  {
    var r := b.ledger[i];
    Books(b.ledger[i := r.(status := LedgerStatus.Payable)],
          Bump(b.summaries, Key(r.tenant, r.member, month, r.level), Cell(-r.amount, r.amount, 0, 0)))
  }

  function MatureRows(b: Books, sales: map<SaleId, Sale>, monthKey: MonthKey, ids: seq<RowId>): (out: Books)
    requires forall a :: 0 <= a < |ids| ==> ids[a] < |b.ledger|
    ensures |out.ledger| == |b.ledger|
  {
    if ids == [] then b
    else
      var before := MatureRows(b, sales, monthKey, ids[..|ids| - 1]);
      var i := ids[|ids| - 1];
      MatureRow(before, MonthOf(sales, before.ledger[i], monthKey), i)
  }

  /** The due rows that the job takes: not locked by another transaction, oldest first, at most `limit`. */
  function MatureBatch(db: Db, now: int, limit: int, lockedRows: set<RowId>): (ids: seq<RowId>)
    requires limit > 0
    ensures forall a :: 0 <= a < |ids| ==> ids[a] < |db.ledger|
  {
    var due := RowsWhere(db.ledger, Due(now, lockedRows));
    if |due| > limit then due[..limit] else due
  }

  function Mature(db: Db, now: int, limit: int, lockedRows: set<RowId>, monthKey: MonthKey): Outcome<MatureResult> {
    if limit <= 0 then Aborted(BadLimit)
    else
      var ids := MatureBatch(db, now, limit, lockedRows);
      var b := MatureRows(Books(db.ledger, db.summaries), db.sales, monthKey, ids);
      Committed(db.(ledger := b.ledger, summaries := b.summaries),
                MatureResult(|ids|, |RowsWhere(db.ledger, Due(now, lockedRows))| > limit))
  }

  // ------------------------------------------------------------------ bonus and period locks

  function AwardBonus(db: Db, tenant: TenantId, member: MemberId, amount: int, month: Month): Outcome<RowId> {
    if (tenant, month) in db.locks then Aborted(PeriodLocked)
    else
      var r := Row(tenant, None, member, 0, 0, amount, Adjustment, LedgerStatus.Payable, Some(month), None, None, None);
      var b := Post(Books(db.ledger, db.summaries), month, r);
      Committed(db.(ledger := b.ledger, summaries := b.summaries), |db.ledger|)
  }

  function LockPeriod(db: Db, tenant: TenantId, period: Month): Outcome<()> {
    Committed(db.(locks := db.locks + {(tenant, period)}), ())
  }

  function UnlockPeriod(db: Db, tenant: TenantId, period: Month): Outcome<()> {
    Committed(db.(locks := db.locks - {(tenant, period)}), ())
  }

  // ------------------------------------------------------------------ payout requests

  predicate Open(p: Payout) {
    p.status.Requested? || p.status.Processing?
  }

  /** WHERE clauses of the payout queries. */
  datatype PayoutFilter =
    | OpenOf(tenant: TenantId, member: MemberId)
    | ActiveIn(tenant: TenantId, member: MemberId, period: Month)
    | OfBatch(batch: BatchId)

  predicate PayoutSelects(f: PayoutFilter, p: Payout) {
    match f
    case OpenOf(t, m) => p.tenant == t && p.member == m && Open(p)
    case ActiveIn(t, m, period) =>
      p.tenant == t && p.member == m && p.period == period && (p.activeKey == Some(ActiveKey(t, m, period)) || Open(p))
    case OfBatch(b) => p.batch == Some(b)
  }

  /** Exactly the ids of the selected payouts, ascending. */
  ghost predicate IdsOf(payouts: seq<Payout>, f: PayoutFilter, ids: seq<PayoutId>) {
    && (forall i: nat :: i in ids <==> i < |payouts| && PayoutSelects(f, payouts[i]))
    && (forall a: nat, b: nat :: a < b < |ids| ==> ids[a] < ids[b])
  }

  lemma WhereTake(payouts: seq<Payout>, f: PayoutFilter, front: seq<PayoutId>)
    requires payouts != [] && IdsOf(payouts[..|payouts| - 1], f, front) && PayoutSelects(f, payouts[|payouts| - 1])
    ensures IdsOf(payouts, f, front + [|payouts| - 1])
  {
    assert forall i: nat :: i < |payouts| - 1 ==> payouts[..|payouts| - 1][i] == payouts[i];
    assert forall a: nat :: a < |front| ==> front[a] in front;
  }

  lemma WhereSkip(payouts: seq<Payout>, f: PayoutFilter, front: seq<PayoutId>)
    requires payouts != [] && IdsOf(payouts[..|payouts| - 1], f, front) && !PayoutSelects(f, payouts[|payouts| - 1])
    ensures IdsOf(payouts, f, front)
  {
    assert forall i: nat :: i < |payouts| - 1 ==> payouts[..|payouts| - 1][i] == payouts[i];
  }

  lemma ListedAreSelected(payouts: seq<Payout>, f: PayoutFilter, ids: seq<PayoutId>)
    requires IdsOf(payouts, f, ids)
    ensures forall a :: 0 <= a < |ids| ==> ids[a] < |payouts| && PayoutSelects(f, payouts[ids[a]])
  {
    assert forall a :: 0 <= a < |ids| ==> ids[a] in ids;
  }

  function PayoutsWhere(payouts: seq<Payout>, f: PayoutFilter): (ids: seq<PayoutId>)
    ensures forall i: nat :: i in ids <==> i < |payouts| && PayoutSelects(f, payouts[i])
    ensures forall a: nat, b: nat :: a < b < |ids| ==> ids[a] < ids[b]
    ensures forall a :: 0 <= a < |ids| ==> ids[a] < |payouts| && PayoutSelects(f, payouts[ids[a]])
  {
    if payouts == [] then []
    else
      var n := |payouts| - 1;
      var front := PayoutsWhere(payouts[..n], f);
      if PayoutSelects(f, payouts[n]) then
        WhereTake(payouts, f, front);
        ListedAreSelected(payouts, f, front + [n]);
        front + [n]
      else
        WhereSkip(payouts, f, front);
        ListedAreSelected(payouts, f, front);
        front
  }

  /** The first listed payout with a status, if any. */
  function FirstWith(payouts: seq<Payout>, ids: seq<PayoutId>, st: PayoutStatus): (r: Option<PayoutId>)
    requires forall a :: 0 <= a < |ids| ==> ids[a] < |payouts|
    ensures r.Some? ==> r.value in ids && r.value < |payouts| && payouts[r.value].status == st
    ensures r.None? ==> forall a :: 0 <= a < |ids| ==> payouts[ids[a]].status != st
  {
    if ids == [] then None
    else if payouts[ids[0]].status == st then Some(ids[0])
    else FirstWith(payouts, ids[1..], st)
  }

  datatype RequestInputs = RequestInputs(known: bool, blocked: bool, ready: bool, payoutMin: int, period: Month)

  datatype RequestResult = RequestResult(id: PayoutId, created: bool)

  function RequestPayout(db: Db, tenant: TenantId, member: MemberId, q: RequestInputs): Outcome<RequestResult> {
    if !q.known then Aborted(NotFound)
    else if q.blocked then Aborted(Blocked)
    else
      var active := PayoutsWhere(db.payouts, OpenOf(tenant, member));
      if active != [] then
        var processing := FirstWith(db.payouts, active, PayoutStatus.Processing);
        Committed(db, RequestResult(if processing.Some? then processing.value else active[0], false))
      else
        var rows := RowsWhere(db.ledger, PayableOf(tenant, member));
        var net := SumRows(db.ledger, rows);
        if !(q.ready && net > 0 && net >= q.payoutMin) then Aborted(Error.PayoutNotReady)
        else Committed(db.(payouts := db.payouts +
                           [Payout(tenant, member, None, net, Requested, q.period, Some(ActiveKey(tenant, member, q.period)))]),
                       RequestResult(|db.payouts|, true))
  }

  function RejectRequest(db: Db, tenant: TenantId, id: PayoutId): Outcome<PayoutId> {
    if id >= |db.payouts| || db.payouts[id].tenant != tenant then Aborted(NotFound)
    else if db.payouts[id].status != Requested then Aborted(NotRequested)
    else Committed(db.(payouts := db.payouts[id := db.payouts[id].(status := Rejected, activeKey := None)]), id)
  }

  // ------------------------------------------------------------------ reserve: selection

  datatype Scope = Selected(ids: seq<MemberId>) | AllEligible

  datatype ReserveParams = ReserveParams(
    tenant: TenantId, scope: Scope, period: Month, requested: Option<PayoutId>, preview: bool)

  datatype ReserveEnv = ReserveEnv(
    members: set<MemberId>, blocked: set<MemberId>, ready: set<MemberId>, payoutMin: int, monthKey: MonthKey)

  datatype Reservation = Reservation(member: MemberId, request: Option<PayoutId>, amount: int, rows: seq<RowId>)

  datatype SkipReason = NothingPayable | BelowMin | AlreadyProcessing | PayoutNotReady

  datatype Choice = Skip(member: MemberId, reason: SkipReason, net: int) | Take(res: Reservation)

  const MAX_BATCH: nat := 100

  /** Insertion into a strictly ascending list, keeping each value once. */
  function InsertUnique(s: seq<nat>, x: nat): seq<nat> {
    if s == [] || s[|s| - 1] < x then s + [x]
    else if s[|s| - 1] == x then s
    else InsertUnique(s[..|s| - 1], x) + [s[|s| - 1]]
  }

  /** `[...new Set(ids)].sort()`. */
  function SortUnique(ids: seq<nat>): seq<nat> {
    if ids == [] then [] else InsertUnique(SortUnique(ids[..|ids| - 1]), ids[|ids| - 1])
  }

  function MembersOf(ledger: seq<Row>, ids: seq<RowId>): seq<MemberId>
    requires forall a :: 0 <= a < |ids| ==> ids[a] < |ledger|
  {
    if ids == [] then [] else MembersOf(ledger, ids[..|ids| - 1]) + [ledger[ids[|ids| - 1]].member]
  }

  function PayableNet(ledger: seq<Row>, tenant: TenantId, m: MemberId): int {
    var rows := RowsWhere(ledger, PayableOf(tenant, m));
    SumRows(ledger, rows)
  }

  function OverThreshold(ledger: seq<Row>, tenant: TenantId, payoutMin: int, ms: seq<MemberId>): seq<MemberId> {
    if ms == [] then []
    else
      var m := ms[|ms| - 1];
      var net := PayableNet(ledger, tenant, m);
      OverThreshold(ledger, tenant, payoutMin, ms[..|ms| - 1]) + (if net > 0 && net >= payoutMin then [m] else [])
  }

  /** The members a reservation looks at, each once, in id order, or the refusal of an empty or oversized selection. */
  function Targets(db: Db, p: ReserveParams, env: ReserveEnv): Result<seq<MemberId>, Error> {
    match p.scope
    case Selected(ids) =>
      var ts := SortUnique(ids);
      if ts == [] then Err(NoTargets) else if |ts| > MAX_BATCH then Err(TooManyTargets) else Ok(ts)
    case AllEligible =>
      var rows := RowsWhere(db.ledger, PayableIn(p.tenant));
      var ts := OverThreshold(db.ledger, p.tenant, env.payoutMin, SortUnique(MembersOf(db.ledger, rows)));
      if |ts| > MAX_BATCH then Err(TooManyTargets) else Ok(ts)
  }

  /** The open request a reservation would consume; None inside Ok means a fresh payout, Err a skip or refusal. */
  datatype Claimable = Consume(request: Option<PayoutId>) | Busy | Refuse(error: Error)

  function ClaimableRequest(db: Db, p: ReserveParams, m: MemberId): (r: Claimable)
    ensures r.Consume? && r.request.Some? ==>
              r.request.value < |db.payouts| && PayoutSelects(ActiveIn(p.tenant, m, p.period), db.payouts[r.request.value])
              && db.payouts[r.request.value].status.Requested?
    ensures r.Consume? && r.request.None? ==>
              forall i: nat :: i < |db.payouts| && PayoutSelects(ActiveIn(p.tenant, m, p.period), db.payouts[i]) ==> !Open(db.payouts[i])
  {
    var active := PayoutsWhere(db.payouts, ActiveIn(p.tenant, m, p.period));
    match p.requested
    case Some(q) =>
      if q !in active || !db.payouts[q].status.Requested? then Refuse(NoOpenRequest)
      else if exists a :: 0 <= a < |active| && active[a] != q && db.payouts[active[a]].status.Processing? then Busy
      else Consume(Some(q))
    case None =>
      if FirstWith(db.payouts, active, PayoutStatus.Processing).Some? then Busy
      else
        assert forall i: nat :: i in active ==> exists a :: 0 <= a < |active| && active[a] == i;
        Consume(FirstWith(db.payouts, active, Requested))
  }

  predicate AnyLocked(db: Db, tenant: TenantId, rows: seq<RowId>, monthKey: MonthKey)
    requires forall a :: 0 <= a < |rows| ==> rows[a] < |db.ledger|
  {
    exists a :: 0 <= a < |rows| && (tenant, MonthOf(db.sales, db.ledger[rows[a]], monthKey)) in db.locks
  }

  /** A member's payable rows and net against threshold, period locks, compliance and readiness. */
  function Weigh(db: Db, p: ReserveParams, env: ReserveEnv, res: Reservation): Result<Choice, Error>
    requires forall a :: 0 <= a < |res.rows| ==> res.rows[a] < |db.ledger|
  {
    var m := res.member;
    if res.rows == [] then Ok(Skip(m, NothingPayable, res.amount))
    else if res.amount <= 0 || res.amount < env.payoutMin then Ok(Skip(m, BelowMin, res.amount))
    else if AnyLocked(db, p.tenant, res.rows, env.monthKey) then Err(PeriodLocked)
    else if m in env.blocked then
      if p.requested.Some? then Err(Blocked) else Ok(Skip(m, SkipReason.PayoutNotReady, res.amount))
    else if m !in env.ready then Ok(Skip(m, SkipReason.PayoutNotReady, res.amount))
    else Ok(Take(res))
  }

  /** All payable rows of a member, as one reservation. */
  function Candidate(db: Db, p: ReserveParams, m: MemberId, request: Option<PayoutId>): (res: Reservation)
    ensures forall a :: 0 <= a < |res.rows| ==> res.rows[a] < |db.ledger|
  {
    var rows := RowsWhere(db.ledger, PayableOf(p.tenant, m));
    Reservation(m, request, SumRows(db.ledger, rows), rows)
  }

  function Choose(db: Db, p: ReserveParams, env: ReserveEnv, m: MemberId): Result<Choice, Error> {
    if m !in env.members then Err(NotFound)
    else match ClaimableRequest(db, p, m)
      case Refuse(e) => Err(e)
      case Busy => Ok(Skip(m, AlreadyProcessing, 0))
      case Consume(request) => Weigh(db, p, env, Candidate(db, p, m, request))
  }

  datatype Selection = Selection(reservations: seq<Reservation>, skipped: seq<Choice>)

  function Select(db: Db, p: ReserveParams, env: ReserveEnv, ts: seq<MemberId>): Result<Selection, Error> {
    if ts == [] then Ok(Selection([], []))
    else match Select(db, p, env, ts[..|ts| - 1])
      case Err(e) => Err(e)
      case Ok(s) => match Choose(db, p, env, ts[|ts| - 1])
        case Err(e) => Err(e)
        case Ok(Skip(m, reason, net)) => Ok(s.(skipped := s.skipped + [Skip(m, reason, net)]))
        case Ok(Take(res)) => Ok(s.(reservations := s.reservations + [res]))
  }

  // ------------------------------------------------------------------ reserve: claim

  function ItemFor(db: Db, payout: PayoutId, i: RowId, monthKey: MonthKey): Item
    requires i < |db.ledger|
  {
    var r := db.ledger[i];
    Item(payout, i, r.member, MonthOf(db.sales, r, monthKey), r.level, r.amount)
  }

  function ItemsFor(db: Db, payout: PayoutId, rows: seq<RowId>, monthKey: MonthKey): (items: seq<Item>)
    requires forall a :: 0 <= a < |rows| ==> rows[a] < |db.ledger|
    ensures |items| == |rows|
    ensures forall a :: 0 <= a < |rows| ==> items[a] == ItemFor(db, payout, rows[a], monthKey)
  {
    seq(|rows|, a requires 0 <= a < |rows| => ItemFor(db, payout, rows[a], monthKey))
  }

  /** The reservation's payout: the open request put to work, or a new row if the unique index allows one. */
  function PlacePayout(payouts: seq<Payout>, p: ReserveParams, b: BatchId, res: Reservation): Result<(seq<Payout>, PayoutId), Error> {
    var key := Some(ActiveKey(p.tenant, res.member, p.period));
    if res.request.Some? then
      var q := res.request.value;
      if q >= |payouts| then Err(NotFound)
      else Ok((payouts[q := payouts[q].(batch := Some(b), total := res.amount, status := PayoutStatus.Processing, activeKey := key)], q))
    else if PayoutsWhere(payouts, OpenOf(p.tenant, res.member)) != [] then Err(UniqueIndex)
    else Ok((payouts + [Payout(p.tenant, res.member, Some(b), res.amount, PayoutStatus.Processing, p.period, key)], |payouts|))
  }

  function ClaimOne(db: Db, p: ReserveParams, env: ReserveEnv, b: BatchId, res: Reservation): Result<Db, Error>
    requires b < |db.batches|
  {
    match PlacePayout(db.payouts, p, b, res)
    case Err(e) => Err(e)
    case Ok((payouts, id)) =>
      if exists a :: 0 <= a < |res.rows| && res.rows[a] >= |db.ledger| then Err(RowsChanged)
      else
        var items := ItemsFor(db, id, res.rows, env.monthKey);
        var claimed := UpdateMany(db.ledger, items, Claim(b));
        if claimed.1 != |items| then Err(RowsChanged)
        else Ok(db.(payouts := payouts, ledger := claimed.0,
                    batches := db.batches[b := db.batches[b].(items := db.batches[b].items + items)]))
  }

  function ClaimAll(db: Db, p: ReserveParams, env: ReserveEnv, b: BatchId, rs: seq<Reservation>): (r: Result<Db, Error>)
    requires b < |db.batches|
    ensures r.Ok? ==> |r.value.batches| == |db.batches|
  {
    if rs == [] then Ok(db)
    else match ClaimAll(db, p, env, b, rs[..|rs| - 1])
      case Err(e) => Err(e)
      case Ok(d) => ClaimOne(d, p, env, b, rs[|rs| - 1])
  }

  datatype ReserveResult = ReserveResult(batch: Option<BatchId>, selection: Selection)

  function OpenBatch(db: Db, p: ReserveParams): Db {
    db.(batches := db.batches + [Batch(p.tenant, p.period, BatchStatus.Processing, [])])
  }

  function ReserveBatch(db: Db, p: ReserveParams, env: ReserveEnv): Outcome<ReserveResult> {
    match Targets(db, p, env)
    case Err(e) => Aborted(e)
    case Ok(ts) => match Select(db, p, env, ts)
      case Err(e) => Aborted(e)
      case Ok(s) =>
        if p.preview || s.reservations == [] then Committed(db, ReserveResult(None, s))
        else
          var b := |db.batches|;
          match ClaimAll(OpenBatch(db, p), p, env, b, s.reservations)
          case Err(e) => Aborted(e)
          case Ok(d) =>
            Committed(d.(summaries := BumpItems(d.summaries, p.tenant, d.batches[b].items, Claim(b))), ReserveResult(Some(b), s))
  }

  // ------------------------------------------------------------------ dispatch, settle, fail

  predicate RowsIntact(db: Db, b: BatchId)
    requires b < |db.batches|
  {
    var items := db.batches[b].items;
    && items != []
    && (forall n :: 0 <= n < |items| ==>
          items[n].row < |db.ledger| && db.ledger[items[n].row].status.Processing? && db.ledger[items[n].row].batch == Some(b))
  }

  predicate PayoutsCovered(db: Db, b: BatchId)
    requires b < |db.batches|
  {
    forall id: nat :: id in PayoutsWhere(db.payouts, OfBatch(b)) ==> HasPayout(db.batches[b].items, id)
  }

  predicate HasPayout(items: seq<Item>, id: PayoutId) {
    exists n :: 0 <= n < |items| && items[n].payout == id
  }

  predicate Known(db: Db, tenant: TenantId, b: BatchId) {
    b < |db.batches| && db.batches[b].tenant == tenant
  }

  datatype BatchResult = BatchResult(changed: bool, payoutCount: nat)

  function Dispatch(db: Db, tenant: TenantId, b: BatchId, compliant: bool): Outcome<BatchResult> {
    if !Known(db, tenant, b) then Aborted(NotFound)
    else
      var payouts := PayoutsWhere(db.payouts, OfBatch(b));
      var st := db.batches[b].status;
      if st.Dispatched? || st.Settled? then Committed(db, BatchResult(false, |payouts|))
      else if !st.Processing? then Aborted(WrongBatchState)
      else if payouts == [] then Aborted(NoPayouts)
      else if !compliant then Aborted(ComplianceChanged)
      else if !RowsIntact(db, b) || !PayoutsCovered(db, b) then Aborted(NotIntact)
      else Committed(db.(batches := db.batches[b := db.batches[b].(status := Dispatched)]), BatchResult(true, |payouts|))
  }

  /** payout.updateMany on the processing payouts of a batch, and how many it touched. */
  function ClosePayouts(payouts: seq<Payout>, ids: seq<PayoutId>, b: BatchId, to: PayoutStatus): (out: (seq<Payout>, nat))
    ensures |out.0| == |payouts|
  {
    if ids == [] then (payouts, 0)
    else
      var before := ClosePayouts(payouts, ids[..|ids| - 1], b, to);
      var i := ids[|ids| - 1];
      if i < |payouts| && before.0[i].batch == Some(b) && before.0[i].status.Processing?
      then (before.0[i := before.0[i].(status := to, activeKey := None)], before.1 + 1)
      else before
  }

  function Settle(db: Db, tenant: TenantId, b: BatchId): Outcome<BatchResult> {
    if !Known(db, tenant, b) then Aborted(NotFound)
    else
      var ids := PayoutsWhere(db.payouts, OfBatch(b));
      var batch := db.batches[b];
      if batch.status.Settled? then Committed(db, BatchResult(false, |ids|))
      else if !batch.status.Dispatched? then Aborted(WrongBatchState)
      else if ids == [] then Aborted(NoPayouts)
      else if !RowsIntact(db, b) || !PayoutsCovered(db, b) then Aborted(NotIntact)
      else
        var payouts := ClosePayouts(db.payouts, ids, b, PayoutStatus.Paid);
        var rows := UpdateMany(db.ledger, batch.items, Move.Settle(b));
        if payouts.1 != |ids| then Aborted(PayoutsChanged)
        else if rows.1 != |batch.items| then Aborted(RowsChanged)
        else Committed(db.(payouts := payouts.0, ledger := rows.0, batches := db.batches[b := batch.(status := Settled)],
                           summaries := BumpItems(db.summaries, tenant, batch.items, Move.Settle(b))),
                       BatchResult(true, |ids|))
  }

  function Fail(db: Db, tenant: TenantId, b: BatchId): Outcome<BatchResult> {
    if !Known(db, tenant, b) then Aborted(NotFound)
    else
      var ids := PayoutsWhere(db.payouts, OfBatch(b));
      var batch := db.batches[b];
      if batch.status.Failed? then Committed(db, BatchResult(false, |ids|))
      else if !batch.status.Processing? then Aborted(WrongBatchState)
      else if ids == [] || !RowsIntact(db, b) then Aborted(NotIntact)
      else
        var rows := UpdateMany(db.ledger, batch.items, Release(b));
        var payouts := ClosePayouts(db.payouts, ids, b, PayoutStatus.Failed);
        if rows.1 != |batch.items| then Aborted(RowsChanged)
        else if payouts.1 != |ids| then Aborted(PayoutsChanged)
        else Committed(db.(payouts := payouts.0, ledger := rows.0, batches := db.batches[b := batch.(status := BatchStatus.Failed)],
                           summaries := BumpItems(db.summaries, tenant, batch.items, Release(b))),
                       BatchResult(true, |ids|))
  }
}
