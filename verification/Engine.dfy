/**
 The engine service: its tables as object state, its transactions as methods. A transaction works on
 copies and writes them back only when it commits, so a refusal leaves the tables alone.
 */
module Engine {
  import opened Prelude
  import opened Commission
  import opened Tables
  import opened Ledger
  import opened EngineSpec
  import opened EngineInv
  import opened BooksProofs
  import opened SettleProofs
  import opened ReserveProofs
  import opened EngineRuns

  // ------------------------------------------------------------------ the loops of the transactions

  /** Writes one ledger row a line and bumps its cell. */
  method WriteLines(b: Books, month: Month, tenant: TenantId, sale: SaleId, lines: seq<Line>, start: (LedgerStatus, Option<int>))
    returns (out: Books)
    ensures out == PostLines(b, month, tenant, sale, lines, start)
  {
    out := b;
    for i := 0 to |lines|
      invariant out == PostLines(b, month, tenant, sale, lines[..i], start)
    {
      assert lines[..i + 1][..i] == lines[..i];
      var r := CommissionRow(tenant, sale, lines[i], start);
      out := Books(out.ledger + [r], Bump(out.summaries, Key(tenant, r.member, month, r.level), StatusCell(r.status, r.amount)));
    }
    assert lines[..|lines|] == lines;
  }

  /** Reverses the entries one after the other. */
  method ReverseEntries(b: Books, month: Month, entries: seq<RowId>) returns (out: Books)
    requires forall a :: 0 <= a < |entries| ==> entries[a] < |b.ledger|
    ensures out == VoidRows(b, month, entries)
  {
    out := b;
    for i := 0 to |entries|
      invariant out == VoidRows(b, month, entries[..i])
    {
      assert entries[..i + 1][..i] == entries[..i];
      var r := out.ledger[entries[i]];
      var ledger := out.ledger + [ReversalOf(r)];
      if !r.status.Paid? {
        ledger := ledger[entries[i] := r.(status := LedgerStatus.Reversed)];
      }
      assert ledger == (out.ledger + [ReversalOf(r)])[entries[i] := Closed(r)];
      out := Books(ledger, Bump(out.summaries, Key(r.tenant, r.member, month, r.level), VoidDelta(r)));
    }
    assert entries[..|entries|] == entries;
  }

  /** Turns the listed rows payable one after the other. */
  method MatureEntries(b: Books, sales: map<SaleId, Sale>, monthKey: MonthKey, ids: seq<RowId>) returns (out: Books)
    requires forall a :: 0 <= a < |ids| ==> ids[a] < |b.ledger|
    ensures out == MatureRows(b, sales, monthKey, ids)
  {
    out := b;
    for i := 0 to |ids|
      invariant out == MatureRows(b, sales, monthKey, ids[..i])
    {
      assert ids[..i + 1][..i] == ids[..i];
      var r := out.ledger[ids[i]];
      var month := MonthOf(sales, r, monthKey);
      out := Books(out.ledger[ids[i] := r.(status := LedgerStatus.Payable)],
                   Bump(out.summaries, Key(r.tenant, r.member, month, r.level), Cell(-r.amount, r.amount, 0, 0)));
    }
    assert ids[..|ids|] == ids;
  }

  lemma {:induction false} SelectErrorSticks(db: Db, p: ReserveParams, env: ReserveEnv, ts: seq<MemberId>, n: nat)
    requires n <= |ts| && Select(db, p, env, ts[..n]).Err?
    ensures Select(db, p, env, ts) == Select(db, p, env, ts[..n])
  {
    if n == |ts| {
      assert ts[..n] == ts;
    } else {
      assert ts[..|ts| - 1][..n] == ts[..n];
      SelectErrorSticks(db, p, env, ts[..|ts| - 1], n);
    }
  }

  /** Looks at each target in turn; the first refusal ends the transaction. */
  method SelectEach(db: Db, p: ReserveParams, env: ReserveEnv, ts: seq<MemberId>) returns (r: Result<Selection, Error>)
    ensures r == Select(db, p, env, ts)
  {
    var reservations: seq<Reservation> := [];
    var skipped: seq<Choice> := [];
    for i := 0 to |ts|
      invariant Select(db, p, env, ts[..i]) == Ok(Selection(reservations, skipped))
    {
      assert ts[..i + 1][..i] == ts[..i];
      match Choose(db, p, env, ts[i]) {
        case Err(e) =>
          SelectErrorSticks(db, p, env, ts, i + 1);
          return Err(e);
        case Ok(Skip(m, reason, net)) =>
          skipped := skipped + [Skip(m, reason, net)];
        case Ok(Take(res)) =>
          reservations := reservations + [res];
      }
    }
    assert ts[..|ts|] == ts;
    r := Ok(Selection(reservations, skipped));
  }

  lemma {:induction false} ClaimErrorSticks(db: Db, p: ReserveParams, env: ReserveEnv, b: BatchId, rs: seq<Reservation>, n: nat)
    requires b < |db.batches| && n <= |rs| && ClaimAll(db, p, env, b, rs[..n]).Err?
    ensures ClaimAll(db, p, env, b, rs) == ClaimAll(db, p, env, b, rs[..n])
  {
    if n == |rs| {
      assert rs[..n] == rs;
    } else {
      assert rs[..|rs| - 1][..n] == rs[..n];
      ClaimErrorSticks(db, p, env, b, rs[..|rs| - 1], n);
    }
  }

  /** Claims the reservations in turn: payout, rows, items. */
  method ClaimEach(db: Db, p: ReserveParams, env: ReserveEnv, b: BatchId, rs: seq<Reservation>) returns (r: Result<Db, Error>)
    requires b < |db.batches|
    ensures r == ClaimAll(db, p, env, b, rs)
  {
    var d := db;
    for i := 0 to |rs|
      invariant ClaimAll(db, p, env, b, rs[..i]) == Ok(d)
    {
      assert rs[..i + 1][..i] == rs[..i];
      var next := ClaimOne(d, p, env, b, rs[i]);
      match next {
        case Err(e) =>
          ClaimErrorSticks(db, p, env, b, rs, i + 1);
          return next;
        case Ok(claimed) =>
          d := claimed;
      }
    }
    assert rs[..|rs|] == rs;
    r := Ok(d);
  }

  /** Base lines and sponsor bonuses, then the seller's override at the rank reached with those rows. */
  method WriteCommissions(b: Books, sale: Sale, id: SaleId, plan: StoredPlan, chain: seq<Upline>, q: ApplyInputs, month: Month)
    returns (out: Books, lines: seq<Line>)
    ensures var start := Maturation(q.policy, sale, q.now);
            var earned := EarnedLines(sale, plan, chain, q);
            var b1 := PostLines(b, month, sale.tenant, id, earned, start);
            var rank := RankLines(sale, b1.ledger, q);
            lines == earned + rank && out == PostLines(b1, month, sale.tenant, id, rank, start)
  {
    var start := Maturation(q.policy, sale, q.now);
    var base := ComputeCommissionLines(sale.amount, plan.levels, EffectiveBaseChain(chain, q.policy));
    var earned := base + BonusLines(sale.amount, plan, chain, q.policy, sale.saleDate, q.sellerJoinedAt, base);
    var b1 := WriteLines(b, month, sale.tenant, id, earned, start);
    var overrideBps: Bps := 0;
    if q.team.Some? {
      var tier := ResolveTier(EffectiveTiers(q.tiers), q.team.value, Earnings(b1.ledger, sale.tenant, sale.seller));
      if tier.Some? {
        overrideBps := tier.value.overrideBps;
      }
    }
    var rank := OverrideLines(sale.amount, overrideBps, sale.seller);
    out := WriteLines(b1, month, sale.tenant, id, rank, start);
    lines := earned + rank;
  }

  method ApplyTransaction(db: Db, id: SaleId, q: ApplyInputs) returns (o: Outcome<ApplyResult>)
    requires id in db.sales
    ensures o == ApplyInTx(db, id, q)
  {
    var sale := db.sales[id];
    if sale.status != Approved {
      return Committed(db, ApplyResult(false, 0));
    }
    var existing := RowsWhere(db.ledger, CommissionsOf(id));
    if existing != [] {
      return Committed(db, ApplyResult(false, |existing|));
    }
    if q.plan.None? {
      return Aborted(NoEffectivePlan);
    }
    if q.chain.None? {
      return Aborted(NotFound);
    }
    var month := SaleMonth(sale, q.monthKey);
    if (sale.tenant, month) in db.locks {
      return Aborted(PeriodLocked);
    }
    var plan := q.plan.value;
    var out, lines := WriteCommissions(Books(db.ledger, db.summaries), sale, id, plan, q.chain.value, q, month);
    if Distributed(lines) > CeilingCents(sale.amount, plan, q.tiers) {
      return Aborted(CeilingExceeded);
    }
    var pinned := sale.(planId := if sale.planId.Some? then sale.planId else Some(plan.id), summaryMonth := Some(month));
    o := Committed(db.(sales := db.sales[id := pinned], ledger := out.ledger, summaries := out.summaries), ApplyResult(true, |lines|));
  }

  method ApproveTransaction(db: Db, id: SaleId, actor: Option<UserId>, expectedTenant: Option<TenantId>, q: ApplyInputs)
    returns (o: Outcome<ApplyResult>)
    ensures o == Approve(db, id, actor, expectedTenant, q)
  {
    if id !in db.sales || (expectedTenant.Some? && db.sales[id].tenant != expectedTenant.value) {
      return Aborted(NotFound);
    }
    var sale := db.sales[id];
    if sale.status == Void {
      return Aborted(VoidedSale);
    }
    var tables := db;
    if sale.status == Draft {
      if actor.Some? && actor == sale.createdBy && q.policy.requireSeparateApprover {
        return Aborted(SelfApproval);
      }
      tables := db.(sales := db.sales[id := sale.(status := Approved, approvedAt := Some(q.now))]);
    }
    o := ApplyTransaction(tables, id, q);
  }

  method VoidTransaction(db: Db, id: SaleId, expectedTenant: Option<TenantId>, monthKey: MonthKey) returns (o: Outcome<VoidResult>)
    ensures o == EngineSpec.VoidSale(db, id, expectedTenant, monthKey)
  {
    if id !in db.sales || (expectedTenant.Some? && db.sales[id].tenant != expectedTenant.value) {
      return Aborted(NotFound);
    }
    var sale := db.sales[id];
    if sale.status == Void {
      return Committed(db, VoidResult(false, 0));
    }
    var entries := RowsWhere(db.ledger, VoidableOf(id));
    if exists a :: 0 <= a < |entries| && db.ledger[entries[a]].status.Processing? {
      return Aborted(LinkedPayoutProcessing);
    }
    var out := ReverseEntries(Books(db.ledger, db.summaries), SaleMonth(sale, monthKey), entries);
    o := Committed(db.(sales := db.sales[id := sale.(status := Void)], ledger := out.ledger, summaries := out.summaries),
                   VoidResult(true, |entries|));
  }

  method MatureTransaction(db: Db, now: int, limit: int, lockedRows: set<RowId>, monthKey: MonthKey) returns (o: Outcome<MatureResult>)
    ensures o == Mature(db, now, limit, lockedRows, monthKey)
  {
    if limit <= 0 {
      return Aborted(BadLimit);
    }
    var due := RowsWhere(db.ledger, Due(now, lockedRows));
    var batch := if |due| > limit then due[..limit] else due;
    var out := MatureEntries(Books(db.ledger, db.summaries), db.sales, monthKey, batch);
    o := Committed(db.(ledger := out.ledger, summaries := out.summaries), MatureResult(|batch|, |due| > limit));
  }

  /** Selection, claims, then one bump for each touched cell. */
  method ReserveTransaction(db: Db, p: ReserveParams, env: ReserveEnv) returns (o: Outcome<ReserveResult>)
    ensures o == ReserveBatch(db, p, env)
  {
    var targets := Targets(db, p, env);
    if targets.Err? {
      return Aborted(targets.error);
    }
    var selection := SelectEach(db, p, env, targets.value);
    if selection.Err? {
      return Aborted(selection.error);
    }
    if p.preview || selection.value.reservations == [] {
      return Committed(db, ReserveResult(None, selection.value));
    }
    var b := |db.batches|;
    var claimed := ClaimEach(OpenBatch(db, p), p, env, b, selection.value.reservations);
    if claimed.Err? {
      return Aborted(claimed.error);
    }
    var d := claimed.value;
    var summaries := MoveBatchSummary(d.summaries, p.tenant, d.batches[b].items, Claim(b));
    o := Committed(d.(summaries := summaries), ReserveResult(Some(b), selection.value));
  }

  /** Payouts, then rows, each with its count guard, then the cells. */
  method SettleTransaction(db: Db, tenant: TenantId, b: BatchId) returns (o: Outcome<BatchResult>)
    ensures o == EngineSpec.Settle(db, tenant, b)
  {
    if !Known(db, tenant, b) {
      return Aborted(NotFound);
    }
    var ids := PayoutsWhere(db.payouts, OfBatch(b));
    var batch := db.batches[b];
    if batch.status.Settled? {
      return Committed(db, BatchResult(false, |ids|));
    }
    if !batch.status.Dispatched? {
      return Aborted(WrongBatchState);
    }
    if ids == [] {
      return Aborted(NoPayouts);
    }
    if !RowsIntact(db, b) || !PayoutsCovered(db, b) {
      return Aborted(NotIntact);
    }
    var paid := ClosePayouts(db.payouts, ids, b, PayoutStatus.Paid);
    if paid.1 != |ids| {
      return Aborted(PayoutsChanged);
    }
    var rows := UpdateMany(db.ledger, batch.items, Move.Settle(b));
    if rows.1 != |batch.items| {
      return Aborted(RowsChanged);
    }
    var summaries := MoveBatchSummary(db.summaries, tenant, batch.items, Move.Settle(b));
    o := Committed(db.(payouts := paid.0, ledger := rows.0, batches := db.batches[b := batch.(status := Settled)], summaries := summaries),
                   BatchResult(true, |ids|));
  }

  /** Rows, then payouts, each with its count guard, then the cells. */
  method FailTransaction(db: Db, tenant: TenantId, b: BatchId) returns (o: Outcome<BatchResult>)
    ensures o == EngineSpec.Fail(db, tenant, b)
  {
    if !Known(db, tenant, b) {
      return Aborted(NotFound);
    }
    var ids := PayoutsWhere(db.payouts, OfBatch(b));
    var batch := db.batches[b];
    if batch.status.Failed? {
      return Committed(db, BatchResult(false, |ids|));
    }
    if !batch.status.Processing? {
      return Aborted(WrongBatchState);
    }
    if ids == [] || !RowsIntact(db, b) {
      return Aborted(NotIntact);
    }
    var rows := UpdateMany(db.ledger, batch.items, Release(b));
    if rows.1 != |batch.items| {
      return Aborted(RowsChanged);
    }
    var failed := ClosePayouts(db.payouts, ids, b, PayoutStatus.Failed);
    if failed.1 != |ids| {
      return Aborted(PayoutsChanged);
    }
    var summaries := MoveBatchSummary(db.summaries, tenant, batch.items, Release(b));
    o := Committed(db.(payouts := failed.0, ledger := rows.0, batches := db.batches[b := batch.(status := BatchStatus.Failed)], summaries := summaries),
                   BatchResult(true, |ids|));
  }

  // ------------------------------------------------------------------ the service

  function Reply<T>(o: Outcome<T>): Result<T, Error> {
    match o
    case Committed(_, v) => Ok(v)
    case Aborted(e) => Err(e)
  }

  /** The tables after a transaction: what it committed, or what they were. */
  function After<T>(before: Db, o: Outcome<T>): Db {
    match o
    case Committed(d, _) => d
    case Aborted(_) => before
  }

  class EngineService {
    var sales: map<SaleId, Sale>
    var ledger: seq<Row>
    var summaries: map<Key, Cell>
    var payouts: seq<Payout>
    var batches: seq<Batch>
    var locks: set<(TenantId, Month)>

    ghost function State(): Db
      reads this
    {
      Db(sales, ledger, summaries, payouts, batches, locks)
    }

    ghost predicate Valid()
      reads this
    {
      Inv(State()) == true
    }

    constructor ()
      ensures State() == EMPTY_DB && Valid()
    {
      sales, ledger, summaries, payouts, batches, locks := map[], [], map[], [], [], {};
      new;
      InvEmpty();
    }

    /** Writes the copies back. */
    method Commit(d: Db)
      modifies this
      ensures State() == d
    {
      sales, ledger, summaries, payouts, batches, locks := d.sales, d.ledger, d.summaries, d.payouts, d.batches, d.locks;
    }

    method CreateDraft(id: SaleId, tenant: TenantId, seller: MemberId, amount: nat, saleDate: int, createdBy: Option<UserId>)
      returns (r: Result<(), Error>)
      requires Valid()
      modifies this
      ensures Valid()
      ensures var o := EngineSpec.CreateDraft(old(State()), id, tenant, seller, amount, saleDate, createdBy);
              r == Reply(o) && State() == After(old(State()), o)
    {
      StepKeeps(State(), DoCreateDraft(id, tenant, seller, amount, saleDate, createdBy));
      if id in sales {
        return Err(UniqueIndex);
      }
      sales := sales[id := Sale(tenant, seller, amount, saleDate, createdBy, Draft, None, None, None, None)];
      r := Ok(());
    }

    method DeleteDraft(tenant: TenantId, id: SaleId) returns (r: Result<(), Error>)
      requires Valid()
      modifies this
      ensures Valid()
      ensures var o := EngineSpec.DeleteDraft(old(State()), tenant, id);
              r == Reply(o) && State() == After(old(State()), o)
    {
      StepKeeps(State(), DoDeleteDraft(tenant, id));
      if id !in sales || sales[id].tenant != tenant {
        return Err(NotFound);
      }
      if sales[id].status != Draft {
        return Err(NotDraft);
      }
      sales := sales - {id};
      r := Ok(());
    }

    method ApplyCommissions(id: SaleId, q: ApplyInputs) returns (r: Result<ApplyResult, Error>)
      requires Valid()
      modifies this
      ensures Valid()
      ensures var o := Apply(old(State()), id, q);
              r == Reply(o) && State() == After(old(State()), o)
    {
      StepKeeps(State(), DoApply(id, q));
      if id !in sales {
        return Err(NotFound);
      }
      var o := ApplyTransaction(Db(sales, ledger, summaries, payouts, batches, locks), id, q);
      if o.Committed? {
        Commit(o.db);
      }
      r := Reply(o);
    }

    method ApproveSale(id: SaleId, actor: Option<UserId>, expectedTenant: Option<TenantId>, q: ApplyInputs)
      returns (r: Result<ApplyResult, Error>)
      requires Valid()
      modifies this
      ensures Valid()
      ensures var o := Approve(old(State()), id, actor, expectedTenant, q);
              r == Reply(o) && State() == After(old(State()), o)
    {
      ApproveKeeps(State(), id, actor, expectedTenant, q);
      var o := ApproveTransaction(Db(sales, ledger, summaries, payouts, batches, locks), id, actor, expectedTenant, q);
      if o.Committed? {
        Commit(o.db);
      }
      r := Reply(o);
    }

    method VoidSale(id: SaleId, expectedTenant: Option<TenantId>, monthKey: MonthKey) returns (r: Result<VoidResult, Error>)
      requires Valid()
      modifies this
      ensures Valid()
      ensures var o := EngineSpec.VoidSale(old(State()), id, expectedTenant, monthKey);
              r == Reply(o) && State() == After(old(State()), o)
    {
      VoidKeeps(State(), id, expectedTenant, monthKey);
      var o := VoidTransaction(Db(sales, ledger, summaries, payouts, batches, locks), id, expectedTenant, monthKey);
      if o.Committed? {
        Commit(o.db);
      }
      r := Reply(o);
    }

    method MarkDelivered(id: SaleId, at: int, policy: TenantPolicy) returns (r: Result<bool, Error>)
      requires Valid()
      modifies this
      ensures Valid()
      ensures var o := EngineSpec.MarkDelivered(old(State()), id, at, policy);
              r == Reply(o) && State() == After(old(State()), o)
    {
      DeliverKeeps(State(), id, at, policy);
      if id !in sales {
        return Err(NotFound);
      }
      var sale := sales[id];
      if sale.status != Approved {
        return Err(NotApproved);
      }
      if sale.deliveredAt.Some? {
        return Ok(false);
      }
      var matures := if policy.maturationRule.DaysAfterDelivery? then at + policy.maturationDays * DAY_MS else at;
      ledger := SetMaturity(ledger, RowsWhere(ledger, AwaitingDelivery(id)), matures);
      sales := sales[id := sale.(deliveredAt := Some(at))];
      r := Ok(true);
    }

    method MatureCommissions(now: int, limit: int, lockedRows: set<RowId>, monthKey: MonthKey) returns (r: Result<MatureResult, Error>)
      requires Valid()
      modifies this
      ensures Valid()
      ensures var o := Mature(old(State()), now, limit, lockedRows, monthKey);
              r == Reply(o) && State() == After(old(State()), o)
    {
      MatureKeeps(State(), now, limit, lockedRows, monthKey);
      var o := MatureTransaction(Db(sales, ledger, summaries, payouts, batches, locks), now, limit, lockedRows, monthKey);
      if o.Committed? {
        Commit(o.db);
      }
      r := Reply(o);
    }

    method AwardBonus(tenant: TenantId, member: MemberId, amount: int, month: Month) returns (r: Result<RowId, Error>)
      requires Valid()
      modifies this
      ensures Valid()
      ensures var o := EngineSpec.AwardBonus(old(State()), tenant, member, amount, month);
              r == Reply(o) && State() == After(old(State()), o)
    {
      AwardKeeps(State(), tenant, member, amount, month);
      if (tenant, month) in locks {
        return Err(PeriodLocked);
      }
      r := Ok(|ledger|);
      ledger := ledger + [Row(tenant, None, member, 0, 0, amount, Adjustment, LedgerStatus.Payable, Some(month), None, None, None)];
      summaries := Bump(summaries, Key(tenant, member, month, 0), Cell(0, amount, 0, 0));
    }

    method LockPeriod(tenant: TenantId, period: Month)
      requires Valid()
      modifies this
      ensures Valid() && State() == old(State()).(locks := old(locks) + {(tenant, period)})
    {
      StepKeeps(State(), DoLock(tenant, period));
      locks := locks + {(tenant, period)};
    }

    method UnlockPeriod(tenant: TenantId, period: Month)
      requires Valid()
      modifies this
      ensures Valid() && State() == old(State()).(locks := old(locks) - {(tenant, period)})
    {
      StepKeeps(State(), DoUnlock(tenant, period));
      locks := locks - {(tenant, period)};
    }

    method RequestPayout(tenant: TenantId, member: MemberId, q: RequestInputs) returns (r: Result<RequestResult, Error>)
      requires Valid()
      modifies this
      ensures Valid()
      ensures var o := EngineSpec.RequestPayout(old(State()), tenant, member, q);
              r == Reply(o) && State() == After(old(State()), o)
    {
      RequestKeeps(State(), tenant, member, q);
      if !q.known {
        return Err(NotFound);
      }
      if q.blocked {
        return Err(Blocked);
      }
      var active := PayoutsWhere(payouts, OpenOf(tenant, member));
      if active != [] {
        var processing := FirstWith(payouts, active, PayoutStatus.Processing);
        return Ok(RequestResult(if processing.Some? then processing.value else active[0], false));
      }
      var net := SumRows(ledger, RowsWhere(ledger, PayableOf(tenant, member)));
      if !(q.ready && net > 0 && net >= q.payoutMin) {
        return Err(Error.PayoutNotReady);
      }
      r := Ok(RequestResult(|payouts|, true));
      payouts := payouts + [Payout(tenant, member, None, net, Requested, q.period, Some(ActiveKey(tenant, member, q.period)))];
    }

    method RejectPayoutRequest(tenant: TenantId, id: PayoutId) returns (r: Result<PayoutId, Error>)
      requires Valid()
      modifies this
      ensures Valid()
      ensures var o := RejectRequest(old(State()), tenant, id);
              r == Reply(o) && State() == After(old(State()), o)
    {
      RejectKeeps(State(), tenant, id);
      if id >= |payouts| || payouts[id].tenant != tenant {
        return Err(NotFound);
      }
      if payouts[id].status != Requested {
        return Err(NotRequested);
      }
      payouts := payouts[id := payouts[id].(status := Rejected, activeKey := None)];
      r := Ok(id);
    }

    method ReservePayoutBatch(p: ReserveParams, env: ReserveEnv) returns (r: Result<ReserveResult, Error>)
      requires Valid()
      modifies this
      ensures Valid()
      ensures var o := ReserveBatch(old(State()), p, env);
              r == Reply(o) && State() == After(old(State()), o)
    {
      ReserveKeeps(State(), p, env);
      var o := ReserveTransaction(Db(sales, ledger, summaries, payouts, batches, locks), p, env);
      if o.Committed? {
        Commit(o.db);
      }
      r := Reply(o);
    }

    method DispatchPayoutBatch(tenant: TenantId, b: BatchId, compliant: bool) returns (r: Result<BatchResult, Error>)
      requires Valid()
      modifies this
      ensures Valid()
      ensures var o := Dispatch(old(State()), tenant, b, compliant);
              r == Reply(o) && State() == After(old(State()), o)
    {
      DispatchKeeps(State(), tenant, b, compliant);
      var db := Db(sales, ledger, summaries, payouts, batches, locks);
      if !Known(db, tenant, b) {
        return Err(NotFound);
      }
      var ids := PayoutsWhere(payouts, OfBatch(b));
      var st := batches[b].status;
      if st.Dispatched? || st.Settled? {
        return Ok(BatchResult(false, |ids|));
      }
      if !st.Processing? {
        return Err(WrongBatchState);
      }
      if ids == [] {
        return Err(NoPayouts);
      }
      if !compliant {
        return Err(ComplianceChanged);
      }
      if !RowsIntact(db, b) || !PayoutsCovered(db, b) {
        return Err(NotIntact);
      }
      batches := batches[b := batches[b].(status := Dispatched)];
      r := Ok(BatchResult(true, |ids|));
    }

    method SettlePayoutBatch(tenant: TenantId, b: BatchId) returns (r: Result<BatchResult, Error>)
      requires Valid()
      modifies this
      ensures Valid()
      ensures var o := EngineSpec.Settle(old(State()), tenant, b);
              r == Reply(o) && State() == After(old(State()), o)
    {
      SettleKeeps(State(), tenant, b);
      var o := SettleTransaction(Db(sales, ledger, summaries, payouts, batches, locks), tenant, b);
      if o.Committed? {
        Commit(o.db);
      }
      r := Reply(o);
    }

    method FailPayoutBatch(tenant: TenantId, b: BatchId) returns (r: Result<BatchResult, Error>)
      requires Valid()
      modifies this
      ensures Valid()
      ensures var o := EngineSpec.Fail(old(State()), tenant, b);
              r == Reply(o) && State() == After(old(State()), o)
    {
      FailKeeps(State(), tenant, b);
      var o := FailTransaction(Db(sales, ledger, summaries, payouts, batches, locks), tenant, b);
      if o.Committed? {
        Commit(o.db);
      }
      r := Reply(o);
    }
  }
}
