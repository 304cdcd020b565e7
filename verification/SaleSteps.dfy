/**
 What each step on a sale is answered, and exactly which rows it changes: approval, void, delivery,
 maturation, and drafts and bonuses.
 */
module SaleSteps {
  import opened Prelude
  import opened Commission
  import opened Tables
  import opened Ledger
  import opened EngineSpec
  import opened EngineInv
  import opened BooksProofs
  import opened ApplyRows

  /** The sale exists, and is of the expected tenant if one is expected. */
  predicate Found(db: Db, id: SaleId, expectedTenant: Option<TenantId>) {
    id in db.sales && (expectedTenant.Some? ==> db.sales[id].tenant == expectedTenant.value)
  }

  // ------------------------------------------------------------------ drafts

  /** A draft is entered under a free id, with nothing fixed yet, and changes nothing else. */
  lemma DraftEntered(db: Db, id: SaleId, tenant: TenantId, seller: MemberId, amount: nat, saleDate: int, createdBy: Option<UserId>)
    ensures var o := CreateDraft(db, id, tenant, seller, amount, saleDate, createdBy);
            && (o.Committed? <==> id !in db.sales) && (o.Aborted? ==> o.error == UniqueIndex)
            && (o.Committed? ==>
                  && o.db == db.(sales := o.db.sales) && o.db.sales.Keys == db.sales.Keys + {id}
                  && (forall s :: s in db.sales ==> o.db.sales[s] == db.sales[s])
                  && var x := o.db.sales[id];
                  && x.tenant == tenant && x.seller == seller && x.amount == amount && x.saleDate == saleDate && x.createdBy == createdBy
                  && x.status == Draft && x.summaryMonth.None? && x.planId.None? && x.approvedAt.None? && x.deliveredAt.None?)
  {}

  /** Only a draft of the tenant is deleted, and nothing else changes. */
  lemma DraftDeleted(db: Db, tenant: TenantId, id: SaleId)
    ensures var o := DeleteDraft(db, tenant, id);
            && (o.Committed? <==> Found(db, id, Some(tenant)) && db.sales[id].status == Draft)
            && (o.Aborted? ==> o.error == if Found(db, id, Some(tenant)) then NotDraft else NotFound)
            && (o.Committed? ==>
                  && o.db == db.(sales := o.db.sales) && o.db.sales.Keys == db.sales.Keys - {id}
                  && forall s :: s in o.db.sales ==> o.db.sales[s] == db.sales[s])
  {}

  // ------------------------------------------------------------------ approval

  /** The creator approves an own draft where the tenant wants a second person. */
  predicate OwnDraft(db: Db, id: SaleId, actor: Option<UserId>, q: ApplyInputs) {
    id in db.sales && db.sales[id].status == Draft && actor.Some? && db.sales[id].createdBy == actor && q.policy.requireSeparateApprover
  }

  /** The tables with the sale marked as approved, which leaves a sale that already is as it was. */
  predicate MarkedApproved(db: Db, id: SaleId, now: int, d: Db) {
    && id in db.sales && id in d.sales && d == db.(sales := d.sales) && d.sales == db.sales[id := d.sales[id]]
    && d.sales[id] == if db.sales[id].status == Draft then db.sales[id].(status := Approved, approvedAt := Some(now)) else db.sales[id]
  }

  lemma MarkedIs(db: Db, id: SaleId, now: int, d: Db)
    requires MarkedApproved(db, id, now, d)
    ensures db.sales[id].status == Draft ==> d == db.(sales := db.sales[id := db.sales[id].(status := Approved, approvedAt := Some(now))])
    ensures db.sales[id].status != Draft ==> d == db
  {
    if db.sales[id].status != Draft {
      assert db.sales[id := db.sales[id]] == db.sales;
    }
  }

  /** The two refusals of an approval itself. */
  lemma ApprovalRefused(db: Db, id: SaleId, actor: Option<UserId>, expectedTenant: Option<TenantId>, q: ApplyInputs)
    requires !Found(db, id, expectedTenant) || db.sales[id].status == Void || OwnDraft(db, id, actor, q)
    ensures Approve(db, id, actor, expectedTenant, q)
            == Aborted(if !Found(db, id, expectedTenant) then NotFound else if db.sales[id].status == Void then VoidedSale else SelfApproval)
  {}

  lemma ApprovalApplies(db: Db, id: SaleId, actor: Option<UserId>, expectedTenant: Option<TenantId>, q: ApplyInputs, d: Db)
    requires Found(db, id, expectedTenant) && db.sales[id].status != Void && !OwnDraft(db, id, actor, q)
    requires MarkedApproved(db, id, q.now, d)
    ensures d.sales[id].status == Approved && Approve(db, id, actor, expectedTenant, q) == ApplyInTx(d, id, q)
  {
    MarkedIs(db, id, q.now, d);
  }

  /**
   When an approval is refused, and what it is otherwise: the application of the sale, marked as approved
   at this moment unless it was before.
   */
  lemma ApprovalAnswers(db: Db, id: SaleId, actor: Option<UserId>, expectedTenant: Option<TenantId>, q: ApplyInputs, d: Db)
    requires id in db.sales ==> MarkedApproved(db, id, q.now, d)
    ensures var o := Approve(db, id, actor, expectedTenant, q);
            && (o == Aborted(SelfApproval) <==> Found(db, id, expectedTenant) && OwnDraft(db, id, actor, q))
            && (o == Aborted(VoidedSale) <==> Found(db, id, expectedTenant) && db.sales[id].status == Void)
            && (!Found(db, id, expectedTenant) ==> o == Aborted(NotFound))
            && (Found(db, id, expectedTenant) && !OwnDraft(db, id, actor, q) && db.sales[id].status != Void ==>
                  id in d.sales && d.sales[id].status == Approved && o == ApplyInTx(d, id, q))
  {
    if !Found(db, id, expectedTenant) || db.sales[id].status == Void || OwnDraft(db, id, actor, q) {
      ApprovalRefused(db, id, actor, expectedTenant, q);
    } else {
      ApprovalApplies(db, id, actor, expectedTenant, q, d);
    }
  }

  /**
   A committed approval of a draft: the sale is approved at this moment, and the rows that it gains are
   exactly those of what is earned on it.
   */
  lemma ApprovedDraft(db: Db, id: SaleId, actor: Option<UserId>, expectedTenant: Option<TenantId>, q: ApplyInputs)
    requires id in db.sales && db.sales[id].status == Draft && !HasCommission(db, id)
    requires Approve(db, id, actor, expectedTenant, q).Committed?
    ensures var o, sale := Approve(db, id, actor, expectedTenant, q), db.sales[id].(status := Approved, approvedAt := Some(q.now));
            && q.plan.Some? && q.chain.Some? && o.value.applied && db.ledger <= o.db.ledger && o.value.entryCount == |NewRows(db, o.db)|
            && (forall r :: r in NewRows(db, o.db) <==>
                  PaysEarned(id, sale, q.plan.value, q.chain.value, q, RankEarnings(o.db, id, sale), r))
            && id in o.db.sales && o.db.sales[id].status == Approved && o.db.sales[id].approvedAt == Some(q.now)
            && o.db.sales[id] == sale.(planId := o.db.sales[id].planId, summaryMonth := o.db.sales[id].summaryMonth)
  {
    var d := db.(sales := db.sales[id := db.sales[id].(status := Approved, approvedAt := Some(q.now))]);
    assert MarkedApproved(db, id, q.now, d);
    ApprovalAnswers(db, id, actor, expectedTenant, q, d);
    HasCommissionFound(d, id);
    var o := ApplyInTx(d, id, q);
    assert o.value.applied;
    RowsAreEarned(d, id, q);
    AppliedElse(d, id, q);
  }

  // ------------------------------------------------------------------ void

  /** A commission of the sale that is not reversed. */
  predicate StandingRow(r: Row, id: SaleId) {
    r.sale == Some(id) && r.kind == Commission && r.status != LedgerStatus.Reversed
  }

  ghost predicate InPayment(db: Db, id: SaleId) {
    exists i :: 0 <= i < |db.ledger| && StandingRow(db.ledger[i], id) && db.ledger[i].status == LedgerStatus.Processing
  }

  /** The opposite amount on the same line; it claws a paid commission back, and else is closed from the start. */
  predicate Reverses(r: Row, v: Row) {
    && v.tenant == r.tenant && v.sale == r.sale && v.member == r.member && v.level == r.level && v.rateBps == r.rateBps
    && v.amount == -r.amount && v.kind == Reversal
    && v.status == (if r.status == LedgerStatus.Paid then LedgerStatus.Payable else LedgerStatus.Reversed)
    && v.summaryMonth.None? && v.maturesAt.None? && v.payout.None? && v.batch.None?
  }

  function StandingBefore(ledger: seq<Row>, id: SaleId, n: nat): nat
    requires n <= |ledger|
  {
    if n == 0 then 0 else StandingBefore(ledger, id, n - 1) + (if StandingRow(ledger[n - 1], id) then 1 else 0)
  }

  lemma {:induction false} StandingListed(ledger: seq<Row>, id: SaleId)
    ensures var ids := RowsWhere(ledger, VoidableOf(id));
            && |ids| == StandingBefore(ledger, id, |ledger|)
            && (forall i: nat :: i in ids <==> i < |ledger| && StandingRow(ledger[i], id))
            && (forall i: nat :: i < |ledger| && StandingRow(ledger[i], id) ==>
                  StandingBefore(ledger, id, i) < |ids| && ids[StandingBefore(ledger, id, i)] == i)
  {
    if ledger != [] {
      var n := |ledger| - 1;
      StandingListed(ledger[..n], id);
      forall i: nat | i <= n ensures StandingBefore(ledger[..n], id, i) == StandingBefore(ledger, id, i) {
        StandingSame(ledger, id, n, i);
      }
    }
  }

  lemma {:induction false} StandingSame(ledger: seq<Row>, id: SaleId, n: nat, i: nat)
    requires i <= n <= |ledger|
    ensures StandingBefore(ledger[..n], id, i) == StandingBefore(ledger, id, i)
  {
    if i > 0 {
      StandingSame(ledger, id, n, i - 1);
    }
  }

  lemma StandingAt(ledger: seq<Row>, id: SaleId, i: RowId)
    requires i < |ledger|
    ensures var ids := RowsWhere(ledger, VoidableOf(id));
            && (i in ids <==> StandingRow(ledger[i], id))
            && (StandingRow(ledger[i], id) ==> StandingBefore(ledger, id, i) < |ids| && ids[StandingBefore(ledger, id, i)] == i)
            && |ids| == StandingBefore(ledger, id, |ledger|)
  {
    StandingListed(ledger, id);
  }

  /** The refusal of a void looks at the rows that it would reverse. */
  lemma PaymentFound(db: Db, id: SaleId)
    ensures var ids := RowsWhere(db.ledger, VoidableOf(id));
            InPayment(db, id) <==> exists a :: 0 <= a < |ids| && db.ledger[ids[a]].status.Processing?
  {
    var ids := RowsWhere(db.ledger, VoidableOf(id));
    if i :| 0 <= i < |db.ledger| && StandingRow(db.ledger[i], id) && db.ledger[i].status == LedgerStatus.Processing {
      StandingAt(db.ledger, id, i);
      assert ids[StandingBefore(db.ledger, id, i)] == i;
    }
    if a :| 0 <= a < |ids| && db.ledger[ids[a]].status.Processing? {
      assert Selects(VoidableOf(id), ids[a], db.ledger[ids[a]]);
      assert StandingRow(db.ledger[ids[a]], id);
    }
  }

  /**
   A void, in every state of the tables: when it is refused, when there is nothing to do, and else how many
   rows it reverses.
   */
  lemma VoidAnswers(db: Db, id: SaleId, expectedTenant: Option<TenantId>, monthKey: MonthKey)
    ensures var o := VoidSale(db, id, expectedTenant, monthKey);
            && (o == Aborted(NotFound) <==> !Found(db, id, expectedTenant))
            && (o == Aborted(LinkedPayoutProcessing) <==>
                  Found(db, id, expectedTenant) && db.sales[id].status != Void && InPayment(db, id))
            && (o.Aborted? ==> o.error == NotFound || o.error == LinkedPayoutProcessing)
            && (Found(db, id, expectedTenant) && db.sales[id].status == Void ==> o == Committed(db, VoidResult(false, 0)))
            && (o.Committed? && db.sales[id].status != Void ==>
                  o.value == VoidResult(true, StandingBefore(db.ledger, id, |db.ledger|)))
  {
    PaymentFound(db, id);
    StandingListed(db.ledger, id);
  }

  /** One row after a void: a standing commission is closed unless it was paid, and every other row stays. */
  predicate RowAfterVoid(was: Row, now: Row, id: SaleId) {
    now == if StandingRow(was, id) && was.status != LedgerStatus.Paid then was.(status := LedgerStatus.Reversed) else was
  }

  /** The reversal of a row, behind the old rows, at the rank of the row. */
  predicate ReversedAtRank(before: seq<Row>, after: seq<Row>, id: SaleId, i: RowId)
    requires i < |before|
  {
    var at := |before| + StandingBefore(before, id, i);
    at < |after| && Reverses(before[i], after[at])
  }

  lemma VoidElse(db: Db, id: SaleId, expectedTenant: Option<TenantId>, monthKey: MonthKey)
    requires VoidSale(db, id, expectedTenant, monthKey).Committed? && id in db.sales && db.sales[id].status != Void
    ensures var o := VoidSale(db, id, expectedTenant, monthKey);
            && o.value.voided
            && o.db == db.(sales := db.sales[id := db.sales[id].(status := Void)], ledger := o.db.ledger, summaries := o.db.summaries)
  {}

  /**
   Row by row, a void closes every standing commission that was not paid and appends one reversal of each
   standing commission, in order; every other row stays.
   */
  lemma VoidedRow(db: Db, id: SaleId, expectedTenant: Option<TenantId>, monthKey: MonthKey, i: RowId)
    requires Inv(db) && VoidSale(db, id, expectedTenant, monthKey).Committed? && id in db.sales && db.sales[id].status != Void
    requires i < |db.ledger|
    ensures var d := VoidSale(db, id, expectedTenant, monthKey).db;
            && |d.ledger| == |db.ledger| + StandingBefore(db.ledger, id, |db.ledger|)
            && RowAfterVoid(db.ledger[i], d.ledger[i], id)
            && (StandingRow(db.ledger[i], id) ==> ReversedAtRank(db.ledger, d.ledger, id, i))
  {
    VoidElse(db, id, expectedTenant, monthKey);
    VoidMeaning(db, id, expectedTenant, monthKey);
    StandingAt(db.ledger, id, i);
    VoidedAt(db.ledger, VoidSale(db, id, expectedTenant, monthKey).db.ledger, RowsWhere(db.ledger, VoidableOf(id)), id, i);
  }

  lemma VoidedAt(before: seq<Row>, after: seq<Row>, ids: seq<RowId>, id: SaleId, i: RowId)
    requires VoidedBooks(before, after, ids) && i < |before|
    requires i in ids <==> StandingRow(before[i], id)
    requires StandingRow(before[i], id) ==> StandingBefore(before, id, i) < |ids| && ids[StandingBefore(before, id, i)] == i
    ensures RowAfterVoid(before[i], after[i], id)
    ensures StandingRow(before[i], id) ==> ReversedAtRank(before, after, id, i)
    ensures |after| == |before| + |ids|
  {
    if StandingRow(before[i], id) {
      var a := StandingBefore(before, id, i);
      assert after[ids[a]] == EngineSpec.Closed(before[ids[a]]);
      assert after[|before| + a] == ReversalOf(before[ids[a]]);
    }
  }

  // ------------------------------------------------------------------ delivery

  /** A pending commission of the sale that waits for its delivery. */
  predicate AwaitsDelivery(r: Row, id: SaleId) {
    r.sale == Some(id) && r.kind == Commission && r.status == LedgerStatus.Pending && r.maturesAt.None?
  }

  /** When a delivery is refused or was recorded before, and what it changes. */
  lemma DeliveryAnswers(db: Db, id: SaleId, at: int, policy: TenantPolicy)
    ensures var o := MarkDelivered(db, id, at, policy);
            && (o == Aborted(NotFound) <==> id !in db.sales)
            && (o == Aborted(NotApproved) <==> id in db.sales && db.sales[id].status != Approved)
            && (o == Committed(db, false) <==> id in db.sales && db.sales[id].status == Approved && db.sales[id].deliveredAt.Some?)
            && (o.Committed? && o.value <==> id in db.sales && db.sales[id].status == Approved && db.sales[id].deliveredAt.None?)
            && (o.Committed? && o.value ==>
                  o.db == db.(sales := db.sales[id := db.sales[id].(deliveredAt := Some(at))], ledger := o.db.ledger))
  {}

  /** The rows that wait for the delivery mature with it, or the tenant's days later; every other row stays. */
  lemma DeliveredRow(db: Db, id: SaleId, at: int, policy: TenantPolicy, i: RowId)
    requires MarkDelivered(db, id, at, policy).Committed? && MarkDelivered(db, id, at, policy).value && i < |db.ledger|
    ensures var d := MarkDelivered(db, id, at, policy).db;
            && |d.ledger| == |db.ledger|
            && d.ledger[i] == if AwaitsDelivery(db.ledger[i], id)
                              then db.ledger[i].(maturesAt := Some(if policy.maturationRule == DaysAfterDelivery
                                                                   then at + policy.maturationDays * 86_400_000 else at))
                              else db.ledger[i]
  {
    var ids := RowsWhere(db.ledger, AwaitingDelivery(id));
    var matures := if policy.maturationRule.DaysAfterDelivery? then at + policy.maturationDays * DAY_MS else at;
    SetMaturityMeaning(db.ledger, ids, matures);
    assert Selects(AwaitingDelivery(id), i, db.ledger[i]) <==> AwaitsDelivery(db.ledger[i], id);
    assert MaturityOnly(db.ledger[i], SetMaturity(db.ledger, ids, matures)[i]);
  }

  // ------------------------------------------------------------------ maturation

  /** A pending commission whose date has come, in a row that nobody else has locked. */
  predicate DueRow(ledger: seq<Row>, now: int, lockedRows: set<RowId>, i: int) {
    && 0 <= i < |ledger| && i !in lockedRows && ledger[i].kind == Commission && ledger[i].status == LedgerStatus.Pending
    && ledger[i].maturesAt.Some? && ledger[i].maturesAt.value <= now
  }

  function DueBefore(ledger: seq<Row>, now: int, lockedRows: set<RowId>, n: nat): nat {
    if n == 0 then 0 else DueBefore(ledger, now, lockedRows, n - 1) + (if DueRow(ledger, now, lockedRows, n - 1) then 1 else 0)
  }

  lemma {:induction false} DueSame(ledger: seq<Row>, now: int, lockedRows: set<RowId>, n: nat, i: nat)
    requires i <= n <= |ledger|
    ensures DueBefore(ledger[..n], now, lockedRows, i) == DueBefore(ledger, now, lockedRows, i)
  {
    if i > 0 {
      DueSame(ledger, now, lockedRows, n, i - 1);
    }
  }

  /** The list holds the due rows, each at its rank. */
  ghost predicate ListsDue(ledger: seq<Row>, now: int, lockedRows: set<RowId>, ids: seq<RowId>) {
    && |ids| == DueBefore(ledger, now, lockedRows, |ledger|)
    && (forall i: nat :: i in ids <==> DueRow(ledger, now, lockedRows, i))
    && (forall a: nat :: a < |ids| ==> DueBefore(ledger, now, lockedRows, ids[a]) == a)
  }

  lemma {:induction false} DueListed(ledger: seq<Row>, now: int, lockedRows: set<RowId>)
    ensures ListsDue(ledger, now, lockedRows, RowsWhere(ledger, Due(now, lockedRows)))
  {
    if ledger != [] {
      var n := |ledger| - 1;
      var front := RowsWhere(ledger[..n], Due(now, lockedRows));
      DueListed(ledger[..n], now, lockedRows);
      forall i: nat | i <= n ensures DueBefore(ledger[..n], now, lockedRows, i) == DueBefore(ledger, now, lockedRows, i) {
        DueSame(ledger, now, lockedRows, n, i);
      }
      forall a: nat | a < |front| ensures DueBefore(ledger, now, lockedRows, front[a]) == a {
        assert front[a] in front;
      }
    }
  }

  /** How many rows mature, and whether more are due. */
  lemma MaturationAnswers(db: Db, now: int, limit: int, lockedRows: set<RowId>, monthKey: MonthKey)
    ensures var o, due := Mature(db, now, limit, lockedRows, monthKey), DueBefore(db.ledger, now, lockedRows, |db.ledger|);
            && (o == Aborted(BadLimit) <==> limit <= 0) && (o.Aborted? ==> o.error == BadLimit)
            && (o.Committed? ==>
                  && o.value == MatureResult(if due <= limit then due else limit, due > limit)
                  && o.db == db.(ledger := o.db.ledger, summaries := o.db.summaries))
  {
    DueListed(db.ledger, now, lockedRows);
  }

  /** A row matures if and only if it is due and among the oldest `limit` due rows; every other row stays. */
  lemma MaturedRow(db: Db, now: int, limit: int, lockedRows: set<RowId>, monthKey: MonthKey, i: RowId)
    requires limit > 0 && i < |db.ledger|
    ensures var d := Mature(db, now, limit, lockedRows, monthKey);
            && d.Committed? && |d.db.ledger| == |db.ledger|
            && d.db.ledger[i] == if DueRow(db.ledger, now, lockedRows, i) && DueBefore(db.ledger, now, lockedRows, i) < limit
                                 then db.ledger[i].(status := LedgerStatus.Payable) else db.ledger[i]
  {
    var due, ids := RowsWhere(db.ledger, Due(now, lockedRows)), MatureBatch(db, now, limit, lockedRows);
    DueListed(db.ledger, now, lockedRows);
    MatureBatchDue(db, now, limit, lockedRows);
    MatureRowsMeaning(Books(db.ledger, db.summaries), db.sales, monthKey, ids);
    TakenByRank(db.ledger, now, lockedRows, due, limit, i);
  }

  lemma TakenByRank(ledger: seq<Row>, now: int, lockedRows: set<RowId>, due: seq<RowId>, limit: int, i: RowId)
    requires ListsDue(ledger, now, lockedRows, due) && limit > 0
    ensures i in (if |due| > limit then due[..limit] else due) <==>
              DueRow(ledger, now, lockedRows, i) && DueBefore(ledger, now, lockedRows, i) < limit
  {
    if DueRow(ledger, now, lockedRows, i) {
      assert i in due;
      var a :| 0 <= a < |due| && due[a] == i;
      assert DueBefore(ledger, now, lockedRows, due[a]) == a;
      if |due| > limit {
        assert a < limit ==> due[..limit][a] == i;
        forall b | 0 <= b < limit ensures due[..limit][b] == i ==> b == a {
          assert DueBefore(ledger, now, lockedRows, due[b]) == b;
        }
      }
    } else {
      assert i !in due;
      if |due| > limit {
        forall b | 0 <= b < limit ensures due[..limit][b] != i {
          assert due[b] in due;
        }
      }
    }
  }

  // ------------------------------------------------------------------ bonuses

  /** A bonus of any sign is one payable adjustment in its month, unless the month is locked. */
  lemma BonusAnswers(db: Db, tenant: TenantId, member: MemberId, amount: int, month: Month)
    ensures var o := AwardBonus(db, tenant, member, amount, month);
            && (o == Aborted(PeriodLocked) <==> (tenant, month) in db.locks) && (o.Aborted? ==> o.error == PeriodLocked)
            && (o.Committed? ==>
                  && o.value == |db.ledger| && |o.db.ledger| == |db.ledger| + 1 && db.ledger <= o.db.ledger
                  && o.db == db.(ledger := o.db.ledger, summaries := o.db.summaries)
                  && var r := o.db.ledger[|db.ledger|];
                  && r.tenant == tenant && r.member == member && r.amount == amount && r.summaryMonth == Some(month)
                  && r.sale.None? && r.level == 0 && r.rateBps == 0 && r.kind == Adjustment && r.status == LedgerStatus.Payable
                  && r.maturesAt.None? && r.payout.None? && r.batch.None?)
  {}
}
