/**
 What each step on a payout or a batch is answered, and exactly which rows, payouts and batches it changes:
 request, rejection, dispatch, settlement and failure.
 */
module PayoutSteps {
  import opened Prelude
  import opened Sums
  import opened Commission
  import opened Tables
  import opened Ledger
  import opened EngineSpec
  import opened EngineInv
  import opened SettleProofs
  import opened ReserveRows

  // ------------------------------------------------------------------ requests

  predicate OpenFor(x: Payout, tenant: TenantId, member: MemberId) {
    x.tenant == tenant && x.member == member && (x.status == Requested || x.status == PayoutStatus.Processing)
  }

  ghost predicate AnyOpenFor(db: Db, tenant: TenantId, member: MemberId) {
    exists i :: 0 <= i < |db.payouts| && OpenFor(db.payouts[i], tenant, member)
  }

  /** The oldest open payout that is at work, or the oldest one if none is. */
  ghost predicate ExistingFor(db: Db, tenant: TenantId, member: MemberId, id: PayoutId) {
    && id < |db.payouts| && OpenFor(db.payouts[id], tenant, member)
    && (forall j :: 0 <= j < id && OpenFor(db.payouts[j], tenant, member) ==>
          db.payouts[id].status == PayoutStatus.Processing && db.payouts[j].status != PayoutStatus.Processing)
    && (db.payouts[id].status != PayoutStatus.Processing ==>
          forall j :: 0 <= j < |db.payouts| && OpenFor(db.payouts[j], tenant, member) ==> db.payouts[j].status != PayoutStatus.Processing)
  }

  lemma {:induction false} FirstIsFirst(payouts: seq<Payout>, ids: seq<PayoutId>, st: PayoutStatus)
    requires forall a :: 0 <= a < |ids| ==> ids[a] < |payouts|
    ensures var r := FirstWith(payouts, ids, st);
            r.Some? ==> exists a :: 0 <= a < |ids| && ids[a] == r.value && payouts[ids[a]].status == st
                                    && forall b :: 0 <= b < a ==> payouts[ids[b]].status != st
  {
    if ids != [] && payouts[ids[0]].status != st {
      FirstIsFirst(payouts, ids[1..], st);
      var r := FirstWith(payouts, ids[1..], st);
      if r.Some? {
        var a :| 0 <= a < |ids| - 1 && ids[1..][a] == r.value && forall b :: 0 <= b < a ==> payouts[ids[1..][b]].status != st;
        forall b | 0 <= b < a + 1 ensures payouts[ids[b]].status != st {
          assert b > 0 ==> ids[b] == ids[1..][b - 1];
        }
        assert ids[a + 1] == r.value;
      }
    }
  }

  /** The list holds exactly the open payouts of the member, oldest first. */
  ghost predicate ListsOpen(db: Db, tenant: TenantId, member: MemberId, ids: seq<PayoutId>) {
    && (forall i: nat :: i in ids <==> i < |db.payouts| && OpenFor(db.payouts[i], tenant, member))
    && (forall a: nat, b: nat :: a < b < |ids| ==> ids[a] < ids[b])
    && (forall a :: 0 <= a < |ids| ==> ids[a] < |db.payouts|)
  }

  lemma OpenListed(db: Db, tenant: TenantId, member: MemberId)
    ensures ListsOpen(db, tenant, member, PayoutsWhere(db.payouts, OpenOf(tenant, member)))
  {
    var ids := PayoutsWhere(db.payouts, OpenOf(tenant, member));
    forall i: nat ensures i in ids <==> i < |db.payouts| && OpenFor(db.payouts[i], tenant, member) {
      assert i < |db.payouts| ==> (PayoutSelects(OpenOf(tenant, member), db.payouts[i]) <==> OpenFor(db.payouts[i], tenant, member));
    }
  }

  lemma OpenAtRank(db: Db, tenant: TenantId, member: MemberId, ids: seq<PayoutId>, a: nat, j: nat)
    requires ListsOpen(db, tenant, member, ids) && a < |ids| && j < ids[a] && OpenFor(db.payouts[j], tenant, member)
    ensures exists b :: 0 <= b < a && ids[b] == j
  {
    assert j in ids;
    var b :| 0 <= b < |ids| && ids[b] == j;
    assert b < a;
  }

  lemma ProcessingFirst(db: Db, tenant: TenantId, member: MemberId, ids: seq<PayoutId>)
    requires ListsOpen(db, tenant, member, ids) && FirstWith(db.payouts, ids, PayoutStatus.Processing).Some?
    ensures ExistingFor(db, tenant, member, FirstWith(db.payouts, ids, PayoutStatus.Processing).value)
  {
    FirstIsFirst(db.payouts, ids, PayoutStatus.Processing);
    var id := FirstWith(db.payouts, ids, PayoutStatus.Processing).value;
    var a :| 0 <= a < |ids| && ids[a] == id && forall b :: 0 <= b < a ==> db.payouts[ids[b]].status != PayoutStatus.Processing;
    forall j | 0 <= j < id && OpenFor(db.payouts[j], tenant, member) ensures db.payouts[j].status != PayoutStatus.Processing {
      OpenAtRank(db, tenant, member, ids, a, j);
    }
  }

  lemma RequestedFirst(db: Db, tenant: TenantId, member: MemberId, ids: seq<PayoutId>)
    requires ListsOpen(db, tenant, member, ids) && ids != [] && FirstWith(db.payouts, ids, PayoutStatus.Processing).None?
    ensures ExistingFor(db, tenant, member, ids[0])
  {
    assert ids[0] in ids;
    forall j | 0 <= j < |db.payouts| && OpenFor(db.payouts[j], tenant, member)
      ensures j >= ids[0] && db.payouts[j].status != PayoutStatus.Processing
    {
      assert j in ids;
      var b :| 0 <= b < |ids| && ids[b] == j;
      assert b > 0 ==> ids[0] < ids[b];
    }
  }

  /** Payable commissions, bonuses and clawbacks of the member, together. */
  function PayableTotal(db: Db, tenant: TenantId, member: MemberId): int {
    Sum(db.ledger, PayableAmount(tenant, member))
  }

  /** The member is ready and its payable total is positive and reaches the tenant's minimum. */
  predicate Requestable(db: Db, tenant: TenantId, member: MemberId, q: RequestInputs) {
    q.ready && PayableTotal(db, tenant, member) > 0 && PayableTotal(db, tenant, member) >= q.payoutMin
  }

  lemma RequestShape(db: Db, tenant: TenantId, member: MemberId, q: RequestInputs)
    ensures var o, ids := RequestPayout(db, tenant, member, q), PayoutsWhere(db.payouts, OpenOf(tenant, member));
            o == if !q.known then Aborted(NotFound) else if q.blocked then Aborted(Blocked)
                 else if ids != [] then
                   var first := FirstWith(db.payouts, ids, PayoutStatus.Processing);
                   Committed(db, RequestResult(if first.Some? then first.value else ids[0], false))
                 else if !Requestable(db, tenant, member, q) then Aborted(Error.PayoutNotReady)
                 else Committed(db.(payouts := db.payouts +
                                    [Payout(tenant, member, None, PayableTotal(db, tenant, member), Requested, q.period,
                                            Some(ActiveKey(tenant, member, q.period)))]),
                                RequestResult(|db.payouts|, true))
  {
    NetRows(db.ledger, tenant, member);
  }

  /**
   A payout request, in every state: an unknown or blocked member is refused; an open payout is answered
   with, the one at work before a waiting one and the oldest of those; else one is opened over all that is
   payable, if that is ready, positive and enough.
   */
  lemma RequestAnswers(db: Db, tenant: TenantId, member: MemberId, q: RequestInputs)
    ensures var o := RequestPayout(db, tenant, member, q);
            && (o == Aborted(NotFound) <==> !q.known)
            && (o == Aborted(Blocked) <==> q.known && q.blocked)
            && (o == Aborted(Error.PayoutNotReady) <==>
                  q.known && !q.blocked && !AnyOpenFor(db, tenant, member) && !Requestable(db, tenant, member, q))
            && (o.Committed? && !o.value.created <==> q.known && !q.blocked && AnyOpenFor(db, tenant, member))
            && (o.Committed? && !o.value.created ==> o.db == db && ExistingFor(db, tenant, member, o.value.id))
            && (o.Committed? && o.value.created <==>
                  q.known && !q.blocked && !AnyOpenFor(db, tenant, member) && Requestable(db, tenant, member, q))
            && (o.Committed? && o.value.created ==>
                  && o.value.id == |db.payouts|
                  && o.db == db.(payouts := db.payouts +
                                 [Payout(tenant, member, None, PayableTotal(db, tenant, member), Requested, q.period,
                                         Some(ActiveKey(tenant, member, q.period)))]))
  {
    RequestShape(db, tenant, member, q);
    OpenListed(db, tenant, member);
    var ids := PayoutsWhere(db.payouts, OpenOf(tenant, member));
    if ids != [] {
      assert ids[0] in ids;
      if FirstWith(db.payouts, ids, PayoutStatus.Processing).Some? {
        ProcessingFirst(db, tenant, member, ids);
      } else {
        RequestedFirst(db, tenant, member, ids);
      }
    }
  }

  /** Only a waiting payout of the tenant is rejected; it is closed, and nothing else changes. */
  lemma RejectAnswers(db: Db, tenant: TenantId, id: PayoutId)
    ensures var o := RejectRequest(db, tenant, id);
            && (o == Aborted(NotFound) <==> !(id < |db.payouts| && db.payouts[id].tenant == tenant))
            && (o == Aborted(NotRequested) <==> id < |db.payouts| && db.payouts[id].tenant == tenant && db.payouts[id].status != Requested)
            && (o.Committed? <==> id < |db.payouts| && db.payouts[id].tenant == tenant && db.payouts[id].status == Requested)
            && (o.Committed? ==>
                  o.value == id && o.db == db.(payouts := db.payouts[id := db.payouts[id].(status := Rejected, activeKey := None)]))
  {}

  // ------------------------------------------------------------------ batches

  predicate OfTenant(db: Db, tenant: TenantId, b: BatchId) {
    b < |db.batches| && db.batches[b].tenant == tenant
  }

  /** The number of payouts of a batch. */
  function PayoutsOf(payouts: seq<Payout>, b: BatchId): nat {
    if payouts == [] then 0 else PayoutsOf(payouts[..|payouts| - 1], b) + (if payouts[|payouts| - 1].batch == Some(b) then 1 else 0)
  }

  lemma BatchListStep(payouts: seq<Payout>, b: BatchId)
    requires payouts != []
    ensures var n := |payouts| - 1;
            |PayoutsWhere(payouts, OfBatch(b))| == |PayoutsWhere(payouts[..n], OfBatch(b))| + (if payouts[n].batch == Some(b) then 1 else 0)
  {}

  lemma {:induction false} BatchListed(payouts: seq<Payout>, b: BatchId)
    ensures |PayoutsWhere(payouts, OfBatch(b))| == PayoutsOf(payouts, b)
  {
    if payouts != [] {
      BatchListed(payouts[..|payouts| - 1], b);
      BatchListStep(payouts, b);
    }
  }

  /**
   Dispatch, in every reachable state: once, of a processing batch whose compliance still holds; a batch that
   is on its way or settled is left alone and reported.
   */
  lemma DispatchAnswers(db: Db, tenant: TenantId, b: BatchId, compliant: bool)
    requires Inv(db)
    ensures var o := Dispatch(db, tenant, b, compliant);
            && (o == Aborted(NotFound) <==> !OfTenant(db, tenant, b))
            && (OfTenant(db, tenant, b) ==>
                  match db.batches[b].status
                  case Processing =>
                    o == if !compliant then Aborted(ComplianceChanged)
                         else Committed(db.(batches := db.batches[b := db.batches[b].(status := Dispatched)]),
                                        BatchResult(true, PayoutsOf(db.payouts, b)))
                  case Failed => o == Aborted(WrongBatchState)
                  case _ => o == Committed(db, BatchResult(false, PayoutsOf(db.payouts, b))))
  {
    BatchListed(db.payouts, b);
    if OfTenant(db, tenant, b) && db.batches[b].status.Processing? {
      LiveBatchIntact(db, b);
    }
  }

  /** When a settlement is refused, repeated, or made. */
  lemma SettleAnswers(db: Db, tenant: TenantId, b: BatchId)
    requires Inv(db)
    ensures var o := EngineSpec.Settle(db, tenant, b);
            && (o == Aborted(NotFound) <==> !OfTenant(db, tenant, b))
            && (o == Aborted(WrongBatchState) <==>
                  OfTenant(db, tenant, b) && (db.batches[b].status == BatchStatus.Processing || db.batches[b].status == BatchStatus.Failed))
            && (OfTenant(db, tenant, b) && db.batches[b].status == Settled ==> o == Committed(db, BatchResult(false, PayoutsOf(db.payouts, b))))
            && (OfTenant(db, tenant, b) && db.batches[b].status == Dispatched ==>
                  o.Committed? && o.value == BatchResult(true, PayoutsOf(db.payouts, b)))
  {
    BatchListed(db.payouts, b);
    SettleKeeps(db, tenant, b);
  }

  lemma FailAnswers(db: Db, tenant: TenantId, b: BatchId)
    requires Inv(db)
    ensures var o := EngineSpec.Fail(db, tenant, b);
            && (o == Aborted(NotFound) <==> !OfTenant(db, tenant, b))
            && (o == Aborted(WrongBatchState) <==>
                  OfTenant(db, tenant, b) && (db.batches[b].status == Dispatched || db.batches[b].status == Settled))
            && (OfTenant(db, tenant, b) && db.batches[b].status == BatchStatus.Failed ==>
                  o == Committed(db, BatchResult(false, PayoutsOf(db.payouts, b))))
            && (OfTenant(db, tenant, b) && db.batches[b].status == BatchStatus.Processing ==>
                  o.Committed? && o.value == BatchResult(true, PayoutsOf(db.payouts, b)))
  {
    BatchListed(db.payouts, b);
    FailKeeps(db, tenant, b);
  }

  /** What the end of a batch leaves besides rows and payouts: its status, and the index. */
  predicate EndsBatch(db: Db, d: Db, b: BatchId, status: BatchStatus) {
    && b < |db.batches|
    && d == db.(ledger := d.ledger, payouts := d.payouts, summaries := d.summaries, batches := db.batches[b := db.batches[b].(status := status)])
    && |d.ledger| == |db.ledger| && |d.payouts| == |db.payouts|
  }

  /** Settling a dispatched batch pays its rows and its payouts, and no other. */
  lemma SettledRow(db: Db, tenant: TenantId, b: BatchId, i: RowId, id: PayoutId)
    requires Inv(db) && OfTenant(db, tenant, b) && db.batches[b].status == Dispatched
    ensures var d := EngineSpec.Settle(db, tenant, b);
            && d.Committed? && EndsBatch(db, d.db, b, Settled)
            && (i < |db.ledger| ==>
                  d.db.ledger[i] == if db.ledger[i].batch == Some(b) then db.ledger[i].(status := LedgerStatus.Paid) else db.ledger[i])
            && (id < |db.payouts| ==>
                  d.db.payouts[id] == if db.payouts[id].batch == Some(b) then db.payouts[id].(status := PayoutStatus.Paid, activeKey := None)
                                      else db.payouts[id])
  {
    SettleKeeps(db, tenant, b);
    EndCounts(db, b, SettleEnding(b));
    if i < |db.ledger| {
      EndRow(db, b, SettleEnding(b), i);
    }
  }

  /** Failing a processing batch gives its rows back and ends its payouts, and changes no other. */
  lemma FailedRow(db: Db, tenant: TenantId, b: BatchId, i: RowId, id: PayoutId)
    requires Inv(db) && OfTenant(db, tenant, b) && db.batches[b].status == BatchStatus.Processing
    ensures var d := EngineSpec.Fail(db, tenant, b);
            && d.Committed? && EndsBatch(db, d.db, b, BatchStatus.Failed)
            && (i < |db.ledger| ==>
                  d.db.ledger[i] == if db.ledger[i].batch == Some(b)
                                    then db.ledger[i].(status := LedgerStatus.Payable, payout := None, batch := None) else db.ledger[i])
            && (id < |db.payouts| ==>
                  d.db.payouts[id] == if db.payouts[id].batch == Some(b) then db.payouts[id].(status := PayoutStatus.Failed, activeKey := None)
                                      else db.payouts[id])
  {
    FailKeeps(db, tenant, b);
    EndCounts(db, b, FailEnding(b));
    if i < |db.ledger| {
      EndRow(db, b, FailEnding(b), i);
    }
  }
}
