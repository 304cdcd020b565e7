/** What the money machine guarantees in every reachable state of its tables. */
module EngineTheorems {
  import opened Prelude
  import opened Commission
  import opened Tables
  import opened Ledger
  import opened EngineSpec
  import opened EngineInv
  import opened BooksProofs
  import opened SettleProofs
  import opened ReserveProofs
  import opened ReserveExact
  import opened EngineRuns

  // ------------------------------------------------------------------ summaries, guards, links

  /** In every reachable state, each column of each summary cell is the plain sum of the ledger. */
  lemma SummariesMatchLedger(db: Db, k: Key, st: LedgerStatus)
    requires Reached(db)
    ensures Col(At(db.summaries, k), st) == LedgerSum(db.sales, db.ledger, k, st)
  {
    Reachable(db);
  }

  /** The errors that the engine raises when rows changed behind its back, or when its own sums do not add up. */
  predicate Internal(e: Error) {
    e in {RowsChanged, NotIntact, NoPayouts, PayoutsChanged, CeilingExceeded}
  }

  lemma SettleGuards(db: Db, t: TenantId, b: BatchId)
    requires Inv(db)
    ensures EngineSpec.Settle(db, t, b).Aborted? ==> !Internal(EngineSpec.Settle(db, t, b).error)
    ensures EngineSpec.Fail(db, t, b).Aborted? ==> !Internal(EngineSpec.Fail(db, t, b).error)
  {
    SettleKeeps(db, t, b);
    FailKeeps(db, t, b);
  }

  lemma ReserveGuards(db: Db, p: ReserveParams, env: ReserveEnv)
    requires Inv(db)
    ensures ReserveBatch(db, p, env).Aborted? ==> !Internal(ReserveBatch(db, p, env).error)
  {
    var ts := Targets(db, p, env);
    if ts.Ok? {
      SelectErrors(db, p, env, ts.value);
      var s := Select(db, p, env, ts.value);
      if s.Ok? && !p.preview && s.value.reservations != [] {
        ReservationsClaimable(db, p, env, ts.value);
        ClaimAllKeep(db, p, env, s.value.reservations);
      }
    }
  }

  /** An approval is refused for its own reasons, or as the application is that it leads to. */
  lemma ApproveErrors(db: Db, id: SaleId, actor: Option<UserId>, expectedTenant: Option<TenantId>, q: ApplyInputs)
    requires Approve(db, id, actor, expectedTenant, q).Aborted?
    ensures Approve(db, id, actor, expectedTenant, q).error in {NotFound, VoidedSale, SelfApproval, NoEffectivePlan, PeriodLocked}
  {
    if id in db.sales {
      CeilingGuardUnreachable(db, id, q);
      CeilingGuardUnreachable(db.(sales := db.sales[id := db.sales[id].(status := Approved, approvedAt := Some(q.now))]), id, q);
    }
  }

  lemma ApplyErrors(db: Db, id: SaleId, q: ApplyInputs)
    requires Apply(db, id, q).Aborted?
    ensures Apply(db, id, q).error in {NotFound, NoEffectivePlan, PeriodLocked}
  {
    if id in db.sales {
      CeilingGuardUnreachable(db, id, q);
    }
  }

  lemma ApplyGuards(db: Db, s: Step)
    requires s.DoApprove? || s.DoApply?
    ensures Perform(db, s).Refused? ==> !Internal(Perform(db, s).error)
  {
    match s
    case DoApprove(id, actor, expected, q) =>
      if Approve(db, id, actor, expected, q).Aborted? { ApproveErrors(db, id, actor, expected, q); }
    case DoApply(id, q) =>
      if Apply(db, id, q).Aborted? { ApplyErrors(db, id, q); }
  }

  lemma BatchGuards(db: Db, s: Step)
    requires Inv(db) && (s.DoReserve? || s.DoDispatch? || s.DoSettle? || s.DoFail?)
    ensures Perform(db, s).Refused? ==> !Internal(Perform(db, s).error)
  {
    match s
    case DoReserve(p, env) => ReserveGuards(db, p, env);
    case DoDispatch(t, b, compliant) => DispatchKeeps(db, t, b, compliant);
    case DoSettle(t, b) => SettleGuards(db, t, b);
    case DoFail(t, b) => SettleGuards(db, t, b);
  }

  lemma OtherGuards(db: Db, s: Step)
    requires !(s.DoApprove? || s.DoApply? || s.DoReserve? || s.DoDispatch? || s.DoSettle? || s.DoFail?)
    ensures Perform(db, s).Refused? ==> !Internal(Perform(db, s).error)
  {}

  /** No reachable state meets one of those guards. */
  lemma GuardsNeverFire(db: Db, s: Step)
    requires Reached(db)
    ensures Perform(db, s).Refused? ==> !Internal(Perform(db, s).error)
  {
    Reachable(db);
    if s.DoApprove? || s.DoApply? {
      ApplyGuards(db, s);
    } else if s.DoReserve? || s.DoDispatch? || s.DoSettle? || s.DoFail? {
      BatchGuards(db, s);
    } else {
      OtherGuards(db, s);
    }
  }

  /** The live batch that holds a row as one of its items. */
  predicate HeldBy(db: Db, i: RowId, b: BatchId) {
    && b < |db.batches| && (db.batches[b].status.Processing? || db.batches[b].status.Dispatched?)
    && Touches(db.batches[b].items, i)
  }

  /** A row is processing exactly when a live batch holds it, and then one batch does, once; a payable row has no links. */
  lemma ProcessingRowsInOneBatch(db: Db, i: RowId)
    requires Reached(db) && i < |db.ledger|
    ensures db.ledger[i].status.Processing? <==> exists b: nat :: HeldBy(db, i, b)
    ensures forall b: nat :: HeldBy(db, i, b) ==> db.ledger[i].batch == Some(b) && DistinctRows(db.batches[b].items)
    ensures db.ledger[i].status.Payable? ==> db.ledger[i].payout.None? && db.ledger[i].batch.None?
  {
    Reachable(db);
    forall b: nat | HeldBy(db, i, b) ensures db.ledger[i].status.Processing? && db.ledger[i].batch == Some(b) && DistinctRows(db.batches[b].items) {
      HeldRow(db, i, b);
    }
    if db.ledger[i].status.Processing? {
      ProcessingIsHeld(db, i);
    }
    assert RowOk(db.sales, db.ledger[i]);
  }

  lemma ProcessingIsHeld(db: Db, i: RowId)
    requires Inv(db) && i < |db.ledger| && db.ledger[i].status.Processing?
    ensures db.ledger[i].batch.Some? && HeldBy(db, i, db.ledger[i].batch.value)
  {
    assert RowLinked(db.payouts, db.batches, i, db.ledger[i]);
    var b, id := db.ledger[i].batch.value, db.ledger[i].payout.value;
    var n :| 0 <= n < |db.batches[b].items| && db.batches[b].items[n].row == i && db.batches[b].items[n].payout == id;
  }

  lemma HeldRow(db: Db, i: RowId, b: BatchId)
    requires Inv(db) && HeldBy(db, i, b)
    ensures i < |db.ledger| && db.ledger[i].status.Processing? && db.ledger[i].batch == Some(b) && DistinctRows(db.batches[b].items)
  {
    assert BatchOk(db.sales, db.ledger, db.payouts, db.batches[b], b);
    var n :| 0 <= n < |db.batches[b].items| && db.batches[b].items[n].row == i;
    assert ItemOk(db.sales, db.ledger, db.payouts, db.batches[b], b, db.batches[b].items[n]);
  }

  // ------------------------------------------------------------------ payouts

  /** A payout in settlement is the sum of its items and of the rows that point to it. */
  lemma PayoutIsItsRows(db: Db, id: PayoutId)
    requires Reached(db) && id < |db.payouts|
    ensures var p := db.payouts[id];
            p.status.Processing? || p.status.Paid? ==>
              && p.batch.Some? && p.batch.value < |db.batches|
              && p.total == ItemSum(db.batches[p.batch.value].items, id) == PayoutSum(db.ledger, id)
  {
    Reachable(db);
    assert PayoutOk(db.batches, id, db.payouts[id]) && Funded(db.ledger, id, db.payouts[id]);
  }

  /** At most one open payout a member (so also one a period), and the active key marks exactly the open ones. */
  lemma OneOpenPayout(db: Db, i: PayoutId, j: PayoutId)
    requires Reached(db) && i < |db.payouts| && j < |db.payouts|
    ensures var ps := db.payouts;
            && (ps[i].activeKey == Some(ActiveKey(ps[i].tenant, ps[i].member, ps[i].period)) <==> Open(ps[i]))
            && (ps[i].activeKey.None? <==> !Open(ps[i]))
            && (Open(ps[i]) && Open(ps[j]) && ps[i].tenant == ps[j].tenant && ps[i].member == ps[j].member ==> i == j)
  {
    Reachable(db);
    assert PayoutOk(db.batches, i, db.payouts[i]);
    assert OneOpen(db.payouts);
  }

  predicate PaidTo(t: TenantId, m: MemberId, p: Payout) {
    p.tenant == t && p.member == m && p.status.Paid?
  }

  function PaidPayouts(payouts: seq<Payout>, t: TenantId, m: MemberId): int {
    if payouts == [] then 0
    else PaidPayouts(payouts[..|payouts| - 1], t, m)
         + (if PaidTo(t, m, payouts[|payouts| - 1]) then payouts[|payouts| - 1].total else 0)
  }

  function PaidRows(ledger: seq<Row>, t: TenantId, m: MemberId): int {
    if ledger == [] then 0
    else
      var r := ledger[|ledger| - 1];
      PaidRows(ledger[..|ledger| - 1], t, m) + (if r.tenant == t && r.member == m && r.status.Paid? then r.amount else 0)
  }

  /** The rows of a ledger prefix that point to a paid payout of the member, payout by payout. */
  function PaidThrough(ledger: seq<Row>, payouts: seq<Payout>, t: TenantId, m: MemberId): int {
    if payouts == [] then 0
    else PaidThrough(ledger, payouts[..|payouts| - 1], t, m)
         + (if PaidTo(t, m, payouts[|payouts| - 1]) then PayoutSum(ledger, |payouts| - 1) else 0)
  }

  /** Counting payout by payout and counting row by row meet. */
  lemma {:induction false} PaidThroughRow(ledger: seq<Row>, payouts: seq<Payout>, t: TenantId, m: MemberId)
    requires ledger != []
    ensures var r := ledger[|ledger| - 1];
            PaidThrough(ledger, payouts, t, m) == PaidThrough(ledger[..|ledger| - 1], payouts, t, m)
            + (if r.payout.Some? && r.payout.value < |payouts| && PaidTo(t, m, payouts[r.payout.value]) then r.amount else 0)
  {
    if payouts != [] {
      PaidThroughRow(ledger, payouts[..|payouts| - 1], t, m);
    }
  }

  lemma {:induction false} PaidThroughNone(payouts: seq<Payout>, t: TenantId, m: MemberId)
    ensures PaidThrough([], payouts, t, m) == 0
  {
    if payouts != [] {
      PaidThroughNone(payouts[..|payouts| - 1], t, m);
    }
  }

  /** A row is paid to the member exactly when it points to a paid payout of the member. */
  predicate PaidLink(payouts: seq<Payout>, t: TenantId, m: MemberId, r: Row) {
    (r.tenant == t && r.member == m && r.status.Paid?)
    <==> (r.payout.Some? && r.payout.value < |payouts| && PaidTo(t, m, payouts[r.payout.value]))
  }

  lemma RowPaidLink(db: Db, t: TenantId, m: MemberId, i: RowId)
    requires Inv(db) && i < |db.ledger|
    ensures PaidLink(db.payouts, t, m, db.ledger[i])
  {
    var r := db.ledger[i];
    assert RowLinked(db.payouts, db.batches, i, r) && RowOk(db.sales, r);
    if InSettlement(r.status) {
      var b, id := r.batch.value, r.payout.value;
      assert BatchOk(db.sales, db.ledger, db.payouts, db.batches[b], b);
      var n :| 0 <= n < |db.batches[b].items| && db.batches[b].items[n].row == i && db.batches[b].items[n].payout == id;
      assert ItemOk(db.sales, db.ledger, db.payouts, db.batches[b], b, db.batches[b].items[n]);
      assert PayoutOk(db.batches, id, db.payouts[id]);
    }
  }

  lemma {:induction false} RowsThroughPayouts(ledger: seq<Row>, payouts: seq<Payout>, t: TenantId, m: MemberId)
    requires forall i :: 0 <= i < |ledger| ==> PaidLink(payouts, t, m, ledger[i])
    ensures PaidRows(ledger, t, m) == PaidThrough(ledger, payouts, t, m)
  {
    if ledger == [] {
      PaidThroughNone(payouts, t, m);
    } else {
      RowsThroughPayouts(ledger[..|ledger| - 1], payouts, t, m);
      PaidThroughRow(ledger, payouts, t, m);
      assert PaidLink(payouts, t, m, ledger[|ledger| - 1]);
    }
  }

  lemma {:induction false} TotalsThroughPayouts(ledger: seq<Row>, payouts: seq<Payout>, t: TenantId, m: MemberId)
    requires forall id :: 0 <= id < |payouts| ==> Funded(ledger, id, payouts[id])
    ensures PaidPayouts(payouts, t, m) == PaidThrough(ledger, payouts, t, m)
  {
    if payouts != [] {
      var front, id := payouts[..|payouts| - 1], |payouts| - 1;
      assert forall n :: 0 <= n < |front| ==> Funded(ledger, n, payouts[n]);
      TotalsThroughPayouts(ledger, front, t, m);
      assert Funded(ledger, id, payouts[id]);
    }
  }

  /** What a member has been paid is the same counted by payouts and by ledger rows. */
  lemma PaidTwice(db: Db, t: TenantId, m: MemberId)
    requires Reached(db)
    ensures PaidPayouts(db.payouts, t, m) == PaidRows(db.ledger, t, m)
  {
    Reachable(db);
    forall i | 0 <= i < |db.ledger| ensures PaidLink(db.payouts, t, m, db.ledger[i]) {
      RowPaidLink(db, t, m, i);
    }
    RowsThroughPayouts(db.ledger, db.payouts, t, m);
    TotalsThroughPayouts(db.ledger, db.payouts, t, m);
  }

  // ------------------------------------------------------------------ reserve, then fail

  /** A payout that a failed batch leaves behind. */
  function Spent(was: Payout, b: BatchId, total: int): Payout {
    was.(batch := Some(b), total := total, status := PayoutStatus.Failed, activeKey := None)
  }

  /** The old payout differs if and only if a reservation had consumed it, and then it is an open request that ended failed. */
  ghost predicate OldSpent(before: seq<Payout>, after: seq<Payout>, rs: seq<Reservation>, b: BatchId, i: PayoutId) {
    && i < |before| && i < |after|
    && (after[i] != before[i] <==> Uses(rs, i))
    && (forall k :: 0 <= k < |rs| && rs[k].request == Some(i) ==>
          before[i].status.Requested? && after[i] == Spent(before[i], b, rs[k].amount))
  }

  /** The j-th reservation without a request has left one failed payout. */
  predicate NewSpent(before: seq<Payout>, after: seq<Payout>, p: ReserveParams, rs: seq<Reservation>, b: BatchId, j: nat) {
    && j < |FreshOf(rs)| && |before| + j < |after|
    && var res := FreshOf(rs)[j];
       after[|before| + j] == Payout(p.tenant, res.member, Some(b), res.amount, PayoutStatus.Failed, p.period, None)
  }

  ghost predicate OldsSpent(before: seq<Payout>, after: seq<Payout>, rs: seq<Reservation>, b: BatchId) {
    forall i: nat :: i < |before| ==> OldSpent(before, after, rs, b, i)
  }

  ghost predicate NewsSpent(before: seq<Payout>, after: seq<Payout>, p: ReserveParams, rs: seq<Reservation>, b: BatchId) {
    |after| == |before| + |FreshOf(rs)| && forall j: nat :: j < |FreshOf(rs)| ==> NewSpent(before, after, p, rs, b, j)
  }

  /** Old payouts as above, and one new failed payout for each reservation that had no request. */
  ghost predicate PayoutsSpent(before: seq<Payout>, after: seq<Payout>, p: ReserveParams, rs: seq<Reservation>, b: BatchId) {
    OldsSpent(before, after, rs, b) && NewsSpent(before, after, p, rs, b)
  }

  ghost predicate SameIndex(before: map<Key, Cell>, after: map<Key, Cell>) {
    forall k, st :: Col(At(after, k), st) == Col(At(before, k), st)
  }

  /**
   A reservation can always be failed, and that gives back every ledger row and every summary column
   exactly. The payouts do not come back: exactly the consumed requests have turned from open to failed,
   and every other reservation has left one failed payout.
   */
  lemma ReserveThenFail(db: Db, p: ReserveParams, env: ReserveEnv)
    requires Inv(db)
    ensures var r := ReserveBatch(db, p, env);
            r.Committed? && r.value.batch.Some? ==>
              var f := EngineSpec.Fail(r.db, p.tenant, r.value.batch.value);
              && f.Committed? && f.db.ledger == db.ledger && f.db.sales == db.sales && f.db.locks == db.locks
              && SameIndex(db.summaries, f.db.summaries)
              && PayoutsSpent(db.payouts, f.db.payouts, p, r.value.selection.reservations, r.value.batch.value) == true
  {
    var r := ReserveBatch(db, p, env);
    if r.Committed? && r.value.batch.Some? {
      ReserveTakes(db, p, env);
      ReserveKeeps(db, p, env);
      ReserveExactly(db, p, env);
      var b := r.value.batch.value;
      FailKeeps(r.db, p.tenant, b);
      RowsBack(db, r.db, b);
      IndexBack(db, r.db, b);
      PayoutsBack(db, r.db, p, r.value.selection.reservations, b);
    }
  }

  /** The same on the tables: which payouts differ after a reservation and its failure, and who has a new one. */
  lemma FailedOnTables(db: Db, p: ReserveParams, env: ReserveEnv, i: PayoutId, m: MemberId)
    requires Inv(db) && i < |db.payouts|
    ensures var r := ReserveBatch(db, p, env);
            r.Committed? && r.value.batch.Some? ==>
              var f := EngineSpec.Fail(r.db, p.tenant, r.value.batch.value);
              && f.Committed? && Targets(db, p, env).Ok? && |db.payouts| <= |f.db.payouts|
              && (f.db.payouts[i] != db.payouts[i] <==>
                    Consumable(db, p, env, i) && db.payouts[i].member in Targets(db, p, env).value)
              && ((exists j :: |db.payouts| <= j < |f.db.payouts| && f.db.payouts[j].member == m) <==>
                    Freshly(db, p, env, m) && m in Targets(db, p, env).value)
  {
    var r := ReserveBatch(db, p, env);
    ReserveThenFail(db, p, env);
    BatchOpened(db, p, env);
    if r.Committed? && r.value.batch.Some? {
      var after := EngineSpec.Fail(r.db, p.tenant, r.value.batch.value).db.payouts;
      var ts, rs := Targets(db, p, env).value, r.value.selection.reservations;
      SelectConsumes(db, p, env, ts, i);
      SelectFresh(db, p, env, ts, m);
      assert OldSpent(db.payouts, after, rs, r.value.batch.value, i);
      NewMembers(db.payouts, after, p, rs, r.value.batch.value, m);
    }
  }

  lemma NewMembers(before: seq<Payout>, after: seq<Payout>, p: ReserveParams, rs: seq<Reservation>, b: BatchId, m: MemberId)
    requires PayoutsSpent(before, after, p, rs, b)
    ensures (exists j :: |before| <= j < |after| && after[j].member == m) <==> FreshFor(rs, m)
  {
    forall j: nat | |before| <= j < |after| ensures after[j].member == FreshOf(rs)[j - |before|].member {
      assert NewSpent(before, after, p, rs, b, j - |before|);
    }
    if FreshFor(rs, m) {
      var res :| res in FreshOf(rs) && res.member == m;
      var j :| 0 <= j < |FreshOf(rs)| && FreshOf(rs)[j] == res;
      assert after[|before| + j].member == m;
    }
  }

  ghost predicate JustTaken(db: Db, d: Db, b: BatchId) {
    Inv(db) && Inv(d) && Taken(db, b, d) && Ends(d, b, FailEnding(b)) && b == |db.batches|
  }

  lemma RowBack(db: Db, d: Db, b: BatchId, i: RowId)
    requires JustTaken(db, d, b) && i < |db.ledger|
    ensures |EndLedger(d, b, FailEnding(b))| == |db.ledger| && EndLedger(d, b, FailEnding(b))[i] == db.ledger[i]
  {
    EndRow(d, b, FailEnding(b), i);
    assert RowTaken(db.ledger[i], d.ledger[i], b);
    assert RowLinked(db.payouts, db.batches, i, db.ledger[i]) && RowOk(db.sales, db.ledger[i]);
  }

  lemma RowsBack(db: Db, d: Db, b: BatchId)
    requires JustTaken(db, d, b)
    ensures EndLedger(d, b, FailEnding(b)) == db.ledger
  {
    forall i | 0 <= i < |db.ledger| ensures EndLedger(d, b, FailEnding(b))[i] == db.ledger[i] {
      RowBack(db, d, b, i);
    }
  }

  /** With the same ledger the index has to be the same. */
  lemma IndexBack(db: Db, d: Db, b: BatchId)
    requires JustTaken(db, d, b)
    ensures SameIndex(db.summaries, EndDb(d, b, FailEnding(b)).summaries)
  {
    EndKeeps(d, b, FailEnding(b));
    RowsBack(db, d, b);
    OneIndex(db.sales, db.ledger, db.summaries, EndDb(d, b, FailEnding(b)).summaries);
  }

  lemma OneIndex(sales: map<SaleId, Sale>, ledger: seq<Row>, a: map<Key, Cell>, b: map<Key, Cell>)
    requires Balanced(sales, ledger, a) && Balanced(sales, ledger, b)
    ensures SameIndex(a, b)
  {}

  /** What failing batch `b` makes of a payout. */
  function Ended(was: Payout, b: BatchId): Payout {
    if was.batch == Some(b) then was.(status := PayoutStatus.Failed, activeKey := None) else was
  }

  ghost predicate AllEnded(taken: seq<Payout>, after: seq<Payout>, b: BatchId) {
    |after| == |taken| && forall i: nat :: i < |taken| ==> after[i] == Ended(taken[i], b)
  }

  lemma PayoutsEnded(d: Db, b: BatchId)
    requires Inv(d) && Ends(d, b, FailEnding(b))
    ensures AllEnded(d.payouts, EndPayouts(d, b, FailEnding(b)), b) == true
  {
    EndCounts(d, b, FailEnding(b));
  }

  /** Old payouts were in earlier batches only, and the consumed ones were open requests. */
  ghost predicate EarlierOnly(before: seq<Payout>, rs: seq<Reservation>, b: BatchId) {
    && (forall i: nat :: i < |before| ==> before[i].batch != Some(b))
    && (forall k :: 0 <= k < |rs| && rs[k].request.Some? ==>
          rs[k].request.value < |before| && before[rs[k].request.value].status.Requested?)
  }

  lemma NoneInNewBatch(db: Db, p: ReserveParams, rs: seq<Reservation>)
    requires Inv(db) && RequestsOpen(db, p, rs)
    ensures EarlierOnly(db.payouts, rs, |db.batches|) == true
  {
    forall i: nat | i < |db.payouts| ensures db.payouts[i].batch != Some(|db.batches|) {
      assert PayoutOk(db.batches, i, db.payouts[i]);
    }
  }

  lemma OldPayoutBack(before: seq<Payout>, taken: seq<Payout>, after: seq<Payout>, p: ReserveParams, rs: seq<Reservation>, b: BatchId, i: PayoutId)
    requires EarlierOnly(before, rs, b) && i < |before| && i < |after| && i < |taken|
    requires OldPayout(before, p, b, rs, taken, i) && after[i] == Ended(taken[i], b)
    ensures OldSpent(before, after, rs, b, i) == true
  {
    if Uses(rs, i) {
      var k :| 0 <= k < |rs| && rs[k].request == Some(i);
      assert taken[i] == PutToWork(before[i], p, b, rs[k]);
    }
  }

  lemma NewPayoutBack(before: seq<Payout>, taken: seq<Payout>, after: seq<Payout>, p: ReserveParams, rs: seq<Reservation>, b: BatchId, j: nat)
    requires j < |FreshOf(rs)| && |after| == |taken| == |before| + |FreshOf(rs)|
    requires taken[|before| + j] == Opened(p, b, FreshOf(rs)[j]) && after[|before| + j] == Ended(taken[|before| + j], b)
    ensures NewSpent(before, after, p, rs, b, j) == true
  {}

  lemma PayoutsBackFrom(before: seq<Payout>, taken: seq<Payout>, after: seq<Payout>, p: ReserveParams, rs: seq<Reservation>, b: BatchId)
    requires EarlierOnly(before, rs, b) && PayoutsClaimed(before, p, b, rs, taken) && AllEnded(taken, after, b)
    ensures PayoutsSpent(before, after, p, rs, b) == true
  {
    forall i: nat | i < |before| ensures OldSpent(before, after, rs, b, i) == true {
      OldPayoutBack(before, taken, after, p, rs, b, i);
    }
    forall j: nat | j < |FreshOf(rs)| ensures NewSpent(before, after, p, rs, b, j) == true {
      NewPayoutBack(before, taken, after, p, rs, b, j);
    }
  }

  lemma PayoutsBack(db: Db, d: Db, p: ReserveParams, rs: seq<Reservation>, b: BatchId)
    requires JustTaken(db, d, b) && RequestsOpen(db, p, rs) && ClaimedExactly(db, p, rs, d)
    ensures PayoutsSpent(db.payouts, EndPayouts(d, b, FailEnding(b)), p, rs, b) == true
  {
    NoneInNewBatch(db, p, rs);
    PayoutsEnded(d, b);
    PayoutsBackFrom(db.payouts, d.payouts, EndPayouts(d, b, FailEnding(b)), p, rs, b);
  }

  // ------------------------------------------------------------------ an open request of another month

  const BONUS: Step := DoAward(0, 7, 500, 1)
  const REQUEST: Step := DoRequest(0, 7, RequestInputs(true, false, true, 0, 1))
  const MONTH_TWO: ReserveParams := ReserveParams(0, Selected([7]), 2, None, false)
  const MONTH_ONE: ReserveParams := ReserveParams(0, Selected([7]), 1, None, false)
  const READY: ReserveEnv := ReserveEnv({7}, {}, {7}, 0, (t: TenantId, at: int) => 0)

  /** One payable bonus row of member 7, nothing locked. */
  predicate OneBonus(db: Db) {
    && |db.ledger| == 1 && db.ledger[0].tenant == 0 && db.ledger[0].member == 7 && db.ledger[0].status.Payable?
    && db.ledger[0].amount == 500 && db.locks == {}
  }

  /** ... and the open request that member 7 made in month one. */
  predicate RequestedInMonthOne(db: Db) {
    OneBonus(db) && db.payouts == [Payout(0, 7, None, 500, Requested, 1, Some(ActiveKey(0, 7, 1)))]
  }

  lemma OnePayable(ledger: seq<Row>, t: TenantId, m: MemberId)
    requires |ledger| == 1 && ledger[0].tenant == t && ledger[0].member == m && ledger[0].status == LedgerStatus.Payable
    ensures RowsWhere(ledger, PayableOf(t, m)) == [0] && SumRows(ledger, [0]) == ledger[0].amount
  {
    assert RowsWhere(ledger[..0], PayableOf(t, m)) == [];
    assert [0][..0] == [];
  }

  /** The row that a bonus adds. */
  function BonusRow(tenant: TenantId, member: MemberId, bonus: int, month: Month): Row {
    Row(tenant, None, member, 0, 0, bonus, Adjustment, LedgerStatus.Payable, Some(month), None, None, None)
  }

  lemma NextBonus(db: Db, tenant: TenantId, member: MemberId, bonus: int, month: Month)
    requires (tenant, month) !in db.locks
    ensures var d := Next(db, DoAward(tenant, member, bonus, month));
            d.payouts == db.payouts && d.locks == db.locks && d.ledger == db.ledger + [BonusRow(tenant, member, bonus, month)]
  {}

  lemma AfterBonus(ledger: seq<Row>, d: Db)
    requires ledger == [] && d.ledger == ledger + [BonusRow(0, 7, 500, 1)] && d.locks == {}
    ensures OneBonus(d)
  {}

  lemma AfterRequest(db: Db)
    requires OneBonus(db) && db.payouts == []
    ensures RequestedInMonthOne(Next(db, REQUEST))
  {
    OnePayable(db.ledger, 0, 7);
    assert RequestPayout(db, 0, 7, REQUEST.r).Committed?;
  }

  lemma RunTwo(db: Db, s0: Step, s1: Step)
    ensures Run(db, [s0, s1]) == Next(Next(db, s0), s1)
  {
    assert [s0, s1][..1] == [s0];
    assert Run(db, [s0]) == Next(db, s0) by {
      assert [s0][..0] == [];
      assert Run(db, []) == db;
    }
  }

  lemma MonthTwoChoice(db: Db)
    requires RequestedInMonthOne(db)
    ensures Choose(db, MONTH_TWO, READY, 7) == Ok(Take(Reservation(7, None, 500, [0])))
  {
    OnePayable(db.ledger, 0, 7);
    assert PayoutsWhere(db.payouts, ActiveIn(0, 7, 2)) == [] by {
      assert PayoutsWhere(db.payouts[..0], ActiveIn(0, 7, 2)) == [];
    }
    assert ClaimableRequest(db, MONTH_TWO, 7) == Consume(None);
  }

  lemma MonthTwoTargets(db: Db)
    ensures Targets(db, MONTH_TWO, READY) == Ok([7])
  {
    assert [7][..0] == [];
    assert SortUnique([7]) == [7];
  }

  lemma SelectOne(db: Db, p: ReserveParams, env: ReserveEnv, ts: seq<MemberId>, res: Reservation)
    requires |ts| == 1 && Choose(db, p, env, ts[0]) == Ok(Take(res))
    ensures Select(db, p, env, ts) == Ok(Selection([res], []))
  {
    assert ts[..0] == [];
    assert Select(db, p, env, ts[..0]) == Ok(Selection([], []));
    var none: seq<Reservation> := [];
    assert none + [res] == [res];
  }

  lemma MonthTwoStranded(db: Db)
    requires RequestedInMonthOne(db)
    ensures AnyStranded(db, MONTH_TWO, [Reservation(7, None, 500, [0])])
  {
    assert PayoutSelects(OpenOf(0, 7), db.payouts[0]);
    assert Stranded(db, MONTH_TWO, [Reservation(7, None, 500, [0])][0]);
  }

  /** The two steps before both stories. */
  lemma BonusThenRequest()
    ensures RequestedInMonthOne(Run(EMPTY_DB, [BONUS, REQUEST])) && Inv(Run(EMPTY_DB, [BONUS, REQUEST])) == true
  {
    RunLeads(EMPTY_DB, [BONUS, REQUEST]);
    Reachable(Run(EMPTY_DB, [BONUS, REQUEST]));
    RunTwo(EMPTY_DB, BONUS, REQUEST);
    NextBonus(EMPTY_DB, 0, 7, 500, 1);
    AfterBonus(EMPTY_DB.ledger, Next(EMPTY_DB, BONUS));
    AfterRequest(Next(EMPTY_DB, BONUS));
  }

  /**
   After one bonus and a request made in month one, reserving month two for the member selects the
   payable row and is then refused by the index.
   */
  lemma OtherMonthRefused()
    ensures ReserveBatch(Run(EMPTY_DB, [BONUS, REQUEST]), MONTH_TWO, READY) == Aborted(UniqueIndex)
  {
    BonusThenRequest();
    var db := Run(EMPTY_DB, [BONUS, REQUEST]);
    MonthTwoTargets(db);
    MonthTwoChoice(db);
    SelectOne(db, MONTH_TWO, READY, [7], Reservation(7, None, 500, [0]));
    MonthTwoStranded(db);
    ReserveRefused(db, MONTH_TWO, READY);
  }

  // ------------------------------------------------------------------ a request that fail does not reopen

  lemma MonthOneChoice(db: Db)
    requires RequestedInMonthOne(db)
    ensures Choose(db, MONTH_ONE, READY, 7) == Ok(Take(Reservation(7, Some(0), 500, [0])))
  {
    OnePayable(db.ledger, 0, 7);
    assert PayoutsWhere(db.payouts, ActiveIn(0, 7, 1)) == [0] by {
      assert PayoutsWhere(db.payouts[..0], ActiveIn(0, 7, 1)) == [];
    }
    assert ClaimableRequest(db, MONTH_ONE, 7) == Consume(Some(0));
  }

  lemma MonthOneSelection(db: Db)
    requires RequestedInMonthOne(db)
    ensures Targets(db, MONTH_ONE, READY) == Ok([7])
    ensures Select(db, MONTH_ONE, READY, [7]) == Ok(Selection([Reservation(7, Some(0), 500, [0])], []))
  {
    assert [7][..0] == [];
    assert SortUnique([7]) == [7];
    MonthOneChoice(db);
    SelectOne(db, MONTH_ONE, READY, [7], Reservation(7, Some(0), 500, [0]));
  }

  /** A selection that strands nobody is reserved. */
  lemma ReserveCommits(db: Db, p: ReserveParams, env: ReserveEnv, ts: seq<MemberId>, s: Selection)
    requires Inv(db) && Targets(db, p, env) == Ok(ts) && Select(db, p, env, ts) == Ok(s)
    requires !p.preview && s.reservations != [] && !AnyStranded(db, p, s.reservations)
    ensures ReserveBatch(db, p, env).Committed? && ReserveBatch(db, p, env).value == ReserveResult(Some(|db.batches|), s)
  {
    ReservationsClaimable(db, p, env, ts);
    ClaimAllRefused(db, p, env, s.reservations);
  }

  /** The reservation of month one goes through, and failing it leaves the request failed and the row payable. */
  predicate FailedNotReopened(db: Db) {
    var r := ReserveBatch(db, MONTH_ONE, READY);
    && db.payouts == [Payout(0, 7, None, 500, Requested, 1, Some(ActiveKey(0, 7, 1)))]
    && r.Committed? && r.value.batch.Some?
    && var f := EngineSpec.Fail(r.db, 0, r.value.batch.value);
       && f.Committed? && f.db.ledger == db.ledger
       && f.db.payouts == [Payout(0, 7, r.value.batch, 500, PayoutStatus.Failed, 1, None)]
  }

  lemma MonthOneFails(db: Db)
    requires RequestedInMonthOne(db) && Inv(db)
    ensures FailedNotReopened(db) == true
  {
    var res := Reservation(7, Some(0), 500, [0]);
    MonthOneSelection(db);
    assert !Stranded(db, MONTH_ONE, [res][0]);
    ReserveCommits(db, MONTH_ONE, READY, [7], Selection([res], []));
    ReserveThenFail(db, MONTH_ONE, READY);
    var r := ReserveBatch(db, MONTH_ONE, READY);
    var after := EngineSpec.Fail(r.db, 0, |db.batches|).db.payouts;
    OneRequestSpent(db.payouts, after, res, |db.batches|);
  }

  lemma OneRequestSpent(before: seq<Payout>, after: seq<Payout>, res: Reservation, b: BatchId)
    requires |before| == 1 && res.request == Some(0) && PayoutsSpent(before, after, MONTH_ONE, [res], b)
    ensures after == [Spent(before[0], b, res.amount)]
  {
    assert [res][..0] == [];
    assert FreshOf([res]) == FreshOf([]) + [] == [];
    assert OldSpent(before, after, [res], b, 0);
    assert [res][0].request == Some(0);
  }

  /**
   After one bonus and a request, reserving the month of the request and failing the batch gives the row
   back to payable, while the request, open before, is failed.
   */
  lemma RequestEndsFailed()
    ensures FailedNotReopened(Run(EMPTY_DB, [BONUS, REQUEST])) == true
  {
    BonusThenRequest();
    MonthOneFails(Run(EMPTY_DB, [BONUS, REQUEST]));
  }
}
