/** Reserving a batch: the selection is by distinct members, so every claim succeeds and keeps the invariant. */
module ReserveProofs {
  import opened Prelude
  import opened Commission
  import opened Tables
  import opened Ledger
  import opened EngineSpec
  import opened EngineInv
  import opened BooksProofs
  import opened SettleProofs

  // ------------------------------------------------------------------ targets are distinct

  /** Strictly ascending, so no value twice. */
  ghost predicate Strict(s: seq<nat>) {
    forall a, b :: 0 <= a < b < |s| ==> s[a] < s[b]
  }

  lemma {:induction false} InsertUniqueMeaning(s: seq<nat>, x: nat)
    requires Strict(s)
    ensures Strict(InsertUnique(s, x))
    ensures forall y :: y in InsertUnique(s, x) <==> y in s || y == x
  {
    if s != [] && s[|s| - 1] > x {
      var front, last := s[..|s| - 1], s[|s| - 1];
      InsertUniqueMeaning(front, x);
      assert s == front + [last];
      var r := InsertUnique(front, x);
      forall a | 0 <= a < |r| ensures r[a] < last {
        assert r[a] in r;
      }
    }
  }

  /** De-duplication keeps exactly the given values, each once, in ascending order. */
  lemma {:induction false} SortUniqueMeaning(ids: seq<nat>)
    ensures Strict(SortUnique(ids))
    ensures forall y :: y in SortUnique(ids) <==> y in ids
  {
    if ids != [] {
      SortUniqueMeaning(ids[..|ids| - 1]);
      InsertUniqueMeaning(SortUnique(ids[..|ids| - 1]), ids[|ids| - 1]);
      assert ids == ids[..|ids| - 1] + [ids[|ids| - 1]];
    }
  }

  lemma {:induction false} OverThresholdMeaning(ledger: seq<Row>, tenant: TenantId, payoutMin: int, ms: seq<MemberId>)
    requires Strict(ms)
    ensures Strict(OverThreshold(ledger, tenant, payoutMin, ms))
    ensures forall m :: m in OverThreshold(ledger, tenant, payoutMin, ms) <==>
              m in ms && PayableNet(ledger, tenant, m) > 0 && PayableNet(ledger, tenant, m) >= payoutMin
  {
    if ms != [] {
      var front, last := ms[..|ms| - 1], ms[|ms| - 1];
      OverThresholdMeaning(ledger, tenant, payoutMin, front);
      assert ms == front + [last];
      var r := OverThreshold(ledger, tenant, payoutMin, front);
      forall a | 0 <= a < |r| ensures r[a] < last {
        assert r[a] in r;
      }
    }
  }

  lemma TargetsStrict(db: Db, p: ReserveParams, env: ReserveEnv)
    ensures Targets(db, p, env).Ok? ==> Strict(Targets(db, p, env).value)
  {
    match p.scope
    case Selected(ids) => SortUniqueMeaning(ids);
    case AllEligible =>
      var ms := MembersOf(db.ledger, RowsWhere(db.ledger, PayableIn(p.tenant)));
      SortUniqueMeaning(ms);
      OverThresholdMeaning(db.ledger, p.tenant, env.payoutMin, SortUnique(ms));
  }

  // ------------------------------------------------------------------ what the selection promises

  /** All the payable rows of one member, their sum, and either an open request of the period or none. */
  ghost predicate ReservationOk(db: Db, p: ReserveParams, res: Reservation) {
    && res.rows == RowsWhere(db.ledger, PayableOf(p.tenant, res.member)) && res.rows != []
    && res.amount == SumRows(db.ledger, res.rows) && res.amount > 0
    && (res.request.Some? ==>
          && res.request.value < |db.payouts| && db.payouts[res.request.value].status.Requested?
          && db.payouts[res.request.value].tenant == p.tenant && db.payouts[res.request.value].member == res.member
          && db.payouts[res.request.value].period == p.period)
    && (res.request.None? ==>
          forall i: nat :: i < |db.payouts| && PayoutSelects(ActiveIn(p.tenant, res.member, p.period), db.payouts[i]) ==> !Open(db.payouts[i]))
  }

  ghost predicate DistinctMembers(rs: seq<Reservation>) {
    forall a, b :: 0 <= a < b < |rs| ==> rs[a].member != rs[b].member
  }

  predicate NoneOf(rs: seq<Reservation>, m: MemberId) {
    forall a :: 0 <= a < |rs| ==> rs[a].member != m
  }

  lemma WeighMeaning(db: Db, p: ReserveParams, env: ReserveEnv, res: Reservation)
    requires forall a :: 0 <= a < |res.rows| ==> res.rows[a] < |db.ledger|
    ensures Weigh(db, p, env, res).Err? ==> Weigh(db, p, env, res).error in {PeriodLocked, Blocked}
    ensures var c := Weigh(db, p, env, res);
            c.Ok? && c.value.Take? ==> c.value.res == res && res.rows != [] && res.amount > 0
  {}

  lemma CandidateOk(db: Db, p: ReserveParams, m: MemberId, request: Option<PayoutId>)
    requires ClaimableRequest(db, p, m) == Consume(request)
    requires Candidate(db, p, m, request).rows != [] && Candidate(db, p, m, request).amount > 0
    ensures ReservationOk(db, p, Candidate(db, p, m, request))
  {}

  lemma ChooseErrors(db: Db, p: ReserveParams, env: ReserveEnv, m: MemberId)
    ensures Choose(db, p, env, m).Err? ==> Choose(db, p, env, m).error in {NotFound, NoOpenRequest, PeriodLocked, Blocked}
  {
    match ClaimableRequest(db, p, m)
    case Refuse(_) =>
    case Busy =>
    case Consume(request) => WeighMeaning(db, p, env, Candidate(db, p, m, request));
  }

  lemma ChooseMeaning(db: Db, p: ReserveParams, env: ReserveEnv, m: MemberId)
    ensures var c := Choose(db, p, env, m);
            c.Ok? && c.value.Take? ==> ReservationOk(db, p, c.value.res) == true && c.value.res.member == m
  {
    match ClaimableRequest(db, p, m)
    case Refuse(_) =>
    case Busy =>
    case Consume(request) =>
      WeighMeaning(db, p, env, Candidate(db, p, m, request));
      if Choose(db, p, env, m).Ok? && Choose(db, p, env, m).value.Take? {
        CandidateOk(db, p, m, request);
      }
  }

  /** Distinct members out of `ts`, each with a sound reservation. */
  ghost predicate SelectionOk(db: Db, p: ReserveParams, rs: seq<Reservation>, ts: seq<MemberId>) {
    && DistinctMembers(rs)
    && (forall a :: 0 <= a < |rs| ==> ReservationOk(db, p, rs[a]))
    && (forall a :: 0 <= a < |rs| ==> rs[a].member in ts)
  }

  lemma SelectionGrows(db: Db, p: ReserveParams, rs: seq<Reservation>, ts: seq<MemberId>, m: MemberId, res: Reservation)
    requires SelectionOk(db, p, rs, ts) && m !in ts
    ensures SelectionOk(db, p, rs, ts + [m])
    ensures ReservationOk(db, p, res) && res.member == m ==> SelectionOk(db, p, rs + [res], ts + [m])
  {
    if ReservationOk(db, p, res) && res.member == m {
      forall a | 0 <= a < |rs + [res]| ensures ReservationOk(db, p, (rs + [res])[a]) {
        if a < |rs| { assert (rs + [res])[a] == rs[a]; }
      }
    }
  }

  lemma {:induction false} SelectMeaning(db: Db, p: ReserveParams, env: ReserveEnv, ts: seq<MemberId>)
    requires Strict(ts)
    ensures Select(db, p, env, ts).Ok? ==> SelectionOk(db, p, Select(db, p, env, ts).value.reservations, ts)
  {
    if ts != [] {
      var front, last := ts[..|ts| - 1], ts[|ts| - 1];
      SelectMeaning(db, p, env, front);
      ChooseMeaning(db, p, env, last);
      assert ts == front + [last];
      assert last !in front;
      var before, c := Select(db, p, env, front), Choose(db, p, env, last);
      if before.Ok? && c.Ok? {
        SelectionGrows(db, p, before.value.reservations, front, last, if c.value.Take? then c.value.res else Reservation(last, None, 0, []));
      }
    }
  }

  // ------------------------------------------------------------------ one claim

  /** The rows and the payout that a claim is about to take are still as the selection saw them. */
  ghost predicate ClaimReady(d: Db, p: ReserveParams, b: BatchId, res: Reservation) {
    && b < |d.batches| && d.batches[b].status.Processing? && d.batches[b].tenant == p.tenant
    && DistinctIds(res.rows) && res.rows != []
    && (forall a :: 0 <= a < |res.rows| ==> res.rows[a] < |d.ledger|)
    && (forall a :: 0 <= a < |res.rows| ==> ClaimableRow(p, res, d.ledger[res.rows[a]]))
    && res.amount == SumRows(d.ledger, res.rows)
    && (res.request.Some? ==>
          && res.request.value < |d.payouts| && d.payouts[res.request.value].status.Requested?
          && d.payouts[res.request.value].tenant == p.tenant && d.payouts[res.request.value].member == res.member
          && d.payouts[res.request.value].period == p.period)
  }

  predicate ClaimableRow(p: ReserveParams, res: Reservation, r: Row) {
    r.tenant == p.tenant && r.member == res.member && r.status.Payable? && r.payout.None? && r.batch.None?
  }

  lemma ClaimItems(d: Db, p: ReserveParams, env: ReserveEnv, b: BatchId, res: Reservation, id: PayoutId)
    requires ClaimReady(d, p, b, res) && RowsOk(d.sales, d.ledger)
    ensures var items := ItemsFor(d, id, res.rows, env.monthKey);
            && AllMovable(d.ledger, items, Claim(b))
            && (forall n :: 0 <= n < |items| ==> Describes(d.sales, p.tenant, items[n], d.ledger[items[n].row]))
            && (forall n :: 0 <= n < |items| ==> items[n].row == res.rows[n] && items[n].payout == id && items[n].member == res.member)
  {
    forall n | 0 <= n < |res.rows|
      ensures Describes(d.sales, p.tenant, ItemFor(d, id, res.rows[n], env.monthKey), d.ledger[res.rows[n]])
      ensures ItemFor(d, id, res.rows[n], env.monthKey).member == res.member
    {
      assert RowOk(d.sales, d.ledger[res.rows[n]]) && ClaimableRow(p, res, d.ledger[res.rows[n]]);
    }
    forall n | 0 <= n < |res.rows| ensures Movable(Claim(b), d.ledger[res.rows[n]]) {
      assert ClaimableRow(p, res, d.ledger[res.rows[n]]);
    }
  }

  /** A claim can only be refused by the unique index, and only for a fresh payout of a member with an open one. */
  lemma ClaimGuards(d: Db, p: ReserveParams, env: ReserveEnv, b: BatchId, res: Reservation)
    requires ClaimReady(d, p, b, res) && RowsOk(d.sales, d.ledger)
    ensures ClaimOne(d, p, env, b, res).Err? <==> res.request.None? && PayoutsWhere(d.payouts, OpenOf(p.tenant, res.member)) != []
    ensures ClaimOne(d, p, env, b, res).Err? ==> ClaimOne(d, p, env, b, res).error == UniqueIndex
  {
    var placed := PlacePayout(d.payouts, p, b, res);
    if placed.Ok? {
      ClaimItems(d, p, env, b, res, placed.value.1);
      UpdateManyMeaning(d.ledger, ItemsFor(d, placed.value.1, res.rows, env.monthKey), Claim(b));
    }
  }

  /** Everything one successful claim changes. */
  datatype Claimed = Claimed(id: PayoutId, items: seq<Item>, payouts: seq<Payout>, ledger: seq<Row>, batches: seq<Batch>)

  function ClaimEffect(d: Db, p: ReserveParams, env: ReserveEnv, b: BatchId, res: Reservation): Claimed
    requires b < |d.batches| && PlacePayout(d.payouts, p, b, res).Ok?
    requires forall a :: 0 <= a < |res.rows| ==> res.rows[a] < |d.ledger|
  {
    var placed := PlacePayout(d.payouts, p, b, res).value;
    var items := ItemsFor(d, placed.1, res.rows, env.monthKey);
    Claimed(placed.1, items, placed.0, UpdateMany(d.ledger, items, Claim(b)).0,
            d.batches[b := d.batches[b].(items := d.batches[b].items + items)])
  }

  ghost predicate Claims(d: Db, p: ReserveParams, env: ReserveEnv, b: BatchId, res: Reservation, c: Claimed) {
    && BooksInv(d.sales, d.ledger) && SettlementInv(d.sales, d.ledger, d.payouts, d.batches)
    && ClaimReady(d, p, b, res) && PlacePayout(d.payouts, p, b, res).Ok?
    && c == ClaimEffect(d, p, env, b, res)
  }

  /** The tables after a claim that goes through. */
  function AfterClaim(d: Db, c: Claimed): Db {
    d.(payouts := c.payouts, ledger := c.ledger, batches := c.batches)
  }

  /** A claim that is not refused has exactly its effect. */
  lemma ClaimOneEffect(d: Db, p: ReserveParams, env: ReserveEnv, b: BatchId, res: Reservation)
    requires ClaimReady(d, p, b, res) && ClaimOne(d, p, env, b, res).Ok?
    ensures PlacePayout(d.payouts, p, b, res).Ok?
    ensures ClaimOne(d, p, env, b, res).value == AfterClaim(d, ClaimEffect(d, p, env, b, res))
  {}

  /** The payout put to work had no batch and no rows. */
  lemma ClaimPayout(d: Db, p: ReserveParams, env: ReserveEnv, b: BatchId, res: Reservation, c: Claimed)
    requires Claims(d, p, env, b, res, c)
    ensures c.id < |c.payouts| && |d.payouts| <= |c.payouts| <= |d.payouts| + 1
    ensures c.id < |d.payouts| ==> d.payouts[c.id].batch.None? && d.payouts[c.id].status.Requested?
                                   && d.payouts[c.id].tenant == p.tenant && d.payouts[c.id].member == res.member && |c.payouts| == |d.payouts|
    ensures c.id >= |d.payouts| ==> c.id == |d.payouts| && |c.payouts| == |d.payouts| + 1
    ensures forall i: nat :: i < |d.payouts| && i != c.id ==> c.payouts[i] == d.payouts[i]
    ensures var q := c.payouts[c.id];
            q.batch == Some(b) && q.status.Processing? && q.tenant == p.tenant && q.member == res.member && q.total == res.amount
            && q.activeKey == Some(ActiveKey(q.tenant, q.member, q.period))
  {
    if res.request.Some? {
      assert PayoutOk(d.batches, res.request.value, d.payouts[res.request.value]);
    }
  }

  lemma ClaimNoEarlierItem(d: Db, p: ReserveParams, env: ReserveEnv, b: BatchId, res: Reservation, c: Claimed, k: BatchId, n: nat)
    requires Claims(d, p, env, b, res, c) && k < |d.batches| && n < |d.batches[k].items|
    ensures d.batches[k].items[n].payout != c.id
    ensures ItemOk(d.sales, d.ledger, d.payouts, d.batches[k], k, d.batches[k].items[n])
  {
    ClaimPayout(d, p, env, b, res, c);
    assert BatchOk(d.sales, d.ledger, d.payouts, d.batches[k], k);
    assert ItemOk(d.sales, d.ledger, d.payouts, d.batches[k], k, d.batches[k].items[n]);
  }

  /** Where the claimed ledger differs: exactly on the reserved rows, which were payable. */
  lemma ClaimRow(d: Db, p: ReserveParams, env: ReserveEnv, b: BatchId, res: Reservation, c: Claimed, i: RowId)
    requires Claims(d, p, env, b, res, c) && i < |d.ledger|
    ensures |c.ledger| == |d.ledger|
    ensures i in res.rows ==> ClaimableRow(p, res, d.ledger[i])
                              && c.ledger[i] == d.ledger[i].(status := LedgerStatus.Processing, payout := Some(c.id), batch := Some(b))
    ensures i !in res.rows ==> c.ledger[i] == d.ledger[i]
  {
    ClaimItems(d, p, env, b, res, c.id);
    UpdateManyMeaning(d.ledger, c.items, Claim(b));
    if i in res.rows {
      var a :| 0 <= a < |res.rows| && res.rows[a] == i;
      assert ClaimableRow(p, res, d.ledger[res.rows[a]]);
      assert c.ledger[c.items[a].row] == Moved(Claim(b), c.items[a], d.ledger[c.items[a].row]);
    } else {
      assert !Touches(c.items, i);
    }
  }

  lemma ClaimLinksNew(d: Db, p: ReserveParams, env: ReserveEnv, b: BatchId, res: Reservation, c: Claimed, i: RowId)
    requires Claims(d, p, env, b, res, c) && i < |d.ledger| && i in res.rows
    ensures |c.ledger| == |d.ledger| && RowLinked(c.payouts, c.batches, i, c.ledger[i])
  {
    ClaimRow(d, p, env, b, res, c, i);
    ClaimPayout(d, p, env, b, res, c);
    ClaimItems(d, p, env, b, res, c.id);
    var was := d.batches[b].items;
    var a :| 0 <= a < |res.rows| && res.rows[a] == i;
    assert c.batches[b].items[|was| + a] == c.items[a];
  }

  lemma HasItemGrows(xs: seq<Item>, ys: seq<Item>, row: RowId, id: PayoutId)
    requires HasItem(xs, row, id)
    ensures HasItem(xs + ys, row, id)
  {
    var n :| 0 <= n < |xs| && xs[n].row == row && xs[n].payout == id;
    assert (xs + ys)[n] == xs[n];
  }

  lemma ClaimLinksOld(d: Db, p: ReserveParams, env: ReserveEnv, b: BatchId, res: Reservation, c: Claimed, i: RowId)
    requires Claims(d, p, env, b, res, c) && i < |d.ledger| && i !in res.rows
    ensures |c.ledger| == |d.ledger| && RowLinked(c.payouts, c.batches, i, c.ledger[i])
  {
    ClaimRow(d, p, env, b, res, c, i);
    ClaimPayout(d, p, env, b, res, c);
    assert RowLinked(d.payouts, d.batches, i, d.ledger[i]);
    if InSettlement(d.ledger[i].status) && d.ledger[i].batch == Some(b) {
      HasItemGrows(d.batches[b].items, c.items, i, d.ledger[i].payout.value);
    }
  }

  lemma ClaimOldItem(d: Db, p: ReserveParams, env: ReserveEnv, b: BatchId, res: Reservation, c: Claimed, k: BatchId, n: nat)
    requires Claims(d, p, env, b, res, c) && k < |d.batches| && n < |d.batches[k].items|
    ensures ItemOk(d.sales, c.ledger, c.payouts, c.batches[k], k, d.batches[k].items[n])
    ensures !d.batches[k].status.Failed? ==> d.batches[k].items[n].row !in res.rows
  {
    ClaimNoEarlierItem(d, p, env, b, res, c, k, n);
    ClaimPayout(d, p, env, b, res, c);
    ClaimRow(d, p, env, b, res, c, d.batches[k].items[n].row);
  }

  lemma ClaimNewItem(d: Db, p: ReserveParams, env: ReserveEnv, b: BatchId, res: Reservation, c: Claimed, n: nat)
    requires Claims(d, p, env, b, res, c) && n < |c.items|
    ensures ItemOk(d.sales, c.ledger, c.payouts, c.batches[b], b, c.items[n])
  {
    ClaimItems(d, p, env, b, res, c.id);
    ClaimPayout(d, p, env, b, res, c);
    assert c.items[n].row in res.rows;
    ClaimRow(d, p, env, b, res, c, c.items[n].row);
    assert Describes(d.sales, p.tenant, c.items[n], d.ledger[c.items[n].row]);
    assert BookedMonth(d.sales, c.ledger[c.items[n].row]) == BookedMonth(d.sales, d.ledger[c.items[n].row]);
  }

  lemma ClaimItemOk(d: Db, p: ReserveParams, env: ReserveEnv, b: BatchId, res: Reservation, c: Claimed, k: BatchId, n: nat)
    requires Claims(d, p, env, b, res, c) && k < |d.batches| && n < |c.batches[k].items|
    ensures ItemOk(d.sales, c.ledger, c.payouts, c.batches[k], k, c.batches[k].items[n])
  {
    var was := d.batches[k].items;
    if n < |was| {
      ClaimOldItem(d, p, env, b, res, c, k, n);
      assert c.batches[k].items[n] == was[n];
    } else {
      ClaimNewItem(d, p, env, b, res, c, n - |was|);
      assert c.batches[k].items[n] == c.items[n - |was|];
    }
  }

  /** Two item lists with different rows, one after the other. */
  lemma DistinctJoin(xs: seq<Item>, ys: seq<Item>)
    requires DistinctRows(xs) && DistinctRows(ys)
    requires forall n, j :: 0 <= n < |xs| && 0 <= j < |ys| ==> xs[n].row != ys[j].row
    ensures DistinctRows(xs + ys)
  {}

  lemma ClaimDistinct(d: Db, p: ReserveParams, env: ReserveEnv, b: BatchId, res: Reservation, c: Claimed)
    requires Claims(d, p, env, b, res, c)
    ensures DistinctRows(d.batches[b].items + c.items)
  {
    assert BatchOk(d.sales, d.ledger, d.payouts, d.batches[b], b);
    ClaimItems(d, p, env, b, res, c.id);
    forall n, j | 0 <= n < |d.batches[b].items| && 0 <= j < |c.items| ensures d.batches[b].items[n].row != c.items[j].row {
      ClaimOldItem(d, p, env, b, res, c, b, n);
      assert c.items[j].row == res.rows[j];
    }
    DistinctJoin(d.batches[b].items, c.items);
  }

  lemma ClaimBatchOk(d: Db, p: ReserveParams, env: ReserveEnv, b: BatchId, res: Reservation, c: Claimed, k: BatchId)
    requires Claims(d, p, env, b, res, c) && k < |d.batches|
    ensures BatchOk(d.sales, c.ledger, c.payouts, c.batches[k], k)
  {
    forall n | 0 <= n < |c.batches[k].items| ensures ItemOk(d.sales, c.ledger, c.payouts, c.batches[k], k, c.batches[k].items[n]) {
      ClaimItemOk(d, p, env, b, res, c, k, n);
    }
    if k == b {
      ClaimDistinct(d, p, env, b, res, c);
    } else {
      assert BatchOk(d.sales, d.ledger, d.payouts, d.batches[k], k);
    }
  }

  lemma {:induction false} ItemSumAppend(xs: seq<Item>, ys: seq<Item>, id: PayoutId)
    ensures ItemSum(xs + ys, id) == ItemSum(xs, id) + ItemSum(ys, id)
  {
    if ys == [] {
      assert xs + ys == xs;
    } else {
      ItemSumAppend(xs, ys[..|ys| - 1], id);
      assert (xs + ys)[..|xs + ys| - 1] == xs + ys[..|ys| - 1];
    }
  }

  lemma {:induction false} ItemSumNone(items: seq<Item>, id: PayoutId)
    requires forall n :: 0 <= n < |items| ==> items[n].payout != id
    ensures ItemSum(items, id) == 0
  {
    if items != [] {
      ItemSumNone(items[..|items| - 1], id);
    }
  }

  /** The items of one payout sum to the reserved rows. */
  lemma {:induction false} ItemSumRows(ledger: seq<Row>, items: seq<Item>, rows: seq<RowId>, id: PayoutId)
    requires |items| == |rows| && forall a :: 0 <= a < |rows| ==> rows[a] < |ledger|
    requires forall n :: 0 <= n < |items| ==> items[n].payout == id && items[n].amount == ledger[rows[n]].amount
    ensures ItemSum(items, id) == SumRows(ledger, rows)
  {
    if rows != [] {
      ItemSumRows(ledger, items[..|items| - 1], rows[..|rows| - 1], id);
    }
  }

  lemma ClaimSums(d: Db, p: ReserveParams, env: ReserveEnv, b: BatchId, res: Reservation, c: Claimed, id: PayoutId)
    requires Claims(d, p, env, b, res, c)
    ensures PayoutSum(c.ledger, id) == PayoutSum(d.ledger, id) + (if id == c.id then res.amount else 0)
    ensures ItemSum(c.items, id) == if id == c.id then res.amount else 0
    ensures ItemSum(c.batches[b].items, id) == ItemSum(d.batches[b].items, id) + ItemSum(c.items, id)
    ensures id == c.id ==> ItemSum(d.batches[b].items, id) == 0 && PayoutSum(d.ledger, id) == 0
  {
    ClaimItems(d, p, env, b, res, c.id);
    ClaimPayout(d, p, env, b, res, c);
    MovePayoutSum(d.ledger, c.items, Claim(b), id);
    ItemSumAppend(d.batches[b].items, c.items, id);
    if id == c.id {
      ItemSumRows(d.ledger, c.items, res.rows, id);
      forall n | 0 <= n < |d.batches[b].items| ensures d.batches[b].items[n].payout != id {
        ClaimNoEarlierItem(d, p, env, b, res, c, b, n);
      }
      ItemSumNone(d.batches[b].items, id);
      if id < |d.payouts| {
        assert Funded(d.ledger, id, d.payouts[id]);
      } else {
        forall i | 0 <= i < |d.ledger| ensures d.ledger[i].payout != Some(id) {
          assert RowLinked(d.payouts, d.batches, i, d.ledger[i]) && RowOk(d.sales, d.ledger[i]);
        }
        NoRowNoSum(d.ledger, id);
      }
    } else {
      ItemSumNone(c.items, id);
    }
  }

  lemma ClaimOwnPayoutOk(d: Db, p: ReserveParams, env: ReserveEnv, b: BatchId, res: Reservation, c: Claimed)
    requires Claims(d, p, env, b, res, c)
    ensures c.id < |c.payouts| && PayoutOk(c.batches, c.id, c.payouts[c.id]) && Funded(c.ledger, c.id, c.payouts[c.id])
  {
    ClaimPayout(d, p, env, b, res, c);
    ClaimSums(d, p, env, b, res, c, c.id);
    ClaimItems(d, p, env, b, res, c.id);
    assert c.batches[b].items[|d.batches[b].items|] == c.items[0];
    assert HasPayout(c.batches[b].items, c.id);
  }

  lemma ClaimOtherPayoutOk(d: Db, p: ReserveParams, env: ReserveEnv, b: BatchId, res: Reservation, c: Claimed, id: PayoutId)
    requires Claims(d, p, env, b, res, c) && id < |d.payouts| && id != c.id
    ensures id < |c.payouts| && PayoutOk(c.batches, id, c.payouts[id]) && Funded(c.ledger, id, c.payouts[id])
  {
    ClaimPayout(d, p, env, b, res, c);
    ClaimSums(d, p, env, b, res, c, id);
    assert PayoutOk(d.batches, id, d.payouts[id]) && Funded(d.ledger, id, d.payouts[id]);
    if d.payouts[id].batch == Some(b) {
      HasPayoutGrows(d.batches[b].items, c.items, id);
    }
  }

  lemma HasPayoutGrows(xs: seq<Item>, ys: seq<Item>, id: PayoutId)
    requires HasPayout(xs, id)
    ensures HasPayout(xs + ys, id)
  {
    var n :| 0 <= n < |xs| && xs[n].payout == id;
    assert (xs + ys)[n] == xs[n];
  }

  lemma ClaimOneOpen(d: Db, p: ReserveParams, env: ReserveEnv, b: BatchId, res: Reservation, c: Claimed)
    requires Claims(d, p, env, b, res, c)
    ensures OneOpen(c.payouts)
  {
    ClaimPayout(d, p, env, b, res, c);
    forall i: nat | i < |d.payouts| && i != c.id && c.id >= |d.payouts| ensures !PayoutSelects(OpenOf(p.tenant, res.member), d.payouts[i]) {
      assert i !in PayoutsWhere(d.payouts, OpenOf(p.tenant, res.member));
    }
    forall i, j | 0 <= i < j < |c.payouts| && Open(c.payouts[i]) && Open(c.payouts[j])
      ensures !(c.payouts[i].tenant == c.payouts[j].tenant && c.payouts[i].member == c.payouts[j].member)
    {
      if j < |d.payouts| {
        assert !(Open(d.payouts[i]) && Open(d.payouts[j]) && d.payouts[i].tenant == d.payouts[j].tenant && d.payouts[i].member == d.payouts[j].member);
      } else {
        assert !PayoutSelects(OpenOf(p.tenant, res.member), d.payouts[i]);
      }
    }
  }

  /** One claim keeps rows, books and settlement consistent. */
  lemma ClaimKeepsSettlement(d: Db, p: ReserveParams, env: ReserveEnv, b: BatchId, res: Reservation, c: Claimed)
    requires Claims(d, p, env, b, res, c)
    ensures SettlementInv(d.sales, c.ledger, c.payouts, c.batches)
    ensures BooksInv(d.sales, c.ledger)
  {
    ClaimItems(d, p, env, b, res, c.id);
    UpdateManyMeaning(d.ledger, c.items, Claim(b));
    MoveShifts(d.sales, d.ledger, c.ledger, c.items, Claim(b));
    ShiftKeepsBooks(d.sales, d.ledger, c.ledger);
    forall i | 0 <= i < |c.ledger| ensures RowLinked(c.payouts, c.batches, i, c.ledger[i]) {
      if i in res.rows {
        ClaimLinksNew(d, p, env, b, res, c, i);
      } else {
        ClaimLinksOld(d, p, env, b, res, c, i);
      }
    }
    forall k | 0 <= k < |c.batches| ensures BatchOk(d.sales, c.ledger, c.payouts, c.batches[k], k) {
      ClaimBatchOk(d, p, env, b, res, c, k);
    }
    forall id | 0 <= id < |c.payouts| ensures PayoutOk(c.batches, id, c.payouts[id]) && Funded(c.ledger, id, c.payouts[id]) {
      ClaimPayout(d, p, env, b, res, c);
      if id == c.id {
        ClaimOwnPayoutOk(d, p, env, b, res, c);
      } else {
        ClaimOtherPayoutOk(d, p, env, b, res, c, id);
      }
    }
    ClaimOneOpen(d, p, env, b, res, c);
  }

  // ------------------------------------------------------------------ all claims

  lemma {:induction false} BumpItemsAppend(summaries: map<Key, Cell>, tenant: TenantId, xs: seq<Item>, ys: seq<Item>, m: Move)
    ensures BumpItems(BumpItems(summaries, tenant, xs, m), tenant, ys, m) == BumpItems(summaries, tenant, xs + ys, m)
  {
    if ys == [] {
      assert xs + ys == xs;
    } else {
      BumpItemsAppend(summaries, tenant, xs, ys[..|ys| - 1], m);
      assert (xs + ys)[..|xs + ys| - 1] == xs + ys[..|ys| - 1];
    }
  }

  /** State after some of the claims: consistent, with the index right once the batch's items are bumped. */
  ghost predicate Claiming(db: Db, p: ReserveParams, b: BatchId, rs: seq<Reservation>, d: Db) {
    && d.sales == db.sales && d.summaries == db.summaries && d.locks == db.locks
    && b == |db.batches| && |d.batches| == b + 1 && d.batches[..b] == db.batches
    && d.batches[b].status.Processing? && d.batches[b].tenant == p.tenant && (rs != [] ==> d.batches[b].items != [])
    && BooksInv(d.sales, d.ledger) && SettlementInv(d.sales, d.ledger, d.payouts, d.batches)
    && Balanced(d.sales, d.ledger, BumpItems(d.summaries, p.tenant, d.batches[b].items, Claim(b)))
    && Untouched(db, rs, d)
  }

  /** Rows and payouts of members not yet claimed are as they were. */
  ghost predicate Untouched(db: Db, rs: seq<Reservation>, d: Db) {
    && |d.ledger| == |db.ledger| && |d.payouts| >= |db.payouts|
    && (forall i: nat :: i < |db.ledger| && NoneOf(rs, db.ledger[i].member) ==> d.ledger[i] == db.ledger[i])
    && (forall i: nat :: i < |db.payouts| && NoneOf(rs, db.payouts[i].member) ==> d.payouts[i] == db.payouts[i])
    && (forall i: nat :: |db.payouts| <= i < |d.payouts| ==> !NoneOf(rs, d.payouts[i].member))
    && (forall i: nat :: i < |db.payouts| ==> d.payouts[i].member == db.payouts[i].member)
  }

  lemma {:induction false} SumRowsSame(l1: seq<Row>, l2: seq<Row>, ids: seq<RowId>)
    requires forall a :: 0 <= a < |ids| ==> ids[a] < |l1| && ids[a] < |l2| && l1[ids[a]] == l2[ids[a]]
    ensures SumRows(l1, ids) == SumRows(l2, ids)
  {
    if ids != [] {
      SumRowsSame(l1, l2, ids[..|ids| - 1]);
    }
  }

  /** A reservation of an unclaimed member is still claimable. */
  lemma StillReady(db: Db, p: ReserveParams, b: BatchId, rs: seq<Reservation>, d: Db, res: Reservation)
    requires Inv(db) && Claiming(db, p, b, rs, d) && ReservationOk(db, p, res) && NoneOf(rs, res.member)
    ensures ClaimReady(d, p, b, res)
  {
    forall a | 0 <= a < |res.rows| ensures res.rows[a] < |d.ledger| && d.ledger[res.rows[a]] == db.ledger[res.rows[a]] && ClaimableRow(p, res, d.ledger[res.rows[a]]) {
      assert Selects(PayableOf(p.tenant, res.member), res.rows[a], db.ledger[res.rows[a]]);
      assert RowOk(db.sales, db.ledger[res.rows[a]]);
    }
    SumRowsSame(db.ledger, d.ledger, res.rows);
  }

  lemma ClaimUntouched(db: Db, p: ReserveParams, env: ReserveEnv, b: BatchId, rs: seq<Reservation>, d: Db, res: Reservation, c: Claimed)
    requires Claims(d, p, env, b, res, c) && Untouched(db, rs, d)
    ensures Untouched(db, rs + [res], d.(ledger := c.ledger, payouts := c.payouts, batches := c.batches))
  {
    ClaimPayout(d, p, env, b, res, c);
    var rs' := rs + [res];
    assert forall m :: NoneOf(rs', m) <==> NoneOf(rs, m) && m != res.member by {
      forall m ensures NoneOf(rs', m) <==> NoneOf(rs, m) && m != res.member {
        if NoneOf(rs', m) {
          assert rs'[|rs|] == res;
          assert forall a :: 0 <= a < |rs| ==> rs'[a] == rs[a];
        }
      }
    }
    forall i: nat | i < |db.ledger| && NoneOf(rs', db.ledger[i].member) ensures c.ledger[i] == db.ledger[i] {
      ClaimRow(d, p, env, b, res, c, i);
      assert d.ledger[i] == db.ledger[i];
    }
    ClaimItems(d, p, env, b, res, c.id);
  }

  lemma ClaimBalanced(d: Db, p: ReserveParams, env: ReserveEnv, b: BatchId, res: Reservation, c: Claimed)
    requires Claims(d, p, env, b, res, c)
    requires Balanced(d.sales, d.ledger, BumpItems(d.summaries, p.tenant, d.batches[b].items, Claim(b)))
    ensures Balanced(d.sales, c.ledger, BumpItems(d.summaries, p.tenant, d.batches[b].items + c.items, Claim(b)))
  {
    ClaimItems(d, p, env, b, res, c.id);
    MoveBalanced(d.sales, d.ledger, BumpItems(d.summaries, p.tenant, d.batches[b].items, Claim(b)), p.tenant, c.items, Claim(b));
    BumpItemsAppend(d.summaries, p.tenant, d.batches[b].items, c.items, Claim(b));
  }

  lemma ClaimEffectKeeps(db: Db, p: ReserveParams, env: ReserveEnv, b: BatchId, rs: seq<Reservation>, d: Db, res: Reservation, c: Claimed)
    requires Claiming(db, p, b, rs, d) && Claims(d, p, env, b, res, c)
    ensures Claiming(db, p, b, rs + [res], AfterClaim(d, c)) == true
  {
    ClaimKeepsSettlement(d, p, env, b, res, c);
    ClaimUntouched(db, p, env, b, rs, d, res, c);
    ClaimBalanced(d, p, env, b, res, c);
  }

  lemma ClaimOneKeeps(db: Db, p: ReserveParams, env: ReserveEnv, b: BatchId, rs: seq<Reservation>, d: Db, res: Reservation)
    requires Inv(db) && Claiming(db, p, b, rs, d) && ReservationOk(db, p, res) && NoneOf(rs, res.member)
    ensures ClaimOne(d, p, env, b, res).Ok? ==> Claiming(db, p, b, rs + [res], ClaimOne(d, p, env, b, res).value) == true
    ensures ClaimOne(d, p, env, b, res).Err? ==> ClaimOne(d, p, env, b, res).error == UniqueIndex
  {
    StillReady(db, p, b, rs, d, res);
    ClaimGuards(d, p, env, b, res);
    if ClaimOne(d, p, env, b, res).Ok? {
      ClaimOneEffect(d, p, env, b, res);
      ClaimEffectKeeps(db, p, env, b, rs, d, res, ClaimEffect(d, p, env, b, res));
    }
  }

  /** An empty open batch changes nothing yet. */
  lemma OpenKeeps(db: Db, p: ReserveParams)
    requires Inv(db)
    ensures Claiming(db, p, |db.batches|, [], OpenBatch(db, p))
  {
    var d := OpenBatch(db, p);
    forall i | 0 <= i < |d.ledger| ensures RowLinked(d.payouts, d.batches, i, d.ledger[i]) {
      assert RowLinked(db.payouts, db.batches, i, db.ledger[i]);
    }
    forall k | 0 <= k < |d.batches| ensures BatchOk(d.sales, d.ledger, d.payouts, d.batches[k], k) {
      if k < |db.batches| {
        assert BatchOk(db.sales, db.ledger, db.payouts, db.batches[k], k);
      }
    }
    forall id | 0 <= id < |d.payouts| ensures PayoutOk(d.batches, id, d.payouts[id]) {
      assert PayoutOk(db.batches, id, db.payouts[id]);
    }
  }

  /** Reservations that can be claimed one after the other. */
  ghost predicate Claimables(db: Db, p: ReserveParams, rs: seq<Reservation>) {
    rs == [] ||
    (Claimables(db, p, rs[..|rs| - 1]) && ReservationOk(db, p, rs[|rs| - 1]) && NoneOf(rs[..|rs| - 1], rs[|rs| - 1].member))
  }

  lemma {:induction false} SelectionClaimable(db: Db, p: ReserveParams, rs: seq<Reservation>, ts: seq<MemberId>)
    requires SelectionOk(db, p, rs, ts)
    ensures Claimables(db, p, rs)
  {
    if rs != [] {
      SelectionClaimable(db, p, rs[..|rs| - 1], ts);
    }
  }

  ghost predicate ClaimedOrRefused(db: Db, p: ReserveParams, rs: seq<Reservation>, r: Result<Db, Error>) {
    match r
    case Ok(d) => Claiming(db, p, |db.batches|, rs, d)
    case Err(e) => e == UniqueIndex
  }

  lemma ClaimNext(db: Db, p: ReserveParams, env: ReserveEnv, rs: seq<Reservation>, d: Db, res: Reservation)
    requires Inv(db) && ClaimedOrRefused(db, p, rs, Ok(d)) && ReservationOk(db, p, res) && NoneOf(rs, res.member)
    ensures |d.batches| == |db.batches| + 1 && ClaimedOrRefused(db, p, rs + [res], ClaimOne(d, p, env, |db.batches|, res))
  {
    ClaimOneKeeps(db, p, env, |db.batches|, rs, d, res);
  }

  /** Claiming the reservations front to back: either all are claimed, or the index refuses one. */
  lemma {:induction false} ClaimAllKeep(db: Db, p: ReserveParams, env: ReserveEnv, rs: seq<Reservation>)
    requires Inv(db) && Claimables(db, p, rs)
    ensures ClaimedOrRefused(db, p, rs, ClaimAll(OpenBatch(db, p), p, env, |db.batches|, rs)) == true
  {
    if rs == [] {
      OpenKeeps(db, p);
    } else {
      var front, last := rs[..|rs| - 1], rs[|rs| - 1];
      assert rs == front + [last];
      ClaimAllKeep(db, p, env, front);
      var r := ClaimAll(OpenBatch(db, p), p, env, |db.batches|, front);
      if r.Ok? {
        ClaimNext(db, p, env, front, r.value, last);
      }
    }
  }

  lemma FilledGrows(before: seq<Batch>, after: seq<Batch>)
    requires BatchesFilled(before) && |after| == |before| + 1 && after[..|before|] == before && after[|before|].items != []
    ensures BatchesFilled(after)
  {
    forall k | 0 <= k < |before| ensures after[k] == before[k] {
      assert after[..|before|][k] == before[k];
    }
  }

  /** Bumping the summaries once every claim is in closes the transaction. */
  lemma ClaimedKeeps(db: Db, p: ReserveParams, rs: seq<Reservation>, d: Db)
    requires BatchesFilled(db.batches) && Claiming(db, p, |db.batches|, rs, d) && rs != []
    ensures Inv(d.(summaries := BumpItems(d.summaries, p.tenant, d.batches[|db.batches|].items, Claim(|db.batches|))))
  {
    FilledGrows(db.batches, d.batches);
  }

  lemma ReservationsClaimable(db: Db, p: ReserveParams, env: ReserveEnv, ts: seq<MemberId>)
    requires Targets(db, p, env) == Ok(ts) && Select(db, p, env, ts).Ok?
    ensures Claimables(db, p, Select(db, p, env, ts).value.reservations)
  {
    TargetsStrict(db, p, env);
    SelectMeaning(db, p, env, ts);
    SelectionClaimable(db, p, Select(db, p, env, ts).value.reservations, ts);
  }

  lemma {:induction false} SelectErrors(db: Db, p: ReserveParams, env: ReserveEnv, ts: seq<MemberId>)
    ensures Select(db, p, env, ts).Err? ==> Select(db, p, env, ts).error in {NotFound, NoOpenRequest, PeriodLocked, Blocked}
  {
    if ts != [] {
      SelectErrors(db, p, env, ts[..|ts| - 1]);
      ChooseErrors(db, p, env, ts[|ts| - 1]);
    }
  }

  /**
   A reservation keeps the invariant, and once its selection has passed it can only be refused by the
   one-open-payout index: the guard on changed rows never fires.
   */
  lemma ReserveKeeps(db: Db, p: ReserveParams, env: ReserveEnv)
    requires Inv(db)
    ensures ReserveBatch(db, p, env).Committed? ==> Inv(ReserveBatch(db, p, env).db) == true
    ensures ReserveBatch(db, p, env) != Aborted(RowsChanged)
  {
    var ts := Targets(db, p, env);
    if ts.Ok? {
      SelectErrors(db, p, env, ts.value);
      var s := Select(db, p, env, ts.value);
      if s.Ok? && !p.preview && s.value.reservations != [] {
        ReservationsClaimable(db, p, env, ts.value);
        ClaimAllKeep(db, p, env, s.value.reservations);
        var r := ClaimAll(OpenBatch(db, p), p, env, |db.batches|, s.value.reservations);
        if r.Ok? {
          ClaimedKeeps(db, p, s.value.reservations, r.value);
        }
      }
    }
  }

  // ------------------------------------------------------------------ what a reservation takes

  /** Untouched, or a free payable row put into the batch. */
  predicate RowTaken(was: Row, now: Row, b: BatchId) {
    now == was
    || (was.status.Payable? && was.payout.None? && was.batch.None?
        && now == was.(status := LedgerStatus.Processing, payout := now.payout, batch := Some(b)))
  }

  /** Untouched, or an open request put to work with the net amount of its member. */
  predicate PayoutTaken(was: Payout, now: Payout, b: BatchId) {
    now == was
    || (was.status.Requested? && was.batch.None?
        && now == was.(status := PayoutStatus.Processing, batch := Some(b), total := now.total))
  }

  ghost predicate Taken(db: Db, b: BatchId, d: Db) {
    && d.sales == db.sales && d.locks == db.locks
    && |d.ledger| == |db.ledger| && |d.payouts| >= |db.payouts|
    && (forall i :: 0 <= i < |db.ledger| ==> RowTaken(db.ledger[i], d.ledger[i], b))
    && (forall i :: 0 <= i < |db.payouts| ==> PayoutTaken(db.payouts[i], d.payouts[i], b))
    && (forall i :: |db.payouts| <= i < |d.payouts| ==> d.payouts[i].batch == Some(b))
  }

  lemma ClaimTakesRow(db: Db, p: ReserveParams, env: ReserveEnv, b: BatchId, d: Db, res: Reservation, c: Claimed, i: RowId)
    requires Claims(d, p, env, b, res, c) && i < |db.ledger| && i < |d.ledger| && RowTaken(db.ledger[i], d.ledger[i], b)
    ensures |c.ledger| == |d.ledger| && RowTaken(db.ledger[i], c.ledger[i], b)
  {
    ClaimRow(d, p, env, b, res, c, i);
  }

  lemma ClaimTakesPayout(db: Db, p: ReserveParams, env: ReserveEnv, b: BatchId, d: Db, res: Reservation, c: Claimed, i: PayoutId)
    requires Claims(d, p, env, b, res, c) && i < |db.payouts| && i < |d.payouts| && PayoutTaken(db.payouts[i], d.payouts[i], b)
    ensures i < |c.payouts| && PayoutTaken(db.payouts[i], c.payouts[i], b)
  {
    ClaimPayout(d, p, env, b, res, c);
    assert PayoutOk(d.batches, i, d.payouts[i]);
  }

  lemma ClaimTakes(db: Db, p: ReserveParams, env: ReserveEnv, b: BatchId, d: Db, res: Reservation, c: Claimed)
    requires Taken(db, b, d) && Claims(d, p, env, b, res, c)
    ensures Taken(db, b, AfterClaim(d, c)) == true
  {
    ClaimItems(d, p, env, b, res, c.id);
    ClaimPayout(d, p, env, b, res, c);
    forall i | 0 <= i < |db.ledger| ensures |c.ledger| == |d.ledger| && RowTaken(db.ledger[i], c.ledger[i], b) {
      ClaimTakesRow(db, p, env, b, d, res, c, i);
    }
    forall i | 0 <= i < |db.payouts| ensures i < |c.payouts| && PayoutTaken(db.payouts[i], c.payouts[i], b) {
      ClaimTakesPayout(db, p, env, b, d, res, c, i);
    }
  }

  lemma ClaimNextTakes(db: Db, p: ReserveParams, env: ReserveEnv, rs: seq<Reservation>, d: Db, res: Reservation)
    requires Inv(db) && ClaimedOrRefused(db, p, rs, Ok(d)) && ReservationOk(db, p, res) && NoneOf(rs, res.member)
    requires Taken(db, |db.batches|, d)
    ensures |d.batches| == |db.batches| + 1
    ensures ClaimOne(d, p, env, |db.batches|, res).Ok? ==> Taken(db, |db.batches|, ClaimOne(d, p, env, |db.batches|, res).value) == true
  {
    StillReady(db, p, |db.batches|, rs, d, res);
    ClaimGuards(d, p, env, |db.batches|, res);
    if ClaimOne(d, p, env, |db.batches|, res).Ok? {
      ClaimOneEffect(d, p, env, |db.batches|, res);
      ClaimTakes(db, p, env, |db.batches|, d, res, ClaimEffect(d, p, env, |db.batches|, res));
    }
  }

  lemma {:induction false} ClaimAllTakes(db: Db, p: ReserveParams, env: ReserveEnv, rs: seq<Reservation>)
    requires Inv(db) && Claimables(db, p, rs)
    ensures ClaimAll(OpenBatch(db, p), p, env, |db.batches|, rs).Ok? ==>
              Taken(db, |db.batches|, ClaimAll(OpenBatch(db, p), p, env, |db.batches|, rs).value) == true
  {
    if rs != [] {
      var front, last := rs[..|rs| - 1], rs[|rs| - 1];
      ClaimAllTakes(db, p, env, front);
      ClaimAllKeep(db, p, env, front);
      var r := ClaimAll(OpenBatch(db, p), p, env, |db.batches|, front);
      if r.Ok? {
        ClaimNextTakes(db, p, env, front, r.value, last);
      }
    }
  }

  /** A batch is opened by claiming the reservations of the selection, and the bumps that follow touch the index only. */
  lemma BatchOpened(db: Db, p: ReserveParams, env: ReserveEnv)
    ensures var r := ReserveBatch(db, p, env);
            r.Committed? && r.value.batch.Some? ==>
              && var rs := r.value.selection.reservations;
              && Targets(db, p, env).Ok? && Select(db, p, env, Targets(db, p, env).value) == Ok(r.value.selection) && rs != []
              && ClaimAll(OpenBatch(db, p), p, env, |db.batches|, rs).Ok?
              && r.value.batch == Some(|db.batches|)
              && r.db == ClaimAll(OpenBatch(db, p), p, env, |db.batches|, rs).value.(summaries := r.db.summaries)
    ensures var r := ReserveBatch(db, p, env);
            r.Committed? && r.value.batch.None? ==> r.db == db
  {}

  lemma UntakenTaken(db: Db)
    ensures Taken(db, |db.batches|, db)
  {}

  /** Bumping the index takes nothing. */
  lemma TakenBumped(db: Db, b: BatchId, d: Db, summaries: map<Key, Cell>)
    requires Taken(db, b, d)
    ensures Taken(db, b, d.(summaries := summaries)) == true
  {}

  /** A committed reservation takes free payable rows and open requests into its new batch and changes no other row. */
  lemma ReserveTakes(db: Db, p: ReserveParams, env: ReserveEnv)
    requires Inv(db)
    ensures ReserveBatch(db, p, env).Committed? ==> Taken(db, |db.batches|, ReserveBatch(db, p, env).db) == true
    ensures ReserveBatch(db, p, env).Committed? ==>
              match ReserveBatch(db, p, env).value.batch
              case None => ReserveBatch(db, p, env).db == db
              case Some(b) =>
                var d := ReserveBatch(db, p, env).db;
                b == |db.batches| && |d.batches| == b + 1 && d.batches[b].status.Processing? && d.batches[b].tenant == p.tenant
                && d.batches[..b] == db.batches
  {
    var r := ReserveBatch(db, p, env);
    BatchOpened(db, p, env);
    UntakenTaken(db);
    if r.Committed? && r.value.batch.Some? {
      var rs := r.value.selection.reservations;
      ReservationsClaimable(db, p, env, Targets(db, p, env).value);
      ClaimAllKeep(db, p, env, rs);
      ClaimAllTakes(db, p, env, rs);
      TakenBumped(db, |db.batches|, ClaimAll(OpenBatch(db, p), p, env, |db.batches|, rs).value, r.db.summaries);
    }
  }

  // ------------------------------------------------------------------ when the index refuses

  /** The member has an open payout and the reservation does not consume one. */
  predicate Stranded(db: Db, p: ReserveParams, res: Reservation) {
    res.request.None? && exists i :: 0 <= i < |db.payouts| && PayoutSelects(OpenOf(p.tenant, res.member), db.payouts[i])
  }

  /** Claims of other members do not open or close a member's payouts. */
  lemma SameOpen(db: Db, p: ReserveParams, rs: seq<Reservation>, d: Db, res: Reservation)
    requires Untouched(db, rs, d) && NoneOf(rs, res.member)
    ensures Stranded(db, p, res) <==> res.request.None? && PayoutsWhere(d.payouts, OpenOf(p.tenant, res.member)) != []
  {
    var f := OpenOf(p.tenant, res.member);
    var ids := PayoutsWhere(d.payouts, f);
    if ids != [] {
      assert ids[0] in ids;
      assert PayoutSelects(f, db.payouts[ids[0]]);
    }
    if i :| 0 <= i < |db.payouts| && PayoutSelects(f, db.payouts[i]) {
      assert d.payouts[i] == db.payouts[i];
      assert i in ids;
    }
  }

  predicate AnyStranded(db: Db, p: ReserveParams, rs: seq<Reservation>) {
    exists a :: 0 <= a < |rs| && Stranded(db, p, rs[a])
  }

  lemma AnyStrandedSplit(db: Db, p: ReserveParams, front: seq<Reservation>, last: Reservation)
    ensures AnyStranded(db, p, front + [last]) <==> AnyStranded(db, p, front) || Stranded(db, p, last)
  {
    var rs := front + [last];
    if AnyStranded(db, p, front) {
      var a :| 0 <= a < |front| && Stranded(db, p, front[a]);
      assert rs[a] == front[a];
    }
    if Stranded(db, p, last) {
      assert rs[|front|] == last;
    }
  }

  lemma ClaimNextRefused(db: Db, p: ReserveParams, env: ReserveEnv, rs: seq<Reservation>, d: Db, res: Reservation)
    requires Inv(db) && ClaimedOrRefused(db, p, rs, Ok(d)) && ReservationOk(db, p, res) && NoneOf(rs, res.member)
    ensures |d.batches| == |db.batches| + 1 && (ClaimOne(d, p, env, |db.batches|, res).Err? <==> Stranded(db, p, res))
  {
    StillReady(db, p, |db.batches|, rs, d, res);
    ClaimGuards(d, p, env, |db.batches|, res);
    SameOpen(db, p, rs, d, res);
  }

  lemma {:induction false} ClaimAllRefused(db: Db, p: ReserveParams, env: ReserveEnv, rs: seq<Reservation>)
    requires Inv(db) && Claimables(db, p, rs)
    ensures ClaimAll(OpenBatch(db, p), p, env, |db.batches|, rs).Err? == AnyStranded(db, p, rs)
  {
    if rs != [] {
      var front, last := rs[..|rs| - 1], rs[|rs| - 1];
      assert rs == front + [last];
      ClaimAllRefused(db, p, env, front);
      ClaimAllKeep(db, p, env, front);
      AnyStrandedSplit(db, p, front, last);
      var r := ClaimAll(OpenBatch(db, p), p, env, |db.batches|, front);
      if r.Ok? {
        ClaimNextRefused(db, p, env, front, r.value, last);
      }
    }
  }

  /**
   Exactly when the one-open-payout index makes a reservation fail: some reserved member still has an
   open payout, and it is not an open request of the reserved period.
   */
  lemma ReserveRefused(db: Db, p: ReserveParams, env: ReserveEnv)
    requires Inv(db)
    ensures ReserveBatch(db, p, env) == Aborted(UniqueIndex) <==>
            && Targets(db, p, env).Ok? && Select(db, p, env, Targets(db, p, env).value).Ok? && !p.preview
            && AnyStranded(db, p, Select(db, p, env, Targets(db, p, env).value).value.reservations)
  {
    var ts := Targets(db, p, env);
    if ts.Ok? {
      SelectErrors(db, p, env, ts.value);
      var s := Select(db, p, env, ts.value);
      if s.Ok? && !p.preview && s.value.reservations != [] {
        ReservationsClaimable(db, p, env, ts.value);
        ClaimAllKeep(db, p, env, s.value.reservations);
        ClaimAllRefused(db, p, env, s.value.reservations);
      }
    }
  }
}
