/**
 Exactly what a reservation changes: which payouts it puts to work or opens, which rows it takes, and
 when the one-open-payout index refuses it.
 */
module ReserveExact {
  import opened Prelude
  import opened Commission
  import opened Tables
  import opened Ledger
  import opened EngineSpec
  import opened EngineInv
  import opened BooksProofs
  import opened SettleProofs
  import opened ReserveProofs

  /** The reservations that need a new payout, in order. */
  function FreshOf(rs: seq<Reservation>): seq<Reservation> {
    if rs == [] then []
    else FreshOf(rs[..|rs| - 1]) + (if rs[|rs| - 1].request.None? then [rs[|rs| - 1]] else [])
  }

  /** An open request that serves a reservation. */
  function PutToWork(was: Payout, p: ReserveParams, b: BatchId, res: Reservation): Payout {
    was.(batch := Some(b), total := res.amount, status := PayoutStatus.Processing,
         activeKey := Some(ActiveKey(p.tenant, res.member, p.period)))
  }

  function Opened(p: ReserveParams, b: BatchId, res: Reservation): Payout {
    Payout(p.tenant, res.member, Some(b), res.amount, PayoutStatus.Processing, p.period,
           Some(ActiveKey(p.tenant, res.member, p.period)))
  }

  predicate Uses(rs: seq<Reservation>, i: PayoutId) {
    exists k :: 0 <= k < |rs| && rs[k].request == Some(i)
  }

  /** An old payout is put to work by the reservation that consumes it, and is untouched when none does. */
  ghost predicate OldPayout(was: seq<Payout>, p: ReserveParams, b: BatchId, rs: seq<Reservation>, now: seq<Payout>, i: PayoutId) {
    && i < |was| && i < |now|
    && (forall k :: 0 <= k < |rs| && rs[k].request == Some(i) ==> now[i] == PutToWork(was[i], p, b, rs[k]))
    && (!Uses(rs, i) ==> now[i] == was[i])
  }

  /** Consumed requests are put to work, one payout is opened for each other reservation, and nothing else happens to payouts. */
  ghost predicate PayoutsClaimed(was: seq<Payout>, p: ReserveParams, b: BatchId, rs: seq<Reservation>, now: seq<Payout>) {
    && |now| == |was| + |FreshOf(rs)|
    && (forall i: nat :: i < |was| ==> OldPayout(was, p, b, rs, now, i))
    && (forall j: nat :: j < |FreshOf(rs)| ==> now[|was| + j] == Opened(p, b, FreshOf(rs)[j]))
  }

  predicate Takes(rs: seq<Reservation>, i: RowId) {
    exists k :: 0 <= k < |rs| && i in rs[k].rows
  }

  /** The payout of the k-th reservation. */
  function ServedBy(rs: seq<Reservation>, k: nat, payouts: nat): PayoutId
    requires k < |rs|
  {
    if rs[k].request.Some? then rs[k].request.value else payouts + |FreshOf(rs[..k])|
  }

  /** A row goes to the payout and the batch of the reservation that lists it, and is untouched when none does. */
  ghost predicate RowClaimed(db: Db, b: BatchId, rs: seq<Reservation>, now: seq<Row>, i: RowId) {
    && i < |db.ledger| && i < |now|
    && (forall k :: 0 <= k < |rs| && i in rs[k].rows ==>
          now[i] == db.ledger[i].(status := LedgerStatus.Processing, payout := Some(ServedBy(rs, k, |db.payouts|)), batch := Some(b)))
    && (!Takes(rs, i) ==> now[i] == db.ledger[i])
  }

  ghost predicate RowsClaimed(db: Db, b: BatchId, rs: seq<Reservation>, now: seq<Row>) {
    |now| == |db.ledger| && forall i: nat :: i < |db.ledger| ==> RowClaimed(db, b, rs, now, i)
  }

  // ------------------------------------------------------------------ one more claim

  lemma FreshStep(front: seq<Reservation>, last: Reservation)
    ensures FreshOf(front + [last]) == FreshOf(front) + (if last.request.None? then [last] else [])
  {
    assert (front + [last])[..|front|] == front;
  }

  lemma UsesStep(front: seq<Reservation>, last: Reservation, i: PayoutId)
    ensures Uses(front + [last], i) <==> Uses(front, i) || last.request == Some(i)
  {
    var rs := front + [last];
    if Uses(front, i) {
      var k :| 0 <= k < |front| && front[k].request == Some(i);
      assert rs[k] == front[k];
    }
    if last.request == Some(i) {
      assert rs[|front|] == last;
    }
  }

  lemma TakesStep(front: seq<Reservation>, last: Reservation, i: RowId)
    ensures Takes(front + [last], i) <==> Takes(front, i) || i in last.rows
  {
    var rs := front + [last];
    if Takes(front, i) {
      var k :| 0 <= k < |front| && i in front[k].rows;
      assert rs[k] == front[k];
    }
    if i in last.rows {
      assert rs[|front|] == last;
    }
  }

  /** A request that a claim consumes was not consumed before: it is still open as a request. */
  lemma OldPayoutStep(was: seq<Payout>, p: ReserveParams, b: BatchId, front: seq<Reservation>, now: seq<Payout>, last: Reservation, i: PayoutId)
    requires OldPayout(was, p, b, front, now, i) && PlacePayout(now, p, b, last).Ok?
    requires last.request.Some? ==> last.request.value < |now| && now[last.request.value].status.Requested?
    ensures OldPayout(was, p, b, front + [last], PlacePayout(now, p, b, last).value.0, i)
  {
    var rs, after := front + [last], PlacePayout(now, p, b, last).value.0;
    UsesStep(front, last, i);
    if last.request == Some(i) {
      assert forall k :: 0 <= k < |front| && front[k].request == Some(i) ==> now[i].status.Processing?;
      assert !Uses(front, i);
    }
    forall k | 0 <= k < |rs| && rs[k].request == Some(i) ensures after[i] == PutToWork(was[i], p, b, rs[k]) {
      assert k < |front| ==> rs[k] == front[k] && Uses(front, i);
    }
  }

  lemma PayoutsClaimedStep(was: seq<Payout>, p: ReserveParams, b: BatchId, front: seq<Reservation>, now: seq<Payout>, last: Reservation)
    requires PayoutsClaimed(was, p, b, front, now) && PlacePayout(now, p, b, last).Ok?
    requires last.request.Some? ==> last.request.value < |was| && now[last.request.value].status.Requested?
    ensures PayoutsClaimed(was, p, b, front + [last], PlacePayout(now, p, b, last).value.0)
    ensures PlacePayout(now, p, b, last).value.1 == ServedBy(front + [last], |front|, |was|)
  {
    FreshStep(front, last);
    assert (front + [last])[..|front|] == front;
    forall i: nat | i < |was| ensures OldPayout(was, p, b, front + [last], PlacePayout(now, p, b, last).value.0, i) {
      OldPayoutStep(was, p, b, front, now, last, i);
    }
  }

  lemma ServedEarlier(front: seq<Reservation>, last: Reservation, k: nat, payouts: nat)
    requires k < |front|
    ensures ServedBy(front + [last], k, payouts) == ServedBy(front, k, payouts)
  {
    assert (front + [last])[..k] == front[..k];
  }

  lemma RowClaimedStep(db: Db, b: BatchId, front: seq<Reservation>, now: seq<Row>, after: seq<Row>, last: Reservation, i: RowId)
    requires RowClaimed(db, b, front, now, i) && i < |after|
    requires i in last.rows ==>
               && now[i].status.Payable?
               && after[i] == now[i].(status := LedgerStatus.Processing,
                                      payout := Some(ServedBy(front + [last], |front|, |db.payouts|)), batch := Some(b))
    requires i !in last.rows ==> after[i] == now[i]
    ensures RowClaimed(db, b, front + [last], after, i)
  {
    var rs := front + [last];
    TakesStep(front, last, i);
    if i in last.rows {
      assert forall k :: 0 <= k < |front| && i in front[k].rows ==> now[i].status.Processing?;
      assert !Takes(front, i);
    }
    forall k | 0 <= k < |rs| && i in rs[k].rows
      ensures after[i] == db.ledger[i].(status := LedgerStatus.Processing, payout := Some(ServedBy(rs, k, |db.payouts|)), batch := Some(b))
    {
      assert k < |front| ==> rs[k] == front[k] && Takes(front, i);
      if k < |front| {
        ServedEarlier(front, last, k, |db.payouts|);
      }
    }
  }

  /** Payouts and rows after some of the claims. */
  ghost predicate ClaimedExactly(db: Db, p: ReserveParams, rs: seq<Reservation>, d: Db) {
    PayoutsClaimed(db.payouts, p, |db.batches|, rs, d.payouts) && RowsClaimed(db, |db.batches|, rs, d.ledger)
  }

  lemma ClaimRowsExactly(db: Db, p: ReserveParams, env: ReserveEnv, front: seq<Reservation>, d: Db, last: Reservation, c: Claimed)
    requires Claims(d, p, env, |db.batches|, last, c) && RowsClaimed(db, |db.batches|, front, d.ledger)
    requires c.id == ServedBy(front + [last], |front|, |db.payouts|)
    ensures RowsClaimed(db, |db.batches|, front + [last], c.ledger)
  {
    ClaimItems(d, p, env, |db.batches|, last, c.id);
    forall i: nat | i < |db.ledger| ensures |c.ledger| == |d.ledger| && RowClaimed(db, |db.batches|, front + [last], c.ledger, i) {
      ClaimRow(d, p, env, |db.batches|, last, c, i);
      RowClaimedStep(db, |db.batches|, front, d.ledger, c.ledger, last, i);
    }
  }

  lemma ClaimNextExactly(db: Db, p: ReserveParams, env: ReserveEnv, front: seq<Reservation>, d: Db, last: Reservation)
    requires Inv(db) && ClaimedOrRefused(db, p, front, Ok(d)) && ReservationOk(db, p, last) && NoneOf(front, last.member)
    requires ClaimedExactly(db, p, front, d)
    ensures |d.batches| == |db.batches| + 1
    ensures ClaimOne(d, p, env, |db.batches|, last).Ok? ==>
              ClaimedExactly(db, p, front + [last], ClaimOne(d, p, env, |db.batches|, last).value) == true
  {
    StillReady(db, p, |db.batches|, front, d, last);
    ClaimGuards(d, p, env, |db.batches|, last);
    if ClaimOne(d, p, env, |db.batches|, last).Ok? {
      ClaimOneEffect(d, p, env, |db.batches|, last);
      var c := ClaimEffect(d, p, env, |db.batches|, last);
      PayoutsClaimedStep(db.payouts, p, |db.batches|, front, d.payouts, last);
      ClaimRowsExactly(db, p, env, front, d, last, c);
    }
  }

  lemma {:induction false} ClaimAllExactly(db: Db, p: ReserveParams, env: ReserveEnv, rs: seq<Reservation>)
    requires Inv(db) && Claimables(db, p, rs)
    ensures ClaimAll(OpenBatch(db, p), p, env, |db.batches|, rs).Ok? ==>
              ClaimedExactly(db, p, rs, ClaimAll(OpenBatch(db, p), p, env, |db.batches|, rs).value) == true
  {
    if rs != [] {
      var front, last := rs[..|rs| - 1], rs[|rs| - 1];
      assert front + [last] == rs;
      ClaimAllExactly(db, p, env, front);
      ClaimAllKeep(db, p, env, front);
      var r := ClaimAll(OpenBatch(db, p), p, env, |db.batches|, front);
      if r.Ok? {
        ClaimNextExactly(db, p, env, front, r.value, last);
      }
    }
  }

  /** Every request that a reservation consumes is an open request of its member and of the reserved period. */
  ghost predicate RequestsOpen(db: Db, p: ReserveParams, rs: seq<Reservation>) {
    forall k :: 0 <= k < |rs| && rs[k].request.Some? ==>
      && rs[k].request.value < |db.payouts| && db.payouts[rs[k].request.value].status.Requested?
      && db.payouts[rs[k].request.value].tenant == p.tenant && db.payouts[rs[k].request.value].member == rs[k].member
      && db.payouts[rs[k].request.value].period == p.period
  }

  lemma SelectionRequests(db: Db, p: ReserveParams, env: ReserveEnv, ts: seq<MemberId>)
    requires Targets(db, p, env) == Ok(ts) && Select(db, p, env, ts).Ok?
    ensures RequestsOpen(db, p, Select(db, p, env, ts).value.reservations)
  {
    TargetsStrict(db, p, env);
    SelectMeaning(db, p, env, ts);
    var rs := Select(db, p, env, ts).value.reservations;
    assert forall k :: 0 <= k < |rs| ==> ReservationOk(db, p, rs[k]);
  }

  /**
   A reservation that opens a batch puts exactly the consumed requests to work, opens exactly one payout
   for each other reservation, and moves exactly the reserved rows, each to the payout of its reservation.
   */
  lemma ReserveExactly(db: Db, p: ReserveParams, env: ReserveEnv)
    requires Inv(db)
    ensures var r := ReserveBatch(db, p, env);
            r.Committed? && r.value.batch.Some? ==>
              && r.value.selection.reservations != []
              && RequestsOpen(db, p, r.value.selection.reservations) == true
              && ClaimedExactly(db, p, r.value.selection.reservations, r.db) == true
  {
    var r := ReserveBatch(db, p, env);
    BatchOpened(db, p, env);
    if r.Committed? && r.value.batch.Some? {
      var ts, rs := Targets(db, p, env).value, r.value.selection.reservations;
      SelectionRequests(db, p, env, ts);
      ReservationsClaimable(db, p, env, ts);
      ClaimAllExactly(db, p, env, rs);
      SameTables(db, p, rs, ClaimAll(OpenBatch(db, p), p, env, |db.batches|, rs).value, r.db);
    }
  }

  lemma SameTables(db: Db, p: ReserveParams, rs: seq<Reservation>, d: Db, after: Db)
    requires ClaimedExactly(db, p, rs, d) && after.payouts == d.payouts && after.ledger == d.ledger
    ensures ClaimedExactly(db, p, rs, after) == true
  {}

  // ------------------------------------------------------------------ when the index refuses, on the tables

  /** Something payable, at the threshold, in open months, and the member may be paid. */
  predicate Reservable(db: Db, p: ReserveParams, env: ReserveEnv, m: MemberId) {
    var rows := RowsWhere(db.ledger, PayableOf(p.tenant, m));
    var net := SumRows(db.ledger, rows);
    && rows != [] && net > 0 && net >= env.payoutMin
    && (forall a :: 0 <= a < |rows| ==> (p.tenant, MonthOf(db.sales, db.ledger[rows[a]], env.monthKey)) !in db.locks)
    && m !in env.blocked && m in env.ready
  }

  /** An open payout of the member that belongs to another period than the reserved one. */
  predicate OpenElsewhere(db: Db, p: ReserveParams, m: MemberId, i: PayoutId) {
    && i < |db.payouts| && db.payouts[i].tenant == p.tenant && db.payouts[i].member == m
    && Open(db.payouts[i]) && db.payouts[i].period != p.period
  }

  ghost predicate Conflict(db: Db, p: ReserveParams, env: ReserveEnv, m: MemberId) {
    Reservable(db, p, env, m) && exists i: nat :: OpenElsewhere(db, p, m, i)
  }

  predicate TakesStranded(db: Db, p: ReserveParams, c: Choice) {
    c.Take? && Stranded(db, p, c.res)
  }

  lemma StrandedElsewhere(db: Db, p: ReserveParams, res: Reservation)
    requires ReservationOk(db, p, res) && Stranded(db, p, res)
    ensures exists i: nat :: OpenElsewhere(db, p, res.member, i)
  {
    var i :| 0 <= i < |db.payouts| && PayoutSelects(OpenOf(p.tenant, res.member), db.payouts[i]);
    assert PayoutSelects(ActiveIn(p.tenant, res.member, p.period), db.payouts[i]) <==> db.payouts[i].period == p.period;
    assert OpenElsewhere(db, p, res.member, i);
  }

  /** With an open payout elsewhere there is none in the reserved period, so nothing can be consumed. */
  lemma NoneHere(db: Db, p: ReserveParams, m: MemberId, i: PayoutId)
    requires Inv(db) && OpenElsewhere(db, p, m, i)
    ensures ClaimableRequest(db, p, m) == Consume(None) || ClaimableRequest(db, p, m).Refuse?
  {
    assert OneOpen(db.payouts);
    var active := PayoutsWhere(db.payouts, ActiveIn(p.tenant, m, p.period));
    forall a | 0 <= a < |active| ensures !Open(db.payouts[active[a]]) {
      assert active[a] in active;
      assert PayoutOk(db.batches, active[a], db.payouts[active[a]]);
      assert db.payouts[active[a]].period == p.period;
    }
  }

  lemma ChoiceConflicts(db: Db, p: ReserveParams, env: ReserveEnv, m: MemberId)
    requires Inv(db) && Choose(db, p, env, m).Ok?
    ensures TakesStranded(db, p, Choose(db, p, env, m).value) <==> Conflict(db, p, env, m)
  {
    if TakesStranded(db, p, Choose(db, p, env, m).value) {
      StrandedConflicts(db, p, env, m);
    }
    if Conflict(db, p, env, m) {
      var i: nat :| OpenElsewhere(db, p, m, i);
      ConflictStrands(db, p, env, m, i);
    }
  }

  lemma StrandedConflicts(db: Db, p: ReserveParams, env: ReserveEnv, m: MemberId)
    requires Choose(db, p, env, m).Ok? && TakesStranded(db, p, Choose(db, p, env, m).value)
    ensures Conflict(db, p, env, m)
  {
    ChooseMeaning(db, p, env, m);
    TakenFrom(db, p, env, m);
    StrandedElsewhere(db, p, Choose(db, p, env, m).value.res);
  }

  lemma RefusalEnds(db: Db, p: ReserveParams, env: ReserveEnv, m: MemberId)
    ensures ClaimableRequest(db, p, m).Refuse? ==> Choose(db, p, env, m).Err?
  {}

  lemma StrandedBy(db: Db, p: ReserveParams, res: Reservation, i: PayoutId)
    requires OpenElsewhere(db, p, res.member, i) && res.request.None?
    ensures Stranded(db, p, res)
  {
    assert PayoutSelects(OpenOf(p.tenant, res.member), db.payouts[i]);
  }

  lemma ConflictStrands(db: Db, p: ReserveParams, env: ReserveEnv, m: MemberId, i: PayoutId)
    requires Inv(db) && Choose(db, p, env, m).Ok? && Reservable(db, p, env, m) && OpenElsewhere(db, p, m, i)
    ensures TakesStranded(db, p, Choose(db, p, env, m).value)
  {
    NoneHere(db, p, m, i);
    RefusalEnds(db, p, env, m);
    TakesReservable(db, p, env, m, None);
    StrandedBy(db, p, Choose(db, p, env, m).value.res, i);
  }

  ghost predicate AnyConflict(db: Db, p: ReserveParams, env: ReserveEnv, ts: seq<MemberId>) {
    exists a :: 0 <= a < |ts| && Conflict(db, p, env, ts[a])
  }

  // ------------------------------------------------------------------ a selection, target by target

  function TakenOf(cs: seq<Choice>): seq<Reservation> {
    if cs == [] then []
    else TakenOf(cs[..|cs| - 1]) + (if cs[|cs| - 1].Take? then [cs[|cs| - 1].res] else [])
  }

  predicate ChosenAt(db: Db, p: ReserveParams, env: ReserveEnv, m: MemberId, c: Choice) {
    Choose(db, p, env, m) == Ok(c)
  }

  ghost predicate Chosen(db: Db, p: ReserveParams, env: ReserveEnv, ts: seq<MemberId>, cs: seq<Choice>) {
    |cs| == |ts| && forall a :: 0 <= a < |ts| ==> ChosenAt(db, p, env, ts[a], cs[a])
  }

  /** One more target: a reservation more, a skip more, or nothing is selected at all. */
  lemma SelectStep(db: Db, p: ReserveParams, env: ReserveEnv, front: seq<MemberId>, m: MemberId)
    requires Select(db, p, env, front + [m]).Ok?
    ensures Select(db, p, env, front).Ok? && Choose(db, p, env, m).Ok?
    ensures var c, rs := Choose(db, p, env, m).value, Select(db, p, env, front).value.reservations;
            Select(db, p, env, front + [m]).value.reservations == if c.Take? then rs + [c.res] else rs
  {
    assert (front + [m])[..|front|] == front;
  }

  lemma TakenStep(front: seq<Choice>, c: Choice)
    ensures TakenOf(front + [c]) == if c.Take? then TakenOf(front) + [c.res] else TakenOf(front)
  {
    assert (front + [c])[..|front|] == front;
  }

  /** The reservations are the taken choices of the targets, in order. */
  lemma {:induction false} SelectChosen(db: Db, p: ReserveParams, env: ReserveEnv, ts: seq<MemberId>) returns (cs: seq<Choice>)
    requires Select(db, p, env, ts).Ok?
    ensures Chosen(db, p, env, ts, cs) && Select(db, p, env, ts).value.reservations == TakenOf(cs)
  {
    cs := [];
    if ts != [] {
      var front, m := ts[..|ts| - 1], ts[|ts| - 1];
      assert front + [m] == ts;
      SelectStep(db, p, env, front, m);
      var before := SelectChosen(db, p, env, front);
      TakenStep(before, Choose(db, p, env, m).value);
      cs := before + [Choose(db, p, env, m).value];
    }
  }

  lemma {:induction false} TakenMembers(cs: seq<Choice>, res: Reservation)
    ensures res in TakenOf(cs) <==> Take(res) in cs
  {
    if cs != [] {
      TakenMembers(cs[..|cs| - 1], res);
      assert cs == cs[..|cs| - 1] + [cs[|cs| - 1]];
    }
  }

  lemma SelectConflicts(db: Db, p: ReserveParams, env: ReserveEnv, ts: seq<MemberId>)
    requires Inv(db) && Select(db, p, env, ts).Ok?
    ensures AnyStranded(db, p, Select(db, p, env, ts).value.reservations) <==> AnyConflict(db, p, env, ts)
  {
    var cs := SelectChosen(db, p, env, ts);
    ChosenConflicts(db, p, env, ts, cs);
  }

  lemma ChosenConflicts(db: Db, p: ReserveParams, env: ReserveEnv, ts: seq<MemberId>, cs: seq<Choice>)
    requires Inv(db) && Chosen(db, p, env, ts, cs)
    ensures AnyStranded(db, p, TakenOf(cs)) <==> AnyConflict(db, p, env, ts)
  {
    var rs := TakenOf(cs);
    if AnyStranded(db, p, rs) {
      var k :| 0 <= k < |rs| && Stranded(db, p, rs[k]);
      TakenMembers(cs, rs[k]);
      var a :| 0 <= a < |cs| && cs[a] == Take(rs[k]);
      assert ChosenAt(db, p, env, ts[a], cs[a]);
      ChoiceConflicts(db, p, env, ts[a]);
    }
    if AnyConflict(db, p, env, ts) {
      var a :| 0 <= a < |ts| && Conflict(db, p, env, ts[a]);
      assert ChosenAt(db, p, env, ts[a], cs[a]);
      ChoiceConflicts(db, p, env, ts[a]);
      TakenMembers(cs, cs[a].res);
      var k :| 0 <= k < |rs| && rs[k] == cs[a].res;
      assert Stranded(db, p, rs[k]);
    }
  }

  /**
   The one-open-payout index refuses a reservation exactly when nothing else does, it is no preview, and
   some target that could be reserved has an open payout of another period.
   */
  lemma RefusedByTables(db: Db, p: ReserveParams, env: ReserveEnv)
    requires Inv(db)
    ensures ReserveBatch(db, p, env) == Aborted(UniqueIndex) <==>
            && Targets(db, p, env).Ok? && Select(db, p, env, Targets(db, p, env).value).Ok? && !p.preview
            && AnyConflict(db, p, env, Targets(db, p, env).value)
  {
    ReserveRefused(db, p, env);
    var ts := Targets(db, p, env);
    if ts.Ok? && Select(db, p, env, ts.value).Ok? {
      SelectConflicts(db, p, env, ts.value);
    }
  }

  // ------------------------------------------------------------------ which requests are consumed, on the tables

  /** An open request of the reserved period whose member can be reserved, and the named one if one is named. */
  predicate Consumable(db: Db, p: ReserveParams, env: ReserveEnv, i: PayoutId) {
    && i < |db.payouts| && db.payouts[i].status.Requested?
    && db.payouts[i].tenant == p.tenant && db.payouts[i].period == p.period
    && Reservable(db, p, env, db.payouts[i].member)
    && (p.requested.Some? ==> p.requested.value == i)
  }

  /** No request is named, and the member, who can be reserved, has no open payout of the period. */
  ghost predicate Freshly(db: Db, p: ReserveParams, env: ReserveEnv, m: MemberId) {
    && p.requested.None? && Reservable(db, p, env, m)
    && forall i: nat :: i < |db.payouts| && PayoutSelects(ActiveIn(p.tenant, m, p.period), db.payouts[i]) ==> !Open(db.payouts[i])
  }

  /** The open request of the period is the member's only open payout, so it is the one that is found. */
  lemma FindsRequest(db: Db, p: ReserveParams, m: MemberId, i: PayoutId)
    requires Inv(db) && i < |db.payouts| && db.payouts[i].status.Requested?
    requires db.payouts[i].tenant == p.tenant && db.payouts[i].member == m && db.payouts[i].period == p.period
    requires p.requested.Some? ==> p.requested.value == i
    ensures ClaimableRequest(db, p, m) == Consume(Some(i))
  {
    assert OneOpen(db.payouts);
    var active := PayoutsWhere(db.payouts, ActiveIn(p.tenant, m, p.period));
    assert i in active;
    forall a | 0 <= a < |active| ensures Open(db.payouts[active[a]]) ==> active[a] == i {
      assert active[a] in active;
      assert PayoutSelects(ActiveIn(p.tenant, m, p.period), db.payouts[active[a]]);
      assert PayoutOk(db.batches, active[a], db.payouts[active[a]]);
    }
    var found := FirstWith(db.payouts, active, Requested);
    assert found.Some? ==> found.value in active;
    var a :| 0 <= a < |active| && active[a] == i;
  }

  lemma FindsNone(db: Db, p: ReserveParams, m: MemberId)
    requires p.requested.None?
    requires forall i: nat :: i < |db.payouts| && PayoutSelects(ActiveIn(p.tenant, m, p.period), db.payouts[i]) ==> !Open(db.payouts[i])
    ensures ClaimableRequest(db, p, m) == Consume(None)
  {
    var active := PayoutsWhere(db.payouts, ActiveIn(p.tenant, m, p.period));
    assert forall i: nat :: i in active ==> !Open(db.payouts[i]);
  }

  /** Given what the member's payouts allow, it is taken exactly when it can be reserved. */
  lemma TakesReservable(db: Db, p: ReserveParams, env: ReserveEnv, m: MemberId, request: Option<PayoutId>)
    requires Choose(db, p, env, m).Ok? && ClaimableRequest(db, p, m) == Consume(request)
    ensures Choose(db, p, env, m).value.Take? <==> Reservable(db, p, env, m)
    ensures Choose(db, p, env, m).value.Take? ==>
              Choose(db, p, env, m).value.res.request == request && Choose(db, p, env, m).value.res.member == m
  {}

  lemma TakenFrom(db: Db, p: ReserveParams, env: ReserveEnv, m: MemberId)
    requires Choose(db, p, env, m).Ok? && Choose(db, p, env, m).value.Take?
    ensures ClaimableRequest(db, p, m) == Consume(Choose(db, p, env, m).value.res.request)
    ensures Reservable(db, p, env, m) && Choose(db, p, env, m).value.res.member == m
  {}

  lemma ChoiceConsumes(db: Db, p: ReserveParams, env: ReserveEnv, m: MemberId, i: PayoutId)
    requires Inv(db) && Choose(db, p, env, m).Ok?
    ensures var c := Choose(db, p, env, m).value;
            c.Take? && c.res.request == Some(i) <==> Consumable(db, p, env, i) && db.payouts[i].member == m
  {
    var c := Choose(db, p, env, m).value;
    if c.Take? && c.res.request == Some(i) {
      TakenFrom(db, p, env, m);
    }
    if Consumable(db, p, env, i) && db.payouts[i].member == m {
      FindsRequest(db, p, m, i);
      TakesReservable(db, p, env, m, Some(i));
    }
  }

  lemma ChoiceFresh(db: Db, p: ReserveParams, env: ReserveEnv, m: MemberId)
    requires Choose(db, p, env, m).Ok?
    ensures var c := Choose(db, p, env, m).value;
            c.Take? && c.res.request.None? <==> Freshly(db, p, env, m)
    ensures Choose(db, p, env, m).value.Take? ==> Choose(db, p, env, m).value.res.member == m
  {
    var c := Choose(db, p, env, m).value;
    if c.Take? {
      TakenFrom(db, p, env, m);
    }
    if Freshly(db, p, env, m) {
      FindsNone(db, p, m);
      TakesReservable(db, p, env, m, None);
    }
  }

  /** The reservations of a selection consume exactly the consumable requests of its targets. */
  lemma SelectConsumes(db: Db, p: ReserveParams, env: ReserveEnv, ts: seq<MemberId>, i: PayoutId)
    requires Inv(db) && Select(db, p, env, ts).Ok?
    ensures Uses(Select(db, p, env, ts).value.reservations, i) <==> Consumable(db, p, env, i) && db.payouts[i].member in ts
  {
    var cs := SelectChosen(db, p, env, ts);
    ChosenConsumes(db, p, env, ts, cs, i);
  }

  lemma ChosenConsumes(db: Db, p: ReserveParams, env: ReserveEnv, ts: seq<MemberId>, cs: seq<Choice>, i: PayoutId)
    requires Inv(db) && Chosen(db, p, env, ts, cs)
    ensures Uses(TakenOf(cs), i) <==> Consumable(db, p, env, i) && db.payouts[i].member in ts
  {
    var rs := TakenOf(cs);
    if Uses(rs, i) {
      var k :| 0 <= k < |rs| && rs[k].request == Some(i);
      TakenMembers(cs, rs[k]);
      var a :| 0 <= a < |cs| && cs[a] == Take(rs[k]);
      assert ChosenAt(db, p, env, ts[a], cs[a]);
      ChoiceConsumes(db, p, env, ts[a], i);
    }
    if Consumable(db, p, env, i) && db.payouts[i].member in ts {
      var a :| 0 <= a < |ts| && ts[a] == db.payouts[i].member;
      assert ChosenAt(db, p, env, ts[a], cs[a]);
      ChoiceConsumes(db, p, env, ts[a], i);
      TakenMembers(cs, cs[a].res);
      var k :| 0 <= k < |rs| && rs[k] == cs[a].res;
      assert rs[k].request == Some(i);
    }
  }

  ghost predicate FreshFor(rs: seq<Reservation>, m: MemberId) {
    exists res :: res in FreshOf(rs) && res.member == m
  }

  lemma {:induction false} FreshMembers(rs: seq<Reservation>, res: Reservation)
    ensures res in FreshOf(rs) <==> res in rs && res.request.None?
  {
    if rs != [] {
      FreshMembers(rs[..|rs| - 1], res);
      assert rs == rs[..|rs| - 1] + [rs[|rs| - 1]];
    }
  }

  /** A member gets a new payout exactly when it is a target that can be reserved and has nothing open in the period. */
  lemma SelectFresh(db: Db, p: ReserveParams, env: ReserveEnv, ts: seq<MemberId>, m: MemberId)
    requires Select(db, p, env, ts).Ok?
    ensures FreshFor(Select(db, p, env, ts).value.reservations, m) <==> Freshly(db, p, env, m) && m in ts
  {
    var cs := SelectChosen(db, p, env, ts);
    ChosenFresh(db, p, env, ts, cs, m);
  }

  lemma ChosenFresh(db: Db, p: ReserveParams, env: ReserveEnv, ts: seq<MemberId>, cs: seq<Choice>, m: MemberId)
    requires Chosen(db, p, env, ts, cs)
    ensures FreshFor(TakenOf(cs), m) <==> Freshly(db, p, env, m) && m in ts
  {
    if FreshFor(TakenOf(cs), m) {
      var res :| res in FreshOf(TakenOf(cs)) && res.member == m;
      FreshMembers(TakenOf(cs), res);
      TakenMembers(cs, res);
      var a :| 0 <= a < |cs| && cs[a] == Take(res);
      assert ChosenAt(db, p, env, ts[a], cs[a]);
      ChoiceFresh(db, p, env, ts[a]);
    }
    if Freshly(db, p, env, m) && m in ts {
      var a :| 0 <= a < |ts| && ts[a] == m;
      assert ChosenAt(db, p, env, ts[a], cs[a]);
      ChoiceFresh(db, p, env, m);
      TakenMembers(cs, cs[a].res);
      FreshMembers(TakenOf(cs), cs[a].res);
    }
  }
}
