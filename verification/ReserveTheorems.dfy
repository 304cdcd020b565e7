/** What a reservation answers and takes, and that no row of a locked month is ever taken. */
module ReserveTheorems {
  import opened Prelude
  import opened Commission
  import opened Tables
  import opened Ledger
  import opened EngineSpec
  import opened EngineInv
  import opened BooksProofs
  import opened ReserveProofs
  import opened ReserveExact
  import opened ReserveRows

  // ------------------------------------------------------------------ the answer

  /** The member has an open payout of another period, which the one-open-payout index lets nothing stand beside. */
  ghost predicate Stuck(db: Db, p: ReserveParams, m: MemberId) {
    exists i: nat :: OpenElsewhere(db, p, m, i)
  }

  ghost predicate AnyStuck(db: Db, p: ReserveParams, env: ReserveEnv, ts: seq<MemberId>) {
    exists a :: 0 <= a < |ts| && Takeable(db, p, env, ts[a]) && Stuck(db, p, ts[a])
  }

  lemma StuckStrands(db: Db, p: ReserveParams, m: MemberId, res: Reservation)
    requires OneOpen(db.payouts) && ReservationIs(db, p, m, res) && Stuck(db, p, m)
    ensures Stranded(db, p, res)
  {
    var i: nat :| OpenElsewhere(db, p, m, i);
    assert PayoutSelects(OpenOf(p.tenant, m), db.payouts[i]);
  }

  lemma StrandedIsStuck(db: Db, p: ReserveParams, m: MemberId, res: Reservation)
    requires ReservationIs(db, p, m, res) && !InWork(db, p, m) && Stranded(db, p, res)
    ensures Stuck(db, p, m)
  {
    var i :| 0 <= i < |db.payouts| && PayoutSelects(OpenOf(p.tenant, res.member), db.payouts[i]);
    assert !IsRequest(db, p, m, i);
    assert !OfPeriod(db.payouts[i], p, m);
    assert OpenElsewhere(db, p, m, i);
  }

  lemma SelectionStuck(db: Db, p: ReserveParams, env: ReserveEnv, ts: seq<MemberId>, rs: seq<Reservation>)
    requires Inv(db) && ReservationsAre(db, p, Takers(db, p, env, ts), rs)
    ensures AnyStranded(db, p, rs) <==> AnyStuck(db, p, env, ts)
  {
    var ms := Takers(db, p, env, ts);
    if k :| 0 <= k < |rs| && Stranded(db, p, rs[k]) {
      assert ReservationIs(db, p, ms[k], rs[k]) && ms[k] in ms;
      TakersAre(db, p, env, ts, ms[k]);
      StrandedIsStuck(db, p, ms[k], rs[k]);
      var a :| 0 <= a < |ts| && ts[a] == ms[k];
    }
    if a :| 0 <= a < |ts| && Takeable(db, p, env, ts[a]) && Stuck(db, p, ts[a]) {
      TakersAre(db, p, env, ts, ts[a]);
      var k :| 0 <= k < |ms| && ms[k] == ts[a];
      assert ReservationIs(db, p, ms[k], rs[k]);
      StuckStrands(db, p, ms[k], rs[k]);
    }
  }

  lemma NoTakers(db: Db, p: ReserveParams, env: ReserveEnv, ts: seq<MemberId>)
    ensures Takers(db, p, env, ts) == [] <==> forall a :: 0 <= a < |ts| ==> !Takeable(db, p, env, ts[a])
  {
    var ms := Takers(db, p, env, ts);
    if ms != [] {
      TakersAre(db, p, env, ts, ms[0]);
      var a :| 0 <= a < |ts| && ts[a] == ms[0];
    } else {
      forall a | 0 <= a < |ts| ensures !Takeable(db, p, env, ts[a]) {
        TakersAre(db, p, env, ts, ts[a]);
      }
    }
  }

  lemma RefusedAnswer(db: Db, p: ReserveParams, env: ReserveEnv, ts: seq<MemberId>, e: Error)
    requires Targets(db, p, env) == Ok(ts) && Select(db, p, env, ts) == Err(e)
    ensures ReserveBatch(db, p, env) == Aborted(e)
  {}

  /** The only refusal after the selection is that of the index. */
  lemma SelectedAnswer(db: Db, p: ReserveParams, env: ReserveEnv, ts: seq<MemberId>)
    requires Inv(db) && Targets(db, p, env) == Ok(ts) && Select(db, p, env, ts).Ok?
    ensures var r, s := ReserveBatch(db, p, env), Select(db, p, env, ts).value;
            && (r.Committed? ==> r.value.selection == s && (r.value.batch.Some? <==> !p.preview && s.reservations != [])
                                 && (r.value.batch.Some? ==> r.value.batch.value == |db.batches|)
                                 && (r.value.batch.None? ==> r.db == db))
            && (r.Aborted? ==> r.error == UniqueIndex)
  {
    var s := Select(db, p, env, ts);
    if !p.preview && s.value.reservations != [] {
      ReservationsClaimable(db, p, env, ts);
      ClaimAllKeep(db, p, env, s.value.reservations);
    }
  }

  /**
   The answer of a reservation, in every state: the first target that refuses decides; then a member that
   can be taken but has an open payout of another period makes the index refuse; else everyone who can be
   taken is reserved and everyone else reported, and a batch is opened unless it is a preview or nobody is.
   */
  lemma ReserveAnswers(db: Db, p: ReserveParams, env: ReserveEnv, ts: seq<MemberId>, e: Error)
    requires Inv(db) && Targets(db, p, env) == Ok(ts)
    ensures var r := ReserveBatch(db, p, env);
            && (r.Committed? <==> NoneRefuses(db, p, env, ts) && (p.preview || !AnyStuck(db, p, env, ts)))
            && (FirstRefusal(db, p, env, ts, e) ==> r == Aborted(e))
            && (r.Aborted? && NoneRefuses(db, p, env, ts) ==> r.error == UniqueIndex)
            && (r.Committed? ==>
                  && SelectionIs(db, p, env, ts, r.value.selection) == true
                  && (r.value.batch.Some? <==> !p.preview && exists a :: 0 <= a < |ts| && Takeable(db, p, env, ts[a]))
                  && (r.value.batch.Some? ==> r.value.batch.value == |db.batches|)
                  && (r.value.batch.None? ==> r.db == db))
  {
    SelectIs(db, p, env, ts, e);
    var s := Select(db, p, env, ts);
    if s.Err? {
      SelectIs(db, p, env, ts, s.error);
      RefusedAnswer(db, p, env, ts, s.error);
    } else {
      ReserveRefused(db, p, env);
      SelectedAnswer(db, p, env, ts);
      SelectionStuck(db, p, env, ts, s.value.reservations);
      NoTakers(db, p, env, ts);
    }
  }

  // ------------------------------------------------------------------ locked months

  /** Would be reserved, but for a payable row in a locked month. */
  ghost predicate LockedOut(db: Db, p: ReserveParams, env: ReserveEnv, m: MemberId) {
    && m in env.members && NamesRequest(db, p, m) && !InWork(db, p, m) && AtThreshold(db, p, env, m)
    && exists i, month: nat :: PayableAt(db, p, m, i) && BookedIn(db, db.ledger[i], month) && (p.tenant, month) in db.locks
  }

  lemma LockedOutRefuses(db: Db, p: ReserveParams, env: ReserveEnv, m: MemberId)
    requires LockedOut(db, p, env, m)
    ensures RefusesWith(db, p, env, m, PeriodLocked)
  {
    var i, month: nat :| PayableAt(db, p, m, i) && BookedIn(db, db.ledger[i], month) && (p.tenant, month) in db.locks;
    assert InLockedMonth(db, p, db.ledger[i]);
  }

  /** One payable row in a locked month, of one member that would be reserved, makes the whole call abort. */
  lemma LockedRowAborts(db: Db, p: ReserveParams, env: ReserveEnv, m: MemberId)
    requires Inv(db) && LookedAt(db, p, env, m) && LockedOut(db, p, env, m)
    ensures ReserveBatch(db, p, env).Aborted?
    ensures var t := Targets(db, p, env);
            t.Ok? && FirstRefusal(db, p, env, t.value, PeriodLocked) ==> ReserveBatch(db, p, env) == Aborted(PeriodLocked)
  {
    var t := Targets(db, p, env);
    TargetLookedAt(db, p, env, m);
    LockedOutRefuses(db, p, env, m);
    if t.Ok? {
      var a :| 0 <= a < |t.value| && t.value[a] == m;
      ReserveAnswers(db, p, env, t.value, PeriodLocked);
    }
  }

  // ------------------------------------------------------------------ the rows and payouts

  /** A payout of the batch, at work for the member, over the net of the member's payable rows. */
  predicate PaysMember(d: Db, p: ReserveParams, b: BatchId, m: MemberId, net: int, id: PayoutId) {
    && id < |d.payouts|
    && d.payouts[id] == Payout(p.tenant, m, Some(b), net, PayoutStatus.Processing, p.period, Some(ActiveKey(p.tenant, m, p.period)))
  }

  /** The row joins the batch, in a payout for its member. */
  ghost predicate RowTaken(d: Db, p: ReserveParams, b: BatchId, was: Row, now: Row, net: int) {
    && now.payout.Some? && PaysMember(d, p, b, was.member, net, now.payout.value)
    && now == was.(status := LedgerStatus.Processing, payout := now.payout, batch := Some(b))
  }

  lemma {:induction false} FreshAt(rs: seq<Reservation>, k: nat)
    requires k < |rs| && rs[k].request.None?
    ensures |FreshOf(rs[..k])| < |FreshOf(rs)| && FreshOf(rs)[|FreshOf(rs[..k])|] == rs[k]
  {
    var front := rs[..|rs| - 1];
    if k < |front| {
      FreshAt(front, k);
      assert front[..k] == rs[..k];
    } else {
      assert rs[..k] == front;
    }
  }

  lemma ServedPays(db: Db, p: ReserveParams, rs: seq<Reservation>, d: Db, k: nat, m: MemberId)
    requires PayoutsClaimed(db.payouts, p, |db.batches|, rs, d.payouts)
    requires k < |rs| && ReservationIs(db, p, m, rs[k])
    ensures PaysMember(d, p, |db.batches|, m, Net(db, p, m), ServedBy(rs, k, |db.payouts|))
  {
    if rs[k].request.Some? {
      assert OldPayout(db.payouts, p, |db.batches|, rs, d.payouts, rs[k].request.value);
    } else {
      FreshAt(rs, k);
      var j := |FreshOf(rs[..k])|;
      assert d.payouts[|db.payouts| + j] == Opened(p, |db.batches|, FreshOf(rs)[j]);
    }
  }

  lemma TakenRow(db: Db, p: ReserveParams, rs: seq<Reservation>, ms: seq<MemberId>, d: Db, k: nat, i: RowId)
    requires ClaimedExactly(db, p, rs, d) && ReservationsAre(db, p, ms, rs) && k < |ms| && PayableAt(db, p, ms[k], i)
    ensures i < |d.ledger| && RowTaken(d, p, |db.batches|, db.ledger[i], d.ledger[i], Net(db, p, ms[k]))
  {
    assert ReservationIs(db, p, ms[k], rs[k]);
    assert i in rs[k].rows;
    assert RowClaimed(db, |db.batches|, rs, d.ledger, i);
    ServedPays(db, p, rs, d, k, ms[k]);
  }

  lemma UntakenRow(db: Db, p: ReserveParams, rs: seq<Reservation>, ms: seq<MemberId>, d: Db, i: RowId)
    requires ClaimedExactly(db, p, rs, d) && ReservationsAre(db, p, ms, rs) && i < |db.ledger|
    requires forall k :: 0 <= k < |ms| ==> !PayableAt(db, p, ms[k], i)
    ensures i < |d.ledger| && d.ledger[i] == db.ledger[i]
  {
    assert RowClaimed(db, |db.batches|, rs, d.ledger, i);
    forall k | 0 <= k < |rs| ensures i !in rs[k].rows {
      assert ReservationIs(db, p, ms[k], rs[k]);
    }
  }

  /** A payable row of a member in the scope that can be taken. */
  ghost predicate TakesRow(db: Db, p: ReserveParams, env: ReserveEnv, i: RowId) {
    && i < |db.ledger| && PayableAt(db, p, db.ledger[i].member, i)
    && LookedAt(db, p, env, db.ledger[i].member) && Takeable(db, p, env, db.ledger[i].member)
  }

  /**
   A reservation that opens a batch takes exactly the payable rows of the members that can be taken, each
   into a payout of that member over the member's net, and leaves every other row as it was.
   */
  lemma ReservedRow(db: Db, p: ReserveParams, env: ReserveEnv, i: RowId)
    requires Inv(db) && ReserveBatch(db, p, env).Committed? && ReserveBatch(db, p, env).value.batch.Some?
    ensures var d := ReserveBatch(db, p, env).db;
            && ReserveBatch(db, p, env).value.batch == Some(|db.batches|) && |d.ledger| == |db.ledger|
            && (TakesRow(db, p, env, i) ==>
                  RowTaken(d, p, |db.batches|, db.ledger[i], d.ledger[i], Net(db, p, db.ledger[i].member)))
            && (i < |db.ledger| && !TakesRow(db, p, env, i) ==> d.ledger[i] == db.ledger[i])
  {
    var r := ReserveBatch(db, p, env);
    BatchOpened(db, p, env);
    ReserveExactly(db, p, env);
    var ts, rs := Targets(db, p, env).value, r.value.selection.reservations;
    SelectIs(db, p, env, ts, NotFound);
    var ms := Takers(db, p, env, ts);
    if i < |db.ledger| {
      TakersAre(db, p, env, ts, db.ledger[i].member);
      TargetLookedAt(db, p, env, db.ledger[i].member);
      if TakesRow(db, p, env, i) {
        var k :| 0 <= k < |ms| && ms[k] == db.ledger[i].member;
        TakenRow(db, p, rs, ms, r.db, k, i);
      } else {
        forall k | 0 <= k < |ms| ensures !PayableAt(db, p, ms[k], i) {
          TakersAre(db, p, env, ts, ms[k]);
          TargetLookedAt(db, p, env, ms[k]);
        }
        UntakenRow(db, p, rs, ms, r.db, i);
      }
    }
  }

  /** A committed reservation takes no row of a locked month: such a row stays as it was. */
  lemma NoLockedRowTaken(db: Db, p: ReserveParams, env: ReserveEnv, i: RowId, month: Month)
    requires Inv(db) && ReserveBatch(db, p, env).Committed? && i < |db.ledger| && db.ledger[i].tenant == p.tenant
    requires BookedIn(db, db.ledger[i], month) && (p.tenant, month) in db.locks
    ensures var d := ReserveBatch(db, p, env).db;
            |d.ledger| == |db.ledger| && d.ledger[i] == db.ledger[i]
  {
    BatchOpened(db, p, env);
    assert InLockedMonth(db, p, db.ledger[i]);
    if ReserveBatch(db, p, env).value.batch.Some? {
      ReservedRow(db, p, env, i);
    }
  }

  /** What else a reservation adds: one batch of the tenant, for the period, at work. */
  lemma ReservedElse(db: Db, p: ReserveParams, env: ReserveEnv)
    requires Inv(db) && ReserveBatch(db, p, env).Committed? && ReserveBatch(db, p, env).value.batch.Some?
    ensures var d := ReserveBatch(db, p, env).db;
            && d.sales == db.sales && d.locks == db.locks && |d.batches| == |db.batches| + 1 && d.batches[..|db.batches|] == db.batches
            && d.batches[|db.batches|] == Batch(p.tenant, p.period, BatchStatus.Processing, d.batches[|db.batches|].items)
  {
    BatchOpened(db, p, env);
    ReserveTakes(db, p, env);
    ClaimsElse(db, p, env, ReserveBatch(db, p, env).value.selection.reservations);
  }

  lemma {:induction false} ClaimsElse(db: Db, p: ReserveParams, env: ReserveEnv, rs: seq<Reservation>)
    ensures var r := ClaimAll(OpenBatch(db, p), p, env, |db.batches|, rs);
            r.Ok? ==> r.value.sales == db.sales && r.value.locks == db.locks && |r.value.batches| == |db.batches| + 1
                      && r.value.batches[|db.batches|].period == p.period
  {
    if rs != [] {
      ClaimsElse(db, p, env, rs[..|rs| - 1]);
    }
  }
}
