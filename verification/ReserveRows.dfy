/**
 A reservation said on the tables: who is looked at, what becomes of each target, when the call is
 refused, and which rows it takes.
 */
module ReserveRows {
  import opened Prelude
  import opened Sums
  import opened Commission
  import opened Tables
  import opened Ledger
  import opened EngineSpec
  import opened EngineInv
  import opened BooksProofs
  import opened ReserveProofs
  import opened ReserveExact

  // ------------------------------------------------------------------ a member's payable rows

  predicate PayableRow(r: Row, tenant: TenantId, m: MemberId) {
    r.tenant == tenant && r.member == m && r.status == LedgerStatus.Payable
  }

  function PayableAmount(tenant: TenantId, m: MemberId): Row -> int {
    (r: Row) => if PayableRow(r, tenant, m) then r.amount else 0
  }

  /** Payable commissions, bonuses and clawbacks of a member. */
  function Net(db: Db, p: ReserveParams, m: MemberId): int {
    Sum(db.ledger, PayableAmount(p.tenant, m))
  }

  /** The month in which a row is booked: its own, or that of its sale. */
  predicate BookedIn(db: Db, r: Row, month: Month) {
    if r.sale.Some? then r.sale.value in db.sales && db.sales[r.sale.value].summaryMonth == Some(month)
    else r.summaryMonth == Some(month)
  }

  ghost predicate InLockedMonth(db: Db, p: ReserveParams, r: Row) {
    exists month: nat :: BookedIn(db, r, month) && (p.tenant, month) in db.locks
  }

  predicate PayableAt(db: Db, p: ReserveParams, m: MemberId, i: int) {
    0 <= i < |db.ledger| && PayableRow(db.ledger[i], p.tenant, m)
  }

  ghost predicate HasPayable(db: Db, p: ReserveParams, m: MemberId) {
    exists i :: PayableAt(db, p, m, i)
  }

  ghost predicate HasLocked(db: Db, p: ReserveParams, m: MemberId) {
    exists i :: PayableAt(db, p, m, i) && InLockedMonth(db, p, db.ledger[i])
  }

  // ------------------------------------------------------------------ a member's payouts of the period

  predicate OfPeriod(x: Payout, p: ReserveParams, m: MemberId) {
    x.tenant == p.tenant && x.member == m && x.period == p.period
  }

  predicate IsRequest(db: Db, p: ReserveParams, m: MemberId, i: PayoutId) {
    i < |db.payouts| && OfPeriod(db.payouts[i], p, m) && db.payouts[i].status == Requested
  }

  /** The request that the call names, if it names one, is an open request of the member. */
  predicate NamesRequest(db: Db, p: ReserveParams, m: MemberId) {
    p.requested.Some? ==> IsRequest(db, p, m, p.requested.value)
  }

  ghost predicate InWork(db: Db, p: ReserveParams, m: MemberId) {
    exists i :: 0 <= i < |db.payouts| && OfPeriod(db.payouts[i], p, m) && db.payouts[i].status == PayoutStatus.Processing
  }

  // ------------------------------------------------------------------ what becomes of a target

  ghost predicate AtThreshold(db: Db, p: ReserveParams, env: ReserveEnv, m: MemberId) {
    HasPayable(db, p, m) && Net(db, p, m) > 0 && Net(db, p, m) >= env.payoutMin
  }

  /** The member exists, has nothing in work, is at the threshold with every month open, and may be paid. */
  ghost predicate Takeable(db: Db, p: ReserveParams, env: ReserveEnv, m: MemberId) {
    && m in env.members && NamesRequest(db, p, m) && !InWork(db, p, m)
    && AtThreshold(db, p, env, m) && !HasLocked(db, p, m)
    && m !in env.blocked && m in env.ready
  }

  /** Why a target makes the whole call fail, if it does. */
  ghost function RefusalOf(db: Db, p: ReserveParams, env: ReserveEnv, m: MemberId): Option<Error> {
    if m !in env.members then Some(NotFound)
    else if !NamesRequest(db, p, m) then Some(NoOpenRequest)
    else if InWork(db, p, m) || !AtThreshold(db, p, env, m) then None
    else if HasLocked(db, p, m) then Some(PeriodLocked)
    else if m in env.blocked && p.requested.Some? then Some(Blocked)
    else None
  }

  /** What is reported of a target that is left out. */
  ghost function SkipOf(db: Db, p: ReserveParams, env: ReserveEnv, m: MemberId): Choice {
    if InWork(db, p, m) then Skip(m, AlreadyProcessing, 0)
    else if !HasPayable(db, p, m) then Skip(m, NothingPayable, 0)
    else if !AtThreshold(db, p, env, m) then Skip(m, BelowMin, Net(db, p, m))
    else Skip(m, SkipReason.PayoutNotReady, Net(db, p, m))
  }

  /** All payable rows of the member, oldest first, their sum, and the open request of the period if there is one. */
  ghost predicate ReservationIs(db: Db, p: ReserveParams, m: MemberId, res: Reservation) {
    && res.member == m && res.amount == Net(db, p, m)
    && (forall i: nat :: i in res.rows <==> PayableAt(db, p, m, i))
    && (forall a, b :: 0 <= a < b < |res.rows| ==> res.rows[a] < res.rows[b])
    && (if res.request.Some? then IsRequest(db, p, m, res.request.value) && (p.requested.Some? ==> p.requested == res.request)
        else p.requested.None? && forall i: nat :: !IsRequest(db, p, m, i))
  }

  lemma PayablesStep(ledger: seq<Row>, tenant: TenantId, m: MemberId)
    requires ledger != []
    ensures var front, n := RowsWhere(ledger[..|ledger| - 1], PayableOf(tenant, m)), |ledger| - 1;
            RowsWhere(ledger, PayableOf(tenant, m)) == if PayableRow(ledger[n], tenant, m) then front + [n] else front
  {
    assert Selects(PayableOf(tenant, m), |ledger| - 1, ledger[|ledger| - 1]) <==> PayableRow(ledger[|ledger| - 1], tenant, m);
  }

  lemma SumRowsStep(ledger: seq<Row>, ids: seq<RowId>, i: RowId)
    requires i < |ledger| && forall a :: 0 <= a < |ids| ==> ids[a] < |ledger|
    ensures SumRows(ledger, ids + [i]) == SumRows(ledger, ids) + ledger[i].amount
  {
    assert (ids + [i])[..|ids|] == ids;
  }

  lemma {:induction false} NetRows(ledger: seq<Row>, tenant: TenantId, m: MemberId)
    ensures SumRows(ledger, RowsWhere(ledger, PayableOf(tenant, m))) == Sum(ledger, PayableAmount(tenant, m))
  {
    if ledger != [] {
      var front, r := ledger[..|ledger| - 1], ledger[|ledger| - 1];
      NetRows(front, tenant, m);
      PayablesStep(ledger, tenant, m);
      var ids := RowsWhere(front, PayableOf(tenant, m));
      SumRowsSame(front, ledger, ids);
      SumRowsStep(ledger, ids, |front|);
    }
  }

  lemma PayablesFound(db: Db, p: ReserveParams, m: MemberId)
    ensures RowsWhere(db.ledger, PayableOf(p.tenant, m)) != [] <==> HasPayable(db, p, m)
    ensures forall i: nat :: i in RowsWhere(db.ledger, PayableOf(p.tenant, m)) <==> PayableAt(db, p, m, i)
  {
    var rows := RowsWhere(db.ledger, PayableOf(p.tenant, m));
    forall i: nat ensures i in rows <==> PayableAt(db, p, m, i) {
      assert i < |db.ledger| ==> (Selects(PayableOf(p.tenant, m), i, db.ledger[i]) <==> PayableRow(db.ledger[i], p.tenant, m));
    }
    if rows != [] {
      assert rows[0] in rows;
    }
  }

  lemma MonthIsBooked(db: Db, p: ReserveParams, r: Row, monthKey: MonthKey)
    requires RowOk(db.sales, r)
    ensures BookedIn(db, r, MonthOf(db.sales, r, monthKey))
    ensures (p.tenant, MonthOf(db.sales, r, monthKey)) in db.locks <==> InLockedMonth(db, p, r)
  {}

  lemma LockedFound(db: Db, p: ReserveParams, m: MemberId, monthKey: MonthKey)
    requires Inv(db)
    ensures AnyLocked(db, p.tenant, RowsWhere(db.ledger, PayableOf(p.tenant, m)), monthKey) <==> HasLocked(db, p, m)
  {
    var rows := RowsWhere(db.ledger, PayableOf(p.tenant, m));
    PayablesFound(db, p, m);
    if AnyLocked(db, p.tenant, rows, monthKey) {
      var a :| 0 <= a < |rows| && (p.tenant, MonthOf(db.sales, db.ledger[rows[a]], monthKey)) in db.locks;
      assert rows[a] in rows;
      MonthIsBooked(db, p, db.ledger[rows[a]], monthKey);
    }
    if i :| PayableAt(db, p, m, i) && InLockedMonth(db, p, db.ledger[i]) {
      var a :| 0 <= a < |rows| && rows[a] == i;
      MonthIsBooked(db, p, db.ledger[i], monthKey);
    }
  }

  /** A named request is the member's one open payout, so nothing else of the member is in work. */
  lemma NamedAlone(db: Db, p: ReserveParams, m: MemberId)
    requires Inv(db) && p.requested.Some? && NamesRequest(db, p, m)
    ensures !InWork(db, p, m)
  {
    assert OneOpen(db.payouts);
  }

  lemma NamedClaimable(db: Db, p: ReserveParams, m: MemberId)
    requires Inv(db) && p.requested.Some?
    ensures ClaimableRequest(db, p, m) == if NamesRequest(db, p, m) then Consume(p.requested) else Refuse(NoOpenRequest)
  {
    var q := p.requested.value;
    var active := PayoutsWhere(db.payouts, ActiveIn(p.tenant, m, p.period));
    assert NamesRequest(db, p, m) ==> PayoutSelects(ActiveIn(p.tenant, m, p.period), db.payouts[q]);
    if NamesRequest(db, p, m) {
      NamedAlone(db, p, m);
      forall a | 0 <= a < |active| ensures !db.payouts[active[a]].status.Processing? {
        assert OfPeriod(db.payouts[active[a]], p, m);
      }
    }
  }

  lemma UnnamedClaimable(db: Db, p: ReserveParams, m: MemberId)
    requires p.requested.None?
    ensures ClaimableRequest(db, p, m).Busy? <==> InWork(db, p, m)
    ensures !ClaimableRequest(db, p, m).Refuse?
  {
    var active := PayoutsWhere(db.payouts, ActiveIn(p.tenant, m, p.period));
    if i :| 0 <= i < |db.payouts| && OfPeriod(db.payouts[i], p, m) && db.payouts[i].status == PayoutStatus.Processing {
      assert PayoutSelects(ActiveIn(p.tenant, m, p.period), db.payouts[i]);
      assert i in active;
      var a :| 0 <= a < |active| && active[a] == i;
    }
    assert forall a :: 0 <= a < |active| ==> OfPeriod(db.payouts[active[a]], p, m);
  }

  lemma ClaimableIs(db: Db, p: ReserveParams, m: MemberId)
    requires Inv(db)
    ensures var c := ClaimableRequest(db, p, m);
            && (c == Refuse(NoOpenRequest) <==> !NamesRequest(db, p, m))
            && (c.Refuse? ==> c.error == NoOpenRequest)
            && (c.Busy? <==> NamesRequest(db, p, m) && InWork(db, p, m))
  {
    if p.requested.Some? {
      NamedClaimable(db, p, m);
      if NamesRequest(db, p, m) {
        NamedAlone(db, p, m);
      }
    } else {
      UnnamedClaimable(db, p, m);
    }
  }

  lemma ConsumesRequest(db: Db, p: ReserveParams, m: MemberId)
    requires ClaimableRequest(db, p, m).Consume?
    ensures var r := ClaimableRequest(db, p, m).request;
            if r.Some? then IsRequest(db, p, m, r.value) && (p.requested.Some? ==> p.requested == r)
            else p.requested.None? && forall i: nat :: !IsRequest(db, p, m, i)
  {
    var r := ClaimableRequest(db, p, m).request;
    if r.None? {
      forall i: nat ensures !IsRequest(db, p, m, i) {
        assert i < |db.payouts| ==> (PayoutSelects(ActiveIn(p.tenant, m, p.period), db.payouts[i]) ==> !Open(db.payouts[i]));
      }
    }
  }

  /** Nobody who is short of payable rows has a net. */
  lemma {:induction false} NothingNoNet(ledger: seq<Row>, tenant: TenantId, m: MemberId)
    requires forall i :: 0 <= i < |ledger| ==> !PayableRow(ledger[i], tenant, m)
    ensures Sum(ledger, PayableAmount(tenant, m)) == 0
  {
    if ledger != [] {
      NothingNoNet(ledger[..|ledger| - 1], tenant, m);
    }
  }

  /** What weighing a member looks at. */
  ghost predicate Seen(db: Db, p: ReserveParams, env: ReserveEnv, m: MemberId, res: Reservation) {
    && (forall a :: 0 <= a < |res.rows| ==> res.rows[a] < |db.ledger|)
    && res.member == m && res.amount == Net(db, p, m)
    && (res.rows != [] <==> HasPayable(db, p, m))
    && (AnyLocked(db, p.tenant, res.rows, env.monthKey) <==> HasLocked(db, p, m))
    && (!HasPayable(db, p, m) ==> Net(db, p, m) == 0)
  }

  lemma CandidateSeen(db: Db, p: ReserveParams, env: ReserveEnv, m: MemberId, request: Option<PayoutId>)
    requires Inv(db)
    ensures Seen(db, p, env, m, Candidate(db, p, m, request)) == true
  {
    NetRows(db.ledger, p.tenant, m);
    PayablesFound(db, p, m);
    LockedFound(db, p, m, env.monthKey);
    if !HasPayable(db, p, m) {
      forall i | 0 <= i < |db.ledger| ensures !PayableRow(db.ledger[i], p.tenant, m) {
        assert !PayableAt(db, p, m, i);
      }
      NothingNoNet(db.ledger, p.tenant, m);
    }
    assert Seen(db, p, env, m, Candidate(db, p, m, request));
  }

  lemma WeighIs(db: Db, p: ReserveParams, env: ReserveEnv, m: MemberId, res: Reservation)
    requires m in env.members && NamesRequest(db, p, m) && !InWork(db, p, m) && Seen(db, p, env, m, res)
    ensures var c := Weigh(db, p, env, res);
            && (RefusalOf(db, p, env, m).Some? ==> c == Err(RefusalOf(db, p, env, m).value))
            && (RefusalOf(db, p, env, m).None? && !Takeable(db, p, env, m) ==> c == Ok(SkipOf(db, p, env, m)))
            && (Takeable(db, p, env, m) ==> c == Ok(Take(res)))
  {}

  lemma CandidateIs(db: Db, p: ReserveParams, m: MemberId, request: Option<PayoutId>)
    requires ClaimableRequest(db, p, m) == Consume(request)
    ensures ReservationIs(db, p, m, Candidate(db, p, m, request)) == true
  {
    NetRows(db.ledger, p.tenant, m);
    PayablesFound(db, p, m);
    ConsumesRequest(db, p, m);
    assert ReservationIs(db, p, m, Candidate(db, p, m, request));
  }

  predicate IsTake(c: Result<Choice, Error>) {
    c.Ok? && c.value.Take?
  }

  /** What becomes of a target, in every state of the tables. */
  lemma ChoiceIs(db: Db, p: ReserveParams, env: ReserveEnv, m: MemberId)
    requires Inv(db)
    ensures var c := Choose(db, p, env, m);
            && (RefusalOf(db, p, env, m).Some? ==> c == Err(RefusalOf(db, p, env, m).value))
            && (RefusalOf(db, p, env, m).None? && !Takeable(db, p, env, m) ==> c == Ok(SkipOf(db, p, env, m)))
            && (Takeable(db, p, env, m) ==> IsTake(c) && ReservationIs(db, p, m, c.value.res))
  {
    if m in env.members {
      ClaimableIs(db, p, m);
      if ClaimableRequest(db, p, m).Consume? {
        var request := ClaimableRequest(db, p, m).request;
        CandidateSeen(db, p, env, m, request);
        WeighIs(db, p, env, m, Candidate(db, p, m, request));
        CandidateIs(db, p, m, request);
      }
    }
  }

  // ------------------------------------------------------------------ who is looked at

  /** The members of the call's scope: those it names, or everyone at the tenant's threshold. */
  ghost predicate LookedAt(db: Db, p: ReserveParams, env: ReserveEnv, m: MemberId) {
    match p.scope
    case Selected(ids) => m in ids
    case AllEligible => AtThreshold(db, p, env, m)
  }

  lemma {:induction false} MembersFound(ledger: seq<Row>, ids: seq<RowId>, m: MemberId)
    requires forall a :: 0 <= a < |ids| ==> ids[a] < |ledger|
    ensures m in MembersOf(ledger, ids) <==> exists a :: 0 <= a < |ids| && ledger[ids[a]].member == m
  {
    if ids != [] {
      var n := |ids| - 1;
      MembersFound(ledger, ids[..n], m);
      if a :| 0 <= a < n && ledger[ids[..n][a]].member == m {
        assert ledger[ids[a]].member == m;
      }
      if a :| 0 <= a < |ids| && ledger[ids[a]].member == m {
        assert a < n ==> ledger[ids[..n][a]].member == m;
      }
    }
  }

  lemma PayableIsFound(db: Db, p: ReserveParams, m: MemberId)
    ensures HasPayable(db, p, m) <==> m in MembersOf(db.ledger, RowsWhere(db.ledger, PayableIn(p.tenant)))
  {
    var rows := RowsWhere(db.ledger, PayableIn(p.tenant));
    MembersFound(db.ledger, rows, m);
    if i :| PayableAt(db, p, m, i) {
      assert Selects(PayableIn(p.tenant), i, db.ledger[i]);
      assert i in rows;
      var a :| 0 <= a < |rows| && rows[a] == i;
    }
    if a :| 0 <= a < |rows| && db.ledger[rows[a]].member == m {
      assert PayableAt(db, p, m, rows[a]);
    }
  }

  lemma EligibleIs(db: Db, p: ReserveParams, env: ReserveEnv, m: MemberId)
    ensures m in OverThreshold(db.ledger, p.tenant, env.payoutMin, SortUnique(MembersOf(db.ledger, RowsWhere(db.ledger, PayableIn(p.tenant)))))
            <==> AtThreshold(db, p, env, m)
  {
    var ms := MembersOf(db.ledger, RowsWhere(db.ledger, PayableIn(p.tenant)));
    SortUniqueMeaning(ms);
    OverThresholdMeaning(db.ledger, p.tenant, env.payoutMin, SortUnique(ms));
    NetRows(db.ledger, p.tenant, m);
    PayableIsFound(db, p, m);
  }

  lemma StrictFront(s: seq<nat>)
    requires Strict(s) && s != []
    ensures Strict(s[..|s| - 1]) && forall m :: m in s[..|s| - 1] <==> m in s && m != s[|s| - 1]
  {
    var front, last := s[..|s| - 1], s[|s| - 1];
    assert s == front + [last];
    forall a | 0 <= a < |front| ensures front[a] != last {
      assert s[a] < s[|front|];
    }
  }

  lemma {:induction false} CountedOnce(s: seq<nat>, all: set<nat>)
    requires Strict(s) && forall m :: m in all <==> m in s
    ensures |s| == |all|
  {
    if s == [] {
      assert all == {};
    } else {
      StrictFront(s);
      CountedOnce(s[..|s| - 1], all - {s[|s| - 1]});
    }
  }

  /** Every member of the scope once, ascending; an empty selection and more than a hundred members are refused. */
  lemma TargetsAre(db: Db, p: ReserveParams, env: ReserveEnv, all: set<MemberId>)
    requires forall m :: m in all <==> LookedAt(db, p, env, m)
    ensures var t := Targets(db, p, env);
            && (t == Err(NoTargets) <==> p.scope.Selected? && all == {})
            && (t == Err(TooManyTargets) <==> |all| > 100)
            && (t.Err? ==> t.error == NoTargets || t.error == TooManyTargets)
            && (t.Ok? ==> Strict(t.value) && forall m :: m in t.value <==> m in all)
  {
    match p.scope
    case Selected(ids) =>
      var ts := SortUnique(ids);
      SortUniqueMeaning(ids);
      CountedOnce(ts, all);
      assert ts == [] <==> all == {} by {
        if ts != [] {
          assert ts[0] in all;
        }
      }
    case AllEligible =>
      var ms := MembersOf(db.ledger, RowsWhere(db.ledger, PayableIn(p.tenant)));
      var ts := OverThreshold(db.ledger, p.tenant, env.payoutMin, SortUnique(ms));
      SortUniqueMeaning(ms);
      OverThresholdMeaning(db.ledger, p.tenant, env.payoutMin, SortUnique(ms));
      forall m ensures m in ts <==> m in all {
        EligibleIs(db, p, env, m);
      }
      CountedOnce(ts, all);
  }

  lemma TargetLookedAt(db: Db, p: ReserveParams, env: ReserveEnv, m: MemberId)
    ensures Targets(db, p, env).Ok? ==> (m in Targets(db, p, env).value <==> LookedAt(db, p, env, m))
  {
    match p.scope
    case Selected(ids) => SortUniqueMeaning(ids);
    case AllEligible => EligibleIs(db, p, env, m);
  }

  // ------------------------------------------------------------------ the selection

  ghost predicate RefusesWith(db: Db, p: ReserveParams, env: ReserveEnv, m: MemberId, e: Error) {
    RefusalOf(db, p, env, m) == Some(e)
  }

  ghost predicate NoneRefuses(db: Db, p: ReserveParams, env: ReserveEnv, ts: seq<MemberId>) {
    forall a :: 0 <= a < |ts| ==> RefusalOf(db, p, env, ts[a]) == None
  }

  /** Some target refuses, and none before it does. */
  ghost predicate FirstRefusal(db: Db, p: ReserveParams, env: ReserveEnv, ts: seq<MemberId>, e: Error) {
    exists a :: 0 <= a < |ts| && RefusesWith(db, p, env, ts[a], e) && NoneRefuses(db, p, env, ts[..a])
  }

  /** The members that are reserved, in order. */
  ghost function Takers(db: Db, p: ReserveParams, env: ReserveEnv, ts: seq<MemberId>): seq<MemberId> {
    if ts == [] then []
    else Takers(db, p, env, ts[..|ts| - 1]) + (if Takeable(db, p, env, ts[|ts| - 1]) then [ts[|ts| - 1]] else [])
  }

  /** What is reported of the others, in order. */
  ghost function Skips(db: Db, p: ReserveParams, env: ReserveEnv, ts: seq<MemberId>): seq<Choice> {
    if ts == [] then []
    else Skips(db, p, env, ts[..|ts| - 1]) + (if Takeable(db, p, env, ts[|ts| - 1]) then [] else [SkipOf(db, p, env, ts[|ts| - 1])])
  }

  lemma {:induction false} TakersAre(db: Db, p: ReserveParams, env: ReserveEnv, ts: seq<MemberId>, m: MemberId)
    ensures m in Takers(db, p, env, ts) <==> m in ts && Takeable(db, p, env, m)
  {
    if ts != [] {
      TakersAre(db, p, env, ts[..|ts| - 1], m);
      assert ts == ts[..|ts| - 1] + [ts[|ts| - 1]];
    }
  }

  ghost predicate ReservationsAre(db: Db, p: ReserveParams, ms: seq<MemberId>, rs: seq<Reservation>) {
    |rs| == |ms| && forall k :: 0 <= k < |ms| ==> ReservationIs(db, p, ms[k], rs[k])
  }

  ghost predicate SelectionIs(db: Db, p: ReserveParams, env: ReserveEnv, ts: seq<MemberId>, s: Selection) {
    s.skipped == Skips(db, p, env, ts) && ReservationsAre(db, p, Takers(db, p, env, ts), s.reservations)
  }

  lemma FirstRefusalStep(db: Db, p: ReserveParams, env: ReserveEnv, front: seq<MemberId>, m: MemberId, e: Error)
    ensures FirstRefusal(db, p, env, front + [m], e) <==>
              FirstRefusal(db, p, env, front, e) || (NoneRefuses(db, p, env, front) && RefusesWith(db, p, env, m, e))
  {
    var ts := front + [m];
    if a :| 0 <= a < |ts| && RefusesWith(db, p, env, ts[a], e) && NoneRefuses(db, p, env, ts[..a]) {
      if a < |front| {
        assert ts[..a] == front[..a];
      } else {
        assert ts[..a] == front;
      }
    }
    if a :| 0 <= a < |front| && RefusesWith(db, p, env, front[a], e) && NoneRefuses(db, p, env, front[..a]) {
      assert ts[..a] == front[..a] && ts[a] == front[a];
    }
    if NoneRefuses(db, p, env, front) && RefusesWith(db, p, env, m, e) {
      assert ts[..|front|] == front && ts[|front|] == m;
    }
  }

  lemma NoneRefusesStep(db: Db, p: ReserveParams, env: ReserveEnv, front: seq<MemberId>, m: MemberId)
    ensures NoneRefuses(db, p, env, front + [m]) <==> NoneRefuses(db, p, env, front) && RefusalOf(db, p, env, m) == None
  {
    var ts := front + [m];
    assert forall a :: 0 <= a < |front| ==> ts[a] == front[a];
    assert ts[|front|] == m;
  }

  lemma SelectUnfold(db: Db, p: ReserveParams, env: ReserveEnv, front: seq<MemberId>, m: MemberId)
    ensures var s, c := Select(db, p, env, front), Choose(db, p, env, m);
            Select(db, p, env, front + [m])
            == if s.Err? then s
               else if c.Err? then Err(c.error)
               else if c.value.Take? then Ok(Selection(s.value.reservations + [c.value.res], s.value.skipped))
               else Ok(Selection(s.value.reservations, s.value.skipped + [c.value]))
  {
    assert (front + [m])[..|front|] == front;
  }

  lemma TakersStep(db: Db, p: ReserveParams, env: ReserveEnv, front: seq<MemberId>, m: MemberId)
    ensures Takers(db, p, env, front + [m]) == if Takeable(db, p, env, m) then Takers(db, p, env, front) + [m] else Takers(db, p, env, front)
    ensures Skips(db, p, env, front + [m])
            == if Takeable(db, p, env, m) then Skips(db, p, env, front) else Skips(db, p, env, front) + [SkipOf(db, p, env, m)]
  {
    assert (front + [m])[..|front|] == front;
  }

  lemma OneMoreReserved(db: Db, p: ReserveParams, ms: seq<MemberId>, rs: seq<Reservation>, m: MemberId, res: Reservation)
    requires ReservationsAre(db, p, ms, rs) && ReservationIs(db, p, m, res)
    ensures ReservationsAre(db, p, ms + [m], rs + [res]) == true
  {
    forall k | 0 <= k < |ms| + 1 ensures ReservationIs(db, p, (ms + [m])[k], (rs + [res])[k]) {
      if k < |ms| {
        assert ReservationIs(db, p, ms[k], rs[k]);
      }
    }
    assert ReservationsAre(db, p, ms + [m], rs + [res]);
  }

  lemma SelectionStep(db: Db, p: ReserveParams, env: ReserveEnv, front: seq<MemberId>, m: MemberId)
    requires Inv(db) && Select(db, p, env, front).Ok? && SelectionIs(db, p, env, front, Select(db, p, env, front).value)
    requires RefusalOf(db, p, env, m) == None
    ensures Select(db, p, env, front + [m]).Ok?
    ensures SelectionIs(db, p, env, front + [m], Select(db, p, env, front + [m]).value) == true
  {
    SelectUnfold(db, p, env, front, m);
    TakersStep(db, p, env, front, m);
    ChoiceIs(db, p, env, m);
    if Takeable(db, p, env, m) {
      OneMoreReserved(db, p, Takers(db, p, env, front), Select(db, p, env, front).value.reservations, m, Choose(db, p, env, m).value.res);
    }
  }

  lemma RefusalIsError(db: Db, p: ReserveParams, env: ReserveEnv, m: MemberId, e: Error)
    requires Inv(db)
    ensures Choose(db, p, env, m) == Err(e) <==> RefusesWith(db, p, env, m, e)
    ensures Choose(db, p, env, m).Ok? <==> RefusalOf(db, p, env, m) == None
  {
    ChoiceIs(db, p, env, m);
  }

  /** The first target that refuses decides; otherwise everyone is reserved or reported, in order. */
  lemma {:induction false} SelectIs(db: Db, p: ReserveParams, env: ReserveEnv, ts: seq<MemberId>, e: Error)
    requires Inv(db)
    ensures Select(db, p, env, ts) == Err(e) <==> FirstRefusal(db, p, env, ts, e)
    ensures Select(db, p, env, ts).Ok? <==> NoneRefuses(db, p, env, ts)
    ensures Select(db, p, env, ts).Ok? ==> SelectionIs(db, p, env, ts, Select(db, p, env, ts).value) == true
  {
    if ts == [] {
      assert SelectionIs(db, p, env, ts, Selection([], []));
    } else {
      var front, m := ts[..|ts| - 1], ts[|ts| - 1];
      assert front + [m] == ts;
      SelectIs(db, p, env, front, e);
      SelectUnfold(db, p, env, front, m);
      RefusalIsError(db, p, env, m, e);
      FirstRefusalStep(db, p, env, front, m, e);
      NoneRefusesStep(db, p, env, front, m);
      if NoneRefuses(db, p, env, ts) {
        SelectionStep(db, p, env, front, m);
      }
    }
  }
}
