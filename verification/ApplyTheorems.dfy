/** Applying a sale a second time: the ledger keeps one set of commissions a sale. */
module ApplyTheorems {
  import opened Prelude
  import opened Commission
  import opened Tables
  import opened Ledger
  import opened EngineSpec
  import opened BooksProofs
  import opened EngineRuns

  /** Every posted line is one more commission of the sale. */
  lemma {:induction false} PostedCommissions(b: Books, month: Month, tenant: TenantId, id: SaleId, lines: seq<Line>,
                                             start: (LedgerStatus, Option<int>))
    ensures |RowsWhere(PostLines(b, month, tenant, id, lines, start).ledger, CommissionsOf(id))|
            == |RowsWhere(b.ledger, CommissionsOf(id))| + |lines|
  {
    if lines != [] {
      var front := lines[..|lines| - 1];
      PostedCommissions(b, month, tenant, id, front, start);
      var before := PostLines(b, month, tenant, id, front, start).ledger;
      var r := CommissionRow(tenant, id, lines[|lines| - 1], start);
      assert (before + [r])[..|before|] == before;
    }
  }

  lemma AppliedLedger(db: Db, id: SaleId, q: ApplyInputs)
    requires id in db.sales && ApplyInTx(db, id, q).Committed? && ApplyInTx(db, id, q).value.applied
    ensures var o := ApplyInTx(db, id, q);
            var sale := db.sales[id];
            var b := PostLines(Books(db.ledger, db.summaries), SaleMonth(sale, q.monthKey), sale.tenant, id, AllLines(db, id, q),
                               Maturation(q.policy, sale, q.now));
            && o.db.ledger == b.ledger && o.db.summaries == b.summaries
            && o.value.entryCount == |AllLines(db, id, q)|
            && id in o.db.sales && o.db.sales[id].status == Approved
            && RowsWhere(db.ledger, CommissionsOf(id)) == []
  {
    AppliedTables(db, id, q);
    AllBooksAtOnce(db, id, q);
  }

  lemma AppliedCount(db: Db, id: SaleId, q: ApplyInputs)
    requires id in db.sales && ApplyInTx(db, id, q).Committed? && ApplyInTx(db, id, q).value.applied
    ensures var o := ApplyInTx(db, id, q);
            id in o.db.sales && o.db.sales[id].status == Approved
            && |RowsWhere(o.db.ledger, CommissionsOf(id))| == o.value.entryCount
  {
    var sale := db.sales[id];
    AppliedLedger(db, id, q);
    PostedCommissions(Books(db.ledger, db.summaries), SaleMonth(sale, q.monthKey), sale.tenant, id, AllLines(db, id, q),
                      Maturation(q.policy, sale, q.now));
  }

  lemma NothingToApply(d: Db, id: SaleId, q: ApplyInputs)
    requires id in d.sales && (d.sales[id].status == Approved ==> Present(d, id) > 0)
    ensures ApplyInTx(d, id, q) == Committed(d, ApplyResult(false, Present(d, id)))
  {}

  /**
   Once an application has written a row, or has found the sale applied or not approved, applying again -
   with whatever plan, chain, policy or clock - changes nothing and reports the rows that are there.
   */
  lemma WrittenStays(db: Db, id: SaleId, q: ApplyInputs, again: ApplyInputs)
    requires id in db.sales && ApplyInTx(db, id, q).Committed?
    requires var v := ApplyInTx(db, id, q).value; v.applied ==> v.entryCount > 0
    ensures var o := ApplyInTx(db, id, q);
            id in o.db.sales && ApplyInTx(o.db, id, again) == Committed(o.db, ApplyResult(false, o.value.entryCount))
  {
    var o := ApplyInTx(db, id, q);
    if o.value.applied {
      AppliedCount(db, id, q);
    }
    NothingToApply(o.db, id, again);
  }

  /**
   An application that wrote nothing, because every amount rounded to zero, may be repeated with the same
   inputs: it reports itself applied again and leaves the tables as they are.
   */
  lemma NothingRepeats(db: Db, id: SaleId, q: ApplyInputs)
    requires id in db.sales && ApplyInTx(db, id, q).Committed?
    requires ApplyInTx(db, id, q).value == ApplyResult(true, 0)
    ensures var o := ApplyInTx(db, id, q);
            id in o.db.sales && ApplyInTx(o.db, id, q) == Committed(o.db, ApplyResult(true, 0))
  {
    OnlyPinned(db, id, q);
    var d := ApplyInTx(db, id, q).db;
    AppliedLedger(db, id, q);
    NothingToWrite(db, id, q);
    SameWorth(db, d, id, q);
    NothingToWrite(d, id, q);
    Unlocked(d, id, q);
    AppliedLedger(d, id, q);
    AppliedTables(d, id, q);
    assert d.sales[id := d.sales[id]] == d.sales;
  }

  // ------------------------------------------------------------------ when an application writes nothing

  /** No plan level that has a member in the chain is worth a cent. */
  ghost predicate LevelsWorthNothing(amount: nat, levels: seq<LevelRate>, chain: seq<Option<MemberId>>) {
    forall l :: l in levels && l.level < |chain| && chain[l.level].Some? ==> !CoversCent(amount, l.rateBps)
  }

  /** The seller is still in its first days under a sponsor that may earn. */
  predicate FastStartDue(sale: Sale, plan: StoredPlan, raw: seq<Upline>, q: ApplyInputs) {
    && BonusSponsor(raw, q.policy).Some? && plan.fastStartDays > 0
    && q.sellerJoinedAt.Some? && sale.saleDate - q.sellerJoinedAt.value <= plan.fastStartDays * DAY_MS
  }

  /**
   Neither a level of the plan, nor a fast-start that is due, nor the override of the seller's tier
   covers one cent of the sale.
   */
  ghost predicate WorthNothing(db: Db, id: SaleId, q: ApplyInputs)
    requires id in db.sales
  {
    var sale := db.sales[id];
    && q.plan.Some? && q.chain.Some?
    && LevelsWorthNothing(sale.amount, q.plan.value.levels, EffectiveBaseChain(q.chain.value, q.policy))
    && (FastStartDue(sale, q.plan.value, q.chain.value, q) ==> !CoversCent(sale.amount, q.plan.value.fastStartBps))
    && !CoversCent(sale.amount, OverrideBpsFor(q.tiers, q.team, Earnings(db.ledger, sale.tenant, sale.seller)))
  }

  lemma NoBaseLines(amount: nat, levels: seq<LevelRate>, chain: seq<Option<MemberId>>)
    ensures CommissionLines(amount, levels, chain) == [] <==> LevelsWorthNothing(amount, levels, chain)
  {
    var lines := CommissionLines(amount, levels, chain);
    LinesMeaning(amount, levels, chain);
    if lines != [] {
      assert PaysLevel(lines[0], amount, levels, chain);
      CentIffCovered(amount, lines[0].rateBps);
    }
    forall l | l in levels && l.level < |chain| && chain[l.level].Some? && CoversCent(amount, l.rateBps) ensures lines != [] {
      CentIffCovered(amount, l.rateBps);
      var x := Line(l.level, chain[l.level].value, l.rateBps, BpsAmount(amount, l.rateBps));
      assert LevelRate(x.level, x.rateBps) == l;
      assert PaysLevel(x, amount, levels, chain);
    }
  }

  lemma NoEarnedLines(sale: Sale, plan: StoredPlan, raw: seq<Upline>, q: ApplyInputs)
    ensures EarnedLines(sale, plan, raw, q) == [] <==>
            && LevelsWorthNothing(sale.amount, plan.levels, EffectiveBaseChain(raw, q.policy))
            && (FastStartDue(sale, plan, raw, q) ==> !CoversCent(sale.amount, plan.fastStartBps))
  {
    NoBaseLines(sale.amount, plan.levels, EffectiveBaseChain(raw, q.policy));
    CentIffCovered(sale.amount, plan.fastStartBps);
  }

  /** An application has no line to write exactly when nothing in it is worth a cent. */
  lemma NothingToWrite(db: Db, id: SaleId, q: ApplyInputs)
    requires id in db.sales && q.plan.Some? && q.chain.Some?
    ensures AllLines(db, id, q) == [] <==> WorthNothing(db, id, q)
  {
    var sale := db.sales[id];
    NoEarnedLines(sale, q.plan.value, q.chain.value, q);
    CentIffCovered(sale.amount, OverrideBpsFor(q.tiers, q.team, Earnings(db.ledger, sale.tenant, sale.seller)));
  }

  // ------------------------------------------------------------------ when an application is final

  /** Approved, and without a commission row. */
  predicate Unapplied(db: Db, id: SaleId)
    requires id in db.sales
  {
    db.sales[id].status == Approved && RowsWhere(db.ledger, CommissionsOf(id)) == []
  }

  /** No later application, with whatever inputs, changes a table or gives another answer. */
  ghost predicate Final(d: Db, id: SaleId, entryCount: nat)
    requires id in d.sales
  {
    forall again :: ApplyInTx(d, id, again) == Committed(d, ApplyResult(false, entryCount))
  }

  lemma AppliedWhen(db: Db, id: SaleId, q: ApplyInputs)
    requires id in db.sales && ApplyInTx(db, id, q).Committed?
    ensures ApplyInTx(db, id, q).value.applied <==> Unapplied(db, id)
    ensures ApplyInTx(db, id, q).value.applied ==> q.plan.Some? && q.chain.Some?
    ensures id in ApplyInTx(db, id, q).db.sales && ApplyInTx(db, id, q).db.sales[id].status == db.sales[id].status
  {}

  lemma WroteNothing(db: Db, id: SaleId, q: ApplyInputs)
    requires id in db.sales && ApplyInTx(db, id, q).Committed?
    ensures ApplyInTx(db, id, q).value == ApplyResult(true, 0) <==> Unapplied(db, id) && WorthNothing(db, id, q)
  {
    AppliedWhen(db, id, q);
    if ApplyInTx(db, id, q).value.applied {
      AppliedLedger(db, id, q);
      NothingToWrite(db, id, q);
    }
  }

  /**
   A committed application is final, whatever is applied later, if and only if the sale was not an
   approved one without commissions of which nothing was worth a cent.
   */
  lemma FinalExactly(db: Db, id: SaleId, q: ApplyInputs)
    requires id in db.sales && ApplyInTx(db, id, q).Committed?
    ensures var o := ApplyInTx(db, id, q);
            && id in o.db.sales
            && (Final(o.db, id, o.value.entryCount) <==> !(Unapplied(db, id) && WorthNothing(db, id, q)))
  {
    var o := ApplyInTx(db, id, q);
    WroteNothing(db, id, q);
    AppliedWhen(db, id, q);
    if o.value == ApplyResult(true, 0) {
      NothingRepeats(db, id, q);
    } else {
      forall again ensures ApplyInTx(o.db, id, again) == Committed(o.db, ApplyResult(false, o.value.entryCount)) {
        WrittenStays(db, id, q, again);
      }
    }
  }

  /** Approving an approved sale is applying it. */
  lemma ApproveAgain(db: Db, id: SaleId, actor: Option<UserId>, q: ApplyInputs)
    requires id in db.sales && db.sales[id].status == Approved
    ensures Approve(db, id, actor, None, q) == ApplyInTx(db, id, q)
  {}

  /** The tables that an approval applies to: a draft is marked approved first. */
  function Marked(db: Db, id: SaleId, now: int): Db
    requires id in db.sales
  {
    if db.sales[id].status == Draft then db.(sales := db.sales[id := db.sales[id].(status := Approved, approvedAt := Some(now))])
    else db
  }

  /** No later approval, by anybody and with whatever inputs, changes a table or gives another answer. */
  ghost predicate ApprovalFinal(d: Db, id: SaleId, entryCount: nat) {
    forall actor, again :: Approve(d, id, actor, None, again) == Committed(d, ApplyResult(false, entryCount))
  }

  lemma ApproveIsApply(db: Db, id: SaleId, actor: Option<UserId>, expectedTenant: Option<TenantId>, q: ApplyInputs)
    requires Approve(db, id, actor, expectedTenant, q).Committed?
    ensures id in db.sales && (db.sales[id].status == Draft || db.sales[id].status == Approved)
    ensures Approve(db, id, actor, expectedTenant, q) == ApplyInTx(Marked(db, id, q.now), id, q)
  {}

  lemma MarkedWorth(db: Db, id: SaleId, now: int, q: ApplyInputs)
    requires id in db.sales && db.sales[id].status != Void
    ensures var d := Marked(db, id, now);
            && d.sales[id].status == Approved
            && (WorthNothing(d, id, q) <==> WorthNothing(db, id, q))
            && (Unapplied(d, id) <==> RowsWhere(db.ledger, CommissionsOf(id)) == [])
  {}

  /** On an approved sale, approvals are final exactly when applications are. */
  lemma FinalEitherWay(d: Db, id: SaleId, entryCount: nat)
    requires id in d.sales && d.sales[id].status == Approved
    ensures ApprovalFinal(d, id, entryCount) <==> Final(d, id, entryCount)
  {
    forall actor, again ensures Approve(d, id, actor, None, again) == ApplyInTx(d, id, again) {
      ApproveAgain(d, id, actor, again);
    }
    if ApprovalFinal(d, id, entryCount) {
      forall again ensures ApplyInTx(d, id, again) == Committed(d, ApplyResult(false, entryCount)) {
        assert Approve(d, id, None, None, again) == ApplyInTx(d, id, again);
      }
    }
  }

  /**
   The same for approvals, of drafts too: a committed approval is final, whoever approves later, if and
   only if the sale had a commission row or something on it was worth a cent.
   */
  lemma ApprovalFinalExactly(db: Db, id: SaleId, actor: Option<UserId>, expectedTenant: Option<TenantId>, q: ApplyInputs)
    requires Approve(db, id, actor, expectedTenant, q).Committed?
    ensures var o := Approve(db, id, actor, expectedTenant, q);
            && id in db.sales && id in o.db.sales
            && (ApprovalFinal(o.db, id, o.value.entryCount) <==>
                  !(RowsWhere(db.ledger, CommissionsOf(id)) == [] && WorthNothing(db, id, q)))
  {
    ApproveIsApply(db, id, actor, expectedTenant, q);
    var d := Marked(db, id, q.now);
    var o := ApplyInTx(d, id, q);
    MarkedWorth(db, id, q.now, q);
    AppliedWhen(d, id, q);
    FinalExactly(d, id, q);
    FinalEitherWay(o.db, id, o.value.entryCount);
  }

  /**
   After any other application, applying again - with whatever plan, chain, policy or clock - changes
   nothing and reports the rows that are there.
   */
  lemma ApplyAgain(db: Db, id: SaleId, q: ApplyInputs, again: ApplyInputs)
    requires id in db.sales && ApplyInTx(db, id, q).Committed? && !(Unapplied(db, id) && WorthNothing(db, id, q))
    ensures var o := ApplyInTx(db, id, q);
            id in o.db.sales && ApplyInTx(o.db, id, again) == Committed(o.db, ApplyResult(false, o.value.entryCount))
  {
    WroteNothing(db, id, q);
    WrittenStays(db, id, q, again);
  }

  /** After that one kind, the same inputs again leave the tables as they are but report an application again. */
  lemma ApplyNothingAgain(db: Db, id: SaleId, q: ApplyInputs)
    requires id in db.sales && ApplyInTx(db, id, q).Committed? && Unapplied(db, id) && WorthNothing(db, id, q)
    ensures var o := ApplyInTx(db, id, q);
            && o.value == ApplyResult(true, 0) && o.db.ledger == db.ledger && o.db.summaries == db.summaries
            && id in o.db.sales && ApplyInTx(o.db, id, q) == Committed(o.db, ApplyResult(true, 0))
  {
    WroteNothing(db, id, q);
    OnlyPinned(db, id, q);
    NothingRepeats(db, id, q);
  }

  // ------------------------------------------------------------------ what a repeat may pay

  /** An application that wrote nothing has only pinned the sale's plan and month. */
  lemma OnlyPinned(db: Db, id: SaleId, q: ApplyInputs)
    requires id in db.sales && ApplyInTx(db, id, q).Committed? && ApplyInTx(db, id, q).value == ApplyResult(true, 0)
    ensures var d := ApplyInTx(db, id, q).db;
            && id in d.sales && d == db.(sales := db.sales[id := d.sales[id]])
            && d.sales[id].planId.Some? && d.sales[id].summaryMonth.Some?
            && (d.sales[id].tenant, d.sales[id].summaryMonth.value) !in d.locks
            && d.sales[id] == db.sales[id].(planId := d.sales[id].planId, summaryMonth := d.sales[id].summaryMonth)
  {
    AppliedTables(db, id, q);
    AllBooksAtOnce(db, id, q);
    assert AllLines(db, id, q) == [];
  }

  lemma Unlocked(d: Db, id: SaleId, again: ApplyInputs)
    requires id in d.sales && Unapplied(d, id) && again.plan.Some? && again.chain.Some?
    requires d.sales[id].summaryMonth.Some? && (d.sales[id].tenant, d.sales[id].summaryMonth.value) !in d.locks
    ensures ApplyInTx(d, id, again).Committed? && ApplyInTx(d, id, again).value.applied
  {
    CeilingGuardUnreachable(d, id, again);
  }

  lemma SameWorth(db: Db, d: Db, id: SaleId, again: ApplyInputs)
    requires id in db.sales && id in d.sales && d.ledger == db.ledger
    requires d.sales[id] == db.sales[id].(planId := d.sales[id].planId, summaryMonth := d.sales[id].summaryMonth)
    ensures WorthNothing(d, id, again) <==> WorthNothing(db, id, again)
  {}

  /**
   After an application that wrote nothing, a repeat with any plan and chain goes through, and it writes
   rows if and only if with its own inputs something is worth a cent.
   */
  lemma RepeatWrites(db: Db, id: SaleId, q: ApplyInputs, again: ApplyInputs)
    requires id in db.sales && ApplyInTx(db, id, q).Committed? && Unapplied(db, id) && WorthNothing(db, id, q)
    requires again.plan.Some? && again.chain.Some?
    ensures var o := ApplyInTx(db, id, q);
            && id in o.db.sales && ApplyInTx(o.db, id, again).Committed?
            && ApplyInTx(o.db, id, again).value.applied
            && |ApplyInTx(o.db, id, again).db.ledger| == |o.db.ledger| + ApplyInTx(o.db, id, again).value.entryCount
            && (ApplyInTx(o.db, id, again).value.entryCount > 0 <==> !WorthNothing(db, id, again))
  {
    WroteNothing(db, id, q);
    OnlyPinned(db, id, q);
    var d := ApplyInTx(db, id, q).db;
    Unlocked(d, id, again);
    AppliedLedger(d, id, again);
    NothingToWrite(d, id, again);
    SameWorth(db, d, id, again);
    PostedLength(Books(d.ledger, d.summaries), SaleMonth(d.sales[id], again.monthKey), d.sales[id].tenant, id, AllLines(d, id, again),
                 Maturation(again.policy, d.sales[id], again.now));
  }

  lemma {:induction false} PostedLength(b: Books, month: Month, tenant: TenantId, id: SaleId, lines: seq<Line>,
                                        start: (LedgerStatus, Option<int>))
    ensures |PostLines(b, month, tenant, id, lines, start).ledger| == |b.ledger| + |lines|
  {
    if lines != [] {
      PostedLength(b, month, tenant, id, lines[..|lines| - 1], start);
    }
  }

  /** The same inputs, with a ladder whose one tier the seller has reached and which pays all of the sale. */
  function Promoted(db: Db, id: SaleId, q: ApplyInputs): ApplyInputs
    requires id in db.sales
  {
    q.(tiers := [Tier(0, Earnings(db.ledger, db.sales[id].tenant, db.sales[id].seller), BPS_DENOMINATOR)], team := Some(0))
  }

  /** On the same plan and chain, this repeat writes at least one row. */
  predicate PaysMore(d: Db, id: SaleId, q: ApplyInputs, again: ApplyInputs)
    requires id in d.sales
  {
    && again.plan == q.plan && again.chain == q.chain && ApplyInTx(d, id, again).Committed?
    && |ApplyInTx(d, id, again).db.ledger| > |d.ledger|
  }

  /**
   After an application that wrote nothing, some repeat on the same plan and chain writes a row, unless
   the sale amount is zero.
   */
  lemma RepeatCanPay(db: Db, id: SaleId, q: ApplyInputs)
    requires id in db.sales && ApplyInTx(db, id, q).Committed? && Unapplied(db, id) && WorthNothing(db, id, q)
    ensures var d := ApplyInTx(db, id, q).db;
            id in d.sales && (db.sales[id].amount > 0 <==> exists again :: PaysMore(d, id, q, again))
  {
    AppliedWhen(db, id, q);
    var d := ApplyInTx(db, id, q).db;
    if db.sales[id].amount > 0 {
      RepeatWrites(db, id, q, Promoted(db, id, q));
      PromotionPays(db, id, q);
      assert PaysMore(d, id, q, Promoted(db, id, q));
    }
    forall again | PaysMore(d, id, q, again) ensures db.sales[id].amount > 0 {
      RepeatWrites(db, id, q, again);
      ZeroIsWorthNothing(db, id, again);
    }
  }

  lemma ZeroIsWorthNothing(db: Db, id: SaleId, q: ApplyInputs)
    requires id in db.sales && q.plan.Some? && q.chain.Some?
    ensures db.sales[id].amount == 0 ==> WorthNothing(db, id, q)
  {}

  lemma PromotionPays(db: Db, id: SaleId, q: ApplyInputs)
    requires id in db.sales && db.sales[id].amount > 0
    ensures !WorthNothing(db, id, Promoted(db, id, q))
  {
    var again := Promoted(db, id, q);
    var earnings := Earnings(db.ledger, db.sales[id].tenant, db.sales[id].seller);
    assert EffectiveTiers(again.tiers) == again.tiers;
    assert TierReached(again.tiers, 0, earnings) == Some(again.tiers[0]);
    assert CoversCent(db.sales[id].amount, BPS_DENOMINATOR);
  }

  // ------------------------------------------------------------------ a second approval that pays

  /** A sale of 100 cents by member 7, entered as a draft. */
  const DRAFT: Step := DoCreateDraft(0, 0, 7, 100, 0, None)

  /** A plan that pays the seller half a percent, and a ladder that adds ten percent from ten team members on. */
  const HALF_PERCENT: StoredPlan := Plan(1, 50, 1, [LevelRate(0, 50)], 0, 0, 0)

  function WithTeam(team: nat): ApplyInputs {
    ApplyInputs(0, Some(HALF_PERCENT), Some([Upline(7, true)]), TenantPolicy(false, false, true, OnApproval, 0, 0),
                None, [Tier(10, 0, 1_000)], Some(team), (t: TenantId, at: int) => 0)
  }

  /** The sale of the draft, in some status, with no rows written yet and no month locked. */
  predicate NoRowsYet(db: Db, status: SaleStatus) {
    && 0 in db.sales && db.ledger == [] && db.locks == {} && db.sales[0].tenant == 0
    && db.sales[0].seller == 7 && db.sales[0].amount == 100 && db.sales[0].status == status
  }

  /** The ledger is one payable commission of ten cents for the seller. */
  predicate TenCentsPaid(db: Db) {
    && |db.ledger| == 1 && db.ledger[0].member == 7 && db.ledger[0].amount == 10
    && db.ledger[0].kind == Commission && db.ledger[0].status.Payable?
  }

  lemma TeamOverride(team: nat)
    ensures OverrideBpsFor(WithTeam(team).tiers, WithTeam(team).team, 0) == if team >= 10 then 1_000 else 0
  {
    var tiers := WithTeam(team).tiers;
    assert tiers[..0] == [];
    assert TierReached(tiers[..0], team, 0) == None;
  }

  lemma DraftLines(db: Db, team: nat)
    requires NoRowsYet(db, Approved)
    ensures AllLines(db, 0, WithTeam(team)) == if team >= 10 then [Line(OVERRIDE_LEVEL, 7, 1_000, 10)] else []
  {
    var q := WithTeam(team);
    var levels, raw := HALF_PERCENT.levels, [Upline(7, true)];
    assert CommissionLines(100, levels, EffectiveBaseChain(raw, q.policy)) == [] by {
      NoBaseLines(100, levels, EffectiveBaseChain(raw, q.policy));
    }
    assert EarnedLines(db.sales[0], HALF_PERCENT, raw, q) == [];
    TeamOverride(team);
    assert BpsAmount(100, 1_000) == 10;
  }

  lemma DraftApplied(db: Db, team: nat)
    requires NoRowsYet(db, Approved)
    ensures var o := ApplyInTx(db, 0, WithTeam(team));
            && o.Committed? && o.value == ApplyResult(true, if team >= 10 then 1 else 0)
            && (if team >= 10 then TenCentsPaid(o.db) else NoRowsYet(o.db, Approved))
  {
    var q := WithTeam(team);
    assert RowsWhere(db.ledger, CommissionsOf(0)) == [];
    CeilingGuardUnreachable(db, 0, q);
    AppliedLedger(db, 0, q);
    DraftLines(db, team);
    var lines := AllLines(db, 0, q);
    var b := Books(db.ledger, db.summaries);
    var start := Maturation(q.policy, db.sales[0], q.now);
    assert team >= 10 ==> lines[..0] == [];
    assert PostLines(b, SaleMonth(db.sales[0], q.monthKey), 0, 0, [], start) == b;
  }

  lemma Drafted()
    ensures NoRowsYet(Run(EMPTY_DB, [DRAFT]), Draft)
  {
    assert [DRAFT][..0] == [];
    assert Run(EMPTY_DB, []) == EMPTY_DB;
  }

  lemma FirstApproval(db: Db)
    requires NoRowsYet(db, Draft)
    ensures var o := Approve(db, 0, None, None, WithTeam(0));
            o.Committed? && o.value == ApplyResult(true, 0) && NoRowsYet(o.db, Approved)
  {
    var approved := db.(sales := db.sales[0 := db.sales[0].(status := Approved, approvedAt := Some(0))]);
    DraftApplied(approved, 0);
  }

  lemma SecondApproval(db: Db)
    requires NoRowsYet(db, Approved)
    ensures var o := Approve(db, 0, None, None, WithTeam(10));
            o.Committed? && o.value == ApplyResult(true, 1) && TenCentsPaid(o.db) == true
  {
    ApproveAgain(db, 0, None, WithTeam(10));
    DraftApplied(db, 10);
    var o := ApplyInTx(db, 0, WithTeam(10));
    assert o.Committed? && o.value == ApplyResult(true, 1) && TenCentsPaid(o.db);
  }

  /**
   Approving sale 0 while the seller has no team writes nothing; approving it again once the team has ten
   members writes a ten cent override.
   */
  predicate SecondApprovalWrites(db: Db) {
    var first := Approve(db, 0, None, None, WithTeam(0));
    && first.Committed? && first.value == ApplyResult(true, 0) && first.db.ledger == []
    && var second := Approve(first.db, 0, None, None, WithTeam(10));
       second.Committed? && second.value == ApplyResult(true, 1) && TenCentsPaid(second.db)
  }

  lemma TwoApprovals(db: Db)
    requires NoRowsYet(db, Draft)
    ensures SecondApprovalWrites(db) == true
  {
    FirstApproval(db);
    SecondApproval(Approve(db, 0, None, None, WithTeam(0)).db);
  }

  /** So it goes after the one step that enters the draft. */
  lemma SecondApprovalPays()
    ensures SecondApprovalWrites(Run(EMPTY_DB, [DRAFT])) == true
  {
    Drafted();
    TwoApprovals(Run(EMPTY_DB, [DRAFT]));
  }
}
