/**
 Which rows an application writes, said on its inputs: who is paid on which level, at which rate, how much,
 and in which status and with which date a row starts.
 */
module ApplyRows {
  import opened Prelude
  import opened Sums
  import opened Commission
  import opened Tables
  import opened Ledger
  import opened EngineSpec
  import opened EngineInv
  import opened BooksProofs
  import opened EngineRuns

  /** The whole cents that the rate covers. */
  predicate IsShare(cents: nat, amount: nat, rate: Bps) {
    cents * 10_000 <= amount * rate < (cents + 1) * 10_000
  }

  lemma ShareIs(cents: nat, amount: nat, rate: Bps)
    ensures IsShare(cents, amount, rate) <==> cents == BpsAmount(amount, rate)
  {
    if IsShare(cents, amount, rate) {
      Cents(amount, rate, cents);
    }
  }

  // ------------------------------------------------------------------ who stands on a level

  function ActiveCount(us: seq<Upline>): nat {
    if us == [] then 0 else ActiveCount(us[..|us| - 1]) + (if us[|us| - 1].active then 1 else 0)
  }

  /** The active member `j`, behind `k` active ones. */
  predicate ActiveAt(us: seq<Upline>, j: int, k: nat, m: MemberId) {
    0 <= j < |us| && us[j] == Upline(m, true) && ActiveCount(us[..j]) == k
  }

  ghost predicate IsActive(us: seq<Upline>, k: nat, m: MemberId) {
    exists j :: ActiveAt(us, j, k, m)
  }

  /**
   The member on a level. The seller is on level 0. With compression, the active uplines move up to close
   the gaps; else everyone keeps the own distance, and without earnings for inactive members an inactive one
   leaves its level empty.
   */
  ghost predicate Stands(raw: seq<Upline>, t: TenantPolicy, level: nat, m: MemberId) {
    if level == 0 then raw != [] && raw[0].id == m
    else if t.compressionEnabled then raw != [] && IsActive(raw[1..], level - 1, m)
    else level < |raw| && raw[level].id == m && (t.inactiveMembersEarn || raw[level].active)
  }

  lemma {:induction false} ActiveOnlyCount(us: seq<Upline>)
    ensures |ActiveOnly(us)| == ActiveCount(us)
  {
    if us != [] {
      ActiveOnlyCount(us[..|us| - 1]);
    }
  }

  lemma {:induction false} ActiveOnlyAt(us: seq<Upline>, k: nat, m: MemberId)
    ensures k < |ActiveOnly(us)| && ActiveOnly(us)[k] == Some(m) <==> IsActive(us, k, m)
  {
    if us != [] {
      var n := |us| - 1;
      ActiveOnlyAt(us[..n], k, m);
      ActiveOnlyCount(us[..n]);
      if j :| ActiveAt(us[..n], j, k, m) {
        assert us[..n][..j] == us[..j];
        assert ActiveAt(us, j, k, m);
      }
      if j :| ActiveAt(us, j, k, m) {
        if j < n {
          assert us[..n][..j] == us[..j];
          assert ActiveAt(us[..n], j, k, m);
        }
      }
      if k == |ActiveOnly(us[..n])| && us[n] == Upline(m, true) {
        assert ActiveAt(us, n, k, m);
      }
    }
  }

  /** The effective chain is the members who stand on its levels. */
  lemma ChainStands(raw: seq<Upline>, t: TenantPolicy, level: nat, m: MemberId)
    ensures level < |EffectiveBaseChain(raw, t)| && EffectiveBaseChain(raw, t)[level] == Some(m) <==> Stands(raw, t, level, m)
  {
    if raw != [] && t.compressionEnabled && level > 0 {
      ActiveOnlyAt(raw[1..], level - 1, m);
    }
  }

  // ------------------------------------------------------------------ what is earned

  /** A level of the plan, paid to the member who stands on it. */
  ghost predicate BaseEarned(amount: nat, plan: Plan, raw: seq<Upline>, t: TenantPolicy, x: Line) {
    && LevelRate(x.level, x.rateBps) in plan.levels && Stands(raw, t, x.level, x.member)
    && IsShare(x.amount, amount, x.rateBps) && x.amount > 0
  }

  /** The sponsor of the seller, if the tenant lets it earn. */
  predicate SponsorEarns(raw: seq<Upline>, t: TenantPolicy, m: MemberId) {
    |raw| >= 2 && raw[1].id == m && (t.inactiveMembersEarn || raw[1].active)
  }

  /** A share of the sale for the sponsor, in the first days after the seller joined. */
  predicate FastStartEarned(sale: Sale, plan: Plan, raw: seq<Upline>, q: ApplyInputs, x: Line) {
    && x.level == 1000 && SponsorEarns(raw, q.policy, x.member)
    && plan.fastStartDays > 0 && q.sellerJoinedAt.Some?
    && sale.saleDate - q.sellerJoinedAt.value <= plan.fastStartDays * 86_400_000
    && x.rateBps == plan.fastStartBps && IsShare(x.amount, sale.amount, x.rateBps) && x.amount > 0
  }

  /** The base line on the lowest level that pays. */
  ghost predicate LowestEarned(amount: nat, plan: Plan, raw: seq<Upline>, t: TenantPolicy, b: Line) {
    BaseEarned(amount, plan, raw, t, b) && forall x :: BaseEarned(amount, plan, raw, t, x) ==> b.level <= x.level
  }

  /** A share of that line for the sponsor. */
  ghost predicate MatchingEarned(amount: nat, plan: Plan, raw: seq<Upline>, t: TenantPolicy, x: Line) {
    exists b :: LowestEarned(amount, plan, raw, t, b) && MatchesLine(plan, raw, t, b, x)
  }

  /** The ladder in force: the tenant's own, or the built-in one, which pays no override. */
  predicate TierInForce(tiers: seq<Tier>, team: nat, earnings: int, i: int) {
    && 0 <= i < |tiers| && team >= tiers[i].minTeam && earnings >= tiers[i].minEarnings
    && forall j :: i < j < |tiers| ==> !(team >= tiers[j].minTeam && earnings >= tiers[j].minEarnings)
  }

  /** The override of the last tier that the seller has reached, on the whole sale, for the seller. */
  ghost predicate OverrideEarned(sale: Sale, q: ApplyInputs, earnings: int, x: Line) {
    && x.level == 1002 && x.member == sale.seller && q.team.Some?
    && (exists i :: TierInForce(q.tiers, q.team.value, earnings, i) && x.rateBps == q.tiers[i].overrideBps)
    && IsShare(x.amount, sale.amount, x.rateBps) && x.amount > 0
  }

  lemma BaseLinesEarned(amount: nat, plan: Plan, raw: seq<Upline>, t: TenantPolicy, x: Line)
    ensures x in CommissionLines(amount, plan.levels, EffectiveBaseChain(raw, t)) <==> BaseEarned(amount, plan, raw, t, x)
  {
    LinesMeaning(amount, plan.levels, EffectiveBaseChain(raw, t));
    ChainStands(raw, t, x.level, x.member);
    ShareIs(x.amount, amount, x.rateBps);
    assert x in CommissionLines(amount, plan.levels, EffectiveBaseChain(raw, t)) <==>
           PaysLevel(x, amount, plan.levels, EffectiveBaseChain(raw, t));
  }

  lemma FastStartLinesEarned(sale: Sale, plan: Plan, raw: seq<Upline>, q: ApplyInputs, x: Line)
    ensures x in FastStartLines(sale.amount, plan, raw, q.policy, sale.saleDate, q.sellerJoinedAt) <==>
            FastStartEarned(sale, plan, raw, q, x)
  {
    ShareIs(x.amount, sale.amount, x.rateBps);
    CentIffCovered(sale.amount, plan.fastStartBps);
  }

  lemma FirstIsLeast(lines: seq<Line>, b: Line)
    requires AscendingLevels(lines)
    ensures lines != [] && b == lines[0] <==> b in lines && forall x :: x in lines ==> b.level <= x.level
  {
    if b in lines && forall x :: x in lines ==> b.level <= x.level {
      var i :| 0 <= i < |lines| && lines[i] == b;
      assert lines[0] in lines;
      assert i > 0 ==> lines[0].level < lines[i].level;
    }
  }

  /** The list holds exactly the earned base lines. */
  ghost predicate ListsEarned(lines: seq<Line>, amount: nat, plan: Plan, raw: seq<Upline>, t: TenantPolicy) {
    forall x :: x in lines <==> BaseEarned(amount, plan, raw, t, x)
  }

  lemma BaseListsEarned(amount: nat, plan: Plan, raw: seq<Upline>, t: TenantPolicy)
    ensures ListsEarned(CommissionLines(amount, plan.levels, EffectiveBaseChain(raw, t)), amount, plan, raw, t) == true
  {
    forall x ensures x in CommissionLines(amount, plan.levels, EffectiveBaseChain(raw, t)) <==> BaseEarned(amount, plan, raw, t, x) {
      BaseLinesEarned(amount, plan, raw, t, x);
    }
  }

  lemma FirstOfListed(lines: seq<Line>, amount: nat, plan: Plan, raw: seq<Upline>, t: TenantPolicy, b: Line)
    requires AscendingLevels(lines) && ListsEarned(lines, amount, plan, raw, t)
    ensures lines != [] && b == lines[0] <==> LowestEarned(amount, plan, raw, t, b)
  {
    FirstIsLeast(lines, b);
  }

  lemma BaseAscends(amount: nat, plan: Plan, raw: seq<Upline>, t: TenantPolicy)
    requires DistinctLevels(plan.levels)
    ensures AscendingLevels(CommissionLines(amount, plan.levels, EffectiveBaseChain(raw, t)))
  {
    SortKeeps(plan.levels);
    LinesFromAscend(amount, SortByLevel(plan.levels), EffectiveBaseChain(raw, t));
  }

  lemma FirstEarned(amount: nat, plan: Plan, raw: seq<Upline>, t: TenantPolicy, b: Line)
    requires DistinctLevels(plan.levels)
    ensures var base := CommissionLines(amount, plan.levels, EffectiveBaseChain(raw, t));
            base != [] && b == base[0] <==> LowestEarned(amount, plan, raw, t, b)
  {
    BaseAscends(amount, plan, raw, t);
    BaseListsEarned(amount, plan, raw, t);
    FirstOfListed(CommissionLines(amount, plan.levels, EffectiveBaseChain(raw, t)), amount, plan, raw, t, b);
  }

  /** A share of one line, for the sponsor. */
  predicate MatchesLine(plan: Plan, raw: seq<Upline>, t: TenantPolicy, b: Line, x: Line) {
    && x.level == 1001 && SponsorEarns(raw, t, x.member) && x.rateBps == plan.matchingBps
    && IsShare(x.amount, b.amount, x.rateBps) && x.amount > 0
  }

  lemma MatchesFirst(plan: Plan, raw: seq<Upline>, t: TenantPolicy, base: seq<Line>, x: Line)
    ensures x in MatchingLines(plan, raw, t, base) <==> base != [] && MatchesLine(plan, raw, t, base[0], x)
  {
    if base != [] {
      ShareIs(x.amount, base[0].amount, x.rateBps);
      CentIffCovered(base[0].amount, plan.matchingBps);
    }
  }

  lemma MatchingLinesEarned(amount: nat, plan: Plan, raw: seq<Upline>, t: TenantPolicy, x: Line)
    requires DistinctLevels(plan.levels)
    ensures x in MatchingLines(plan, raw, t, CommissionLines(amount, plan.levels, EffectiveBaseChain(raw, t))) <==>
            MatchingEarned(amount, plan, raw, t, x)
  {
    var base := CommissionLines(amount, plan.levels, EffectiveBaseChain(raw, t));
    MatchesFirst(plan, raw, t, base, x);
    if base != [] {
      FirstEarned(amount, plan, raw, t, base[0]);
    }
    if b :| LowestEarned(amount, plan, raw, t, b) && MatchesLine(plan, raw, t, b, x) {
      FirstEarned(amount, plan, raw, t, b);
    }
  }

  lemma {:induction false} ReachedInForce(tiers: seq<Tier>, team: nat, earnings: int, t: Tier)
    ensures TierReached(tiers, team, earnings) == Some(t) <==> exists i :: TierInForce(tiers, team, earnings, i) && tiers[i] == t
  {
    if tiers != [] {
      var n := |tiers| - 1;
      ReachedInForce(tiers[..n], team, earnings, t);
      if Reaches(tiers[n], team, earnings) {
        assert TierInForce(tiers, team, earnings, n);
      } else {
        if i :| TierInForce(tiers[..n], team, earnings, i) && tiers[..n][i] == t {
          assert TierInForce(tiers, team, earnings, i);
        }
        if i :| TierInForce(tiers, team, earnings, i) && tiers[i] == t {
          assert TierInForce(tiers[..n], team, earnings, i);
        }
      }
    }
  }

  /** The built-in ladder pays no override, whatever tier is reached. */
  lemma DefaultPaysNothing(team: Option<nat>, earnings: int)
    ensures OverrideBpsFor([], team, earnings) == 0
  {
    OverrideWithinMax([], team, earnings);
    assert MaxOverride(DEFAULT_TIERS) == 0 by {
      assert DEFAULT_TIERS[..3][..2][..1][..0] == [];
      assert MaxOverride(DEFAULT_TIERS[..3][..2][..1]) == 0;
      assert MaxOverride(DEFAULT_TIERS[..3][..2]) == 0;
      assert MaxOverride(DEFAULT_TIERS[..3]) == 0;
    }
  }

  lemma OverrideRate(tiers: seq<Tier>, team: nat, earnings: int, rate: Bps)
    requires rate > 0
    ensures OverrideBpsFor(tiers, Some(team), earnings) == rate <==>
            exists i :: TierInForce(tiers, team, earnings, i) && tiers[i].overrideBps == rate
  {
    if tiers == [] {
      DefaultPaysNothing(Some(team), earnings);
    } else {
      var reached := TierReached(tiers, team, earnings);
      if reached.Some? {
        ReachedInForce(tiers, team, earnings, reached.value);
      }
      if i :| TierInForce(tiers, team, earnings, i) && tiers[i].overrideBps == rate {
        ReachedInForce(tiers, team, earnings, tiers[i]);
      }
    }
  }

  lemma NothingFromNothing(amount: nat, rate: Bps)
    requires rate == 0
    ensures BpsAmount(amount, rate) == 0
  {
    Cents(amount, rate, 0);
  }

  lemma OverrideLinesEarned(sale: Sale, q: ApplyInputs, earnings: int, x: Line)
    ensures x in OverrideLines(sale.amount, OverrideBpsFor(q.tiers, q.team, earnings), sale.seller) <==>
            OverrideEarned(sale, q, earnings, x)
  {
    ShareIs(x.amount, sale.amount, x.rateBps);
    if x.rateBps == 0 {
      NothingFromNothing(sale.amount, x.rateBps);
    } else if q.team.Some? {
      OverrideRate(q.tiers, q.team.value, earnings, x.rateBps);
    }
  }

  // ------------------------------------------------------------------ the rows

  /** Status and maturity date of a new row, rule by rule. */
  predicate StartsAs(t: TenantPolicy, sale: Sale, now: int, status: LedgerStatus, maturesAt: Option<int>) {
    match t.maturationRule
    case OnApproval => status.Payable? && maturesAt.None?
    case OnDelivery => status.Pending? && maturesAt == sale.deliveredAt
    case DaysAfterApproval =>
      status.Pending? && maturesAt.Some?
      && maturesAt.value - t.maturationDays * 86_400_000 == (if sale.approvedAt.Some? then sale.approvedAt.value else now)
    case DaysAfterDelivery =>
      status.Pending? && (maturesAt.None? <==> sale.deliveredAt.None?)
      && (maturesAt.Some? ==> maturesAt.value - t.maturationDays * 86_400_000 == sale.deliveredAt.value)
  }

  ghost predicate Earned(sale: Sale, plan: Plan, raw: seq<Upline>, q: ApplyInputs, earnings: int, x: Line) {
    || BaseEarned(sale.amount, plan, raw, q.policy, x)
    || FastStartEarned(sale, plan, raw, q, x)
    || MatchingEarned(sale.amount, plan, raw, q.policy, x)
    || OverrideEarned(sale, q, earnings, x)
  }

  /** The row of a line: a commission of the sale, in no payout, with the month left to the sale. */
  predicate RowOf(id: SaleId, sale: Sale, q: ApplyInputs, x: Line, r: Row) {
    && r.tenant == sale.tenant && r.sale == Some(id) && r.kind == Commission
    && r.member == x.member && r.level == x.level && r.rateBps == x.rateBps && r.amount == x.amount
    && StartsAs(q.policy, sale, q.now, r.status, r.maturesAt)
    && r.summaryMonth.None? && r.payout.None? && r.batch.None?
  }

  function CountedFor(tenant: TenantId, member: MemberId): Row -> int {
    (r: Row) => if r.tenant == tenant && r.member == member && r.status in {LedgerStatus.Payable, LedgerStatus.Processing, LedgerStatus.Paid}
                then r.amount else 0
  }

  lemma {:induction false} EarningsAreSum(ledger: seq<Row>, tenant: TenantId, member: MemberId)
    ensures Earnings(ledger, tenant, member) == Sum(ledger, CountedFor(tenant, member))
  {
    if ledger != [] {
      EarningsAreSum(ledger[..|ledger| - 1], tenant, member);
    }
  }

  /** The ledger before the override of a sale, which is its last row. */
  function BeforeOverride(ledger: seq<Row>, id: SaleId): seq<Row> {
    if ledger != [] && ledger[|ledger| - 1].sale == Some(id) && ledger[|ledger| - 1].level == 1002 && ledger[|ledger| - 1].kind == Commission
    then ledger[..|ledger| - 1]
    else ledger
  }

  lemma RowOfLine(id: SaleId, sale: Sale, q: ApplyInputs, x: Line, r: Row)
    ensures RowOf(id, sale, q, x, r) <==> r == CommissionRow(sale.tenant, id, x, Maturation(q.policy, sale, q.now))
  {}

  /** The row of each line comes behind the old rows, in order. */
  predicate RowsBehind(kept: seq<Row>, out: seq<Row>, tenant: TenantId, id: SaleId, lines: seq<Line>, start: (LedgerStatus, Option<int>)) {
    && |out| == |kept| + |lines| && out[..|kept|] == kept
    && forall i :: 0 <= i < |lines| ==> out[|kept| + i] == CommissionRow(tenant, id, lines[i], start)
  }

  lemma OneMoreBehind(kept: seq<Row>, out: seq<Row>, tenant: TenantId, id: SaleId, lines: seq<Line>, start: (LedgerStatus, Option<int>))
    requires lines != [] && RowsBehind(kept, out, tenant, id, lines[..|lines| - 1], start)
    ensures RowsBehind(kept, out + [CommissionRow(tenant, id, lines[|lines| - 1], start)], tenant, id, lines, start)
  {
    var front := lines[..|lines| - 1];
    forall i | 0 <= i < |front| ensures out[|kept| + i] == CommissionRow(tenant, id, lines[i], start) {
      assert front[i] == lines[i];
    }
  }

  /** Posting appends the row of each line, in order. */
  lemma {:induction false} PostedRows(b: Books, month: Month, tenant: TenantId, id: SaleId, lines: seq<Line>, start: (LedgerStatus, Option<int>))
    ensures RowsBehind(b.ledger, PostLines(b, month, tenant, id, lines, start).ledger, tenant, id, lines, start) == true
  {
    if lines == [] {
      assert RowsBehind(b.ledger, b.ledger, tenant, id, lines, start);
    } else {
      PostedRows(b, month, tenant, id, lines[..|lines| - 1], start);
      OneMoreBehind(b.ledger, PostLines(b, month, tenant, id, lines[..|lines| - 1], start).ledger, tenant, id, lines, start);
    }
  }

  /** All lines are what is earned, with the rank judged on the ledger that has the other rows. */
  lemma AllLinesEarned(db: Db, id: SaleId, q: ApplyInputs, x: Line)
    requires id in db.sales && q.plan.Some? && q.chain.Some?
    ensures var sale := db.sales[id];
            x in AllLines(db, id, q) <==>
            Earned(sale, q.plan.value, q.chain.value, q, Earnings(EarnedBooks(db, id, q).ledger, sale.tenant, sale.seller), x)
  {
    var sale, plan, raw := db.sales[id], q.plan.value, q.chain.value;
    BaseLinesEarned(sale.amount, plan, raw, q.policy, x);
    FastStartLinesEarned(sale, plan, raw, q, x);
    MatchingLinesEarned(sale.amount, plan, raw, q.policy, x);
    OverrideLinesEarned(sale, q, Earnings(EarnedBooks(db, id, q).ledger, sale.tenant, sale.seller), x);
    AllLinesParts(db, id, q);
  }

  lemma AllLinesParts(db: Db, id: SaleId, q: ApplyInputs)
    requires id in db.sales && q.plan.Some? && q.chain.Some?
    ensures var sale, plan, raw := db.sales[id], q.plan.value, q.chain.value;
            var base := CommissionLines(sale.amount, plan.levels, EffectiveBaseChain(raw, q.policy));
            AllLines(db, id, q)
            == base + (FastStartLines(sale.amount, plan, raw, q.policy, sale.saleDate, q.sellerJoinedAt)
                       + MatchingLines(plan, raw, q.policy, base))
               + OverrideLines(sale.amount, OverrideBpsFor(q.tiers, q.team, Earnings(EarnedBooks(db, id, q).ledger, sale.tenant, sale.seller)),
                               sale.seller)
  {}

  // ------------------------------------------------------------------ the ledger after an application

  /** The rows that an application has appended. */
  function NewRows(db: Db, d: Db): seq<Row> {
    if |db.ledger| <= |d.ledger| then d.ledger[|db.ledger|..] else []
  }

  lemma EarnedLevels(sale: Sale, plan: StoredPlan, raw: seq<Upline>, q: ApplyInputs, x: Line)
    requires x in EarnedLines(sale, plan, raw, q)
    ensures x.level < 8 || x.level == 1000 || x.level == 1001
  {
    BaseLinesEarned(sale.amount, plan, raw, q.policy, x);
  }

  /** An override row of the sale. */
  predicate OverrideRow(id: SaleId, r: Row) {
    r.sale == Some(id) && r.level == 1002 && r.kind == Commission
  }

  ghost predicate NoOverride(rows: seq<Row>, id: SaleId) {
    forall i :: 0 <= i < |rows| ==> !OverrideRow(id, rows[i])
  }

  lemma UnappliedHasNone(ledger: seq<Row>, id: SaleId)
    requires RowsWhere(ledger, CommissionsOf(id)) == []
    ensures NoOverride(ledger, id)
  {
    forall i | 0 <= i < |ledger| ensures !OverrideRow(id, ledger[i]) {
      assert i !in RowsWhere(ledger, CommissionsOf(id));
    }
  }

  lemma PostedNoOverride(b: Books, month: Month, tenant: TenantId, id: SaleId, lines: seq<Line>, start: (LedgerStatus, Option<int>))
    requires NoOverride(b.ledger, id) && forall i :: 0 <= i < |lines| ==> lines[i].level != 1002
    ensures NoOverride(PostLines(b, month, tenant, id, lines, start).ledger, id)
  {
    PostedRows(b, month, tenant, id, lines, start);
    var out := PostLines(b, month, tenant, id, lines, start).ledger;
    forall i | 0 <= i < |out| ensures !OverrideRow(id, out[i]) {
      if i < |b.ledger| {
        assert out[i] == out[..|b.ledger|][i] == b.ledger[i];
      } else {
        var n := i - |b.ledger|;
        assert out[|b.ledger| + n] == CommissionRow(tenant, id, lines[n], start);
      }
    }
  }

  lemma NoOverrideYet(db: Db, id: SaleId, q: ApplyInputs)
    requires id in db.sales && q.plan.Some? && q.chain.Some? && RowsWhere(db.ledger, CommissionsOf(id)) == []
    ensures NoOverride(EarnedBooks(db, id, q).ledger, id)
  {
    var sale := db.sales[id];
    var lines := EarnedLines(sale, q.plan.value, q.chain.value, q);
    UnappliedHasNone(db.ledger, id);
    forall i | 0 <= i < |lines| ensures lines[i].level != 1002 {
      EarnedLevels(sale, q.plan.value, q.chain.value, q, lines[i]);
    }
    PostedNoOverride(Books(db.ledger, db.summaries), SaleMonth(sale, q.monthKey), sale.tenant, id, lines, Maturation(q.policy, sale, q.now));
  }

  lemma StripOverride(earned: Books, month: Month, tenant: TenantId, id: SaleId, over: seq<Line>, start: (LedgerStatus, Option<int>))
    requires NoOverride(earned.ledger, id)
    requires |over| <= 1 && (over != [] ==> over[0].level == 1002)
    ensures BeforeOverride(PostLines(earned, month, tenant, id, over, start).ledger, id) == earned.ledger
  {
    PostedRows(earned, month, tenant, id, over, start);
    var out := PostLines(earned, month, tenant, id, over, start).ledger;
    if over == [] {
      assert out == earned.ledger;
    } else {
      assert out[|earned.ledger| + 0] == CommissionRow(tenant, id, over[0], start);
    }
  }

  /** The rank is judged on the ledger as it will be, but for the override. */
  lemma RankJudgedOn(db: Db, id: SaleId, q: ApplyInputs)
    requires id in db.sales && q.plan.Some? && q.chain.Some? && RowsWhere(db.ledger, CommissionsOf(id)) == []
    ensures BeforeOverride(AllBooks(db, id, q).ledger, id) == EarnedBooks(db, id, q).ledger
  {
    var sale := db.sales[id];
    var earned := EarnedBooks(db, id, q);
    NoOverrideYet(db, id, q);
    StripOverride(earned, SaleMonth(sale, q.monthKey), sale.tenant, id, RankLines(sale, earned.ledger, q), Maturation(q.policy, sale, q.now));
  }

  /** What counts towards the seller's rank: its payable, processing and paid rows in the ledger after the other rows are written. */
  function RankEarnings(d: Db, id: SaleId, sale: Sale): int {
    Sum(BeforeOverride(d.ledger, id), CountedFor(sale.tenant, sale.seller))
  }

  function LineOf(r: Row): Line
    requires r.amount >= 0
  {
    Line(r.level, r.member, r.rateBps, r.amount)
  }

  /** A row that pays what is earned. */
  ghost predicate PaysEarned(id: SaleId, sale: Sale, plan: Plan, raw: seq<Upline>, q: ApplyInputs, earnings: int, r: Row) {
    r.amount >= 0 && Earned(sale, plan, raw, q, earnings, LineOf(r)) && RowOf(id, sale, q, LineOf(r), r)
  }

  ghost predicate LinesAre(lines: seq<Line>, sale: Sale, plan: Plan, raw: seq<Upline>, q: ApplyInputs, earnings: int) {
    forall x :: x in lines <==> Earned(sale, plan, raw, q, earnings, x)
  }

  /** Rows of the lines, in order. */
  predicate RowsOfLines(rows: seq<Row>, lines: seq<Line>, id: SaleId, sale: Sale, q: ApplyInputs) {
    |rows| == |lines| && forall i :: 0 <= i < |lines| ==> RowOf(id, sale, q, lines[i], rows[i])
  }

  lemma RowsPayEarned(rows: seq<Row>, lines: seq<Line>, id: SaleId, sale: Sale, plan: Plan, raw: seq<Upline>, q: ApplyInputs,
                      earnings: int, r: Row)
    requires RowsOfLines(rows, lines, id, sale, q) && LinesAre(lines, sale, plan, raw, q, earnings)
    ensures r in rows <==> PaysEarned(id, sale, plan, raw, q, earnings, r)
  {
    if r in rows {
      var i :| 0 <= i < |rows| && rows[i] == r;
      assert RowOf(id, sale, q, lines[i], rows[i]);
      assert LineOf(r) == lines[i] && lines[i] in lines;
    }
    if PaysEarned(id, sale, plan, raw, q, earnings, r) {
      var i :| 0 <= i < |lines| && lines[i] == LineOf(r);
      RowOfLine(id, sale, q, lines[i], r);
      RowOfLine(id, sale, q, lines[i], rows[i]);
    }
  }

  lemma BehindAreOfLines(kept: seq<Row>, out: seq<Row>, id: SaleId, sale: Sale, q: ApplyInputs, lines: seq<Line>)
    requires RowsBehind(kept, out, sale.tenant, id, lines, Maturation(q.policy, sale, q.now))
    ensures kept <= out && RowsOfLines(out[|kept|..], lines, id, sale, q)
  {
    forall i | 0 <= i < |lines| ensures RowOf(id, sale, q, lines[i], out[|kept|..][i]) {
      assert out[|kept|..][i] == out[|kept| + i];
      RowOfLine(id, sale, q, lines[i], out[|kept| + i]);
    }
  }

  lemma AppendedRows(db: Db, id: SaleId, q: ApplyInputs)
    requires id in db.sales && ApplyInTx(db, id, q).Committed? && ApplyInTx(db, id, q).value.applied
    ensures var o := ApplyInTx(db, id, q);
            && q.plan.Some? && q.chain.Some?
            && db.ledger <= o.db.ledger
            && o.value.entryCount == |NewRows(db, o.db)|
            && RowsOfLines(NewRows(db, o.db), AllLines(db, id, q), id, db.sales[id], q) == true
  {
    var sale := db.sales[id];
    AppliedTables(db, id, q);
    AllBooksAtOnce(db, id, q);
    var start := Maturation(q.policy, sale, q.now);
    PostedRows(Books(db.ledger, db.summaries), SaleMonth(sale, q.monthKey), sale.tenant, id, AllLines(db, id, q), start);
    BehindAreOfLines(db.ledger, AllBooks(db, id, q).ledger, id, sale, q, AllLines(db, id, q));
  }

  lemma AppliedLinesAre(db: Db, id: SaleId, q: ApplyInputs)
    requires id in db.sales && ApplyInTx(db, id, q).Committed? && ApplyInTx(db, id, q).value.applied
    ensures var o := ApplyInTx(db, id, q);
            && q.plan.Some? && q.chain.Some?
            && LinesAre(AllLines(db, id, q), db.sales[id], q.plan.value, q.chain.value, q, RankEarnings(o.db, id, db.sales[id]))
  {
    var sale := db.sales[id];
    AppliedTables(db, id, q);
    RankJudgedOn(db, id, q);
    EarningsAreSum(EarnedBooks(db, id, q).ledger, sale.tenant, sale.seller);
    forall x ensures x in AllLines(db, id, q) <==>
                     Earned(sale, q.plan.value, q.chain.value, q, RankEarnings(ApplyInTx(db, id, q).db, id, sale), x) {
      AllLinesEarned(db, id, q, x);
    }
  }

  /**
   An application appends exactly the rows of what is earned - base levels, fast-start, matching and rank
   override - and counts them; the rows that were there stay.
   */
  lemma RowsAreEarned(db: Db, id: SaleId, q: ApplyInputs)
    requires id in db.sales && ApplyInTx(db, id, q).Committed? && ApplyInTx(db, id, q).value.applied
    ensures var o, sale := ApplyInTx(db, id, q), db.sales[id];
            && q.plan.Some? && q.chain.Some?
            && db.ledger <= o.db.ledger && o.value.entryCount == |NewRows(db, o.db)|
            && forall r :: r in NewRows(db, o.db) <==>
                 PaysEarned(id, sale, q.plan.value, q.chain.value, q, RankEarnings(o.db, id, sale), r)
  {
    AppendedRows(db, id, q);
    AppliedLinesAre(db, id, q);
    var d, sale := ApplyInTx(db, id, q).db, db.sales[id];
    forall r ensures r in NewRows(db, d) <==> PaysEarned(id, sale, q.plan.value, q.chain.value, q, RankEarnings(d, id, sale), r) {
      RowsPayEarned(NewRows(db, d), AllLines(db, id, q), id, sale, q.plan.value, q.chain.value, q, RankEarnings(d, id, sale), r);
    }
  }

  // ------------------------------------------------------------------ said row by row

  /** Strictly ascending levels: one row a level. */
  predicate OneALevel(rows: seq<Row>) {
    forall i, j :: 0 <= i < j < |rows| ==> rows[i].level < rows[j].level
  }

  lemma PartsAscend(base: seq<Line>, fast: seq<Line>, matching: seq<Line>, over: seq<Line>)
    requires AscendingLevels(base) && |fast| <= 1 && |matching| <= 1 && |over| <= 1
    requires forall i :: 0 <= i < |base| ==> base[i].level < 8
    requires (fast != [] ==> fast[0].level == 1000) && (matching != [] ==> matching[0].level == 1001) && (over != [] ==> over[0].level == 1002)
    ensures AscendingLevels(base + (fast + matching) + over)
  {}

  lemma BaseLevels(amount: nat, plan: StoredPlan, raw: seq<Upline>, t: TenantPolicy)
    ensures var base := CommissionLines(amount, plan.levels, EffectiveBaseChain(raw, t));
            AscendingLevels(base) && forall i :: 0 <= i < |base| ==> base[i].level < 8
  {
    var base := CommissionLines(amount, plan.levels, EffectiveBaseChain(raw, t));
    BaseAscends(amount, plan, raw, t);
    forall i | 0 <= i < |base| ensures base[i].level < 8 {
      BaseLinesEarned(amount, plan, raw, t, base[i]);
    }
  }

  lemma LinesOneALevel(db: Db, id: SaleId, q: ApplyInputs)
    requires id in db.sales && q.plan.Some? && q.chain.Some?
    ensures AscendingLevels(AllLines(db, id, q))
  {
    var sale, plan, raw := db.sales[id], q.plan.value, q.chain.value;
    var base := CommissionLines(sale.amount, plan.levels, EffectiveBaseChain(raw, q.policy));
    AllLinesParts(db, id, q);
    BaseLevels(sale.amount, plan, raw, q.policy);
    PartsAscend(base, FastStartLines(sale.amount, plan, raw, q.policy, sale.saleDate, q.sellerJoinedAt),
                MatchingLines(plan, raw, q.policy, base),
                OverrideLines(sale.amount, OverrideBpsFor(q.tiers, q.team, Earnings(EarnedBooks(db, id, q).ledger, sale.tenant, sale.seller)),
                              sale.seller));
  }

  lemma EarnedAtFastStart(sale: Sale, plan: StoredPlan, raw: seq<Upline>, q: ApplyInputs, earnings: int, x: Line)
    ensures x.level == 1000 ==> (Earned(sale, plan, raw, q, earnings, x) <==> FastStartEarned(sale, plan, raw, q, x))
  {}

  /** The sponsor may earn and the sale falls in the first days after the seller joined. */
  predicate InFirstDays(sale: Sale, plan: Plan, raw: seq<Upline>, q: ApplyInputs) {
    && |raw| >= 2 && (raw[1].active || q.policy.inactiveMembersEarn)
    && plan.fastStartDays > 0 && q.sellerJoinedAt.Some?
    && sale.saleDate <= q.sellerJoinedAt.value + plan.fastStartDays * 86_400_000
  }

  lemma FastStartWhen(sale: Sale, plan: Plan, raw: seq<Upline>, q: ApplyInputs, x: Line)
    ensures FastStartEarned(sale, plan, raw, q, x) <==>
              && InFirstDays(sale, plan, raw, q) && x.level == 1000 && x.member == raw[1].id && x.rateBps == plan.fastStartBps
              && IsShare(x.amount, sale.amount, plan.fastStartBps) && x.amount > 0
  {}

  /** The rows pay exactly what is earned. */
  ghost predicate RowsPay(rows: seq<Row>, id: SaleId, sale: Sale, plan: Plan, raw: seq<Upline>, q: ApplyInputs, earnings: int) {
    forall r :: r in rows <==> PaysEarned(id, sale, plan, raw, q, earnings, r)
  }

  lemma LineIsPaid(rows: seq<Row>, id: SaleId, sale: Sale, plan: Plan, raw: seq<Upline>, q: ApplyInputs, earnings: int, x: Line)
    requires RowsPay(rows, id, sale, plan, raw, q, earnings) && Earned(sale, plan, raw, q, earnings, x)
    ensures exists n :: 0 <= n < |rows| && rows[n].level == x.level
  {
    var w := CommissionRow(sale.tenant, id, x, Maturation(q.policy, sale, q.now));
    RowOfLine(id, sale, q, x, w);
    assert LineOf(w) == x;
    assert PaysEarned(id, sale, plan, raw, q, earnings, w);
    var n :| 0 <= n < |rows| && rows[n] == w;
  }

  lemma FastStartPaid(rows: seq<Row>, id: SaleId, sale: Sale, plan: StoredPlan, raw: seq<Upline>, q: ApplyInputs, earnings: int, r: Row)
    requires RowsPay(rows, id, sale, plan, raw, q, earnings) && r in rows && r.level == 1000
    ensures InFirstDays(sale, plan, raw, q) && r.member == raw[1].id && r.rateBps == plan.fastStartBps && r.amount > 0
    ensures IsShare(r.amount, sale.amount, plan.fastStartBps)
  {
    assert PaysEarned(id, sale, plan, raw, q, earnings, r);
    EarnedAtFastStart(sale, plan, raw, q, earnings, LineOf(r));
    FastStartWhen(sale, plan, raw, q, LineOf(r));
  }

  lemma FastStartIsPaid(rows: seq<Row>, id: SaleId, sale: Sale, plan: StoredPlan, raw: seq<Upline>, q: ApplyInputs, earnings: int)
    requires RowsPay(rows, id, sale, plan, raw, q, earnings) && InFirstDays(sale, plan, raw, q)
    requires CoversCent(sale.amount, plan.fastStartBps)
    ensures exists n :: 0 <= n < |rows| && rows[n].level == 1000
  {
    CentIffCovered(sale.amount, plan.fastStartBps);
    var x := Line(1000, raw[1].id, plan.fastStartBps, BpsAmount(sale.amount, plan.fastStartBps));
    FastStartWhen(sale, plan, raw, q, x);
    LineIsPaid(rows, id, sale, plan, raw, q, earnings, x);
  }

  lemma ShareOfCent(cents: nat, amount: nat, rate: Bps)
    requires IsShare(cents, amount, rate) && cents > 0
    ensures CoversCent(amount, rate)
  {}

  /**
   The sponsor's fast-start row: it is written if and only if the sponsor may earn, the sale falls in the
   first days after the seller joined and the rate covers a cent; it pays the sponsor that many cents.
   */
  lemma FastStartRow(db: Db, id: SaleId, q: ApplyInputs, r: Row)
    requires id in db.sales && ApplyInTx(db, id, q).Committed? && ApplyInTx(db, id, q).value.applied
    ensures q.plan.Some? && q.chain.Some?
    ensures var rows, sale := NewRows(db, ApplyInTx(db, id, q).db), db.sales[id];
            var plan, raw := q.plan.value, q.chain.value;
            && ((exists n :: 0 <= n < |rows| && rows[n].level == 1000) <==>
                  && |raw| >= 2 && (raw[1].active || q.policy.inactiveMembersEarn)
                  && plan.fastStartDays > 0 && q.sellerJoinedAt.Some?
                  && sale.saleDate <= q.sellerJoinedAt.value + plan.fastStartDays * 86_400_000
                  && sale.amount * plan.fastStartBps >= 10_000)
            && (r in rows && r.level == 1000 ==>
                  && |raw| >= 2 && r.member == raw[1].id && r.rateBps == plan.fastStartBps
                  && r.amount * 10_000 <= sale.amount * plan.fastStartBps < (r.amount + 1) * 10_000)
  {
    RowsAreEarned(db, id, q);
    var d, sale := ApplyInTx(db, id, q).db, db.sales[id];
    var rows, plan, raw := NewRows(db, d), q.plan.value, q.chain.value;
    assert RowsPay(rows, id, sale, plan, raw, q, RankEarnings(d, id, sale));
    if InFirstDays(sale, plan, raw, q) && CoversCent(sale.amount, plan.fastStartBps) {
      FastStartIsPaid(rows, id, sale, plan, raw, q, RankEarnings(d, id, sale));
    }
    forall n | 0 <= n < |rows| && rows[n].level == 1000
      ensures InFirstDays(sale, plan, raw, q) && CoversCent(sale.amount, plan.fastStartBps)
    {
      FastStartPaid(rows, id, sale, plan, raw, q, RankEarnings(d, id, sale), rows[n]);
      ShareOfCent(rows[n].amount, sale.amount, plan.fastStartBps);
    }
    if r in rows && r.level == 1000 {
      FastStartPaid(rows, id, sale, plan, raw, q, RankEarnings(d, id, sale), r);
    }
  }

  lemma EarnedAtOverride(sale: Sale, plan: StoredPlan, raw: seq<Upline>, q: ApplyInputs, earnings: int, x: Line)
    ensures x.level == 1002 ==> (Earned(sale, plan, raw, q, earnings, x) <==> OverrideEarned(sale, q, earnings, x))
  {}

  /** A row that pays the seller its override: some tier is the last that is reached, and its rate covers these cents. */
  ghost predicate PaysOverride(id: SaleId, sale: Sale, q: ApplyInputs, earnings: int, r: Row) {
    && r.amount > 0 && r.level == 1002 && r.member == sale.seller && RowOf(id, sale, q, LineOf(r), r) && q.team.Some?
    && (exists i :: TierInForce(q.tiers, q.team.value, earnings, i) && r.rateBps == q.tiers[i].overrideBps)
    && r.amount * 10_000 <= sale.amount * r.rateBps < (r.amount + 1) * 10_000
  }

  lemma PaysOverrideIs(id: SaleId, sale: Sale, q: ApplyInputs, earnings: int, r: Row)
    ensures PaysOverride(id, sale, q, earnings, r) <==>
              r.amount > 0 && r.level == 1002 && RowOf(id, sale, q, LineOf(r), r) && OverrideEarned(sale, q, earnings, LineOf(r))
  {}

  lemma OverridePaid(rows: seq<Row>, id: SaleId, sale: Sale, plan: StoredPlan, raw: seq<Upline>, q: ApplyInputs, earnings: int, r: Row)
    requires RowsPay(rows, id, sale, plan, raw, q, earnings)
    ensures r in rows && r.level == 1002 <==> PaysOverride(id, sale, q, earnings, r)
  {
    assert r in rows <==> PaysEarned(id, sale, plan, raw, q, earnings, r);
    PaysOverrideIs(id, sale, q, earnings, r);
    if r.amount >= 0 {
      EarnedAtOverride(sale, plan, raw, q, earnings, LineOf(r));
    }
  }

  /**
   The seller's override row: it is written if and only if the last rank of the tenant's ladder that the
   seller reaches, on its team and on the rows that are there without the override, covers a cent.
   */
  lemma OverrideRowExactly(db: Db, id: SaleId, q: ApplyInputs)
    requires id in db.sales && ApplyInTx(db, id, q).Committed? && ApplyInTx(db, id, q).value.applied
    ensures var d, sale := ApplyInTx(db, id, q).db, db.sales[id];
            forall r :: r in NewRows(db, d) && r.level == 1002 <==> PaysOverride(id, sale, q, RankEarnings(d, id, sale), r)
  {
    RowsAreEarned(db, id, q);
    var d, sale := ApplyInTx(db, id, q).db, db.sales[id];
    forall r ensures r in NewRows(db, d) && r.level == 1002 <==> PaysOverride(id, sale, q, RankEarnings(d, id, sale), r) {
      OverridePaid(NewRows(db, d), id, sale, q.plan.value, q.chain.value, q, RankEarnings(d, id, sale), r);
    }
  }

  /**
   What else an application changes: the plan and month of the sale, where they are not fixed yet. There
   is one new row a level, and payouts, batches and locks stay.
   */
  lemma AppliedElse(db: Db, id: SaleId, q: ApplyInputs)
    requires id in db.sales && ApplyInTx(db, id, q).Committed? && ApplyInTx(db, id, q).value.applied
    ensures var d, sale := ApplyInTx(db, id, q).db, db.sales[id];
            && OneALevel(NewRows(db, d))
            && d == db.(sales := d.sales, ledger := d.ledger, summaries := d.summaries)
            && id in d.sales && d.sales == db.sales[id := d.sales[id]]
            && d.sales[id] == sale.(planId := d.sales[id].planId, summaryMonth := d.sales[id].summaryMonth)
            && q.plan.Some? && d.sales[id].planId == Some(if sale.planId.Some? then sale.planId.value else q.plan.value.id)
            && d.sales[id].summaryMonth == Some(if sale.summaryMonth.Some? then sale.summaryMonth.value
                                                else q.monthKey(sale.tenant, sale.saleDate))
  {
    AppliedTables(db, id, q);
    AppendedRows(db, id, q);
    LinesOneALevel(db, id, q);
    var rows, lines := NewRows(db, ApplyInTx(db, id, q).db), AllLines(db, id, q);
    forall i, j | 0 <= i < j < |rows| ensures rows[i].level < rows[j].level {
      assert RowOf(id, db.sales[id], q, lines[i], rows[i]) && RowOf(id, db.sales[id], q, lines[j], rows[j]);
    }
  }

  /** The sale has a commission row. */
  ghost predicate HasCommission(db: Db, id: SaleId) {
    exists i :: 0 <= i < |db.ledger| && db.ledger[i].sale == Some(id) && db.ledger[i].kind == Commission
  }

  function CommissionMark(id: SaleId): Row -> int {
    (r: Row) => if r.sale == Some(id) && r.kind == Commission then 1 else 0
  }

  lemma {:induction false} CommissionsCounted(ledger: seq<Row>, id: SaleId)
    ensures |RowsWhere(ledger, CommissionsOf(id))| == Sum(ledger, CommissionMark(id))
  {
    if ledger != [] {
      CommissionsCounted(ledger[..|ledger| - 1], id);
    }
  }

  lemma HasCommissionFound(db: Db, id: SaleId)
    ensures HasCommission(db, id) <==> RowsWhere(db.ledger, CommissionsOf(id)) != []
  {
    var ids := RowsWhere(db.ledger, CommissionsOf(id));
    if i :| 0 <= i < |db.ledger| && db.ledger[i].sale == Some(id) && db.ledger[i].kind == Commission {
      assert Selects(CommissionsOf(id), i, db.ledger[i]);
      assert i in ids;
    }
    if ids != [] {
      assert Selects(CommissionsOf(id), ids[0], db.ledger[ids[0]]);
    }
  }

  /** The month in which a sale's rows are booked. */
  predicate MonthIs(sale: Sale, monthKey: MonthKey, m: Month) {
    sale.summaryMonth == Some(m) || (sale.summaryMonth.None? && m == monthKey(sale.tenant, sale.saleDate))
  }

  /**
   When an application writes, leaves things alone or is refused: only an approved sale without commission
   rows is applied, with a plan, a seller and an open month; the ceiling refuses nothing.
   */
  lemma ApplyAnswers(db: Db, id: SaleId, q: ApplyInputs, month: Month)
    requires id in db.sales && MonthIs(db.sales[id], q.monthKey, month)
    ensures var o, sale := ApplyInTx(db, id, q), db.sales[id];
            && (o.Committed? && o.value.applied <==>
                  sale.status == Approved && !HasCommission(db, id) && q.plan.Some? && q.chain.Some? && (sale.tenant, month) !in db.locks)
            && (o.Committed? && !o.value.applied <==> sale.status != Approved || HasCommission(db, id))
            && (o.Committed? && !o.value.applied ==>
                  o.db == db && o.value.entryCount == if sale.status == Approved then Sum(db.ledger, CommissionMark(id)) else 0)
            && (o.Aborted? ==>
                  o.error == if q.plan.None? then NoEffectivePlan else if q.chain.None? then NotFound else PeriodLocked)
  {
    HasCommissionFound(db, id);
    CommissionsCounted(db.ledger, id);
    CeilingGuardUnreachable(db, id, q);
  }
}
