/** Sale, void, delivery, maturation and bonus transactions keep the invariant. */
module BooksProofs {
  import opened Prelude
  import opened Commission
  import opened Tables
  import opened Ledger
  import opened EngineSpec
  import opened EngineInv

  // ------------------------------------------------------------------ posting rows

  /** A row that may be inserted: consistent, outside settlement, on a line nobody has, live if it belongs to a sale. */
  ghost predicate Insertable(sales: map<SaleId, Sale>, ledger: seq<Row>, r: Row) {
    && RowOk(sales, r) && !InSettlement(r.status)
    && (r.kind == Commission ==> !r.status.Reversed? && !SaleVoid(sales, r))
    && r.kind != Reversal
    && (forall i :: 0 <= i < |ledger| ==> !SameLine(ledger[i], r))
  }

  lemma InsertKeepsClosed(sales: map<SaleId, Sale>, ledger: seq<Row>, r: Row)
    requires SalesClosed(sales, ledger) && Insertable(sales, ledger, r)
    ensures SalesClosed(sales, ledger + [r])
  {
    var out := ledger + [r];
    forall i | 0 <= i < |out| && out[i].kind == Commission ensures CommissionClosed(sales, out, out[i]) {
      if i < |ledger| && SaleVoid(sales, ledger[i]) {
        assert CommissionClosed(sales, ledger, ledger[i]);
        var j :| 0 <= j < |ledger| && Mirror(ledger[i], ledger[j]);
        assert Mirror(out[i], out[j]);
      }
    }
    forall j | 0 <= j < |out| && out[j].kind == Reversal ensures SaleVoid(sales, out[j]) && HasOriginal(out, out[j]) {
      assert HasOriginal(ledger, ledger[j]);
      var i :| 0 <= i < |ledger| && Mirror(ledger[i], ledger[j]);
      assert Mirror(out[i], out[j]);
    }
  }

  lemma InsertKeepsBooks(sales: map<SaleId, Sale>, ledger: seq<Row>, r: Row)
    requires BooksInv(sales, ledger) && Insertable(sales, ledger, r)
    ensures BooksInv(sales, ledger + [r])
  {
    InsertKeepsClosed(sales, ledger, r);
    var out := ledger + [r];
    forall i | 0 <= i < |out| ensures RowOk(sales, out[i]) {
      if i < |ledger| { assert out[i] == ledger[i]; }
    }
    forall i, j | 0 <= i < j < |out| ensures !SameLine(out[i], out[j]) {
      assert out[i] == ledger[i];
      if j < |ledger| { assert out[j] == ledger[j]; }
    }
  }

  lemma PostKeeps(db: Db, month: Month, r: Row)
    requires Inv(db) && Insertable(db.sales, db.ledger, r) && month == BookedMonth(db.sales, r)
    ensures var b := Post(Books(db.ledger, db.summaries), month, r);
            Inv(db.(ledger := b.ledger, summaries := b.summaries))
  {
    InsertKeepsBooks(db.sales, db.ledger, r);
    BalancedInsert(db.sales, db.ledger, db.summaries, r, Key(r.tenant, r.member, month, r.level), StatusCell(r.status, r.amount));
    SettlementFrame(db.sales, db.ledger, db.ledger + [r], db.payouts, db.batches);
  }

  /** The rows of a sale that has just been written, on top of the old ledger. */
  ghost predicate OnlyAdded(old_: seq<Row>, ledger: seq<Row>, sale: SaleId, lines: seq<Line>) {
    && |ledger| == |old_| + |lines|
    && (forall i :: 0 <= i < |old_| ==> ledger[i] == old_[i])
    && (forall i :: |old_| <= i < |ledger| ==>
          ledger[i].sale == Some(sale) && ledger[i].level == lines[i - |old_|].level && ledger[i].kind == Commission)
  }

  lemma AddedOneMore(old_: seq<Row>, ledger: seq<Row>, sale: SaleId, lines: seq<Line>, r: Row, line: Line)
    requires OnlyAdded(old_, ledger, sale, lines)
    requires r.sale == Some(sale) && r.level == line.level && r.kind == Commission
    ensures OnlyAdded(old_, ledger + [r], sale, lines + [line])
  {}

  ghost predicate NoRowsOf(ledger: seq<Row>, sale: SaleId) {
    forall i :: 0 <= i < |ledger| ==> ledger[i].sale != Some(sale)
  }

  ghost predicate LinesOk(lines: seq<Line>) {
    AscendingLevels(lines) && forall n :: 0 <= n < |lines| ==> lines[n].amount > 0
  }

  /** A live sale with a frozen month and no rows can be given any lines on distinct levels. */
  lemma {:induction false} PostLinesKeep(db: Db, id: SaleId, lines: seq<Line>, start: (LedgerStatus, Option<int>))
    requires Inv(db) && id in db.sales && db.sales[id].status == Approved && db.sales[id].summaryMonth.Some?
    requires NoRowsOf(db.ledger, id) && LinesOk(lines) && (start.0.Pending? || start.0.Payable?)
    ensures var sale := db.sales[id];
            var b := PostLines(Books(db.ledger, db.summaries), sale.summaryMonth.value, sale.tenant, id, lines, start);
            Inv(db.(ledger := b.ledger, summaries := b.summaries)) && OnlyAdded(db.ledger, b.ledger, id, lines)
  {
    if lines != [] {
      var front, last := lines[..|lines| - 1], lines[|lines| - 1];
      PostLinesKeep(db, id, front, start);
      var sale := db.sales[id];
      var b := PostLines(Books(db.ledger, db.summaries), sale.summaryMonth.value, sale.tenant, id, front, start);
      var r := CommissionRow(sale.tenant, id, last, start);
      forall i | 0 <= i < |b.ledger| ensures !SameLine(b.ledger[i], r) {
        if i >= |db.ledger| {
          assert b.ledger[i].level == front[i - |db.ledger|].level == lines[i - |db.ledger|].level;
          assert lines[i - |db.ledger|].level < lines[|front|].level;
        } else {
          assert b.ledger[i] == db.ledger[i];
        }
      }
      PostKeeps(db.(ledger := b.ledger, summaries := b.summaries), sale.summaryMonth.value, r);
      AddedOneMore(db.ledger, b.ledger, id, front, r, last);
      assert lines == front + [last];
    }
  }

  lemma {:induction false} PostLinesAppend(b: Books, month: Month, tenant: TenantId, id: SaleId, xs: seq<Line>, ys: seq<Line>,
                                           start: (LedgerStatus, Option<int>))
    ensures PostLines(PostLines(b, month, tenant, id, xs, start), month, tenant, id, ys, start)
            == PostLines(b, month, tenant, id, xs + ys, start)
  {
    if ys == [] {
      assert xs + ys == xs;
    } else {
      PostLinesAppend(b, month, tenant, id, xs, ys[..|ys| - 1], start);
      assert (xs + ys)[..|xs + ys| - 1] == xs + ys[..|ys| - 1];
    }
  }

  // ------------------------------------------------------------------ apply and approve

  ghost predicate LinesBelow(lines: seq<Line>, n: nat) {
    LinesOk(lines) && forall i :: 0 <= i < |lines| ==> lines[i].level < n
  }

  lemma LinesJoin(xs: seq<Line>, ys: seq<Line>, mid: nat, n: nat)
    requires LinesBelow(xs, mid) && LinesBelow(ys, n) && mid <= n
    requires forall i :: 0 <= i < |ys| ==> ys[i].level >= mid
    ensures LinesBelow(xs + ys, n)
  {}

  lemma BaseLinesOk(amount: nat, plan: StoredPlan, eff: seq<Option<MemberId>>)
    ensures LinesBelow(CommissionLines(amount, plan.levels, eff), MAX_PLAN_DEPTH)
  {
    var base := CommissionLines(amount, plan.levels, eff);
    SortKeeps(plan.levels);
    LinesFromAscend(amount, SortByLevel(plan.levels), eff);
    LinesMeaning(amount, plan.levels, eff);
    forall n | 0 <= n < |base| ensures base[n].level < MAX_PLAN_DEPTH && base[n].amount > 0 {
      assert base[n] in base;
      assert LevelRate(base[n].level, base[n].rateBps) in plan.levels;
    }
  }

  /** At most one line, on this level and not empty. */
  predicate OneLineOn(lines: seq<Line>, level: nat) {
    |lines| <= 1 && (lines != [] ==> lines[0].level == level && lines[0].amount > 0)
  }

  lemma OneOnLevelOk(lines: seq<Line>, level: nat)
    requires OneLineOn(lines, level)
    ensures LinesBelow(lines, level + 1) && forall i :: 0 <= i < |lines| ==> lines[i].level >= level
  {}

  lemma BonusLinesOk(amount: nat, plan: Plan, raw: seq<Upline>, t: TenantPolicy, saleDate: int,
                     sellerJoinedAt: Option<int>, base: seq<Line>)
    ensures OneLineOn(FastStartLines(amount, plan, raw, t, saleDate, sellerJoinedAt), FAST_START_LEVEL)
    ensures OneLineOn(MatchingLines(plan, raw, t, base), MATCHING_LEVEL)
  {}

  lemma OverrideLinesOk(amount: nat, overrideBps: Bps, seller: MemberId)
    ensures OneLineOn(OverrideLines(amount, overrideBps, seller), OVERRIDE_LEVEL)
  {}

  lemma Regrouped(a: seq<Line>, b: seq<Line>, c: seq<Line>)
    ensures a + (b + c) == a + b + c
  {}

  lemma JoinOnLevel(lines: seq<Line>, below: nat, more: seq<Line>, level: nat)
    requires LinesBelow(lines, below) && below <= level && OneLineOn(more, level)
    ensures LinesBelow(lines + more, level + 1) == true
  {
    OneOnLevelOk(more, level);
    LinesRaise(lines, below, level);
    LinesJoin(lines, more, level, level + 1);
  }

  lemma LinesRaise(lines: seq<Line>, n: nat, m: nat)
    requires LinesBelow(lines, n) && n <= m
    ensures LinesBelow(lines, m)
  {}

  lemma FourPartsOk(base: seq<Line>, fast: seq<Line>, matching: seq<Line>, over: seq<Line>)
    requires LinesBelow(base, MAX_PLAN_DEPTH) && OneLineOn(fast, FAST_START_LEVEL)
    requires OneLineOn(matching, MATCHING_LEVEL) && OneLineOn(over, OVERRIDE_LEVEL)
    ensures LinesOk(base + (fast + matching) + over) == true
  {
    Regrouped(base, fast, matching);
    JoinOnLevel(base, MAX_PLAN_DEPTH, fast, FAST_START_LEVEL);
    JoinOnLevel(base + fast, FAST_START_LEVEL + 1, matching, MATCHING_LEVEL);
    JoinOnLevel(base + fast + matching, MATCHING_LEVEL + 1, over, OVERRIDE_LEVEL);
  }

  /** Base lines below 8, bonuses on 1000 and 1001, the override on 1002: no two rows of a sale share a level. */
  lemma SaleLinesOk(sale: Sale, plan: StoredPlan, chain: seq<Upline>, q: ApplyInputs, ledger: seq<Row>)
    ensures LinesOk(EarnedLines(sale, plan, chain, q) + RankLines(sale, ledger, q)) == true
  {
    var base := CommissionLines(sale.amount, plan.levels, EffectiveBaseChain(chain, q.policy));
    BaseLinesOk(sale.amount, plan, EffectiveBaseChain(chain, q.policy));
    BonusLinesOk(sale.amount, plan, chain, q.policy, sale.saleDate, q.sellerJoinedAt, base);
    OverrideLinesOk(sale.amount, OverrideBpsFor(q.tiers, q.team, Earnings(ledger, sale.tenant, sale.seller)), sale.seller);
    FourPartsOk(base, FastStartLines(sale.amount, plan, chain, q.policy, sale.saleDate, q.sellerJoinedAt),
                MatchingLines(plan, chain, q.policy, base), RankLines(sale, ledger, q));
  }

  /** Only a void sale can have rows without commissions, so a live sale without commissions has no rows at all. */
  lemma LiveWithoutCommissions(db: Db, id: SaleId)
    requires Inv(db) && id in db.sales && db.sales[id].status == Approved && RowsWhere(db.ledger, CommissionsOf(id)) == []
    ensures NoRowsOf(db.ledger, id)
  {
    forall i | 0 <= i < |db.ledger| ensures db.ledger[i].sale != Some(id) {
      assert RowOk(db.sales, db.ledger[i]);
      assert i !in RowsWhere(db.ledger, CommissionsOf(id));
    }
  }

  lemma StartStatus(t: TenantPolicy, sale: Sale, now: int)
    ensures Maturation(t, sale, now).0.Pending? || Maturation(t, sale, now).0.Payable?
  {}

  /** An application that applies writes its books and pins the sale. */
  lemma AppliedTables(db: Db, id: SaleId, q: ApplyInputs)
    requires id in db.sales && ApplyInTx(db, id, q).Committed? && ApplyInTx(db, id, q).value.applied
    ensures q.plan.Some? && q.chain.Some? && RowsWhere(db.ledger, CommissionsOf(id)) == []
    ensures db.sales[id].status == Approved && (db.sales[id].tenant, SaleMonth(db.sales[id], q.monthKey)) !in db.locks
    ensures ApplyInTx(db, id, q)
            == Committed(db.(sales := db.sales[id := Pinned(db.sales[id], q)], ledger := AllBooks(db, id, q).ledger,
                             summaries := AllBooks(db, id, q).summaries),
                         ApplyResult(true, |AllLines(db, id, q)|))
  {}

  /** Earned lines and override posted one after the other are all lines posted at once. */
  lemma AllBooksAtOnce(db: Db, id: SaleId, q: ApplyInputs)
    requires id in db.sales && q.plan.Some? && q.chain.Some?
    ensures var sale := db.sales[id];
            AllBooks(db, id, q) == PostLines(Books(db.ledger, db.summaries), SaleMonth(sale, q.monthKey), sale.tenant, id,
                                             AllLines(db, id, q), Maturation(q.policy, sale, q.now))
  {
    var sale := db.sales[id];
    PostLinesAppend(Books(db.ledger, db.summaries), SaleMonth(sale, q.monthKey), sale.tenant, id,
                    EarnedLines(sale, q.plan.value, q.chain.value, q), RankLines(sale, EarnedBooks(db, id, q).ledger, q),
                    Maturation(q.policy, sale, q.now));
  }

  lemma PinnedKeeps(db: Db, id: SaleId, pinned: Sale)
    requires Inv(db) && id in db.sales && db.sales[id].status == Approved && NoRowsOf(db.ledger, id)
    requires pinned == db.sales[id].(planId := pinned.planId, summaryMonth := pinned.summaryMonth)
    ensures Inv(db.(sales := db.sales[id := pinned])) == true
  {
    assert RowsSeeSame(db.sales, db.sales[id := pinned], db.ledger);
    SalesFrame(db, db.sales[id := pinned]);
  }

  lemma ApplyKeeps(db: Db, id: SaleId, q: ApplyInputs)
    requires Inv(db) && id in db.sales
    ensures ApplyInTx(db, id, q).Committed? ==> Inv(ApplyInTx(db, id, q).db) == true
  {
    var out := ApplyInTx(db, id, q);
    if out.Committed? && out.value.applied {
      LiveWithoutCommissions(db, id);
      AppliedTables(db, id, q);
      var sale := db.sales[id];
      PinnedKeeps(db, id, Pinned(sale, q));
      SaleLinesOk(sale, q.plan.value, q.chain.value, q, EarnedBooks(db, id, q).ledger);
      StartStatus(q.policy, sale, q.now);
      AllBooksAtOnce(db, id, q);
      PostLinesKeep(db.(sales := db.sales[id := Pinned(sale, q)]), id, AllLines(db, id, q), Maturation(q.policy, sale, q.now));
    }
  }

  lemma DraftHasNoRows(db: Db, id: SaleId)
    requires Inv(db) && (id in db.sales ==> db.sales[id].status == Draft)
    ensures NoRowsOf(db.ledger, id)
  {
    forall i | 0 <= i < |db.ledger| ensures db.ledger[i].sale != Some(id) {
      assert RowOk(db.sales, db.ledger[i]);
    }
  }

  lemma ApproveKeeps(db: Db, id: SaleId, actor: Option<UserId>, expectedTenant: Option<TenantId>, q: ApplyInputs)
    requires Inv(db)
    ensures Approve(db, id, actor, expectedTenant, q).Committed? ==> Inv(Approve(db, id, actor, expectedTenant, q).db)
  {
    if id in db.sales {
      if db.sales[id].status == Draft {
        DraftHasNoRows(db, id);
        var db1 := db.(sales := db.sales[id := db.sales[id].(status := Approved, approvedAt := Some(q.now))]);
        SalesFrame(db, db1.sales);
        ApplyKeeps(db1, id, q);
      } else {
        ApplyKeeps(db, id, q);
      }
    }
  }

  /** All lines of a sale are base, bonus and override, so the ceiling bound applies to them. */
  lemma LinesWithinCeiling(sale: Sale, plan: StoredPlan, chain: seq<Upline>, q: ApplyInputs, ledger: seq<Row>)
    ensures Distributed(EarnedLines(sale, plan, chain, q) + RankLines(sale, ledger, q)) <= CeilingCents(sale.amount, plan, q.tiers)
  {
    CeilingNeverExceeded(sale.amount, plan, chain, q.policy, sale.saleDate, q.sellerJoinedAt, q.tiers, q.team,
                         Earnings(ledger, sale.tenant, sale.seller), sale.seller);
  }

  lemma AllLinesWithinCeiling(db: Db, id: SaleId, q: ApplyInputs)
    requires id in db.sales && q.plan.Some? && q.chain.Some?
    ensures Distributed(AllLines(db, id, q)) <= CeilingCents(db.sales[id].amount, q.plan.value, q.tiers)
  {
    LinesWithinCeiling(db.sales[id], q.plan.value, q.chain.value, q, EarnedBooks(db, id, q).ledger);
  }

  /** The engine's ceiling guard never aborts a transaction. */
  lemma CeilingGuardUnreachable(db: Db, id: SaleId, q: ApplyInputs)
    requires id in db.sales
    ensures ApplyInTx(db, id, q) != Aborted(CeilingExceeded)
  {
    if q.plan.Some? && q.chain.Some? {
      AllLinesWithinCeiling(db, id, q);
    }
  }

  predicate DistinctIds(ids: seq<nat>) {
    forall a, b :: 0 <= a < b < |ids| ==> ids[a] != ids[b]
  }

  /** A row that void reverses, booked in `month`. */
  predicate VoidableIn(sales: map<SaleId, Sale>, month: Month, r: Row) {
    r.summaryMonth.None? && BookedMonth(sales, r) == month && !r.status.Processing? && !r.status.Reversed?
  }

  /** The ledger after voiding: originals closed, one reversal appended for each. */
  ghost predicate VoidedBooks(before: seq<Row>, after: seq<Row>, entries: seq<RowId>) {
    && |after| == |before| + |entries|
    && (forall a :: 0 <= a < |entries| ==> entries[a] < |before|)
    && (forall a {:trigger Closed(before[entries[a]])} :: 0 <= a < |entries| ==> after[entries[a]] == Closed(before[entries[a]]))
    && (forall a {:trigger ReversalOf(before[entries[a]])} :: 0 <= a < |entries| ==> after[|before| + a] == ReversalOf(before[entries[a]]))
    && (forall i {:trigger after[i]} :: 0 <= i < |before| && i !in entries ==> after[i] == before[i])
  }

  lemma {:induction false} VoidRowsMeaning(sales: map<SaleId, Sale>, b: Books, month: Month, entries: seq<RowId>)
    requires forall a :: 0 <= a < |entries| ==> entries[a] < |b.ledger|
    requires forall a :: 0 <= a < |entries| ==> VoidableIn(sales, month, b.ledger[entries[a]])
    requires DistinctIds(entries)
    requires Balanced(sales, b.ledger, b.summaries)
    ensures VoidedBooks(b.ledger, VoidRows(b, month, entries).ledger, entries)
    ensures Balanced(sales, VoidRows(b, month, entries).ledger, VoidRows(b, month, entries).summaries)
  {
    if entries != [] {
      var front, e := entries[..|entries| - 1], entries[|entries| - 1];
      VoidRowsMeaning(sales, b, month, front);
      var mid := VoidRows(b, month, front);
      assert e !in front;
      assert mid.ledger[e] == b.ledger[e];
      VoidRowBalanced(sales, mid, month, e);
      var after := VoidRow(mid, month, e).ledger;
      forall a | 0 <= a < |entries| ensures after[entries[a]] == Closed(b.ledger[entries[a]]) && after[|b.ledger| + a] == ReversalOf(b.ledger[entries[a]]) {
        if a < |front| { assert front[a] == entries[a]; }
      }
      forall i | 0 <= i < |b.ledger| && i !in entries ensures after[i] == b.ledger[i] {
        assert i != entries[|entries| - 1];
        assert i !in front;
      }
    }
  }

  /** One reversal: insertion of the reversal, then the closing of its original, as one bump. */
  lemma VoidRowBalanced(sales: map<SaleId, Sale>, b: Books, month: Month, e: RowId)
    requires Balanced(sales, b.ledger, b.summaries) && e < |b.ledger|
    requires VoidableIn(sales, month, b.ledger[e])
    ensures Balanced(sales, VoidRow(b, month, e).ledger, VoidRow(b, month, e).summaries)
  {
    var r := b.ledger[e];
    var out := VoidRow(b, month, e);
    forall k, st ensures Col(At(out.summaries, k), st) == LedgerSum(sales, out.ledger, k, st) {
      SumAppend(sales, b.ledger, ReversalOf(r), k, st);
      SumUpdate(sales, b.ledger + [ReversalOf(r)], e, Closed(r), k, st);
      BumpAt(b.summaries, Key(r.tenant, r.member, month, r.level), VoidDelta(r), k, st);
      VoidColumn(sales, month, r, k, st);
    }
  }

  lemma VoidColumn(sales: map<SaleId, Sale>, month: Month, r: Row, k: Key, st: LedgerStatus)
    requires VoidableIn(sales, month, r)
    ensures RowAmount(sales, ReversalOf(r), k, st) - RowAmount(sales, r, k, st) + RowAmount(sales, Closed(r), k, st)
            == if k == KeyOf(sales, r) then Col(VoidDelta(r), st) else 0
  {
    assert KeyOf(sales, ReversalOf(r)) == KeyOf(sales, r) == KeyOf(sales, Closed(r));
  }

  /** No live sale has a reversal, so the reversals that void appends are on free lines. */
  lemma VoidUnique(sales: map<SaleId, Sale>, ledger: seq<Row>, after: seq<Row>, id: SaleId, entries: seq<RowId>)
    requires BooksInv(sales, ledger) && id in sales && sales[id].status != Void
    requires VoidedBooks(ledger, after, entries) && DistinctIds(entries)
    requires forall a :: 0 <= a < |entries| ==> Selects(VoidableOf(id), entries[a], ledger[entries[a]])
    ensures UniqueLines(after)
  {
    forall i, j | 0 <= i < j < |after| ensures !SameLine(after[i], after[j]) {
      if j < |ledger| {
        assert !SameLine(ledger[i], ledger[j]);
        assert SameIdentity(after[i], ledger[i]) by { VoidedIdentity(ledger, after, entries, i); }
        assert SameIdentity(after[j], ledger[j]) by { VoidedIdentity(ledger, after, entries, j); }
      } else {
        var e := entries[j - |ledger|];
        assert after[j] == ReversalOf(ledger[e]);
        if i < |ledger| {
          VoidedIdentity(ledger, after, entries, i);
          if ledger[i].kind == Reversal {
            assert SaleVoid(sales, ledger[i]);
          }
        } else {
          var d := entries[i - |ledger|];
          assert after[i] == ReversalOf(ledger[d]);
          assert d != e;
          assert !SameLine(ledger[if d < e then d else e], ledger[if d < e then e else d]);
        }
      }
    }
  }

  lemma VoidedIdentity(before: seq<Row>, after: seq<Row>, entries: seq<RowId>, i: nat)
    requires VoidedBooks(before, after, entries) && i < |before|
    ensures SameIdentity(after[i], before[i]) && (i in entries ==> after[i] == Closed(before[i])) && (i !in entries ==> after[i] == before[i])
  {
    if i in entries {
      var a :| 0 <= a < |entries| && entries[a] == i;
      assert after[entries[a]] == Closed(before[entries[a]]);
    }
  }

  ghost predicate VoidEntries(ledger: seq<Row>, id: SaleId, entries: seq<RowId>) {
    && DistinctIds(entries)
    && (forall i: nat {:trigger Selects(VoidableOf(id), i, ledger[i])} ::
          i < |ledger| ==> (i in entries <==> Selects(VoidableOf(id), i, ledger[i])))
    && (forall a :: 0 <= a < |entries| ==> entries[a] < |ledger| && !ledger[entries[a]].status.Processing?)
  }

  /** Closing a row and reversing it makes a mirrored pair. */
  lemma ClosedMirror(id: SaleId, i: RowId, r: Row)
    requires Selects(VoidableOf(id), i, r) && !r.status.Processing?
    ensures Mirror(Closed(r), ReversalOf(r))
  {}

  /** A mirrored pair of another sale is not touched. */
  lemma OtherPairKept(ledger: seq<Row>, after: seq<Row>, id: SaleId, entries: seq<RowId>, i: nat, j: nat)
    requires VoidedBooks(ledger, after, entries) && VoidEntries(ledger, id, entries)
    requires i < |ledger| && j < |ledger| && Mirror(ledger[i], ledger[j]) && ledger[i].sale != Some(id)
    ensures Mirror(after[i], after[j])
  {
    assert !Selects(VoidableOf(id), i, ledger[i]) && !Selects(VoidableOf(id), j, ledger[j]);
    assert i !in entries && j !in entries;
  }

  /** The originals and their appended reversals pair up, in both directions. */
  lemma OwnPair(ledger: seq<Row>, after: seq<Row>, id: SaleId, entries: seq<RowId>, a: nat)
    requires VoidedBooks(ledger, after, entries) && VoidEntries(ledger, id, entries) && a < |entries|
    ensures Mirror(after[entries[a]], after[|ledger| + a])
    ensures after[|ledger| + a].kind == Reversal && after[|ledger| + a].sale == Some(id)
  {
    var e := entries[a];
    assert e in entries;
    assert Selects(VoidableOf(id), e, ledger[e]);
    ClosedMirror(id, e, ledger[e]);
    assert after[entries[a]] == Closed(ledger[entries[a]]);
    assert after[|ledger| + a] == ReversalOf(ledger[entries[a]]);
  }

  lemma VoidedHasReversal(ledger: seq<Row>, after: seq<Row>, id: SaleId, entries: seq<RowId>, i: nat)
    requires VoidedBooks(ledger, after, entries) && VoidEntries(ledger, id, entries)
    requires i < |ledger| && Selects(VoidableOf(id), i, ledger[i])
    ensures HasReversal(after, after[i])
  {
    assert i in entries;
    var a :| 0 <= a < |entries| && entries[a] == i;
    OwnPair(ledger, after, id, entries, a);
  }

  lemma OtherHasReversal(ledger: seq<Row>, after: seq<Row>, id: SaleId, entries: seq<RowId>, i: nat)
    requires VoidedBooks(ledger, after, entries) && VoidEntries(ledger, id, entries)
    requires i < |ledger| && ledger[i].sale != Some(id)
    ensures HasReversal(ledger, ledger[i]) ==> HasReversal(after, after[i])
    ensures HasOriginal(ledger, ledger[i]) ==> HasOriginal(after, after[i])
    ensures after[i] == ledger[i]
  {
    if HasReversal(ledger, ledger[i]) {
      var j :| 0 <= j < |ledger| && Mirror(ledger[i], ledger[j]);
      OtherPairKept(ledger, after, id, entries, i, j);
    }
    if HasOriginal(ledger, ledger[i]) {
      var j :| 0 <= j < |ledger| && Mirror(ledger[j], ledger[i]);
      OtherPairKept(ledger, after, id, entries, j, i);
    }
    assert !Selects(VoidableOf(id), i, ledger[i]);
  }

  lemma VoidClosesCommission(sales: map<SaleId, Sale>, ledger: seq<Row>, after: seq<Row>, id: SaleId, entries: seq<RowId>, i: nat)
    requires i < |ledger| && ledger[i].kind == Commission && CommissionClosed(sales, ledger, ledger[i])
    requires id in sales && sales[id].status != Void
    requires VoidedBooks(ledger, after, entries) && VoidEntries(ledger, id, entries)
    ensures CommissionClosed(sales[id := sales[id].(status := Void)], after, after[i])
  {
    VoidedIdentity(ledger, after, entries, i);
    if ledger[i].sale == Some(id) {
      VoidedHasReversal(ledger, after, id, entries, i);
    } else {
      OtherHasReversal(ledger, after, id, entries, i);
    }
  }

  lemma VoidKeepsReversal(sales: map<SaleId, Sale>, ledger: seq<Row>, after: seq<Row>, id: SaleId, entries: seq<RowId>, j: nat)
    requires j < |ledger| && ledger[j].kind == Reversal && SaleVoid(sales, ledger[j]) && HasOriginal(ledger, ledger[j])
    requires id in sales && sales[id].status != Void
    requires VoidedBooks(ledger, after, entries) && VoidEntries(ledger, id, entries)
    ensures SaleVoid(sales[id := sales[id].(status := Void)], after[j]) && HasOriginal(after, after[j])
  {
    OtherHasReversal(ledger, after, id, entries, j);
  }

  lemma VoidNewReversal(sales: map<SaleId, Sale>, ledger: seq<Row>, after: seq<Row>, id: SaleId, entries: seq<RowId>, a: nat)
    requires id in sales && VoidedBooks(ledger, after, entries) && VoidEntries(ledger, id, entries) && a < |entries|
    ensures after[|ledger| + a].kind == Reversal
    ensures SaleVoid(sales[id := sales[id].(status := Void)], after[|ledger| + a]) && HasOriginal(after, after[|ledger| + a])
  {
    OwnPair(ledger, after, id, entries, a);
  }

  /** Every commission of the voided sale gets its mirror; every other sale keeps its own. */
  lemma VoidCloses(sales: map<SaleId, Sale>, ledger: seq<Row>, after: seq<Row>, id: SaleId, entries: seq<RowId>)
    requires SalesClosed(sales, ledger) && id in sales && sales[id].status != Void
    requires VoidedBooks(ledger, after, entries) && VoidEntries(ledger, id, entries)
    ensures SalesClosed(sales[id := sales[id].(status := Void)], after)
  {
    var sales' := sales[id := sales[id].(status := Void)];
    forall i | 0 <= i < |after| && after[i].kind == Commission ensures CommissionClosed(sales', after, after[i]) {
      if i < |ledger| {
        VoidedIdentity(ledger, after, entries, i);
        VoidClosesCommission(sales, ledger, after, id, entries, i);
      } else {
        VoidNewReversal(sales, ledger, after, id, entries, i - |ledger|);
      }
    }
    forall j | 0 <= j < |after| && after[j].kind == Reversal ensures SaleVoid(sales', after[j]) && HasOriginal(after, after[j]) {
      if j < |ledger| {
        VoidedIdentity(ledger, after, entries, j);
        VoidKeepsReversal(sales, ledger, after, id, entries, j);
      } else {
        VoidNewReversal(sales, ledger, after, id, entries, j - |ledger|);
      }
    }
  }

  lemma VoidRowsOk(sales: map<SaleId, Sale>, ledger: seq<Row>, after: seq<Row>, id: SaleId, entries: seq<RowId>)
    requires RowsOk(sales, ledger) && id in sales && VoidedBooks(ledger, after, entries) && VoidEntries(ledger, id, entries)
    ensures RowsOk(sales[id := sales[id].(status := Void)], after)
    ensures OutsideSettlement(ledger, after)
    ensures forall i :: 0 <= i < |after| ==>
              KeyOf(sales, after[i]) == KeyOf(sales[id := sales[id].(status := Void)], after[i])
  {
    forall i | 0 <= i < |after| ensures RowOk(sales[id := sales[id].(status := Void)], after[i]) {
      if i < |ledger| {
        VoidedIdentity(ledger, after, entries, i);
        assert RowOk(sales, ledger[i]);
      } else {
        assert after[|ledger| + (i - |ledger|)] == ReversalOf(ledger[entries[i - |ledger|]]);
        var e := entries[i - |ledger|];
        assert e in entries;
        assert Selects(VoidableOf(id), e, ledger[e]) && RowOk(sales, ledger[e]);
      }
    }
    forall i | 0 <= i < |ledger|
      ensures SameIdentity(ledger[i], after[i]) && after[i].payout == ledger[i].payout && after[i].batch == ledger[i].batch
      ensures InSettlement(ledger[i].status) || InSettlement(after[i].status) ==> after[i].status == ledger[i].status
    {
      VoidedIdentity(ledger, after, entries, i);
    }
    forall i | |ledger| <= i < |after| ensures after[i].payout.None? && !InSettlement(after[i].status) {
      assert after[|ledger| + (i - |ledger|)] == ReversalOf(ledger[entries[i - |ledger|]]);
    }
  }

  /** Void commits the ledger described by VoidedBooks, on the entries of VoidEntries. */
  lemma VoidMeaning(db: Db, id: SaleId, expectedTenant: Option<TenantId>, monthKey: MonthKey)
    requires Inv(db)
    ensures var out := VoidSale(db, id, expectedTenant, monthKey);
            out.Committed? && out.value.voided ==>
              var entries := RowsWhere(db.ledger, VoidableOf(id));
              && id in db.sales && db.sales[id].status != Void
              && VoidEntries(db.ledger, id, entries) && VoidedBooks(db.ledger, out.db.ledger, entries)
              && Balanced(db.sales, out.db.ledger, out.db.summaries)
              && out.db.sales == db.sales[id := db.sales[id].(status := Void)]
  {
    var out := VoidSale(db, id, expectedTenant, monthKey);
    if out.Committed? && out.value.voided {
      var entries := RowsWhere(db.ledger, VoidableOf(id));
      var month := SaleMonth(db.sales[id], monthKey);
      forall a | 0 <= a < |entries| ensures VoidableIn(db.sales, month, db.ledger[entries[a]]) {
        assert RowOk(db.sales, db.ledger[entries[a]]);
      }
      VoidRowsMeaning(db.sales, Books(db.ledger, db.summaries), month, entries);
    }
  }

  lemma VoidKeeps(db: Db, id: SaleId, expectedTenant: Option<TenantId>, monthKey: MonthKey)
    requires Inv(db)
    ensures VoidSale(db, id, expectedTenant, monthKey).Committed? ==> Inv(VoidSale(db, id, expectedTenant, monthKey).db)
  {
    var out := VoidSale(db, id, expectedTenant, monthKey);
    if out.Committed? && out.value.voided {
      VoidMeaning(db, id, expectedTenant, monthKey);
      var entries := RowsWhere(db.ledger, VoidableOf(id));
      var after, sales' := out.db.ledger, out.db.sales;
      VoidUnique(db.sales, db.ledger, after, id, entries);
      VoidCloses(db.sales, db.ledger, after, id, entries);
      VoidRowsOk(db.sales, db.ledger, after, id, entries);
      BalancedFrame(db.sales, sales', after, out.db.summaries);
      SettlementFrame(db.sales, db.ledger, after, db.payouts, db.batches);
      SettlementSales(db.sales, sales', after, db.payouts, db.batches);
    }
  }

  /** Settlement sees sales only through the months of rows. */
  lemma SettlementSales(sales: map<SaleId, Sale>, sales': map<SaleId, Sale>, ledger: seq<Row>, payouts: seq<Payout>, batches: seq<Batch>)
    requires SettlementInv(sales, ledger, payouts, batches)
    requires forall i :: 0 <= i < |ledger| ==> KeyOf(sales, ledger[i]) == KeyOf(sales', ledger[i])
    ensures SettlementInv(sales', ledger, payouts, batches)
  {
    forall b | 0 <= b < |batches| ensures BatchOk(sales', ledger, payouts, batches[b], b) {
      assert BatchOk(sales, ledger, payouts, batches[b], b);
      forall n | 0 <= n < |batches[b].items| ensures ItemOk(sales', ledger, payouts, batches[b], b, batches[b].items[n]) {
        assert ItemOk(sales, ledger, payouts, batches[b], b, batches[b].items[n]);
        assert KeyOf(sales, ledger[batches[b].items[n].row]) == KeyOf(sales', ledger[batches[b].items[n].row]);
      }
    }
  }

  // ------------------------------------------------------------------ status shifts

  /** The status changes that no sale notices: maturing, and any move between payable, processing and paid. */
  predicate Shifted(a: Row, b: Row) {
    && SameIdentity(a, b)
    && (b.status == a.status
        || (a.status.Pending? && b.status.Payable?)
        || ((a.status.Payable? || a.status.Processing?) && (b.status.Payable? || b.status.Processing? || b.status.Paid?)))
    && (!InSettlement(b.status) ==> b.payout.None? && b.batch.None?)
  }

  predicate AllShifted(ledger: seq<Row>, ledger': seq<Row>) {
    |ledger| == |ledger'| && forall i :: 0 <= i < |ledger| ==> Shifted(ledger[i], ledger'[i])
  }

  /** A mirrored pair is still mirrored after any shift. */
  lemma ShiftKeepsMirror(c: Row, v: Row, c': Row, v': Row)
    requires Mirror(c, v) && Shifted(c, c') && Shifted(v, v')
    ensures Mirror(c', v')
  {}

  lemma ShiftKeepsClosed(sales: map<SaleId, Sale>, ledger: seq<Row>, ledger': seq<Row>)
    requires SalesClosed(sales, ledger) && AllShifted(ledger, ledger')
    ensures SalesClosed(sales, ledger')
  {
    forall i | 0 <= i < |ledger'| && ledger'[i].kind == Commission ensures CommissionClosed(sales, ledger', ledger'[i]) {
      assert Shifted(ledger[i], ledger'[i]) && CommissionClosed(sales, ledger, ledger[i]);
      if SaleVoid(sales, ledger[i]) {
        var j :| 0 <= j < |ledger| && Mirror(ledger[i], ledger[j]);
        ShiftKeepsMirror(ledger[i], ledger[j], ledger'[i], ledger'[j]);
      }
    }
    forall j | 0 <= j < |ledger'| && ledger'[j].kind == Reversal ensures SaleVoid(sales, ledger'[j]) && HasOriginal(ledger', ledger'[j]) {
      assert Shifted(ledger[j], ledger'[j]) && HasOriginal(ledger, ledger[j]);
      var i :| 0 <= i < |ledger| && Mirror(ledger[i], ledger[j]);
      ShiftKeepsMirror(ledger[i], ledger[j], ledger'[i], ledger'[j]);
    }
  }

  lemma ShiftKeepsBooks(sales: map<SaleId, Sale>, ledger: seq<Row>, ledger': seq<Row>)
    requires BooksInv(sales, ledger) && AllShifted(ledger, ledger')
    ensures BooksInv(sales, ledger')
  {
    forall i | 0 <= i < |ledger'| ensures RowOk(sales, ledger'[i]) {
      assert RowOk(sales, ledger[i]) && Shifted(ledger[i], ledger'[i]);
    }
    forall i, j | 0 <= i < j < |ledger'| ensures !SameLine(ledger'[i], ledger'[j]) {
      assert !SameLine(ledger[i], ledger[j]) && Shifted(ledger[i], ledger'[i]) && Shifted(ledger[j], ledger'[j]);
    }
    ShiftKeepsClosed(sales, ledger, ledger');
  }

  // ------------------------------------------------------------------ delivery

  predicate MaturityOnly(a: Row, b: Row) {
    b == a.(maturesAt := b.maturesAt)
  }

  lemma {:induction false} SetMaturityMeaning(ledger: seq<Row>, ids: seq<RowId>, at: int)
    requires forall a :: 0 <= a < |ids| ==> ids[a] < |ledger|
    ensures forall i :: 0 <= i < |ledger| ==> MaturityOnly(ledger[i], SetMaturity(ledger, ids, at)[i])
    ensures forall i: nat :: i in ids ==> i < |ledger| && SetMaturity(ledger, ids, at)[i].maturesAt == Some(at)
    ensures forall i: nat :: i < |ledger| && i !in ids ==> SetMaturity(ledger, ids, at)[i] == ledger[i]
  {
    if ids != [] {
      SetMaturityMeaning(ledger, ids[..|ids| - 1], at);
      assert ids == ids[..|ids| - 1] + [ids[|ids| - 1]];
    }
  }

  lemma {:induction false} SumSame(sales: map<SaleId, Sale>, ledger: seq<Row>, ledger': seq<Row>, k: Key, st: LedgerStatus)
    requires |ledger| == |ledger'| && forall i :: 0 <= i < |ledger| ==> MaturityOnly(ledger[i], ledger'[i])
    ensures LedgerSum(sales, ledger', k, st) == LedgerSum(sales, ledger, k, st)
  {
    if ledger != [] {
      SumSame(sales, ledger[..|ledger| - 1], ledger'[..|ledger| - 1], k, st);
    }
  }

  lemma MaturityKeeps(db: Db, ledger': seq<Row>)
    requires Inv(db) && |ledger'| == |db.ledger| && forall i :: 0 <= i < |db.ledger| ==> MaturityOnly(db.ledger[i], ledger'[i])
    ensures Inv(db.(ledger := ledger'))
  {
    forall i | 0 <= i < |db.ledger| ensures Shifted(db.ledger[i], ledger'[i]) {
      assert RowOk(db.sales, db.ledger[i]);
    }
    ShiftKeepsBooks(db.sales, db.ledger, ledger');
    SettlementFrame(db.sales, db.ledger, ledger', db.payouts, db.batches);
    forall k, st ensures Col(At(db.summaries, k), st) == LedgerSum(db.sales, ledger', k, st) {
      SumSame(db.sales, db.ledger, ledger', k, st);
    }
  }

  lemma DeliverKeeps(db: Db, id: SaleId, at: int, policy: TenantPolicy)
    requires Inv(db)
    ensures MarkDelivered(db, id, at, policy).Committed? ==> Inv(MarkDelivered(db, id, at, policy).db)
  {
    var out := MarkDelivered(db, id, at, policy);
    if out.Committed? && out.value {
      var matures := if policy.maturationRule.DaysAfterDelivery? then at + policy.maturationDays * DAY_MS else at;
      SetMaturityMeaning(db.ledger, RowsWhere(db.ledger, AwaitingDelivery(id)), matures);
      DeliveredKeeps(db, id, at, out.db.ledger);
    }
  }

  lemma DeliveredKeeps(db: Db, id: SaleId, at: int, ledger': seq<Row>)
    requires Inv(db) && id in db.sales && db.sales[id].status == Approved
    requires |ledger'| == |db.ledger| && forall i :: 0 <= i < |db.ledger| ==> MaturityOnly(db.ledger[i], ledger'[i])
    ensures Inv(db.(ledger := ledger', sales := db.sales[id := db.sales[id].(deliveredAt := Some(at))])) == true
  {
    MaturityKeeps(db, ledger');
    SalesFrame(db.(ledger := ledger'), db.sales[id := db.sales[id].(deliveredAt := Some(at))]);
  }

  // ------------------------------------------------------------------ maturing

  lemma MatureOneKeeps(db: Db, monthKey: MonthKey, i: RowId)
    requires Inv(db) && i < |db.ledger| && db.ledger[i].status.Pending?
    ensures var b := MatureRow(Books(db.ledger, db.summaries), MonthOf(db.sales, db.ledger[i], monthKey), i);
            Inv(db.(ledger := b.ledger, summaries := b.summaries))
  {
    var r := db.ledger[i];
    var r' := r.(status := LedgerStatus.Payable);
    assert RowOk(db.sales, r);
    var ledger' := db.ledger[i := r'];
    forall n | 0 <= n < |db.ledger| ensures Shifted(db.ledger[n], ledger'[n]) {
      assert RowOk(db.sales, db.ledger[n]);
    }
    ShiftKeepsBooks(db.sales, db.ledger, ledger');
    SettlementFrame(db.sales, db.ledger, ledger', db.payouts, db.batches);
    var key := Key(r.tenant, r.member, MonthOf(db.sales, r, monthKey), r.level);
    BalancedUpdate(db.sales, db.ledger, db.summaries, i, r', key, Cell(-r.amount, r.amount, 0, 0));
  }

  ghost predicate Maturable(ledger: seq<Row>, ids: seq<RowId>) {
    DistinctIds(ids) && forall a :: 0 <= a < |ids| ==> ids[a] < |ledger| && ledger[ids[a]].status.Pending?
  }

  /** Exactly the listed rows turn payable. */
  ghost predicate MaturedRows(before: seq<Row>, after: seq<Row>, ids: seq<RowId>) {
    && |before| == |after|
    && forall i: nat :: i < |before| ==> after[i] == if i in ids then before[i].(status := LedgerStatus.Payable) else before[i]
  }

  lemma {:induction false} MatureRowsMeaning(b: Books, sales: map<SaleId, Sale>, monthKey: MonthKey, ids: seq<RowId>)
    requires Maturable(b.ledger, ids)
    ensures MaturedRows(b.ledger, MatureRows(b, sales, monthKey, ids).ledger, ids)
  {
    if ids != [] {
      var front, last := ids[..|ids| - 1], ids[|ids| - 1];
      MatureRowsMeaning(b, sales, monthKey, front);
      assert ids == front + [last];
      assert last !in front;
    }
  }

  lemma {:induction false} MatureRowsKeep(db: Db, monthKey: MonthKey, ids: seq<RowId>)
    requires Inv(db) && Maturable(db.ledger, ids)
    ensures var b := MatureRows(Books(db.ledger, db.summaries), db.sales, monthKey, ids);
            Inv(db.(ledger := b.ledger, summaries := b.summaries)) == true
  {
    if ids != [] {
      var front, last := ids[..|ids| - 1], ids[|ids| - 1];
      MatureRowsKeep(db, monthKey, front);
      MatureRowsMeaning(Books(db.ledger, db.summaries), db.sales, monthKey, front);
      var b := MatureRows(Books(db.ledger, db.summaries), db.sales, monthKey, front);
      assert last !in front;
      MatureOneKeeps(db.(ledger := b.ledger, summaries := b.summaries), monthKey, last);
    }
  }

  lemma MatureBatchDue(db: Db, now: int, limit: int, lockedRows: set<RowId>)
    requires limit > 0
    ensures Maturable(db.ledger, MatureBatch(db, now, limit, lockedRows))
  {
    var due := RowsWhere(db.ledger, Due(now, lockedRows));
    forall a | 0 <= a < |due| ensures due[a] < |db.ledger| && db.ledger[due[a]].status.Pending? {
      assert Selects(Due(now, lockedRows), due[a], db.ledger[due[a]]);
    }
  }

  lemma MatureKeeps(db: Db, now: int, limit: int, lockedRows: set<RowId>, monthKey: MonthKey)
    requires Inv(db)
    ensures Mature(db, now, limit, lockedRows, monthKey).Committed? ==> Inv(Mature(db, now, limit, lockedRows, monthKey).db)
  {
    if limit > 0 {
      MatureBatchDue(db, now, limit, lockedRows);
      MatureRowsKeep(db, monthKey, MatureBatch(db, now, limit, lockedRows));
    }
  }

  // ------------------------------------------------------------------ bonus, drafts, locks

  lemma AwardKeeps(db: Db, tenant: TenantId, member: MemberId, amount: int, month: Month)
    requires Inv(db)
    ensures AwardBonus(db, tenant, member, amount, month).Committed? ==> Inv(AwardBonus(db, tenant, member, amount, month).db)
  {
    if (tenant, month) !in db.locks {
      PostKeeps(db, month, Row(tenant, None, member, 0, 0, amount, Adjustment, LedgerStatus.Payable, Some(month), None, None, None));
    }
  }

  lemma DraftStepsKeep(db: Db, id: SaleId, tenant: TenantId, seller: MemberId, amount: nat, saleDate: int, createdBy: Option<UserId>)
    requires Inv(db)
    ensures CreateDraft(db, id, tenant, seller, amount, saleDate, createdBy).Committed? ==>
              Inv(CreateDraft(db, id, tenant, seller, amount, saleDate, createdBy).db)
    ensures DeleteDraft(db, tenant, id).Committed? ==> Inv(DeleteDraft(db, tenant, id).db)
  {
    if id !in db.sales || db.sales[id].status == Draft {
      DraftHasNoRows(db, id);
      SalesFrame(db, db.sales[id := Sale(tenant, seller, amount, saleDate, createdBy, Draft, None, None, None, None)]);
      SalesFrame(db, db.sales - {id});
    }
  }
}
