/**
 What the matching bonus pays: the code takes a share of the first base line, the schema describes a share
 of the seller's level-0 commission.
 */
module Matching {
  import opened Prelude
  import opened Commission

  /** The seller's own level is in the plan and covers at least one cent of the sale. */
  ghost predicate PaysSeller(amount: nat, levels: seq<LevelRate>) {
    exists l :: l in levels && l.level == 0 && BpsAmount(amount, l.rateBps) > 0
  }

  lemma LinesAscend(amount: nat, levels: seq<LevelRate>, chain: seq<Option<MemberId>>)
    requires DistinctLevels(levels)
    ensures AscendingLevels(CommissionLines(amount, levels, chain))
  {
    SortKeeps(levels);
    LinesFromAscend(amount, SortByLevel(levels), chain);
  }

  lemma AboveFirst(lines: seq<Line>)
    requires AscendingLevels(lines)
    ensures forall k :: 0 < k < |lines| ==> lines[k].level > 0
  {
    forall k | 0 < k < |lines| ensures lines[k].level > 0 {
      assert lines[0].level < lines[k].level;
    }
  }

  lemma SellerFirst(amount: nat, levels: seq<LevelRate>, chain: seq<Option<MemberId>>, seller: MemberId)
    requires DistinctLevels(levels) && chain != [] && chain[0] == Some(seller) && PaysSeller(amount, levels)
    ensures var base := CommissionLines(amount, levels, chain);
            base != [] && base[0].level == 0 && base[0].member == seller
  {
    var base := CommissionLines(amount, levels, chain);
    var l :| l in levels && l.level == 0 && BpsAmount(amount, l.rateBps) > 0;
    var own := Line(0, seller, l.rateBps, BpsAmount(amount, l.rateBps));
    assert own in base by {
      LinesMeaning(amount, levels, chain);
      assert LevelRate(own.level, own.rateBps) == l;
      assert PaysLevel(own, amount, levels, chain);
    }
    var i :| 0 <= i < |base| && base[i] == own;
    LinesAscend(amount, levels, chain);
    AboveFirst(base);
  }

  /**
   Matching pays on the first line of the sale, the one on the lowest paid level. That line is the
   seller's level-0 commission exactly when level 0 is worth a cent.
   */
  lemma MatchingBasis(amount: nat, levels: seq<LevelRate>, raw: seq<Upline>, t: TenantPolicy)
    requires DistinctLevels(levels) && raw != []
    ensures var base := CommissionLines(amount, levels, EffectiveBaseChain(raw, t));
            && (PaysSeller(amount, levels) <==> base != [] && base[0].level == 0)
            && (PaysSeller(amount, levels) ==> base[0].member == raw[0].id)
            && AscendingLevels(base)
  {
    var chain := EffectiveBaseChain(raw, t);
    var base := CommissionLines(amount, levels, chain);
    LinesAscend(amount, levels, chain);
    if PaysSeller(amount, levels) {
      SellerFirst(amount, levels, chain, raw[0].id);
    }
    if base != [] && base[0].level == 0 {
      LinesMeaning(amount, levels, chain);
      assert base[0] in base;
    }
  }

  // ------------------------------------------------------------------ the lowest paid level

  /** The level has a member in the chain and covers at least one cent of the sale. */
  predicate Paid(amount: nat, chain: seq<Option<MemberId>>, l: LevelRate) {
    l.level < |chain| && chain[l.level].Some? && CoversCent(amount, l.rateBps)
  }

  /** The lowest such level of the plan. */
  ghost predicate LowestPaid(amount: nat, levels: seq<LevelRate>, chain: seq<Option<MemberId>>, l: LevelRate) {
    l in levels && Paid(amount, chain, l) && forall k :: k in levels && Paid(amount, chain, k) ==> l.level <= k.level
  }

  lemma PaidIsLine(amount: nat, levels: seq<LevelRate>, chain: seq<Option<MemberId>>, l: LevelRate)
    requires l in levels && Paid(amount, chain, l)
    ensures Line(l.level, chain[l.level].value, l.rateBps, BpsAmount(amount, l.rateBps)) in CommissionLines(amount, levels, chain)
  {
    CentIffCovered(amount, l.rateBps);
    LinesMeaning(amount, levels, chain);
    var x := Line(l.level, chain[l.level].value, l.rateBps, BpsAmount(amount, l.rateBps));
    assert LevelRate(x.level, x.rateBps) == l;
    assert PaysLevel(x, amount, levels, chain);
  }

  lemma LineIsPaid(amount: nat, levels: seq<LevelRate>, chain: seq<Option<MemberId>>, i: nat)
    requires i < |CommissionLines(amount, levels, chain)|
    ensures var x := CommissionLines(amount, levels, chain)[i];
            && LevelRate(x.level, x.rateBps) in levels && Paid(amount, chain, LevelRate(x.level, x.rateBps))
            && x.amount == BpsAmount(amount, x.rateBps)
  {
    var x := CommissionLines(amount, levels, chain)[i];
    LinesMeaning(amount, levels, chain);
    assert PaysLevel(x, amount, levels, chain);
    CentIffCovered(amount, x.rateBps);
  }

  lemma NotBelowFirst(lines: seq<Line>, x: Line)
    requires AscendingLevels(lines) && x in lines
    ensures lines[0].level <= x.level
  {
    var i :| 0 <= i < |lines| && lines[i] == x;
  }

  lemma SameLevelSameRate(levels: seq<LevelRate>, a: LevelRate, b: LevelRate)
    requires DistinctLevels(levels) && a in levels && b in levels && a.level == b.level
    ensures a == b
  {
    var i :| 0 <= i < |levels| && levels[i] == a;
    var j :| 0 <= j < |levels| && levels[j] == b;
  }

  /** The first base line is the one of the lowest paid level, and there is none exactly when no level is paid. */
  lemma FirstIsLowest(amount: nat, levels: seq<LevelRate>, chain: seq<Option<MemberId>>, l: LevelRate)
    requires DistinctLevels(levels)
    ensures var base := CommissionLines(amount, levels, chain);
            LowestPaid(amount, levels, chain, l) <==>
              base != [] && l == LevelRate(base[0].level, base[0].rateBps)
    ensures var base := CommissionLines(amount, levels, chain);
            base != [] ==> base[0].amount == BpsAmount(amount, base[0].rateBps)
  {
    var base := CommissionLines(amount, levels, chain);
    LinesAscend(amount, levels, chain);
    if base != [] {
      LineIsPaid(amount, levels, chain, 0);
      var first := LevelRate(base[0].level, base[0].rateBps);
      forall k | k in levels && Paid(amount, chain, k) ensures first.level <= k.level {
        PaidIsLine(amount, levels, chain, k);
        NotBelowFirst(base, Line(k.level, chain[k.level].value, k.rateBps, BpsAmount(amount, k.rateBps)));
      }
      if LowestPaid(amount, levels, chain, l) {
        SameLevelSameRate(levels, l, first);
      }
    }
    if LowestPaid(amount, levels, chain, l) {
      PaidIsLine(amount, levels, chain, l);
    }
  }

  // ------------------------------------------------------------------ what the schema describes

  /** The rate of the seller's own level, zero when the plan has none. */
  function SellerRate(levels: seq<LevelRate>): Bps {
    if levels == [] then 0
    else if levels[|levels| - 1].level == 0 then levels[|levels| - 1].rateBps
    else SellerRate(levels[..|levels| - 1])
  }

  lemma {:induction false} SellerRateMeaning(levels: seq<LevelRate>)
    ensures (exists l :: l in levels && l.level == 0) ==> LevelRate(0, SellerRate(levels)) in levels
    ensures (forall l :: l in levels ==> l.level != 0) ==> SellerRate(levels) == 0
  {
    if levels != [] {
      var front, last := levels[..|levels| - 1], levels[|levels| - 1];
      assert levels == front + [last];
      SellerRateMeaning(front);
      assert last.level == 0 ==> LevelRate(0, last.rateBps) == last;
    }
  }

  /** The share of the seller's level-0 commission, which is zero when that level is worth no cent. */
  function SchemaMatching(amount: nat, plan: Plan, raw: seq<Upline>, t: TenantPolicy): seq<Line> {
    var sponsor := BonusSponsor(raw, t);
    if sponsor.None? then []
    else Bonus(MATCHING_LEVEL, sponsor.value, plan.matchingBps, BpsAmount(BpsAmount(amount, SellerRate(plan.levels)), plan.matchingBps))
  }

  /** The lowest paid level is above the seller's, and matching is worth a cent of what it pays. */
  ghost predicate MatchesUpline(amount: nat, plan: Plan, chain: seq<Option<MemberId>>, l: LevelRate) {
    LowestPaid(amount, plan.levels, chain, l) && l.level > 0 && CoversCent(BpsAmount(amount, l.rateBps), plan.matchingBps)
  }

  lemma ZeroRate(amount: nat)
    ensures BpsAmount(amount, 0) == 0 && BpsAmount(0, 0) == 0
  {
    Cents(amount, 0, 0);
  }

  lemma NothingOfNothing(rate: Bps)
    ensures BpsAmount(0, rate) == 0
  {
    Cents(0, rate, 0);
  }

  /** Without a cent for the seller there is no first line on level 0, and the schema matches nothing. */
  lemma SellerUnpaid(amount: nat, plan: Plan, raw: seq<Upline>, t: TenantPolicy)
    requires DistinctLevels(plan.levels) && raw != [] && !PaysSeller(amount, plan.levels)
    ensures BpsAmount(amount, SellerRate(plan.levels)) == 0 && SchemaMatching(amount, plan, raw, t) == []
  {
    SellerRateMeaning(plan.levels);
    ZeroRate(amount);
    NothingOfNothing(plan.matchingBps);
    if l :| l in plan.levels && l.level == 0 {
      assert LevelRate(0, SellerRate(plan.levels)) in plan.levels;
    }
  }

  lemma SellerPaid(amount: nat, plan: Plan, raw: seq<Upline>, t: TenantPolicy)
    requires DistinctLevels(plan.levels) && raw != [] && PaysSeller(amount, plan.levels)
    ensures var base := CommissionLines(amount, plan.levels, EffectiveBaseChain(raw, t));
            base != [] && base[0].level == 0 && base[0].amount == BpsAmount(amount, SellerRate(plan.levels))
  {
    var chain := EffectiveBaseChain(raw, t);
    MatchingBasis(amount, plan.levels, raw, t);
    var first := CommissionLines(amount, plan.levels, chain)[0];
    FirstIsLowest(amount, plan.levels, chain, LevelRate(first.level, first.rateBps));
    SellerRateMeaning(plan.levels);
    SameLevelSameRate(plan.levels, LevelRate(0, first.rateBps), LevelRate(0, SellerRate(plan.levels)));
  }

  /**
   Matching as paid differs from matching as described if and only if the sponsor may earn, the lowest
   level that has a member and covers a cent of the sale is not the seller's, and matching covers a cent of
   what that level pays. Then the description pays nothing and the code pays the sponsor.
   */
  lemma MatchingDiffers(amount: nat, plan: StoredPlan, raw: seq<Upline>, t: TenantPolicy)
    ensures var chain := EffectiveBaseChain(raw, t);
            var paid := MatchingLines(plan, raw, t, CommissionLines(amount, plan.levels, chain));
            var described := SchemaMatching(amount, plan, raw, t);
            && (paid != described <==>
                  BonusSponsor(raw, t).Some? && exists l :: MatchesUpline(amount, plan, chain, l))
            && (paid != described ==> described == [] && |paid| == 1)
  {
    if BonusSponsor(raw, t).Some? {
      if PaysSeller(amount, plan.levels) {
        SameMatching(amount, plan, raw, t);
      } else {
        UplineMatching(amount, plan, raw, t);
      }
    }
  }

  lemma NoUplineLowest(amount: nat, plan: StoredPlan, raw: seq<Upline>, t: TenantPolicy, l: LevelRate)
    requires raw != [] && PaysSeller(amount, plan.levels)
    ensures LowestPaid(amount, plan.levels, EffectiveBaseChain(raw, t), l) ==> l.level == 0
  {
    SellerPaid(amount, plan, raw, t);
    FirstIsLowest(amount, plan.levels, EffectiveBaseChain(raw, t), l);
  }

  lemma SameShare(plan: Plan, raw: seq<Upline>, t: TenantPolicy, base: seq<Line>)
    requires base != []
    ensures MatchingLines(plan, raw, t, base)
            == if BonusSponsor(raw, t).None? then []
               else Bonus(MATCHING_LEVEL, BonusSponsor(raw, t).value, plan.matchingBps, BpsAmount(base[0].amount, plan.matchingBps))
  {
    ZeroRate(base[0].amount);
  }

  lemma SameMatching(amount: nat, plan: StoredPlan, raw: seq<Upline>, t: TenantPolicy)
    requires BonusSponsor(raw, t).Some? && PaysSeller(amount, plan.levels)
    ensures var chain := EffectiveBaseChain(raw, t);
            && MatchingLines(plan, raw, t, CommissionLines(amount, plan.levels, chain)) == SchemaMatching(amount, plan, raw, t)
            && forall l :: !MatchesUpline(amount, plan, chain, l)
  {
    var chain := EffectiveBaseChain(raw, t);
    SellerPaid(amount, plan, raw, t);
    SameShare(plan, raw, t, CommissionLines(amount, plan.levels, chain));
    forall l ensures !MatchesUpline(amount, plan, chain, l) {
      NoUplineLowest(amount, plan, raw, t, l);
    }
  }

  lemma UplineMatching(amount: nat, plan: StoredPlan, raw: seq<Upline>, t: TenantPolicy)
    requires BonusSponsor(raw, t).Some? && !PaysSeller(amount, plan.levels)
    ensures var chain := EffectiveBaseChain(raw, t);
            var paid := MatchingLines(plan, raw, t, CommissionLines(amount, plan.levels, chain));
            && SchemaMatching(amount, plan, raw, t) == [] && |paid| <= 1
            && (paid != [] <==> exists l :: MatchesUpline(amount, plan, chain, l))
  {
    var chain := EffectiveBaseChain(raw, t);
    var base := CommissionLines(amount, plan.levels, chain);
    SellerUnpaid(amount, plan, raw, t);
    MatchingBasis(amount, plan.levels, raw, t);
    forall l ensures LowestPaid(amount, plan.levels, chain, l) <==> base != [] && l == LevelRate(base[0].level, base[0].rateBps) {
      FirstIsLowest(amount, plan.levels, chain, l);
    }
    if base != [] {
      var first := LevelRate(base[0].level, base[0].rateBps);
      FirstIsLowest(amount, plan.levels, chain, first);
      CentIffCovered(base[0].amount, plan.matchingBps);
      ZeroRate(base[0].amount);
      assert MatchesUpline(amount, plan, chain, first) <==> CoversCent(base[0].amount, plan.matchingBps);
    }
  }

  // ------------------------------------------------------------------ a sale on which they differ

  lemma LinesOfTwo(amount: nat, a: LevelRate, b: LevelRate, chain: seq<Option<MemberId>>)
    requires a.level < b.level
    ensures CommissionLines(amount, [a, b], chain) == LineFor(amount, a, chain) + LineFor(amount, b, chain)
  {
    assert [a, b][..1] == [a] && [a][..0] == [];
    assert SortByLevel([a]) == InsertByLevel(SortByLevel([]), a) == [a];
    assert SortByLevel([a, b]) == InsertByLevel([a], b) == [a, b];
    assert LinesFrom(amount, [a], chain) == LinesFrom(amount, [], chain) + LineFor(amount, a, chain);
  }

  lemma NoSellerLine(chain: seq<Option<MemberId>>)
    ensures LineFor(100, LevelRate(0, 50), chain) == []
  {
    Cents(100, 50, 0);
  }

  lemma SponsorLine(chain: seq<Option<MemberId>>)
    requires |chain| == 2 && chain[1] == Some(2)
    ensures LineFor(100, LevelRate(1, 1_000), chain) == [Line(1, 2, 1_000, 10)]
  {
    Cents(100, 1_000, 10);
  }

  lemma MatchesTenCents(plan: Plan, raw: seq<Upline>, t: TenantPolicy)
    requires plan.matchingBps == 5_000 && BonusSponsor(raw, t) == Some(2)
    ensures MatchingLines(plan, raw, t, [Line(1, 2, 1_000, 10)]) == [Line(MATCHING_LEVEL, 2, 5_000, 5)]
  {
    Cents(10, 5_000, 5);
  }

  /**
   A sale of 100 cents at 0.5% for the seller and 10% for the sponsor: the seller earns nothing, and
   matching still pays the sponsor, on the sponsor's own line.
   */
  lemma MatchingWithoutSeller(t: TenantPolicy)
    requires t.inactiveMembersEarn && !t.compressionEnabled
    ensures var levels := [LevelRate(0, 50), LevelRate(1, 1_000)];
            var raw := [Upline(1, true), Upline(2, true)];
            var base := CommissionLines(100, levels, EffectiveBaseChain(raw, t));
            && base == [Line(1, 2, 1_000, 10)]
            && MatchingLines(Plan(0, 1_050, 2, levels, 0, 0, 5_000), raw, t, base) == [Line(MATCHING_LEVEL, 2, 5_000, 5)]
  {
    var levels := [LevelRate(0, 50), LevelRate(1, 1_000)];
    var raw := [Upline(1, true), Upline(2, true)];
    var chain := EffectiveBaseChain(raw, t);
    assert |chain| == 2 && chain[1] == Some(2);
    LinesOfTwo(100, LevelRate(0, 50), LevelRate(1, 1_000), chain);
    NoSellerLine(chain);
    SponsorLine(chain);
    MatchesTenCents(Plan(0, 1_050, 2, levels, 0, 0, 5_000), raw, t);
  }
}
