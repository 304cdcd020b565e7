/**
 How one approved sale is split: `packages/shared` (bpsAmount, computeCommissionLines, the plan
 validator), the effective chain, the bonus layers and the rank override of the engine, and the
 ceiling that the engine checks after it has written every row.
 */
module Commission {
  import opened Prelude

  type MemberId = nat

  const BPS_DENOMINATOR: nat := 10_000
  const MAX_PLAN_DEPTH: nat := 8
  const DAY_MS: nat := 86_400_000
  const FAST_START_LEVEL: nat := 1000
  const MATCHING_LEVEL: nat := 1001
  const OVERRIDE_LEVEL: nat := 1002

  type Bps = n: nat | n <= BPS_DENOMINATOR

  /** floor(amount * rate / 10000): the largest number of cents that the rate covers. */
  function BpsAmount(amount: nat, rate: Bps): (cents: nat)
    ensures cents * 10_000 <= amount * rate < (cents + 1) * 10_000
    ensures cents <= amount
  {
    Monotone(amount, rate, 10_000);
    amount * rate / BPS_DENOMINATOR
  }

  /** The rate is worth at least one whole cent of the amount. */
  predicate CoversCent(amount: nat, rate: Bps) {
    amount * rate >= BPS_DENOMINATOR
  }

  lemma CentIffCovered(amount: nat, rate: Bps)
    ensures BpsAmount(amount, rate) > 0 <==> CoversCent(amount, rate)
  {}

  /** The floor is the only number of cents that fits. */
  lemma Cents(amount: nat, rate: Bps, cents: nat)
    requires cents * 10_000 <= amount * rate < (cents + 1) * 10_000
    ensures BpsAmount(amount, rate) == cents
  {}

  // ------------------------------------------------------------------ plans

  datatype LevelRate = LevelRate(level: nat, rateBps: Bps)

  datatype Plan = Plan(id: nat, poolRateBps: Bps, depth: nat, levels: seq<LevelRate>,
                       fastStartBps: Bps, fastStartDays: nat, matchingBps: Bps)

  function RateSum(levels: seq<LevelRate>): nat {
    if levels == [] then 0 else RateSum(levels[..|levels| - 1]) + levels[|levels| - 1].rateBps
  }

  ghost predicate HasLevel(levels: seq<LevelRate>, n: nat) {
    exists l :: l in levels && l.level == n
  }

  /** No level occurs twice. */
  ghost predicate DistinctLevels(levels: seq<LevelRate>) {
    forall i, j :: 0 <= i < j < |levels| ==> levels[i].level != levels[j].level
  }

  /** What the database keeps true of every finalized plan: checks, unique levels and the sum trigger. */
  ghost predicate PlanStored(p: Plan) {
    && 1 <= p.depth <= MAX_PLAN_DEPTH
    && DistinctLevels(p.levels)
    && (forall i :: 0 <= i < |p.levels| ==> p.levels[i].level < MAX_PLAN_DEPTH)
    && RateSum(p.levels) <= p.poolRateBps
  }

  type StoredPlan = p: Plan | PlanStored(p)
    ghost witness Plan(0, 0, 1, [], 0, 0, 0)

  /** Stable insertion into a list sorted by level. */
  function InsertByLevel(sorted: seq<LevelRate>, x: LevelRate): seq<LevelRate> {
    if sorted == [] || sorted[|sorted| - 1].level <= x.level then sorted + [x]
    else InsertByLevel(sorted[..|sorted| - 1], x) + [sorted[|sorted| - 1]]
  }

  /** `[...levels].sort((a, b) => a.level - b.level)`. */
  function SortByLevel(levels: seq<LevelRate>): seq<LevelRate> {
    if levels == [] then []
    else InsertByLevel(SortByLevel(levels[..|levels| - 1]), levels[|levels| - 1])
  }

  ghost predicate AllBelow(levels: seq<LevelRate>, n: nat, strict: bool) {
    forall l :: l in levels ==> if strict then l.level < n else l.level <= n
  }

  /** Ascending levels, strictly or not. */
  ghost predicate Ascending(levels: seq<LevelRate>, strict: bool) {
    levels == [] ||
    (AllBelow(levels[..|levels| - 1], levels[|levels| - 1].level, strict) && Ascending(levels[..|levels| - 1], strict))
  }

  lemma {:induction false} AscendingPairs(s: seq<LevelRate>, strict: bool, i: nat, j: nat)
    requires Ascending(s, strict) && i < j < |s|
    ensures if strict then s[i].level < s[j].level else s[i].level <= s[j].level
  {
    if j == |s| - 1 {
      assert s[i] in s[..|s| - 1];
    } else {
      AscendingPairs(s[..|s| - 1], strict, i, j);
    }
  }

  lemma {:induction false} InsertMembers(s: seq<LevelRate>, x: LevelRate)
    ensures |InsertByLevel(s, x)| == |s| + 1
    ensures forall l :: l in InsertByLevel(s, x) <==> l in s || l == x
  {
    if s != [] && s[|s| - 1].level > x.level {
      InsertMembers(s[..|s| - 1], x);
      assert s == s[..|s| - 1] + [s[|s| - 1]];
    }
  }

  lemma {:induction false} InsertAscends(s: seq<LevelRate>, x: LevelRate)
    requires Ascending(s, false)
    ensures Ascending(InsertByLevel(s, x), false)
    ensures Ascending(InsertByLevel(s, x), true) <==> Ascending(s, true) && !HasLevel(s, x.level)
  {
    if s != [] {
      var front, last := s[..|s| - 1], s[|s| - 1];
      assert s == front + [last];
      if last.level <= x.level {
        assert (s + [x])[..|s|] == s;
      } else {
        InsertAscends(front, x);
        InsertMembers(front, x);
        var r := InsertByLevel(front, x);
        assert (r + [last])[..|r|] == r;
      }
    }
  }

  lemma {:induction false} InsertRateSum(s: seq<LevelRate>, x: LevelRate)
    ensures RateSum(InsertByLevel(s, x)) == RateSum(s) + x.rateBps
  {
    if s == [] || s[|s| - 1].level <= x.level {
      assert (s + [x])[..|s|] == s;
    } else {
      InsertRateSum(s[..|s| - 1], x);
      var r := InsertByLevel(s[..|s| - 1], x);
      assert (r + [s[|s| - 1]])[..|r|] == r;
    }
  }

  lemma {:induction false} SortMembers(levels: seq<LevelRate>)
    ensures |SortByLevel(levels)| == |levels|
    ensures forall l :: l in SortByLevel(levels) <==> l in levels
    ensures RateSum(SortByLevel(levels)) == RateSum(levels)
  {
    if levels != [] {
      var front, last := levels[..|levels| - 1], levels[|levels| - 1];
      SortMembers(front);
      InsertMembers(SortByLevel(front), last);
      InsertRateSum(SortByLevel(front), last);
      assert levels == front + [last];
    }
  }

  lemma {:induction false} SortAscends(levels: seq<LevelRate>)
    ensures Ascending(SortByLevel(levels), false)
    ensures Ascending(SortByLevel(levels), true) <==> DistinctLevels(levels)
  {
    if levels != [] {
      var front, last := levels[..|levels| - 1], levels[|levels| - 1];
      SortAscends(front);
      SortMembers(front);
      SameLevels(SortByLevel(front), front, last.level);
      InsertAscends(SortByLevel(front), last);
      DistinctLast(levels);
    }
  }

  lemma SameLevels(a: seq<LevelRate>, b: seq<LevelRate>, n: nat)
    requires forall l :: l in a <==> l in b
    ensures HasLevel(a, n) <==> HasLevel(b, n)
  {}

  lemma DistinctLast(levels: seq<LevelRate>)
    requires levels != []
    ensures var front, last := levels[..|levels| - 1], levels[|levels| - 1];
            DistinctLevels(levels) <==> DistinctLevels(front) && !HasLevel(front, last.level)
  {
    DistinctStep(levels, |levels| - 1);
    assert levels[..|levels| - 1 + 1] == levels;
  }

  /**
   Sorting only rearranges: same entries, same number of them, same sum of rates, ascending levels -
   strictly ascending exactly when no level was repeated.
   */
  lemma SortKeeps(levels: seq<LevelRate>)
    ensures Ascending(SortByLevel(levels), false)
    ensures |SortByLevel(levels)| == |levels|
    ensures forall l :: l in SortByLevel(levels) <==> l in levels
    ensures RateSum(SortByLevel(levels)) == RateSum(levels)
    ensures Ascending(SortByLevel(levels), true) <==> DistinctLevels(levels)
  {
    SortMembers(levels);
    SortAscends(levels);
  }

  /** What the plan schema accepts. */
  datatype PlanInput = PlanInput(poolRateBps: Bps, depth: nat, levels: seq<LevelRate>)

  datatype PlanIssue = DuplicateLevel(level: nat) | SellerMissing | Gap | SumExceedsPool

  /**
   The schema's refinement: it reports nothing exactly when the levels are 0..depth-1, each once,
   and their rates fit the pool.
   */
  method ValidatePlan(plan: PlanInput) returns (issues: seq<PlanIssue>)
    requires plan.depth >= 1
    ensures issues == [] <==>
            && CoversDepth(plan.levels, plan.depth)
            && RateSum(plan.levels) <= plan.poolRateBps
    ensures forall n :: DuplicateLevel(n) in issues <==> RepeatsLevel(plan.levels, n)
    ensures SellerMissing in issues <==> !HasLevel(plan.levels, 0)
    ensures Gap in issues <==> !CoversDepth(plan.levels, plan.depth)
    ensures SumExceedsPool in issues <==> RateSum(plan.levels) > plan.poolRateBps
  {
    issues := [];
    var sorted := SortByLevel(plan.levels);
    var seen: set<nat> := {};
    for i := 0 to |plan.levels|
      invariant seen == set j | 0 <= j < i :: plan.levels[j].level
      invariant RepetitionsReported(issues, plan.levels[..i]) == true
    {
      var l := plan.levels[i].level;
      ReportStep(issues, plan.levels, i);
      if l in seen {
        issues := issues + [DuplicateLevel(l)];
      }
      seen := seen + {l};
    }
    assert plan.levels[..|plan.levels|] == plan.levels;
    assert 0 in seen <==> HasLevel(plan.levels, 0);
    ghost var repetitions := issues;
    if 0 !in seen {
      issues := issues + [SellerMissing];
    }
    GapFound(plan.levels, sorted, plan.depth);
    if |sorted| != plan.depth || exists i :: 0 <= i < |sorted| && sorted[i].level != i {
      issues := issues + [Gap];
    }
    if RateSum(plan.levels) > plan.poolRateBps {
      issues := issues + [SumExceedsPool];
    }
    IssuesMean(plan, repetitions, issues);
  }

  /** The issues so far are the repetitions among the levels so far. */
  ghost predicate RepetitionsReported(issues: seq<PlanIssue>, levels: seq<LevelRate>) {
    && (issues == [] <==> DistinctLevels(levels))
    && (forall n :: DuplicateLevel(n) in issues <==> RepeatsLevel(levels, n))
    && (forall x :: x in issues ==> x.DuplicateLevel?)
  }

  lemma ReportStep(issues: seq<PlanIssue>, levels: seq<LevelRate>, i: nat)
    requires i < |levels| && RepetitionsReported(issues, levels[..i])
    ensures var l := levels[i].level;
            RepetitionsReported(
              if l in set j | 0 <= j < i :: levels[j].level then issues + [DuplicateLevel(l)] else issues, levels[..i + 1])
  {
    DistinctStep(levels, i);
    RepeatsStep(levels, i);
  }

  /** What the four rules report together. */
  lemma IssuesMean(plan: PlanInput, repetitions: seq<PlanIssue>, issues: seq<PlanIssue>)
    requires plan.depth >= 1 && RepetitionsReported(repetitions, plan.levels)
    requires issues == repetitions
                       + (if HasLevel(plan.levels, 0) then [] else [SellerMissing])
                       + (if CoversDepth(plan.levels, plan.depth) then [] else [Gap])
                       + (if RateSum(plan.levels) > plan.poolRateBps then [SumExceedsPool] else [])
    ensures issues == [] <==> CoversDepth(plan.levels, plan.depth) && RateSum(plan.levels) <= plan.poolRateBps
    ensures forall n :: DuplicateLevel(n) in issues <==> RepeatsLevel(plan.levels, n)
    ensures SellerMissing in issues <==> !HasLevel(plan.levels, 0)
    ensures Gap in issues <==> !CoversDepth(plan.levels, plan.depth)
    ensures SumExceedsPool in issues <==> RateSum(plan.levels) > plan.poolRateBps
  {}

  /** The level occurs at two places. */
  ghost predicate RepeatsLevel(levels: seq<LevelRate>, n: nat) {
    exists i, j :: 0 <= i < j < |levels| && levels[i].level == n && levels[j].level == n
  }

  /** The levels are 0..depth-1, each once. */
  ghost predicate CoversDepth(levels: seq<LevelRate>, depth: nat) {
    |levels| == depth && DistinctLevels(levels) && forall i :: 0 <= i < depth ==> HasLevel(levels, i)
  }

  lemma RepeatsStep(levels: seq<LevelRate>, i: nat)
    requires i < |levels|
    ensures var seen := set j | 0 <= j < i :: levels[j].level;
            forall n :: RepeatsLevel(levels[..i + 1], n) <==>
              RepeatsLevel(levels[..i], n) || (n == levels[i].level && levels[i].level in seen)
  {
    var s, front := levels[..i + 1], levels[..i];
    assert forall j :: 0 <= j < i ==> s[j] == front[j] == levels[j];
    forall n ensures RepeatsLevel(s, n) <==> RepeatsLevel(front, n) || (n == levels[i].level && levels[i].level in set j | 0 <= j < i :: levels[j].level) {
      if a, b :| 0 <= a < b < |s| && s[a].level == n && s[b].level == n {
        if b < i {
          assert front[a].level == n && front[b].level == n;
        }
      }
      if a, b :| 0 <= a < b < |front| && front[a].level == n && front[b].level == n {
        assert s[a].level == n && s[b].level == n;
      }
      if n == levels[i].level && levels[i].level in set j | 0 <= j < i :: levels[j].level {
        var j :| 0 <= j < i && levels[j].level == n;
        assert s[j].level == n && s[i].level == n;
      }
    }
  }

  lemma DistinctStep(levels: seq<LevelRate>, i: nat)
    requires i < |levels|
    ensures DistinctLevels(levels[..i + 1]) <==>
            DistinctLevels(levels[..i]) && !HasLevel(levels[..i], levels[i].level)
    ensures HasLevel(levels[..i], levels[i].level) <==> levels[i].level in set j | 0 <= j < i :: levels[j].level
  {
    var s, front := levels[..i + 1], levels[..i];
    assert forall j :: 0 <= j < i ==> s[j] == front[j] == levels[j];
    if HasLevel(front, levels[i].level) {
      var l :| l in front && l.level == levels[i].level;
      var j :| 0 <= j < i && front[j] == l;
      assert s[j].level == s[i].level;
    } else {
      forall j | 0 <= j < i ensures levels[j].level != levels[i].level {
        assert front[j] in front;
      }
    }
  }

  /** The sorted list is 0, 1, 2, ... exactly when every level below the depth occurs, and once. */
  lemma GapTest(levels: seq<LevelRate>, depth: nat)
    ensures (|SortByLevel(levels)| == depth && forall i :: 0 <= i < depth ==> SortByLevel(levels)[i].level == i)
            <==>
            CoversDepth(levels, depth)
  {
    SortKeeps(levels);
    var s := SortByLevel(levels);
    if |s| == depth && forall i :: 0 <= i < depth ==> s[i].level == i {
      forall i | 0 <= i < depth ensures HasLevel(levels, i) {
        assert s[i] in levels;
      }
      RangeAscends(s);
    }
    if |levels| == depth && DistinctLevels(levels) && forall i :: 0 <= i < depth ==> HasLevel(levels, i) {
      forall i | 0 <= i < depth ensures HasLevel(s, i) {
        assert HasLevel(levels, i);
      }
      StrictIsIdentity(s, depth);
    }
  }

  /** So the schema's comparison with the index finds a gap exactly when they do not. */
  lemma GapFound(levels: seq<LevelRate>, sorted: seq<LevelRate>, depth: nat)
    requires sorted == SortByLevel(levels)
    ensures (|sorted| != depth || exists i :: 0 <= i < |sorted| && sorted[i].level != i) <==> !CoversDepth(levels, depth)
  {
    GapTest(levels, depth);
  }

  lemma {:induction false} RangeAscends(s: seq<LevelRate>)
    requires forall i :: 0 <= i < |s| ==> s[i].level == i
    ensures Ascending(s, true)
  {
    if s != [] {
      RangeAscends(s[..|s| - 1]);
    }
  }

  /** A strictly ascending list of `depth` levels that contains 0..depth-1 is that range. */
  lemma StrictIsIdentity(s: seq<LevelRate>, depth: nat)
    requires |s| == depth && Ascending(s, true)
    requires forall i :: 0 <= i < depth ==> HasLevel(s, i)
    ensures forall i :: 0 <= i < depth ==> s[i].level == i
  {
    var n := 0;
    while n < depth
      invariant n <= depth
      invariant forall i :: 0 <= i < n ==> s[i].level == i
    {
      assert HasLevel(s, n);
      var l :| l in s && l.level == n;
      var j :| 0 <= j < |s| && s[j] == l;
      if n < j {
        AscendingPairs(s, true, n, j);
      }
      if 0 < n {
        AscendingPairs(s, true, n - 1, n);
      }
      n := n + 1;
    }
  }

  // ------------------------------------------------------------------ chain

  datatype Upline = Upline(id: MemberId, active: bool)

  datatype TenantPolicy = TenantPolicy(
    requireSeparateApprover: bool, compressionEnabled: bool, inactiveMembersEarn: bool,
    maturationRule: MaturationRule, maturationDays: nat, payoutMinCents: int)

  datatype MaturationRule = OnApproval | OnDelivery | DaysAfterApproval | DaysAfterDelivery

  function ActiveOnly(us: seq<Upline>): seq<Option<MemberId>> {
    if us == [] then []
    else ActiveOnly(us[..|us| - 1]) + (if us[|us| - 1].active then [Some(us[|us| - 1].id)] else [])
  }

  /** The chain the base plan pays: compressed, masked, or as it is. `None` is the blank entry. */
  function EffectiveBaseChain(raw: seq<Upline>, t: TenantPolicy): seq<Option<MemberId>> {
    if raw == [] then []
    else if t.compressionEnabled then [Some(raw[0].id)] + ActiveOnly(raw[1..])
    else if !t.inactiveMembersEarn then
      [Some(raw[0].id)] + seq(|raw| - 1, i requires 0 <= i < |raw| - 1 =>
        if raw[i + 1].active then Some(raw[i + 1].id) else None)
    else seq(|raw|, i requires 0 <= i < |raw| => Some(raw[i].id))
  }

  // ------------------------------------------------------------------ lines

  /** One commission row before it is written. */
  datatype Line = Line(level: nat, member: MemberId, rateBps: Bps, amount: nat)

  function Distributed(lines: seq<Line>): nat {
    if lines == [] then 0 else Distributed(lines[..|lines| - 1]) + lines[|lines| - 1].amount
  }

  /** The row for one level, or none when the chain has no member there or the cents round to zero. */
  function LineFor(amount: nat, l: LevelRate, chain: seq<Option<MemberId>>): seq<Line> {
    if l.level < |chain| && chain[l.level].Some? && BpsAmount(amount, l.rateBps) > 0
    then [Line(l.level, chain[l.level].value, l.rateBps, BpsAmount(amount, l.rateBps))]
    else []
  }

  function LinesFrom(amount: nat, sorted: seq<LevelRate>, chain: seq<Option<MemberId>>): seq<Line> {
    if sorted == [] then []
    else LinesFrom(amount, sorted[..|sorted| - 1], chain) + LineFor(amount, sorted[|sorted| - 1], chain)
  }

  function CommissionLines(amount: nat, levels: seq<LevelRate>, chain: seq<Option<MemberId>>): seq<Line> {
    LinesFrom(amount, SortByLevel(levels), chain)
  }

  method ComputeCommissionLines(amount: nat, levels: seq<LevelRate>, chain: seq<Option<MemberId>>)
    returns (lines: seq<Line>)
    ensures lines == CommissionLines(amount, levels, chain)
  {
    lines := [];
    var sorted := SortByLevel(levels);
    for i := 0 to |sorted|
      invariant lines == LinesFrom(amount, sorted[..i], chain)
    {
      assert sorted[..i + 1][..i] == sorted[..i];
      var l := sorted[i];
      if l.level < |chain| && chain[l.level].Some? {
        var cents := BpsAmount(amount, l.rateBps);
        if cents > 0 {
          lines := lines + [Line(l.level, chain[l.level].value, l.rateBps, cents)];
        }
      }
    }
    assert sorted[..|sorted|] == sorted;
  }

  /** A line pays the member of its level, at the floor of its rate, and never zero cents. */
  ghost predicate PaysLevel(line: Line, amount: nat, levels: seq<LevelRate>, chain: seq<Option<MemberId>>) {
    && LevelRate(line.level, line.rateBps) in levels
    && line.level < |chain| && chain[line.level] == Some(line.member)
    && line.amount == BpsAmount(amount, line.rateBps) > 0
  }

  lemma {:induction false} LinesFromMeaning(amount: nat, sorted: seq<LevelRate>, chain: seq<Option<MemberId>>)
    ensures forall x :: x in LinesFrom(amount, sorted, chain) <==> PaysLevel(x, amount, sorted, chain)
  {
    if sorted != [] {
      var front, last := sorted[..|sorted| - 1], sorted[|sorted| - 1];
      LinesFromMeaning(amount, front, chain);
      assert sorted == front + [last];
      forall x ensures x in LinesFrom(amount, sorted, chain) <==> PaysLevel(x, amount, sorted, chain) {
        assert x in LinesFrom(amount, sorted, chain) <==>
               x in LinesFrom(amount, front, chain) || x in LineFor(amount, last, chain);
        assert x in LineFor(amount, last, chain) <==>
               PaysLevel(x, amount, sorted, chain) && LevelRate(x.level, x.rateBps) == last;
      }
    }
  }

  /**
   The distributed rows are exactly the levels that have a member and at least one cent: a missing
   upline's share goes to nobody.
   */
  lemma LinesMeaning(amount: nat, levels: seq<LevelRate>, chain: seq<Option<MemberId>>)
    ensures forall x :: x in CommissionLines(amount, levels, chain) <==> PaysLevel(x, amount, levels, chain)
  {
    SortKeeps(levels);
    LinesFromMeaning(amount, SortByLevel(levels), chain);
  }

  ghost predicate AscendingLevels(lines: seq<Line>) {
    forall i, j :: 0 <= i < j < |lines| ==> lines[i].level < lines[j].level
  }

  lemma {:induction false} LinesFromAscend(amount: nat, sorted: seq<LevelRate>, chain: seq<Option<MemberId>>)
    requires Ascending(sorted, true)
    ensures AscendingLevels(LinesFrom(amount, sorted, chain))
  {
    if sorted != [] {
      var front := sorted[..|sorted| - 1];
      LinesFromAscend(amount, front, chain);
      LinesFromMeaning(amount, front, chain);
      var lines := LinesFrom(amount, front, chain);
      assert forall i :: 0 <= i < |lines| ==> lines[i] in lines;
    }
  }

  // ------------------------------------------------------------------ who is paid

  lemma {:induction false} ActiveOnlyMembers(us: seq<Upline>)
    ensures forall i :: 0 <= i < |ActiveOnly(us)| ==>
              ActiveOnly(us)[i].Some? && exists j :: 0 <= j < |us| && us[j] == Upline(ActiveOnly(us)[i].value, true)
  {
    if us != [] {
      var front := us[..|us| - 1];
      ActiveOnlyMembers(front);
      var r := ActiveOnly(us);
      forall i | 0 <= i < |r| ensures r[i].Some? && exists j :: 0 <= j < |us| && us[j] == Upline(r[i].value, true) {
        if i < |ActiveOnly(front)| {
          var j :| 0 <= j < |front| && front[j] == Upline(r[i].value, true);
          assert us[j] == Upline(r[i].value, true);
        } else {
          assert us[|us| - 1] == Upline(r[i].value, true);
        }
      }
    }
  }

  ghost predicate ActiveUpline(raw: seq<Upline>, m: MemberId) {
    exists j :: 1 <= j < |raw| && raw[j] == Upline(m, true)
  }

  /**
   Whom a level can pay. Level 0 is the seller. Above it, an inactive upline is paid only by a tenant
   that neither compresses nor masks; without compression every member stands at its own distance.
   */
  lemma PaidMembers(raw: seq<Upline>, t: TenantPolicy, level: nat, m: MemberId)
    requires level < |EffectiveBaseChain(raw, t)| && EffectiveBaseChain(raw, t)[level] == Some(m)
    ensures raw != [] && (level == 0 ==> m == raw[0].id)
    ensures level > 0 && (t.compressionEnabled || !t.inactiveMembersEarn) ==> ActiveUpline(raw, m)
    ensures !t.compressionEnabled ==> level < |raw| && m == raw[level].id
  {
    if t.compressionEnabled && level > 0 {
      ActiveOnlyMembers(raw[1..]);
      var j :| 0 <= j < |raw[1..]| && raw[1..][j] == Upline(m, true);
      assert raw[j + 1] == Upline(m, true);
    } else if level > 0 && !t.inactiveMembersEarn {
      assert raw[level] == Upline(m, true);
    }
  }

  // ------------------------------------------------------------------ floor sums

  lemma Distribute(a: int, b: int, c: int)
    ensures a * (b + c) == a * b + a * c
  {}

  lemma Monotone(a: nat, b: nat, c: nat)
    requires b <= c
    ensures a * b <= a * c && b * a <= c * a
  {}

  lemma DistributedAppend(a: seq<Line>, b: seq<Line>)
    ensures Distributed(a + b) == Distributed(a) + Distributed(b)
  {
    if b == [] {
      assert a + b == a;
    } else {
      DistributedAppend(a, b[..|b| - 1]);
      assert (a + b)[..|a + b| - 1] == a + b[..|b| - 1];
    }
  }

  /** A single optional row distributes what it says. */
  lemma DistributedOne(lines: seq<Line>)
    requires |lines| <= 1
    ensures Distributed(lines) == if lines == [] then 0 else lines[0].amount
  {
    if lines != [] {
      assert lines[..0] == [];
    }
  }

  /** One level pays the floor of its rate or nothing; with a member it loses less than a cent. */
  lemma LineFloor(amount: nat, l: LevelRate, chain: seq<Option<MemberId>>)
    ensures Distributed(LineFor(amount, l, chain)) * 10_000 <= amount * l.rateBps
    ensures l.level < |chain| && chain[l.level].Some? ==>
              amount * l.rateBps < (Distributed(LineFor(amount, l, chain)) + 1) * 10_000
  {
    DistributedOne(LineFor(amount, l, chain));
    var cents := BpsAmount(amount, l.rateBps);
    Monotone(amount, 0, l.rateBps);
  }

  /** Flooring level by level only loses money. */
  lemma {:induction false} LinesFloorSum(amount: nat, sorted: seq<LevelRate>, chain: seq<Option<MemberId>>)
    ensures Distributed(LinesFrom(amount, sorted, chain)) * 10_000 <= amount * RateSum(sorted)
  {
    if sorted != [] {
      var front, last := sorted[..|sorted| - 1], sorted[|sorted| - 1];
      LinesFloorSum(amount, front, chain);
      LineFloor(amount, last, chain);
      DistributedAppend(LinesFrom(amount, front, chain), LineFor(amount, last, chain));
      Distribute(amount, RateSum(front), last.rateBps);
    }
  }

  /** When every level has a member, rounding keeps back less than one cent a level. */
  lemma {:induction false} LinesFloorLoss(amount: nat, sorted: seq<LevelRate>, chain: seq<Option<MemberId>>)
    requires forall i :: 0 <= i < |sorted| ==> sorted[i].level < |chain| && chain[sorted[i].level].Some?
    ensures amount * RateSum(sorted) <= (Distributed(LinesFrom(amount, sorted, chain)) + |sorted|) * 10_000
  {
    if sorted != [] {
      var front, last := sorted[..|sorted| - 1], sorted[|sorted| - 1];
      LinesFloorLoss(amount, front, chain);
      LineFloor(amount, last, chain);
      DistributedAppend(LinesFrom(amount, front, chain), LineFor(amount, last, chain));
      Distribute(amount, RateSum(front), last.rateBps);
    }
  }

  // ------------------------------------------------------------------ bonus layers

  /** Member who receives fast-start and matching: the real sponsor, when the tenant lets it earn. */
  function BonusSponsor(raw: seq<Upline>, t: TenantPolicy): Option<MemberId> {
    if |raw| > 1 && (t.inactiveMembersEarn || raw[1].active) then Some(raw[1].id) else None
  }

  function Bonus(level: nat, sponsor: MemberId, rate: Bps, cents: nat): seq<Line> {
    if cents > 0 then [Line(level, sponsor, rate, cents)] else []
  }

  /** A share of the sale for the sponsor of a seller who is still in its first days. */
  function FastStartLines(amount: nat, plan: Plan, raw: seq<Upline>, t: TenantPolicy, saleDate: int,
                          sellerJoinedAt: Option<int>): seq<Line> {
    var sponsor := BonusSponsor(raw, t);
    if sponsor.Some? && plan.fastStartBps > 0 && plan.fastStartDays > 0 && sellerJoinedAt.Some?
       && saleDate - sellerJoinedAt.value <= plan.fastStartDays * DAY_MS
    then Bonus(FAST_START_LEVEL, sponsor.value, plan.fastStartBps, BpsAmount(amount, plan.fastStartBps))
    else []
  }

  /** A share of the first base line, which need not be level 0. */
  function MatchingLines(plan: Plan, raw: seq<Upline>, t: TenantPolicy, base: seq<Line>): seq<Line> {
    var sponsor := BonusSponsor(raw, t);
    if sponsor.Some? && plan.matchingBps > 0 && base != []
    then Bonus(MATCHING_LEVEL, sponsor.value, plan.matchingBps, BpsAmount(base[0].amount, plan.matchingBps))
    else []
  }

  function BonusLines(amount: nat, plan: Plan, raw: seq<Upline>, t: TenantPolicy, saleDate: int,
                      sellerJoinedAt: Option<int>, base: seq<Line>): seq<Line> {
    FastStartLines(amount, plan, raw, t, saleDate, sellerJoinedAt) + MatchingLines(plan, raw, t, base)
  }

  function OverrideLines(amount: nat, overrideBps: Bps, seller: MemberId): seq<Line> {
    if overrideBps > 0 then Bonus(OVERRIDE_LEVEL, seller, overrideBps, BpsAmount(amount, overrideBps)) else []
  }

  // ------------------------------------------------------------------ ranks

  datatype Tier = Tier(minTeam: nat, minEarnings: int, overrideBps: Bps)

  /** The built-in ladder; its overrides are all zero. */
  const DEFAULT_TIERS: seq<Tier> :=
    [Tier(0, 0, 0), Tier(3, 100_000, 0), Tier(10, 1_000_000, 0), Tier(25, 5_000_000, 0)]

  function EffectiveTiers(custom: seq<Tier>): seq<Tier> {
    if custom == [] then DEFAULT_TIERS else custom
  }

  predicate Reaches(t: Tier, team: nat, earnings: int) {
    team >= t.minTeam && earnings >= t.minEarnings
  }

  /** The last tier in ladder order whose two thresholds are met. */
  function TierReached(tiers: seq<Tier>, team: nat, earnings: int): Option<Tier> {
    if tiers == [] then None
    else if Reaches(tiers[|tiers| - 1], team, earnings) then Some(tiers[|tiers| - 1])
    else TierReached(tiers[..|tiers| - 1], team, earnings)
  }

  /** Tier `i` is reached and no later tier is. */
  predicate LastReached(tiers: seq<Tier>, team: nat, earnings: int, i: int) {
    && 0 <= i < |tiers| && Reaches(tiers[i], team, earnings)
    && forall j :: i < j < |tiers| ==> !Reaches(tiers[j], team, earnings)
  }

  method ResolveTier(tiers: seq<Tier>, team: nat, earnings: int) returns (current: Option<Tier>)
    ensures current == TierReached(tiers, team, earnings)
    ensures current.None? <==> forall i :: 0 <= i < |tiers| ==> !Reaches(tiers[i], team, earnings)
    ensures current.Some? ==> exists i :: LastReached(tiers, team, earnings, i) && tiers[i] == current.value
  {
    current := None;
    for n := 0 to |tiers|
      invariant current == TierReached(tiers[..n], team, earnings)
      invariant current.None? <==> forall i :: 0 <= i < n ==> !Reaches(tiers[i], team, earnings)
      invariant current.Some? ==> exists i :: LastReached(tiers[..n], team, earnings, i) && tiers[i] == current.value
    {
      assert tiers[..n + 1][..n] == tiers[..n];
      if Reaches(tiers[n], team, earnings) {
        current := Some(tiers[n]);
      }
    }
    assert tiers[..|tiers|] == tiers;
  }

  /** Override of the seller's tier; no tier (or no rank service, or no member) gives zero. */
  function OverrideBpsFor(tiers: seq<Tier>, team: Option<nat>, earnings: int): Bps {
    if team.None? then 0
    else match TierReached(EffectiveTiers(tiers), team.value, earnings)
      case None => 0
      case Some(t) => t.overrideBps
  }

  function MaxOverride(tiers: seq<Tier>): Bps {
    if tiers == [] then 0
    else
      var m := MaxOverride(tiers[..|tiers| - 1]);
      if tiers[|tiers| - 1].overrideBps > m then tiers[|tiers| - 1].overrideBps else m
  }

  lemma {:induction false} ReachedWithinMax(tiers: seq<Tier>, team: nat, earnings: int)
    ensures TierReached(tiers, team, earnings).Some? ==>
              TierReached(tiers, team, earnings).value.overrideBps <= MaxOverride(tiers)
  {
    if tiers != [] {
      ReachedWithinMax(tiers[..|tiers| - 1], team, earnings);
    }
  }

  /** No member can be on an override above the ladder's maximum, whatever its team and earnings. */
  lemma OverrideWithinMax(tiers: seq<Tier>, team: Option<nat>, earnings: int)
    ensures OverrideBpsFor(tiers, team, earnings) <= MaxOverride(EffectiveTiers(tiers))
  {
    if team.Some? {
      ReachedWithinMax(EffectiveTiers(tiers), team.value, earnings);
    }
  }

  // ------------------------------------------------------------------ the ceiling

  function CeilingBps(plan: Plan, tiers: seq<Tier>): nat {
    plan.poolRateBps + plan.fastStartBps + plan.matchingBps + MaxOverride(EffectiveTiers(tiers))
  }

  function CeilingCents(amount: nat, plan: Plan, tiers: seq<Tier>): nat {
    amount * CeilingBps(plan, tiers) / BPS_DENOMINATOR
  }

  /** A bonus on a basis no larger than the sale stays within its own rate on the sale. */
  lemma BonusFits(basis: nat, amount: nat, level: nat, sponsor: MemberId, rate: Bps)
    requires basis <= amount
    ensures Distributed(Bonus(level, sponsor, rate, BpsAmount(basis, rate))) * 10_000 <= amount * rate
  {
    DistributedOne(Bonus(level, sponsor, rate, BpsAmount(basis, rate)));
    Monotone(rate, basis, amount);
    Monotone(amount, 0, rate);
  }

  lemma NoLines()
    ensures Distributed([]) == 0
  {}

  lemma FastStartBound(amount: nat, plan: Plan, raw: seq<Upline>, t: TenantPolicy, saleDate: int, sellerJoinedAt: Option<int>)
    ensures Distributed(FastStartLines(amount, plan, raw, t, saleDate, sellerJoinedAt)) * 10_000 <= amount * plan.fastStartBps
  {
    NoLines();
    Monotone(amount, 0, plan.fastStartBps);
    var sponsor := BonusSponsor(raw, t);
    if sponsor.Some? {
      BonusFits(amount, amount, FAST_START_LEVEL, sponsor.value, plan.fastStartBps);
    }
  }

  lemma MatchingBound(amount: nat, plan: Plan, raw: seq<Upline>, t: TenantPolicy, base: seq<Line>)
    requires base != [] ==> base[0].amount <= amount
    ensures Distributed(MatchingLines(plan, raw, t, base)) * 10_000 <= amount * plan.matchingBps
  {
    NoLines();
    Monotone(amount, 0, plan.matchingBps);
    var sponsor := BonusSponsor(raw, t);
    if sponsor.Some? && base != [] {
      BonusFits(base[0].amount, amount, MATCHING_LEVEL, sponsor.value, plan.matchingBps);
    }
  }

  lemma BonusBound(amount: nat, plan: Plan, raw: seq<Upline>, t: TenantPolicy, saleDate: int,
                   sellerJoinedAt: Option<int>, base: seq<Line>)
    requires base != [] ==> base[0].amount <= amount
    ensures Distributed(BonusLines(amount, plan, raw, t, saleDate, sellerJoinedAt, base)) * 10_000
            <= amount * plan.fastStartBps + amount * plan.matchingBps
  {
    FastStartBound(amount, plan, raw, t, saleDate, sellerJoinedAt);
    MatchingBound(amount, plan, raw, t, base);
    DistributedAppend(FastStartLines(amount, plan, raw, t, saleDate, sellerJoinedAt), MatchingLines(plan, raw, t, base));
  }

  lemma OverrideBound(amount: nat, rate: Bps, seller: MemberId, most: nat)
    requires rate <= most
    ensures Distributed(OverrideLines(amount, rate, seller)) * 10_000 <= amount * most
  {
    NoLines();
    Monotone(amount, rate, most);
    Monotone(amount, 0, most);
    BonusFits(amount, amount, OVERRIDE_LEVEL, seller, rate);
  }

  lemma BaseBound(amount: nat, plan: StoredPlan, chain: seq<Option<MemberId>>)
    ensures Distributed(CommissionLines(amount, plan.levels, chain)) * 10_000 <= amount * plan.poolRateBps
    ensures CommissionLines(amount, plan.levels, chain) != [] ==> CommissionLines(amount, plan.levels, chain)[0].amount <= amount
  {
    var base := CommissionLines(amount, plan.levels, chain);
    SortKeeps(plan.levels);
    LinesFloorSum(amount, SortByLevel(plan.levels), chain);
    Monotone(amount, RateSum(plan.levels), plan.poolRateBps);
    LinesMeaning(amount, plan.levels, chain);
    assert base != [] ==> base[0] in base;
  }

  lemma CeilingArithmetic(amount: nat, pool: nat, fast: nat, matching: nat, most: nat, total: nat)
    requires total * 10_000 <= amount * pool + amount * fast + amount * matching + amount * most
    ensures total <= amount * (pool + fast + matching + most) / 10_000
  {
    Distribute(amount, pool + fast + matching, most);
    Distribute(amount, pool + fast, matching);
    Distribute(amount, pool, fast);
  }

  /** Parts within their rates are together within the ceiling. */
  lemma CeilingSum(amount: nat, plan: Plan, tiers: seq<Tier>, base: seq<Line>, bonus: seq<Line>, over: seq<Line>)
    requires Distributed(base) * 10_000 <= amount * plan.poolRateBps
    requires Distributed(bonus) * 10_000 <= amount * plan.fastStartBps + amount * plan.matchingBps
    requires Distributed(over) * 10_000 <= amount * MaxOverride(EffectiveTiers(tiers))
    ensures Distributed(base + bonus + over) <= CeilingCents(amount, plan, tiers)
  {
    DistributedAppend(base, bonus);
    DistributedAppend(base + bonus, over);
    CeilingArithmetic(amount, plan.poolRateBps, plan.fastStartBps, plan.matchingBps, MaxOverride(EffectiveTiers(tiers)),
                      Distributed(base + bonus + over));
  }

  /**
   The ceiling can never be exceeded: for every stored plan, sale amount, chain, tenant policy, rank
   ladder, team size and earnings, base lines, fast-start, matching and override together stay
   within the floor of the summed rates.
   */
  lemma CeilingNeverExceeded(amount: nat, plan: StoredPlan, raw: seq<Upline>, t: TenantPolicy, saleDate: int,
                             sellerJoinedAt: Option<int>, tiers: seq<Tier>, team: Option<nat>, earnings: int,
                             seller: MemberId)
    ensures
      var base := CommissionLines(amount, plan.levels, EffectiveBaseChain(raw, t));
      var bonus := BonusLines(amount, plan, raw, t, saleDate, sellerJoinedAt, base);
      var over := OverrideLines(amount, OverrideBpsFor(tiers, team, earnings), seller);
      Distributed(base + bonus + over) <= CeilingCents(amount, plan, tiers)
  {
    var base := CommissionLines(amount, plan.levels, EffectiveBaseChain(raw, t));
    var bonus := BonusLines(amount, plan, raw, t, saleDate, sellerJoinedAt, base);
    var over := OverrideLines(amount, OverrideBpsFor(tiers, team, earnings), seller);
    BaseBound(amount, plan, EffectiveBaseChain(raw, t));
    BonusBound(amount, plan, raw, t, saleDate, sellerJoinedAt, base);
    OverrideWithinMax(tiers, team, earnings);
    OverrideBound(amount, OverrideBpsFor(tiers, team, earnings), seller, MaxOverride(EffectiveTiers(tiers)));
    CeilingSum(amount, plan, tiers, base, bonus, over);
  }
}
