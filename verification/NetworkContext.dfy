/** The admin view: the breadth-first window, its clusters, and the counts it reports. */
module NetworkContext {
  import opened Prelude
  import opened Membership
  import opened Sums
  import opened Hierarchy

  // ------------------------------------------------------------------ the window

  /** Members of a list with one sponsor, in list order. */
  function Siblings(f: Forest, xs: seq<MemberUuid>, p: Option<MemberUuid>): seq<MemberUuid> {
    Filter(xs, IsChild(f, p))
  }

  /**
   One level of the window: the children of the frontier in key order, at most `limit` for each
   parent. The virtual parent None has the roots as children.
   */
  function LevelUpto(f: Forest, frontier: set<Option<MemberUuid>>, limit: nat, n: nat): seq<MemberUuid>
    requires n <= |f.order|
  {
    if n == 0 then []
    else
      var x := f.order[n - 1];
      LevelUpto(f, frontier, limit, n - 1)
      + (if x in f.rows && f.rows[x].sponsor in frontier && |Siblings(f, f.order[..n - 1], f.rows[x].sponsor)| < limit then [x] else [])
  }

  function ContextLevel(f: Forest, frontier: set<Option<MemberUuid>>, limit: nat): seq<MemberUuid> {
    LevelUpto(f, frontier, limit, |f.order|)
  }

  lemma {:induction false} LevelMembers(f: Forest, frontier: set<Option<MemberUuid>>, limit: nat, n: nat)
    requires n <= |f.order| && Distinct(f.order)
    ensures Distinct(LevelUpto(f, frontier, limit, n))
    ensures forall x :: x in LevelUpto(f, frontier, limit, n) ==> x in f.order[..n] && x in f.rows && f.rows[x].sponsor in frontier
  {
    if n > 0 {
      LevelMembers(f, frontier, limit, n - 1);
      var before, x := LevelUpto(f, frontier, limit, n - 1), f.order[n - 1];
      assert f.order[..n] == f.order[..n - 1] + [x];
      forall i | 0 <= i < |before| ensures before[i] != x {
        assert before[i] in f.order[..n - 1];
        var j :| 0 <= j < n - 1 && f.order[..n - 1][j] == before[i];
        assert f.order[j] != f.order[n - 1];
      }
    }
  }

  function Least(a: nat, b: nat): nat {
    if a <= b then a else b
  }

  lemma SiblingsStep(f: Forest, xs: seq<MemberUuid>, x: MemberUuid, p: Option<MemberUuid>)
    ensures Siblings(f, xs + [x], p) == if ChildOf(f, p, x) then Siblings(f, xs, p) + [x] else Siblings(f, xs, p)
  {
    assert (xs + [x])[..|xs|] == xs;
  }

  function Firsts(cs: seq<MemberUuid>, limit: nat): seq<MemberUuid> {
    cs[..Least(limit, |cs|)]
  }

  lemma FirstsStep(cs: seq<MemberUuid>, x: MemberUuid, limit: nat)
    ensures Firsts(cs + [x], limit) == if |cs| < limit then Firsts(cs, limit) + [x] else Firsts(cs, limit)
  {}

  lemma LevelStep(f: Forest, frontier: set<Option<MemberUuid>>, limit: nat, n: nat, p: Option<MemberUuid>)
    requires n < |f.order| && p in frontier
    ensures var before := Siblings(f, LevelUpto(f, frontier, limit, n), p);
            Siblings(f, LevelUpto(f, frontier, limit, n + 1), p)
            == if ChildOf(f, p, f.order[n]) && |Siblings(f, f.order[..n], p)| < limit then before + [f.order[n]] else before
  {
    var before := LevelUpto(f, frontier, limit, n);
    SiblingsStep(f, before, f.order[n], p);
    assert before + [] == before;
  }

  /** A level takes the first children of every frontier parent, up to the limit. */
  lemma {:induction false} LevelTakesFirst(f: Forest, frontier: set<Option<MemberUuid>>, limit: nat, n: nat, p: Option<MemberUuid>)
    requires n <= |f.order| && p in frontier
    ensures Siblings(f, LevelUpto(f, frontier, limit, n), p) == Firsts(Siblings(f, f.order[..n], p), limit)
  {
    if n == 0 {
      assert f.order[..n] == [];
    } else {
      var x, cs := f.order[n - 1], Siblings(f, f.order[..n - 1], p);
      assert f.order[..n] == f.order[..n - 1] + [x];
      LevelTakesFirst(f, frontier, limit, n - 1, p);
      LevelStep(f, frontier, limit, n - 1, p);
      SiblingsStep(f, f.order[..n - 1], x, p);
      FirstsStep(cs, x, limit);
    }
  }

  lemma {:induction false} NoSiblings(f: Forest, xs: seq<MemberUuid>, p: Option<MemberUuid>)
    requires forall x :: x in xs ==> !ChildOf(f, p, x)
    ensures Siblings(f, xs, p) == []
  {
    if xs != [] {
      assert xs[|xs| - 1] in xs;
      NoSiblings(f, xs[..|xs| - 1], p);
    }
  }

  lemma SiblingsOfPrefix(f: Forest, xs: seq<MemberUuid>, n: nat, p: Option<MemberUuid>)
    requires n <= |xs|
    ensures Siblings(f, xs[..n], p) <= Siblings(f, xs, p)
  {
    assert xs == xs[..n] + xs[n..];
    FilterAppend(xs[..n], xs[n..], IsChild(f, p));
  }

  /** The depth of the members that hang on a slot. */
  function SlotDepth(f: Forest, p: Option<MemberUuid>): nat {
    if p.Some? && p.value in f.rows then f.rows[p.value].depth + 1 else 0
  }

  function Slots(xs: seq<MemberUuid>): set<Option<MemberUuid>> {
    set x | x in xs :: Some(x)
  }

  /** For every parent, the listed children are the first ones in key order. */
  ghost predicate TakesFirst(f: Forest, loaded: seq<MemberUuid>) {
    forall p :: Siblings(f, loaded, p) <= ChildrenOf(f, p)
  }

  /** The frontier is the anchor or the last level, so nothing that hangs on it is loaded yet. */
  ghost predicate Frontier(f: Forest, anchor: Option<MemberUuid>, loaded: seq<MemberUuid>, frontier: set<Option<MemberUuid>>, deep: nat) {
    && (forall p :: p in frontier ==> SlotDepth(f, p) == deep && (p == anchor || (p.Some? && p.value in loaded)))
    && (forall x :: x in loaded ==> x in f.rows && SlotDepth(f, anchor) <= f.rows[x].depth < deep)
  }

  lemma WindowPush(f: Forest, anchor: Option<MemberUuid>, loaded: seq<MemberUuid>, c: MemberUuid)
    requires Window(f, anchor, loaded) && c !in loaded && anchor != Some(c) && Hangs(f, anchor, loaded, c)
    ensures Window(f, anchor, loaded + [c])
  {
    assert (loaded + [c])[..|loaded|] == loaded;
  }

  lemma DistinctLast(front: seq<MemberUuid>, last: MemberUuid)
    requires Distinct(front + [last])
    ensures Distinct(front) && last !in front
  {
    var xs := front + [last];
    assert forall i :: 0 <= i < |front| ==> xs[i] == front[i];
    forall i | 0 <= i < |front| ensures front[i] != last {
      assert xs[i] != xs[|front|];
    }
  }

  lemma {:induction false} WindowGrows(f: Forest, anchor: Option<MemberUuid>, loaded: seq<MemberUuid>, xs: seq<MemberUuid>)
    requires Window(f, anchor, loaded) && Distinct(xs)
    requires forall x :: x in xs ==> x !in loaded && anchor != Some(x) && Hangs(f, anchor, loaded, x)
    ensures Window(f, anchor, loaded + xs)
  {
    if xs == [] {
      assert loaded + xs == loaded;
    } else {
      var front, last := xs[..|xs| - 1], xs[|xs| - 1];
      assert xs == front + [last];
      assert last in xs;
      DistinctLast(front, last);
      WindowGrows(f, anchor, loaded, front);
      WindowPush(f, anchor, loaded + front, last);
      assert loaded + xs == loaded + front + [last];
    }
  }

  /** A level's members are one deeper than its frontier, hence new to the window. */
  lemma LevelIsNew(f: Forest, anchor: Option<MemberUuid>, loaded: seq<MemberUuid>, frontier: set<Option<MemberUuid>>, deep: nat, x: MemberUuid)
    requires Sound(f) && Anchor(f, anchor) && Window(f, anchor, loaded) && Frontier(f, anchor, loaded, frontier, deep)
    requires SlotDepth(f, anchor) <= deep && x in f.rows && f.rows[x].sponsor in frontier
    ensures f.rows[x].depth == deep && x !in loaded && anchor != Some(x) && Hangs(f, anchor, loaded, x)
  {
    assert PlacedAt(f.rows, x);
  }

  lemma AcceptedIsNew(f: Forest, anchor: Option<MemberUuid>, loaded: seq<MemberUuid>, frontier: set<Option<MemberUuid>>, deep: nat,
                      limit: nat, accepted: seq<MemberUuid>)
    requires Sound(f) && Anchor(f, anchor) && Window(f, anchor, loaded) && Frontier(f, anchor, loaded, frontier, deep)
    requires SlotDepth(f, anchor) <= deep && accepted <= ContextLevel(f, frontier, limit)
    ensures Distinct(accepted)
    ensures forall x :: x in accepted ==>
              x in f.rows && f.rows[x].depth == deep && x !in loaded && anchor != Some(x) && Hangs(f, anchor, loaded, x)
  {
    OrderDistinct(f);
    LevelMembers(f, frontier, limit, |f.order|);
    var level := ContextLevel(f, frontier, limit);
    assert accepted == level[..|accepted|];
    forall x | x in accepted ensures x in f.rows && f.rows[x].depth == deep && x !in loaded && anchor != Some(x) && Hangs(f, anchor, loaded, x) {
      assert x in level;
      LevelIsNew(f, anchor, loaded, frontier, deep, x);
    }
  }

  lemma FrontierMoves(f: Forest, anchor: Option<MemberUuid>, loaded: seq<MemberUuid>, frontier: set<Option<MemberUuid>>, deep: nat,
                      accepted: seq<MemberUuid>)
    requires Frontier(f, anchor, loaded, frontier, deep) && SlotDepth(f, anchor) <= deep
    requires forall x :: x in accepted ==> x in f.rows && f.rows[x].depth == deep
    ensures Frontier(f, anchor, loaded + accepted, Slots(accepted), deep + 1)
  {}

  /** Taking a level, cut to the remaining budget, extends the window and moves the frontier one deeper. */
  lemma LevelKeepsWindow(f: Forest, anchor: Option<MemberUuid>, loaded: seq<MemberUuid>, frontier: set<Option<MemberUuid>>, deep: nat,
                         limit: nat, accepted: seq<MemberUuid>)
    requires Sound(f) && Anchor(f, anchor) && Window(f, anchor, loaded) && Frontier(f, anchor, loaded, frontier, deep)
    requires SlotDepth(f, anchor) <= deep && accepted <= ContextLevel(f, frontier, limit)
    ensures Window(f, anchor, loaded + accepted)
    ensures Frontier(f, anchor, loaded + accepted, Slots(accepted), deep + 1)
  {
    AcceptedIsNew(f, anchor, loaded, frontier, deep, limit, accepted);
    WindowGrows(f, anchor, loaded, accepted);
    FrontierMoves(f, anchor, loaded, frontier, deep, accepted);
  }

  lemma LevelKeepsFirst(f: Forest, anchor: Option<MemberUuid>, loaded: seq<MemberUuid>, frontier: set<Option<MemberUuid>>, deep: nat,
                        limit: nat, accepted: seq<MemberUuid>)
    requires Sound(f) && Anchor(f, anchor) && Frontier(f, anchor, loaded, frontier, deep) && TakesFirst(f, loaded)
    requires accepted <= ContextLevel(f, frontier, limit)
    ensures TakesFirst(f, loaded + accepted)
  {
    forall p ensures Siblings(f, loaded + accepted, p) <= ChildrenOf(f, p) {
      LevelPrefix(f, anchor, loaded, frontier, deep, limit, accepted, p);
    }
  }

  lemma LevelPrefixInside(f: Forest, frontier: set<Option<MemberUuid>>, limit: nat, accepted: seq<MemberUuid>, p: Option<MemberUuid>)
    requires accepted <= ContextLevel(f, frontier, limit) && p in frontier
    ensures Siblings(f, accepted, p) <= ChildrenOf(f, p)
  {
    var level := ContextLevel(f, frontier, limit);
    assert accepted == level[..|accepted|];
    LevelTakesFirst(f, frontier, limit, |f.order|, p);
    assert f.order[..|f.order|] == f.order;
    SiblingsOfPrefix(f, level, |accepted|, p);
  }

  lemma LevelPrefixOutside(f: Forest, frontier: set<Option<MemberUuid>>, limit: nat, accepted: seq<MemberUuid>, p: Option<MemberUuid>)
    requires Sound(f) && accepted <= ContextLevel(f, frontier, limit) && p !in frontier
    ensures Siblings(f, accepted, p) == []
  {
    var level := ContextLevel(f, frontier, limit);
    OrderDistinct(f);
    LevelMembers(f, frontier, limit, |f.order|);
    forall x | x in accepted ensures !ChildOf(f, p, x) {
      assert x in level;
    }
    NoSiblings(f, accepted, p);
  }

  lemma NothingLoadedYet(f: Forest, anchor: Option<MemberUuid>, loaded: seq<MemberUuid>, frontier: set<Option<MemberUuid>>, deep: nat, p: Option<MemberUuid>)
    requires Sound(f) && Frontier(f, anchor, loaded, frontier, deep) && p in frontier
    ensures Siblings(f, loaded, p) == []
  {
    forall x | x in loaded ensures !ChildOf(f, p, x) {
      assert PlacedAt(f.rows, x);
    }
    NoSiblings(f, loaded, p);
  }

  lemma LevelPrefix(f: Forest, anchor: Option<MemberUuid>, loaded: seq<MemberUuid>, frontier: set<Option<MemberUuid>>, deep: nat,
                    limit: nat, accepted: seq<MemberUuid>, p: Option<MemberUuid>)
    requires Sound(f) && Frontier(f, anchor, loaded, frontier, deep) && Siblings(f, loaded, p) <= ChildrenOf(f, p)
    requires accepted <= ContextLevel(f, frontier, limit)
    ensures Siblings(f, loaded + accepted, p) <= ChildrenOf(f, p)
  {
    FilterAppend(loaded, accepted, IsChild(f, p));
    if p in frontier {
      NothingLoadedYet(f, anchor, loaded, frontier, deep, p);
      LevelPrefixInside(f, frontier, limit, accepted, p);
    } else {
      LevelPrefixOutside(f, frontier, limit, accepted, p);
    }
  }

  /** The tier shown for a member: 1 for the roots, or for the focus itself. */
  function Tier(f: Forest, anchor: Option<MemberUuid>, x: MemberUuid): int {
    if x !in f.rows then 0
    else if anchor.Some? && anchor.value in f.rows then f.rows[x].depth - f.rows[anchor.value].depth + 1
    else f.rows[x].depth + 1
  }

  /** The state of the level loop. */
  ghost predicate Reading(f: Forest, anchor: Option<MemberUuid>, loaded: seq<MemberUuid>, frontier: set<Option<MemberUuid>>, deep: nat) {
    && Window(f, anchor, loaded) && TakesFirst(f, loaded)
    && Frontier(f, anchor, loaded, frontier, deep) && SlotDepth(f, anchor) <= deep
  }

  lemma ReadingStarts(f: Forest, anchor: Option<MemberUuid>)
    requires Sound(f) && Anchor(f, anchor)
    ensures Reading(f, anchor, [], {anchor}, SlotDepth(f, anchor))
  {
    forall p ensures Siblings(f, [], p) <= ChildrenOf(f, p) {}
  }

  lemma ReadingStep(f: Forest, anchor: Option<MemberUuid>, loaded: seq<MemberUuid>, frontier: set<Option<MemberUuid>>, deep: nat,
                    limit: nat, accepted: seq<MemberUuid>)
    requires Sound(f) && Anchor(f, anchor) && Reading(f, anchor, loaded, frontier, deep)
    requires accepted <= ContextLevel(f, frontier, limit)
    ensures Reading(f, anchor, loaded + accepted, Slots(accepted), deep + 1)
  {
    LevelKeepsWindow(f, anchor, loaded, frontier, deep, limit, accepted);
    LevelKeepsFirst(f, anchor, loaded, frontier, deep, limit, accepted);
  }

  /** What the window promises: it grows from the anchor, takes first children first, and stays within the tiers. */
  ghost predicate ReadWindow(f: Forest, anchor: Option<MemberUuid>, depth: nat, loaded: seq<MemberUuid>) {
    && Window(f, anchor, loaded) && TakesFirst(f, loaded)
    && (forall x :: x in loaded ==> x in f.rows && Tier(f, anchor, x) <= depth)
  }

  lemma ReadingDone(f: Forest, anchor: Option<MemberUuid>, depth: nat, loaded: seq<MemberUuid>, frontier: set<Option<MemberUuid>>, deep: nat, localTier: nat)
    requires Anchor(f, anchor) && Reading(f, anchor, loaded, frontier, deep)
    requires localTier <= depth + 1 || loaded == []
    requires deep + FirstTier(anchor) == SlotDepth(f, anchor) + localTier
    ensures ReadWindow(f, anchor, depth, loaded)
  {}

  function FirstTier(anchor: Option<MemberUuid>): nat {
    if anchor.Some? then 2 else 1
  }

  /** One round: the children of the frontier, PAGE_SIZE a parent, cut to what the budget leaves. */
  function NextLevel(f: Forest, frontier: set<Option<MemberUuid>>, remaining: nat): (accepted: seq<MemberUuid>)
    ensures |accepted| <= remaining && accepted <= ContextLevel(f, frontier, Least(PAGE_SIZE, remaining))
  {
    var level := ContextLevel(f, frontier, Least(PAGE_SIZE, remaining));
    level[..Least(remaining, |level|)]
  }

  function ReadLevels(f: Forest, loaded: seq<MemberUuid>, frontier: set<Option<MemberUuid>>, localTier: nat, depth: nat, budget: nat): seq<MemberUuid>
    decreases depth + 1 - localTier
  {
    if localTier <= depth && |loaded| < budget && frontier != {} then
      var accepted := NextLevel(f, frontier, budget - |loaded|);
      ReadLevels(f, loaded + accepted, Slots(accepted), localTier + 1, depth, budget)
    else loaded
  }

  /** Breadth first from the anchor, tier by tier. */
  method ReadContextMembers(f: Forest, anchor: Option<MemberUuid>, depth: nat, budget: nat) returns (loaded: seq<MemberUuid>)
    ensures loaded == ReadLevels(f, [], {anchor}, FirstTier(anchor), depth, budget)
    ensures Sound(f) && Anchor(f, anchor) ==> FullWindow(f, anchor, depth, budget, loaded) == true
  {
    loaded := [];
    var localTier := FirstTier(anchor);
    var frontier := {anchor};
    while localTier <= depth && |loaded| < budget && frontier != {}
      invariant ReadLevels(f, loaded, frontier, localTier, depth, budget) == ReadLevels(f, [], {anchor}, FirstTier(anchor), depth, budget)
      decreases depth + 1 - localTier
    {
      var accepted := NextLevel(f, frontier, budget - |loaded|);
      loaded := loaded + accepted;
      frontier := Slots(accepted);
      localTier := localTier + 1;
    }
    if Sound(f) && Anchor(f, anchor) {
      ContextWindowIsFull(f, anchor, depth, budget);
    }
  }

  lemma ReadOn(f: Forest, loaded: seq<MemberUuid>, frontier: set<Option<MemberUuid>>, localTier: nat, depth: nat, budget: nat)
    requires localTier <= depth && |loaded| < budget && frontier != {}
    ensures var accepted := NextLevel(f, frontier, budget - |loaded|);
            ReadLevels(f, loaded, frontier, localTier, depth, budget) == ReadLevels(f, loaded + accepted, Slots(accepted), localTier + 1, depth, budget)
  {}

  lemma ReadStops(f: Forest, loaded: seq<MemberUuid>, frontier: set<Option<MemberUuid>>, localTier: nat, depth: nat, budget: nat)
    requires localTier > depth || |loaded| >= budget || frontier == {}
    ensures ReadLevels(f, loaded, frontier, localTier, depth, budget) == loaded
  {}

  // ------------------------------------------------------------------ the window leaves nothing out

  /** The loaded members come level by level, and in key order within a level. */
  predicate Precedes(f: Forest, y: MemberUuid, x: MemberUuid) {
    && x in f.rows && y in f.rows
    && (f.rows[y].depth < f.rows[x].depth || (f.rows[y].depth == f.rows[x].depth && InOrder(f, y, x)))
  }

  /** A depth of d shows d levels: the roots and below, or the focus and below. */
  predicate WithinDepth(f: Forest, anchor: Option<MemberUuid>, depth: nat, x: MemberUuid) {
    && x in f.rows
    && (if anchor.Some? then anchor.value in f.rows && f.rows[x].depth < f.rows[anchor.value].depth + depth
        else f.rows[x].depth < depth)
  }

  /** A full page of the member's siblings is loaded. */
  predicate PageFull(f: Forest, loaded: seq<MemberUuid>, x: MemberUuid) {
    x in f.rows && |Siblings(f, loaded, f.rows[x].sponsor)| == 50
  }

  predicate AllPrecede(f: Forest, loaded: seq<MemberUuid>, x: MemberUuid) {
    forall i {:trigger Precedes(f, loaded[i], x)} :: 0 <= i < |loaded| ==> Precedes(f, loaded[i], x)
  }

  /**
   A member within the depth whose parent is shown is left out only behind a full page of its siblings, or
   because the budget went to members that come before it.
   */
  ghost predicate LeavesNothingOut(f: Forest, anchor: Option<MemberUuid>, depth: nat, budget: nat, loaded: seq<MemberUuid>) {
    forall x {:trigger PageFull(f, loaded, x)} :: Hangs(f, anchor, loaded, x) && WithinDepth(f, anchor, depth, x) && x !in loaded ==>
      PageFull(f, loaded, x) || (|loaded| == budget && AllPrecede(f, loaded, x))
  }

  /** At most a page of children is loaded of every parent. */
  ghost predicate PageAtMost(f: Forest, loaded: seq<MemberUuid>) {
    forall p :: |Siblings(f, loaded, p)| <= 50
  }

  predicate LoadedInOrder(f: Forest, loaded: seq<MemberUuid>) {
    forall i, j {:trigger Precedes(f, loaded[i], loaded[j])} :: 0 <= i < j < |loaded| ==> Precedes(f, loaded[i], loaded[j])
  }

  ghost predicate FullWindow(f: Forest, anchor: Option<MemberUuid>, depth: nat, budget: nat, loaded: seq<MemberUuid>) {
    && |loaded| <= budget && PageAtMost(f, loaded) && LoadedInOrder(f, loaded)
    && (forall x :: x in loaded ==> WithinDepth(f, anchor, depth, x))
    && LeavesNothingOut(f, anchor, depth, budget, loaded)
  }

  lemma LevelGrows(f: Forest, frontier: set<Option<MemberUuid>>, limit: nat, n: nat, m: nat)
    requires n <= m <= |f.order|
    ensures LevelUpto(f, frontier, limit, n) <= LevelUpto(f, frontier, limit, m)
  {
    if n < m {
      LevelGrows(f, frontier, limit, n, m - 1);
    }
  }

  predicate KeysAscend(f: Forest, xs: seq<MemberUuid>) {
    forall i, j {:trigger InOrder(f, xs[i], xs[j])} :: 0 <= i < j < |xs| ==> InOrder(f, xs[i], xs[j])
  }

  predicate AllBefore(f: Forest, xs: seq<MemberUuid>, x: MemberUuid) {
    forall i :: 0 <= i < |xs| ==> InOrder(f, xs[i], x)
  }

  lemma OrderedBefore(f: Forest, xs: seq<MemberUuid>, k: nat)
    requires Sound(f) && k < |f.order| && forall i :: 0 <= i < |xs| ==> xs[i] in f.order[..k]
    ensures AllBefore(f, xs, f.order[k])
  {
    forall i | 0 <= i < |xs| ensures InOrder(f, xs[i], f.order[k]) {
      assert xs[i] in f.order[..k];
      var j :| 0 <= j < k && f.order[..k][j] == xs[i];
      assert InOrder(f, f.order[j], f.order[k]);
    }
  }

  lemma LevelOrdered(f: Forest, frontier: set<Option<MemberUuid>>, limit: nat, n: nat)
    requires n < |f.order| && Sound(f)
    ensures AllBefore(f, LevelUpto(f, frontier, limit, n), f.order[n])
  {
    OrderDistinct(f);
    LevelMembers(f, frontier, limit, n);
    OrderedBefore(f, LevelUpto(f, frontier, limit, n), n);
  }

  lemma OneMoreAscends(f: Forest, xs: seq<MemberUuid>, x: MemberUuid)
    requires KeysAscend(f, xs) && AllBefore(f, xs, x)
    ensures KeysAscend(f, xs + [x])
  {}

  lemma {:induction false} LevelAscends(f: Forest, frontier: set<Option<MemberUuid>>, limit: nat, n: nat)
    requires n <= |f.order| && Sound(f)
    ensures KeysAscend(f, LevelUpto(f, frontier, limit, n))
  {
    if n > 0 {
      LevelAscends(f, frontier, limit, n - 1);
      LevelOrdered(f, frontier, limit, n - 1);
      OneMoreAscends(f, LevelUpto(f, frontier, limit, n - 1), f.order[n - 1]);
    }
  }

  lemma ListedBefore(f: Forest, p: Option<MemberUuid>, k: nat, y: MemberUuid)
    requires Sound(f) && k < |f.order| && y in Siblings(f, f.order[..k], p)
    ensures InOrder(f, y, f.order[k])
  {
    FilterMembers(f.order[..k], IsChild(f, p));
    var i :| 0 <= i < k && f.order[..k][i] == y;
    assert InOrder(f, f.order[i], f.order[k]);
  }

  lemma FirstsWithin(all: seq<MemberUuid>, cs: seq<MemberUuid>, limit: nat)
    requires cs <= all && |cs| >= limit
    ensures |Firsts(all, limit)| == limit && forall y :: y in Firsts(all, limit) ==> y in cs
  {
    assert Firsts(all, limit) == cs[..limit];
  }

  /** Behind fewer than `limit` siblings, a child of the frontier is in the level. */
  lemma LevelTakes(f: Forest, frontier: set<Option<MemberUuid>>, limit: nat, k: nat)
    requires k < |f.order| && f.order[k] in f.rows && f.rows[f.order[k]].sponsor in frontier
    requires |Siblings(f, f.order[..k], f.rows[f.order[k]].sponsor)| < limit
    ensures f.order[k] in ContextLevel(f, frontier, limit)
  {
    LevelGrows(f, frontier, limit, k + 1, |f.order|);
    var before := LevelUpto(f, frontier, limit, k);
    assert LevelUpto(f, frontier, limit, k + 1)[|before|] == f.order[k];
    assert ContextLevel(f, frontier, limit)[|before|] == f.order[k];
  }

  /** A child of the frontier is missing from its level only behind `limit` of its siblings. */
  lemma LevelMisses(f: Forest, frontier: set<Option<MemberUuid>>, limit: nat, x: MemberUuid)
    requires Sound(f) && x in f.rows && f.rows[x].sponsor in frontier && x !in ContextLevel(f, frontier, limit)
    ensures var mine := Siblings(f, ContextLevel(f, frontier, limit), f.rows[x].sponsor);
            |mine| == limit && forall y :: y in mine ==> InOrder(f, y, x)
  {
    var p, n := f.rows[x].sponsor, |f.order|;
    var k :| 0 <= k < n && f.order[k] == x;
    if |Siblings(f, f.order[..k], p)| < limit {
      LevelTakes(f, frontier, limit, k);
    }
    LevelTakesFirst(f, frontier, limit, n, p);
    assert f.order[..n] == f.order;
    SiblingsOfPrefix(f, f.order, k, p);
    FirstsWithin(Siblings(f, f.order, p), Siblings(f, f.order[..k], p), limit);
    forall y | y in Siblings(f, ContextLevel(f, frontier, limit), p) ensures InOrder(f, y, x) {
      ListedBefore(f, p, k, y);
    }
  }

  /** Below `deep`, everything that hangs on the window is loaded, or behind a full page. */
  ghost predicate Filled(f: Forest, anchor: Option<MemberUuid>, loaded: seq<MemberUuid>, deep: nat) {
    forall x {:trigger PageFull(f, loaded, x)} :: Hangs(f, anchor, loaded, x) && x !in loaded && f.rows[x].depth < deep ==> PageFull(f, loaded, x)
  }

  /** What hangs on the window at the depth of the frontier hangs on the frontier. */
  ghost predicate WholeFrontier(f: Forest, anchor: Option<MemberUuid>, loaded: seq<MemberUuid>, frontier: set<Option<MemberUuid>>, deep: nat) {
    forall x {:trigger Hangs(f, anchor, loaded, x)} :: Hangs(f, anchor, loaded, x) && f.rows[x].depth == deep ==> f.rows[x].sponsor in frontier
  }

  /** The level loop with nothing left out so far. */
  ghost predicate Filling(f: Forest, anchor: Option<MemberUuid>, loaded: seq<MemberUuid>, frontier: set<Option<MemberUuid>>, deep: nat) {
    && Reading(f, anchor, loaded, frontier, deep) && Filled(f, anchor, loaded, deep) && WholeFrontier(f, anchor, loaded, frontier, deep)
    && LoadedInOrder(f, loaded) && PageAtMost(f, loaded)
  }

  lemma FillingStarts(f: Forest, anchor: Option<MemberUuid>)
    requires Sound(f) && Anchor(f, anchor)
    ensures Filling(f, anchor, [], {anchor}, SlotDepth(f, anchor))
  {
    ReadingStarts(f, anchor);
    forall x | Hangs(f, anchor, [], x) ensures f.rows[x].depth == SlotDepth(f, anchor) {
      assert PlacedAt(f.rows, x);
    }
  }

  /** What hangs on the window is at most one below its last level. */
  lemma HangsHere(f: Forest, anchor: Option<MemberUuid>, loaded: seq<MemberUuid>, frontier: set<Option<MemberUuid>>, deep: nat, x: MemberUuid)
    requires Sound(f) && Anchor(f, anchor) && Reading(f, anchor, loaded, frontier, deep) && Hangs(f, anchor, loaded, x)
    ensures f.rows[x].depth <= deep
  {
    assert PlacedAt(f.rows, x);
  }

  /** A level deeper, only what was taken last carries something. */
  lemma FrontierStaysWhole(f: Forest, anchor: Option<MemberUuid>, loaded: seq<MemberUuid>, frontier: set<Option<MemberUuid>>, deep: nat,
                           accepted: seq<MemberUuid>)
    requires Sound(f) && Anchor(f, anchor) && Reading(f, anchor, loaded, frontier, deep)
    ensures WholeFrontier(f, anchor, loaded + accepted, Slots(accepted), deep + 1)
  {
    forall x | Hangs(f, anchor, loaded + accepted, x) && f.rows[x].depth == deep + 1 ensures f.rows[x].sponsor in Slots(accepted) {
      assert PlacedAt(f.rows, x);
      if Hangs(f, anchor, loaded, x) {
        HangsHere(f, anchor, loaded, frontier, deep, x);
      }
    }
  }

  lemma StillInOrder(f: Forest, loaded: seq<MemberUuid>, accepted: seq<MemberUuid>, deep: nat)
    requires LoadedInOrder(f, loaded) && forall x :: x in loaded ==> x in f.rows && f.rows[x].depth < deep
    requires forall x :: x in accepted ==> x in f.rows && f.rows[x].depth == deep
    requires forall i, j :: 0 <= i < j < |accepted| ==> InOrder(f, accepted[i], accepted[j])
    ensures LoadedInOrder(f, loaded + accepted)
  {}

  lemma PagesStayAtMost(f: Forest, anchor: Option<MemberUuid>, loaded: seq<MemberUuid>, frontier: set<Option<MemberUuid>>, deep: nat,
                        limit: nat, accepted: seq<MemberUuid>, p: Option<MemberUuid>)
    requires Sound(f) && Frontier(f, anchor, loaded, frontier, deep) && limit <= 50
    requires accepted <= ContextLevel(f, frontier, limit) && |Siblings(f, loaded, p)| <= 50
    ensures |Siblings(f, loaded + accepted, p)| <= 50
    ensures p !in frontier ==> Siblings(f, loaded + accepted, p) == Siblings(f, loaded, p)
    ensures p in frontier ==> Siblings(f, loaded + accepted, p) == Siblings(f, accepted, p)
  {
    FilterAppend(loaded, accepted, IsChild(f, p));
    var level := ContextLevel(f, frontier, limit);
    if p in frontier {
      NothingLoadedYet(f, anchor, loaded, frontier, deep, p);
      LevelTakesFirst(f, frontier, limit, |f.order|, p);
      assert accepted == level[..|accepted|];
      SiblingsOfPrefix(f, level, |accepted|, p);
    } else {
      LevelPrefixOutside(f, frontier, limit, accepted, p);
    }
  }

  /** An older gap stays behind its full page. */
  lemma OlderGap(f: Forest, anchor: Option<MemberUuid>, loaded: seq<MemberUuid>, frontier: set<Option<MemberUuid>>, deep: nat,
                 limit: nat, accepted: seq<MemberUuid>, x: MemberUuid)
    requires Sound(f) && Anchor(f, anchor) && Filling(f, anchor, loaded, frontier, deep) && limit <= 50
    requires accepted <= ContextLevel(f, frontier, limit)
    requires Hangs(f, anchor, loaded + accepted, x) && x !in loaded + accepted && f.rows[x].depth < deep
    ensures PageFull(f, loaded + accepted, x)
  {
    assert PlacedAt(f.rows, x);
    AcceptedIsNew(f, anchor, loaded, frontier, deep, limit, accepted);
    assert Hangs(f, anchor, loaded, x);
    assert PageFull(f, loaded, x);
    PagesStayAtMost(f, anchor, loaded, frontier, deep, limit, accepted, f.rows[x].sponsor);
  }

  /** The keys of a list that is cut from an ascending one come before everything behind the cut. */
  lemma BehindTheCut(f: Forest, level: seq<MemberUuid>, n: nat, x: MemberUuid)
    requires n <= |level| && x in level && x !in level[..n] && KeysAscend(f, level)
    ensures AllBefore(f, level[..n], x)
  {
    assert level == level[..n] + level[n..];
    var k :| 0 <= k < |level| - n && level[n..][k] == x;
    forall i | 0 <= i < n ensures InOrder(f, level[..n][i], x) {
      assert InOrder(f, level[i], level[n + k]);
    }
  }

  lemma {:induction false} SiblingsCount(f: Forest, xs: seq<MemberUuid>, p: Option<MemberUuid>)
    ensures |Siblings(f, xs, p)| <= |xs|
    ensures |Siblings(f, xs, p)| == |xs| ==> forall i :: 0 <= i < |xs| ==> xs[i] in Siblings(f, xs, p)
  {
    if xs != [] {
      SiblingsCount(f, xs[..|xs| - 1], p);
    }
  }

  /** A sibling that is in the level but behind the cut. */
  lemma CutSibling(f: Forest, front: seq<MemberUuid>, back: seq<MemberUuid>, p: Option<MemberUuid>) returns (y: MemberUuid)
    requires |Siblings(f, front, p)| < |Siblings(f, front + back, p)| && Distinct(front + back)
    ensures y in Siblings(f, front + back, p) && y in front + back && y !in front
  {
    FilterAppend(front, back, IsChild(f, p));
    y := Siblings(f, back, p)[0];
    FilterMembers(back, IsChild(f, p));
    assert y in Siblings(f, back, p);
    var j :| 0 <= j < |back| && back[j] == y;
    assert (front + back)[|front| + j] == y;
    forall i | 0 <= i < |front| ensures front[i] != y {
      assert (front + back)[i] != (front + back)[|front| + j];
    }
  }

  lemma CutLeavesSome(level: seq<MemberUuid>, n: nat, x: MemberUuid)
    requires n <= |level| && x in level && x !in level[..n]
    ensures n < |level|
  {
    assert level == level[..n] + level[n..];
    assert x in level[n..];
  }

  lemma AllBeforeLater(f: Forest, xs: seq<MemberUuid>, y: MemberUuid, x: MemberUuid)
    requires AllBefore(f, xs, y) && InOrder(f, y, x)
    ensures AllBefore(f, xs, x)
  {
    forall i | 0 <= i < |xs| ensures InOrder(f, xs[i], x) {
      assert InOrder(f, xs[i], y);
    }
  }

  lemma AllSiblingsBefore(f: Forest, xs: seq<MemberUuid>, p: Option<MemberUuid>, x: MemberUuid)
    requires |Siblings(f, xs, p)| == |xs| && forall y :: y in Siblings(f, xs, p) ==> InOrder(f, y, x)
    ensures AllBefore(f, xs, x)
  {
    SiblingsCount(f, xs, p);
  }

  /** What is in a level before a cut comes before every sibling behind the cut. */
  lemma CutBefore(f: Forest, level: seq<MemberUuid>, n: nat, p: Option<MemberUuid>, x: MemberUuid)
    requires n <= |level| && Distinct(level) && KeysAscend(f, level) && |Siblings(f, level[..n], p)| < |Siblings(f, level, p)|
    requires forall y :: y in Siblings(f, level, p) ==> InOrder(f, y, x)
    ensures AllBefore(f, level[..n], x)
  {
    assert level == level[..n] + level[n..];
    var y := CutSibling(f, level[..n], level[n..], p);
    BehindTheCut(f, level, n, y);
    AllBeforeLater(f, level[..n], y, x);
  }

  /** A child of the frontier that its level misses, when a level is cut to what the budget leaves. */
  lemma MissedGap(f: Forest, frontier: set<Option<MemberUuid>>, limit: nat, n: nat, x: MemberUuid)
    requires Sound(f) && x in f.rows && f.rows[x].sponsor in frontier && x !in ContextLevel(f, frontier, limit)
    requires n <= |ContextLevel(f, frontier, limit)|
    ensures var accepted := ContextLevel(f, frontier, limit)[..n];
            |Siblings(f, accepted, f.rows[x].sponsor)| == limit || AllBefore(f, accepted, x)
  {
    var p, level := f.rows[x].sponsor, ContextLevel(f, frontier, limit);
    LevelMisses(f, frontier, limit, x);
    SiblingsOfPrefix(f, level, n, p);
    OrderDistinct(f);
    LevelMembers(f, frontier, limit, |f.order|);
    LevelAscends(f, frontier, limit, |f.order|);
    if |Siblings(f, level[..n], p)| < limit {
      CutBefore(f, level, n, p, x);
    }
  }

  /**
   What a round leaves out of its own level is behind a full page of siblings, or everything that the
   round took comes before it and the budget is used up.
   */
  lemma LevelGap(f: Forest, frontier: set<Option<MemberUuid>>, remaining: nat, x: MemberUuid)
    requires Sound(f) && x in f.rows && f.rows[x].sponsor in frontier && x !in NextLevel(f, frontier, remaining)
    ensures var accepted := NextLevel(f, frontier, remaining);
            |Siblings(f, accepted, f.rows[x].sponsor)| == 50 || (|accepted| == remaining && AllBefore(f, accepted, x))
  {
    var limit, p := Least(PAGE_SIZE, remaining), f.rows[x].sponsor;
    var level, n := ContextLevel(f, frontier, limit), |NextLevel(f, frontier, remaining)|;
    assert level[..n] == NextLevel(f, frontier, remaining);
    if x in level {
      CutLeavesSome(level, n, x);
      LevelAscends(f, frontier, limit, |f.order|);
      BehindTheCut(f, level, n, x);
    } else {
      LevelMisses(f, frontier, limit, x);
      MissedGap(f, frontier, limit, n, x);
      SiblingsCount(f, level, p);
      SiblingsCount(f, level[..n], p);
      if |Siblings(f, level[..n], p)| == limit == remaining {
        SiblingsOfPrefix(f, level, n, p);
        AllSiblingsBefore(f, level[..n], p, x);
      } else if n < remaining {
        assert level[..n] == level;
      }
    }
  }

  // ------------------------------------------------------------------ round by round

  /** What a round leaves out of everything above the next level. */
  lemma RoundGap(f: Forest, anchor: Option<MemberUuid>, loaded: seq<MemberUuid>, frontier: set<Option<MemberUuid>>, deep: nat,
                 remaining: nat, x: MemberUuid)
    requires Sound(f) && Anchor(f, anchor) && Filling(f, anchor, loaded, frontier, deep)
    requires var now := loaded + NextLevel(f, frontier, remaining); Hangs(f, anchor, now, x) && x !in now && f.rows[x].depth <= deep
    ensures var accepted := NextLevel(f, frontier, remaining);
            PageFull(f, loaded + accepted, x)
            || (f.rows[x].depth == deep && |accepted| == remaining && AllBefore(f, accepted, x))
  {
    var accepted := NextLevel(f, frontier, remaining);
    var limit := Least(PAGE_SIZE, remaining);
    if f.rows[x].depth < deep {
      OlderGap(f, anchor, loaded, frontier, deep, limit, accepted, x);
    } else {
      AcceptedIsNew(f, anchor, loaded, frontier, deep, limit, accepted);
      assert PlacedAt(f.rows, x);
      assert Hangs(f, anchor, loaded, x);
      LevelGap(f, frontier, remaining, x);
      PagesStayAtMost(f, anchor, loaded, frontier, deep, limit, accepted, f.rows[x].sponsor);
    }
  }

  /** A round that leaves budget over leaves no gap. */
  lemma RoundFills(f: Forest, anchor: Option<MemberUuid>, loaded: seq<MemberUuid>, frontier: set<Option<MemberUuid>>, deep: nat, remaining: nat)
    requires Sound(f) && Anchor(f, anchor) && Filling(f, anchor, loaded, frontier, deep)
    requires |NextLevel(f, frontier, remaining)| < remaining
    ensures Filling(f, anchor, loaded + NextLevel(f, frontier, remaining), Slots(NextLevel(f, frontier, remaining)), deep + 1)
  {
    var accepted := NextLevel(f, frontier, remaining);
    RoundKeeps(f, anchor, loaded, frontier, deep, remaining);
    forall x | Hangs(f, anchor, loaded + accepted, x) && x !in loaded + accepted && f.rows[x].depth < deep + 1
      ensures PageFull(f, loaded + accepted, x)
    {
      RoundGap(f, anchor, loaded, frontier, deep, remaining, x);
    }
  }

  lemma RoundKeeps(f: Forest, anchor: Option<MemberUuid>, loaded: seq<MemberUuid>, frontier: set<Option<MemberUuid>>, deep: nat, remaining: nat)
    requires Sound(f) && Anchor(f, anchor) && Filling(f, anchor, loaded, frontier, deep)
    ensures var accepted := NextLevel(f, frontier, remaining);
            && Reading(f, anchor, loaded + accepted, Slots(accepted), deep + 1)
            && WholeFrontier(f, anchor, loaded + accepted, Slots(accepted), deep + 1)
            && LoadedInOrder(f, loaded + accepted) && PageAtMost(f, loaded + accepted)
            && forall x :: x in accepted ==> x in f.rows && f.rows[x].depth == deep
  {
    var accepted, limit := NextLevel(f, frontier, remaining), Least(PAGE_SIZE, remaining);
    ReadingStep(f, anchor, loaded, frontier, deep, limit, accepted);
    FrontierStaysWhole(f, anchor, loaded, frontier, deep, accepted);
    AcceptedIsNew(f, anchor, loaded, frontier, deep, limit, accepted);
    LevelAscends(f, frontier, limit, |f.order|);
    assert accepted == ContextLevel(f, frontier, limit)[..|accepted|];
    StillInOrder(f, loaded, accepted, deep);
    forall p ensures |Siblings(f, loaded + accepted, p)| <= 50 {
      PagesStayAtMost(f, anchor, loaded, frontier, deep, limit, accepted, p);
    }
  }

  lemma AllDeeper(f: Forest, loaded: seq<MemberUuid>, accepted: seq<MemberUuid>, deep: nat, x: MemberUuid)
    requires forall y :: y in loaded ==> y in f.rows && f.rows[y].depth < deep
    requires forall y :: y in accepted ==> y in f.rows && f.rows[y].depth == deep
    requires x in f.rows && (f.rows[x].depth > deep || (f.rows[x].depth == deep && AllBefore(f, accepted, x)))
    ensures AllPrecede(f, loaded + accepted, x)
  {}

  /** A round that uses the budget up leaves only gaps that come later, whatever the depth. */
  lemma RoundEnds(f: Forest, anchor: Option<MemberUuid>, depth: nat, loaded: seq<MemberUuid>, frontier: set<Option<MemberUuid>>, deep: nat,
                  remaining: nat)
    requires Sound(f) && Anchor(f, anchor) && Filling(f, anchor, loaded, frontier, deep)
    requires |NextLevel(f, frontier, remaining)| == remaining
    ensures LeavesNothingOut(f, anchor, depth, |loaded| + remaining, loaded + NextLevel(f, frontier, remaining))
  {
    var accepted := NextLevel(f, frontier, remaining);
    RoundKeeps(f, anchor, loaded, frontier, deep, remaining);
    forall x | Hangs(f, anchor, loaded + accepted, x) && x !in loaded + accepted
      ensures PageFull(f, loaded + accepted, x) || AllPrecede(f, loaded + accepted, x)
    {
      if f.rows[x].depth <= deep {
        RoundGap(f, anchor, loaded, frontier, deep, remaining, x);
      }
      if !PageFull(f, loaded + accepted, x) {
        AllDeeper(f, loaded, accepted, deep, x);
      }
    }
  }

  lemma NothingDeeper(f: Forest, anchor: Option<MemberUuid>, depth: nat, budget: nat, loaded: seq<MemberUuid>, frontier: set<Option<MemberUuid>>,
                      deep: nat, localTier: nat)
    requires Sound(f) && Anchor(f, anchor) && Filling(f, anchor, loaded, frontier, deep)
    requires localTier > depth || frontier == {} || (loaded == [] && budget == 0)
    requires deep + FirstTier(anchor) == SlotDepth(f, anchor) + localTier
    ensures LeavesNothingOut(f, anchor, depth, budget, loaded)
  {
    forall x | Hangs(f, anchor, loaded, x) && WithinDepth(f, anchor, depth, x) && x !in loaded
      ensures PageFull(f, loaded, x) || (loaded == [] && budget == 0)
    {
      HangsHere(f, anchor, loaded, frontier, deep, x);
    }
  }

  lemma ShowsWithin(f: Forest, anchor: Option<MemberUuid>, depth: nat, loaded: seq<MemberUuid>)
    requires Anchor(f, anchor) && ReadWindow(f, anchor, depth, loaded)
    ensures forall x :: x in loaded ==> WithinDepth(f, anchor, depth, x)
  {}

  ghost predicate NoGaps(f: Forest, anchor: Option<MemberUuid>, depth: nat, budget: nat, loaded: seq<MemberUuid>) {
    LoadedInOrder(f, loaded) && PageAtMost(f, loaded) && LeavesNothingOut(f, anchor, depth, budget, loaded)
  }

  /** The round that uses the budget up is the last, and leaves no gap. */
  lemma LastRound(f: Forest, anchor: Option<MemberUuid>, depth: nat, budget: nat, loaded: seq<MemberUuid>, frontier: set<Option<MemberUuid>>,
                  deep: nat, remaining: nat, all: seq<MemberUuid>)
    requires Sound(f) && Anchor(f, anchor) && Filling(f, anchor, loaded, frontier, deep)
    requires budget == |loaded| + remaining && |NextLevel(f, frontier, remaining)| == remaining
    requires all == loaded + NextLevel(f, frontier, remaining)
    ensures NoGaps(f, anchor, depth, budget, all) == true
  {
    RoundKeeps(f, anchor, loaded, frontier, deep, remaining);
    RoundEnds(f, anchor, depth, loaded, frontier, deep, remaining);
  }

  lemma NoGapsAtEnd(f: Forest, anchor: Option<MemberUuid>, depth: nat, budget: nat, loaded: seq<MemberUuid>, frontier: set<Option<MemberUuid>>,
                    deep: nat, localTier: nat)
    requires Sound(f) && Anchor(f, anchor) && Filling(f, anchor, loaded, frontier, deep)
    requires localTier > depth || frontier == {} || (loaded == [] && budget == 0)
    requires deep + FirstTier(anchor) == SlotDepth(f, anchor) + localTier
    ensures NoGaps(f, anchor, depth, budget, loaded) == true
  {
    NothingDeeper(f, anchor, depth, budget, loaded, frontier, deep, localTier);
  }

  /** The last state of the loop: it stops there, or one more round uses the budget up. */
  predicate LoopEnds(f: Forest, loaded: seq<MemberUuid>, frontier: set<Option<MemberUuid>>, localTier: nat, depth: nat, budget: nat,
                     all: seq<MemberUuid>) {
    || ((localTier > depth || frontier == {} || (loaded == [] && budget == 0)) && all == loaded && |all| <= budget)
    || (localTier <= depth && |loaded| < budget && |NextLevel(f, frontier, budget - |loaded|)| == budget - |loaded|
        && all == loaded + NextLevel(f, frontier, budget - |loaded|))
  }

  /** One more round is due and will leave budget over. */
  predicate RoundLeavesBudget(f: Forest, loaded: seq<MemberUuid>, frontier: set<Option<MemberUuid>>, localTier: nat, depth: nat, budget: nat) {
    localTier <= depth && |loaded| < budget && frontier != {} && |NextLevel(f, frontier, budget - |loaded|)| < budget - |loaded|
  }

  lemma LoopStops(f: Forest, loaded: seq<MemberUuid>, frontier: set<Option<MemberUuid>>, localTier: nat, depth: nat, budget: nat,
                  all: seq<MemberUuid>)
    requires |loaded| < budget || loaded == []
    requires !RoundLeavesBudget(f, loaded, frontier, localTier, depth, budget)
    requires all == ReadLevels(f, loaded, frontier, localTier, depth, budget)
    ensures LoopEnds(f, loaded, frontier, localTier, depth, budget, all) == true
  {
    if localTier <= depth && |loaded| < budget && frontier != {} {
      var accepted := NextLevel(f, frontier, budget - |loaded|);
      ReadOn(f, loaded, frontier, localTier, depth, budget);
      ReadStops(f, loaded + accepted, Slots(accepted), localTier + 1, depth, budget);
    } else {
      ReadStops(f, loaded, frontier, localTier, depth, budget);
    }
  }

  lemma RoundGoesOn(f: Forest, anchor: Option<MemberUuid>, loaded: seq<MemberUuid>, frontier: set<Option<MemberUuid>>, deep: nat,
                    localTier: nat, depth: nat, budget: nat, all: seq<MemberUuid>)
    returns (more: seq<MemberUuid>, next: set<Option<MemberUuid>>)
    requires Sound(f) && Anchor(f, anchor) && Filling(f, anchor, loaded, frontier, deep)
    requires RoundLeavesBudget(f, loaded, frontier, localTier, depth, budget)
    requires all == ReadLevels(f, loaded, frontier, localTier, depth, budget)
    ensures localTier <= depth && |more| < budget
    ensures Filling(f, anchor, more, next, deep + 1) == true
    ensures all == ReadLevels(f, more, next, localTier + 1, depth, budget)
  {
    ReadOn(f, loaded, frontier, localTier, depth, budget);
    RoundFills(f, anchor, loaded, frontier, deep, budget - |loaded|);
    var accepted := NextLevel(f, frontier, budget - |loaded|);
    more, next := loaded + accepted, Slots(accepted);
  }

  lemma {:induction false} LevelsFill(f: Forest, anchor: Option<MemberUuid>, loaded: seq<MemberUuid>, frontier: set<Option<MemberUuid>>, deep: nat,
                                      localTier: nat, depth: nat, budget: nat, all: seq<MemberUuid>)
    returns (last: seq<MemberUuid>, at: set<Option<MemberUuid>>, level: nat, tier: nat)
    requires Sound(f) && Anchor(f, anchor) && Filling(f, anchor, loaded, frontier, deep) && (|loaded| < budget || loaded == [])
    requires deep + FirstTier(anchor) == SlotDepth(f, anchor) + localTier
    requires (localTier <= depth + 1 || loaded == []) && all == ReadLevels(f, loaded, frontier, localTier, depth, budget)
    ensures Filling(f, anchor, last, at, level) == true && level + FirstTier(anchor) == SlotDepth(f, anchor) + tier
    ensures tier <= depth + 1 || last == []
    ensures LoopEnds(f, last, at, tier, depth, budget, all) == true
    decreases depth + 1 - localTier
  {
    if RoundLeavesBudget(f, loaded, frontier, localTier, depth, budget) {
      var more, next := RoundGoesOn(f, anchor, loaded, frontier, deep, localTier, depth, budget, all);
      last, at, level, tier := LevelsFill(f, anchor, more, next, deep + 1, localTier + 1, depth, budget, all);
    } else {
      LoopStops(f, loaded, frontier, localTier, depth, budget, all);
      last, at, level, tier := loaded, frontier, deep, localTier;
    }
  }

  lemma NoGapsAfter(f: Forest, anchor: Option<MemberUuid>, depth: nat, budget: nat, last: seq<MemberUuid>, at: set<Option<MemberUuid>>,
                    level: nat, tier: nat, all: seq<MemberUuid>)
    requires Sound(f) && Anchor(f, anchor) && Filling(f, anchor, last, at, level)
    requires level + FirstTier(anchor) == SlotDepth(f, anchor) + tier && LoopEnds(f, last, at, tier, depth, budget, all)
    ensures NoGaps(f, anchor, depth, budget, all) == true
  {
    if all == last && (tier > depth || at == {} || (last == [] && budget == 0)) {
      NoGapsAtEnd(f, anchor, depth, budget, last, at, level, tier);
    } else {
      LastRound(f, anchor, depth, budget, last, at, level, budget - |last|, all);
    }
  }

  lemma WindowAfter(f: Forest, anchor: Option<MemberUuid>, depth: nat, budget: nat, last: seq<MemberUuid>, at: set<Option<MemberUuid>>,
                    level: nat, tier: nat, all: seq<MemberUuid>)
    requires Sound(f) && Anchor(f, anchor) && Filling(f, anchor, last, at, level) && (tier <= depth + 1 || last == [])
    requires level + FirstTier(anchor) == SlotDepth(f, anchor) + tier
    requires tier <= depth && |last| < budget && all == last + NextLevel(f, at, budget - |last|)
    ensures ReadWindow(f, anchor, depth, all) == true
  {
    var accepted := NextLevel(f, at, budget - |last|);
    RoundKeeps(f, anchor, last, at, level, budget - |last|);
    ReadingDone(f, anchor, depth, last + accepted, Slots(accepted), level + 1, tier + 1);
  }

  /**
   The window of any anchor, depth and budget: within both, grown from the anchor, and of every parent
   it holds the first children in key order.
   */
  lemma ContextWindow(f: Forest, anchor: Option<MemberUuid>, depth: nat, budget: nat)
    requires Sound(f) && Anchor(f, anchor)
    ensures var loaded := ReadLevels(f, [], {anchor}, FirstTier(anchor), depth, budget);
            ReadWindow(f, anchor, depth, loaded) == true && |loaded| <= budget
  {
    var loaded := ReadLevels(f, [], {anchor}, FirstTier(anchor), depth, budget);
    FillingStarts(f, anchor);
    var last, at, level, tier := LevelsFill(f, anchor, [], {anchor}, SlotDepth(f, anchor), FirstTier(anchor), depth, budget, loaded);
    if loaded == last && (tier > depth || at == {} || (last == [] && budget == 0)) {
      ReadingDone(f, anchor, depth, last, at, level, tier);
    } else {
      WindowAfter(f, anchor, depth, budget, last, at, level, tier, loaded);
    }
  }

  /**
   The window is as large as depth, budget and pages allow: a member within the depth whose parent is shown
   is left out only behind a full page of siblings, or behind members that used the budget up.
   */
  lemma ContextWindowIsFull(f: Forest, anchor: Option<MemberUuid>, depth: nat, budget: nat)
    requires Sound(f) && Anchor(f, anchor)
    ensures FullWindow(f, anchor, depth, budget, ReadLevels(f, [], {anchor}, FirstTier(anchor), depth, budget)) == true
  {
    var loaded := ReadLevels(f, [], {anchor}, FirstTier(anchor), depth, budget);
    FillingStarts(f, anchor);
    var last, at, level, tier := LevelsFill(f, anchor, [], {anchor}, SlotDepth(f, anchor), FirstTier(anchor), depth, budget, loaded);
    NoGapsAfter(f, anchor, depth, budget, last, at, level, tier, loaded);
    ContextWindow(f, anchor, depth, budget);
    ShowsWithin(f, anchor, depth, loaded);
  }

  // ------------------------------------------------------------------ clusters

  /** One group of the branch summary query: a parent's children, counted with everyone below them. */
  datatype Summary = Summary(parent: Option<MemberUuid>, directCount: nat, representedNodes: int)

  /** The branches of one parent that are not loaded; `after` is the last loaded child, where its page starts. */
  datatype Cluster = Cluster(parent: Option<MemberUuid>, representedNodes: int, after: Option<MemberUuid>)

  /** GROUP BY sponsor over the members below the given parents; the groups come in any order. */
  ghost predicate SummariesOf(f: Forest, parents: seq<Option<MemberUuid>>, summaries: seq<Summary>) {
    && (forall i, j :: 0 <= i < j < |summaries| ==> summaries[i].parent != summaries[j].parent)
    && (forall s :: s in summaries ==>
          s.parent in parents && s.directCount == |ChildrenOf(f, s.parent)|
          && s.representedNodes == Sum(ChildrenOf(f, s.parent), Weights(f)))
    && (forall p :: p in parents && ChildrenOf(f, p) != [] ==> exists s :: s in summaries && s.parent == p)
  }

  function LastOf(xs: seq<MemberUuid>): Option<MemberUuid> {
    if xs == [] then None else Some(xs[|xs| - 1])
  }

  /** What is left of a parent's branches when the loaded children are taken off. */
  function Remaining(f: Forest, loaded: seq<MemberUuid>, s: Summary): int {
    s.representedNodes - Sum(Siblings(f, loaded, s.parent), Weights(f))
  }

  function ClusterOf(f: Forest, loaded: seq<MemberUuid>, s: Summary): seq<Cluster> {
    if Remaining(f, loaded, s) <= 0 then [] else [Cluster(s.parent, Remaining(f, loaded, s), LastOf(Siblings(f, loaded, s.parent)))]
  }

  function ClustersOf(f: Forest, loaded: seq<MemberUuid>, summaries: seq<Summary>): seq<Cluster> {
    if summaries == [] then []
    else ClustersOf(f, loaded, summaries[..|summaries| - 1]) + ClusterOf(f, loaded, summaries[|summaries| - 1])
  }

  /** Loaded members grouped by sponsor, each group in loading order. */
  method GroupByParent(f: Forest, loaded: seq<MemberUuid>) returns (byParent: map<Option<MemberUuid>, seq<MemberUuid>>)
    requires forall x :: x in loaded ==> x in f.rows
    ensures forall p :: Siblings(f, loaded, p) == if p in byParent then byParent[p] else []
  {
    byParent := map[];
    for i := 0 to |loaded|
      invariant forall p :: Siblings(f, loaded[..i], p) == if p in byParent then byParent[p] else []
    {
      var x := loaded[i];
      assert x in loaded;
      var key := f.rows[x].sponsor;
      assert loaded[..i + 1] == loaded[..i] + [x];
      forall p ensures Siblings(f, loaded[..i + 1], p) == if p == key then Siblings(f, loaded[..i], p) + [x] else Siblings(f, loaded[..i], p) {
        SiblingsStep(f, loaded[..i], x, p);
      }
      byParent := byParent[key := (if key in byParent then byParent[key] else []) + [x]];
    }
    assert loaded[..|loaded|] == loaded;
  }

  method ContextClusters(f: Forest, loaded: seq<MemberUuid>, summaries: seq<Summary>) returns (clusters: seq<Cluster>)
    requires forall x :: x in loaded ==> x in f.rows
    ensures clusters == ClustersOf(f, loaded, summaries)
  {
    var loadedByParent := GroupByParent(f, loaded);
    clusters := [];
    for i := 0 to |summaries|
      invariant clusters == ClustersOf(f, loaded, summaries[..i])
    {
      assert summaries[..i + 1][..i] == summaries[..i];
      var s := summaries[i];
      var mine := if s.parent in loadedByParent then loadedByParent[s.parent] else [];
      assert mine == Siblings(f, loaded, s.parent);
      var left := s.representedNodes - Sum(mine, Weights(f));
      var remaining := if left > 0 then left else 0;
      if remaining != 0 {
        clusters := clusters + [Cluster(s.parent, remaining, LastOf(mine))];
      }
    }
    assert summaries[..|summaries|] == summaries;
  }

  function ClusterTotal(clusters: seq<Cluster>): int {
    if clusters == [] then 0 else ClusterTotal(clusters[..|clusters| - 1]) + clusters[|clusters| - 1].representedNodes
  }

  // ------------------------------------------------------------------ the counts are exact

  function ChildWeight(f: Forest, p: Option<MemberUuid>): MemberUuid -> int {
    (x: MemberUuid) => if ChildOf(f, p, x) then Weight(f, x) else 0
  }

  function LoadedChild(f: Forest, p: Option<MemberUuid>, loaded: seq<MemberUuid>): MemberUuid -> int {
    (x: MemberUuid) => if x in loaded && ChildOf(f, p, x) then Weight(f, x) else 0
  }

  function UnloadedChild(f: Forest, p: Option<MemberUuid>, loaded: seq<MemberUuid>): MemberUuid -> int {
    (x: MemberUuid) => if x !in loaded && ChildOf(f, p, x) then Weight(f, x) else 0
  }

  lemma {:induction false} SumNonNegative<T(!new)>(xs: seq<T>, g: T -> int)
    requires forall x :: x in xs ==> g(x) >= 0
    ensures Sum(xs, g) >= 0
  {
    if xs != [] {
      assert xs[|xs| - 1] in xs;
      SumNonNegative(xs[..|xs| - 1], g);
    }
  }

  lemma WeightNonNegative(f: Forest, a: MemberUuid)
    ensures Weight(f, a) >= 0
  {
    SumNonNegative(f.order, HitsOn(f, a));
  }

  /** What a summary leaves after the loaded children is the weight of the children not loaded. */
  lemma RemainingIsUnloaded(f: Forest, anchor: Option<MemberUuid>, loaded: seq<MemberUuid>, s: Summary)
    requires Sound(f) && Window(f, anchor, loaded) && s.representedNodes == Sum(ChildrenOf(f, s.parent), Weights(f))
    ensures Remaining(f, loaded, s) == Sum(f.order, UnloadedChild(f, s.parent, loaded)) >= 0
  {
    var p := s.parent;
    WindowFacts(f, anchor, loaded);
    OrderDistinct(f);
    SumFilter(f.order, IsChild(f, p), Weights(f), ChildWeight(f, p));
    SumFilter(loaded, IsChild(f, p), Weights(f), ChildWeight(f, p));
    SumWithin(loaded, f.order, ChildWeight(f, p), LoadedChild(f, p, loaded));
    SumPlus(f.order, LoadedChild(f, p, loaded), UnloadedChild(f, p, loaded), ChildWeight(f, p));
    forall x | x in f.order ensures UnloadedChild(f, p, loaded)(x) >= 0 {
      WeightNonNegative(f, x);
    }
    SumNonNegative(f.order, UnloadedChild(f, p, loaded));
  }

  predicate Summarized(summaries: seq<Summary>, p: Option<MemberUuid>) {
    exists i :: 0 <= i < |summaries| && summaries[i].parent == p
  }

  function UnloadedAmong(f: Forest, summaries: seq<Summary>, loaded: seq<MemberUuid>): MemberUuid -> int {
    (x: MemberUuid) => if x in f.rows && x !in loaded && Summarized(summaries, f.rows[x].sponsor) then Weight(f, x) else 0
  }

  lemma SummarizedStep(front: seq<Summary>, last: Summary, p: Option<MemberUuid>)
    ensures Summarized(front + [last], p) <==> Summarized(front, p) || last.parent == p
  {
    var all := front + [last];
    if Summarized(front, p) {
      var i :| 0 <= i < |front| && front[i].parent == p;
      assert all[i].parent == p;
    }
    if last.parent == p {
      assert all[|front|].parent == p;
    }
  }

  lemma UnloadedStep(f: Forest, front: seq<Summary>, s: Summary, loaded: seq<MemberUuid>)
    requires !Summarized(front, s.parent)
    ensures Sum(f.order, UnloadedAmong(f, front + [s], loaded))
            == Sum(f.order, UnloadedAmong(f, front, loaded)) + Sum(f.order, UnloadedChild(f, s.parent, loaded))
  {
    forall x | x in f.order
      ensures UnloadedAmong(f, front + [s], loaded)(x) == UnloadedAmong(f, front, loaded)(x) + UnloadedChild(f, s.parent, loaded)(x)
    {
      if x in f.rows {
        SummarizedStep(front, s, f.rows[x].sponsor);
      }
    }
    SumPlus(f.order, UnloadedAmong(f, front, loaded), UnloadedChild(f, s.parent, loaded), UnloadedAmong(f, front + [s], loaded));
  }

  /** Groups with different parents and the right counts. */
  ghost predicate Grouped(f: Forest, summaries: seq<Summary>) {
    summaries == [] ||
    (var front, s := summaries[..|summaries| - 1], summaries[|summaries| - 1];
     Grouped(f, front) && !Summarized(front, s.parent) && s.representedNodes == Sum(ChildrenOf(f, s.parent), Weights(f)))
  }

  lemma {:induction false} SummariesGrouped(f: Forest, summaries: seq<Summary>)
    requires forall i, j :: 0 <= i < j < |summaries| ==> summaries[i].parent != summaries[j].parent
    requires forall i :: 0 <= i < |summaries| ==> summaries[i].representedNodes == Sum(ChildrenOf(f, summaries[i].parent), Weights(f))
    ensures Grouped(f, summaries)
  {
    if summaries != [] {
      SummariesGrouped(f, summaries[..|summaries| - 1]);
    }
  }

  lemma ClusterTotalStep(front: seq<Cluster>, more: seq<Cluster>)
    requires |more| <= 1
    ensures ClusterTotal(front + more) == ClusterTotal(front) + (if more == [] then 0 else more[0].representedNodes)
  {
    if more == [] {
      assert front + more == front;
    } else {
      assert (front + more)[..|front|] == front;
    }
  }

  lemma ClustersGrow(f: Forest, anchor: Option<MemberUuid>, loaded: seq<MemberUuid>, front: seq<Summary>, s: Summary)
    requires Sound(f) && Window(f, anchor, loaded) && s.representedNodes == Sum(ChildrenOf(f, s.parent), Weights(f))
    ensures ClusterTotal(ClustersOf(f, loaded, front + [s]))
            == ClusterTotal(ClustersOf(f, loaded, front)) + Sum(f.order, UnloadedChild(f, s.parent, loaded))
  {
    assert (front + [s])[..|front|] == front;
    RemainingIsUnloaded(f, anchor, loaded, s);
    ClusterTotalStep(ClustersOf(f, loaded, front), ClusterOf(f, loaded, s));
  }

  /** Cluster by cluster is member by member. */
  lemma {:induction false} ClustersByMember(f: Forest, anchor: Option<MemberUuid>, loaded: seq<MemberUuid>, summaries: seq<Summary>)
    requires Sound(f) && Window(f, anchor, loaded) && Grouped(f, summaries)
    ensures ClusterTotal(ClustersOf(f, loaded, summaries)) == Sum(f.order, UnloadedAmong(f, summaries, loaded))
  {
    if summaries == [] {
      SumZero(f.order, UnloadedAmong(f, summaries, loaded));
    } else {
      var front, s := summaries[..|summaries| - 1], summaries[|summaries| - 1];
      assert summaries == front + [s];
      ClustersByMember(f, anchor, loaded, front);
      ClustersGrow(f, anchor, loaded, front, s);
      UnloadedStep(f, front, s, loaded);
    }
  }

  function FringeWeight(f: Forest, anchor: Option<MemberUuid>, loaded: seq<MemberUuid>): MemberUuid -> int {
    (x: MemberUuid) => if OnFringe(f, anchor, loaded, x) then Weight(f, x) else 0
  }

  /** The parents of the summary query: the anchor and every loaded member. */
  function Parents(anchor: Option<MemberUuid>, loaded: seq<MemberUuid>): seq<Option<MemberUuid>> {
    [anchor] + seq(|loaded|, i requires 0 <= i < |loaded| => Some(loaded[i]))
  }

  lemma FringeIsSummarized(f: Forest, anchor: Option<MemberUuid>, loaded: seq<MemberUuid>, summaries: seq<Summary>, x: MemberUuid)
    requires Sound(f) && SummariesOf(f, Parents(anchor, loaded), summaries) && x in f.rows
    ensures Hangs(f, anchor, loaded, x) <==> Summarized(summaries, f.rows[x].sponsor)
  {
    var p := f.rows[x].sponsor;
    var ps := Parents(anchor, loaded);
    FilterMembers(f.order, IsChild(f, p));
    assert x in ChildrenOf(f, p);
    if Hangs(f, anchor, loaded, x) {
      if p == anchor {
        assert ps[0] == p;
      } else {
        var i :| 0 <= i < |loaded| && loaded[i] == p.value;
        assert ps[i + 1] == p;
      }
      var s :| s in summaries && s.parent == p;
    }
    if Summarized(summaries, p) {
      var i :| 0 <= i < |summaries| && summaries[i].parent == p;
      assert summaries[i] in summaries;
      var k :| 0 <= k < |ps| && ps[k] == p;
      if k > 0 {
        assert loaded[k - 1] in loaded;
      }
    }
  }

  /**
   For every window, whatever its depth, budget and caps: loaded members and cluster counts add up to
   the scope.
   */
  lemma ContextIsComplete(f: Forest, anchor: Option<MemberUuid>, loaded: seq<MemberUuid>, summaries: seq<Summary>)
    requires Sound(f) && Anchor(f, anchor) && Window(f, anchor, loaded) && SummariesOf(f, Parents(anchor, loaded), summaries)
    ensures |loaded| + ClusterTotal(ClustersOf(f, loaded, summaries)) == ScopeSize(f, anchor)
  {
    WindowIsComplete(f, anchor, loaded);
    SumFilter(f.order, IsOnFringe(f, anchor, loaded), Weights(f), FringeWeight(f, anchor, loaded));
    forall i | 0 <= i < |summaries| ensures summaries[i].representedNodes == Sum(ChildrenOf(f, summaries[i].parent), Weights(f)) {
      assert summaries[i] in summaries;
    }
    SummariesGrouped(f, summaries);
    ClustersByMember(f, anchor, loaded, summaries);
    forall x | x in f.order ensures FringeWeight(f, anchor, loaded)(x) == UnloadedAmong(f, summaries, loaded)(x) {
      FringeIsSummarized(f, anchor, loaded, summaries, x);
    }
    SumEq(f.order, FringeWeight(f, anchor, loaded), UnloadedAmong(f, summaries, loaded));
  }

  // ------------------------------------------------------------------ the context

  datatype Context = Context(
    loaded: seq<MemberUuid>, clusters: seq<Cluster>, pageRepresentedNodes: int,
    loadedNodes: nat, representedNodes: int, totalNodes: int, complete: bool, collapsedBranches: nat)

  datatype ContextError = BadRequest | FocusNotFound

  /** The rows within the tiers, as parents; in a window that is all of them. */
  function SummaryParents(f: Forest, anchor: Option<MemberUuid>, depth: nat, loaded: seq<MemberUuid>): seq<Option<MemberUuid>> {
    Parents(anchor, Filter(loaded, (x: MemberUuid) => Tier(f, anchor, x) <= depth))
  }

  lemma {:induction false} FilterAll<T(!new)>(xs: seq<T>, keep: T -> bool)
    requires forall x :: x in xs ==> keep(x)
    ensures Filter(xs, keep) == xs
  {
    if xs != [] {
      assert xs[|xs| - 1] in xs;
      FilterAll(xs[..|xs| - 1], keep);
    }
  }

  /** The summary query, with its groups in the order of the parents. */
  function BranchSummaries(f: Forest, parents: seq<Option<MemberUuid>>): seq<Summary> {
    if parents == [] then []
    else
      var p := parents[|parents| - 1];
      BranchSummaries(f, parents[..|parents| - 1])
      + (if ChildrenOf(f, p) == [] then [] else [Summary(p, |ChildrenOf(f, p)|, Sum(ChildrenOf(f, p), Weights(f)))])
  }

  lemma {:induction false} BranchSummariesMeaning(f: Forest, parents: seq<Option<MemberUuid>>)
    requires Distinct(parents)
    ensures SummariesOf(f, parents, BranchSummaries(f, parents))
  {
    if parents != [] {
      var front, p := parents[..|parents| - 1], parents[|parents| - 1];
      assert parents == front + [p];
      BranchSummariesMeaning(f, front);
      var before := BranchSummaries(f, front);
      forall i | 0 <= i < |before| ensures before[i].parent != p {
        assert before[i] in before;
        var k :| 0 <= k < |front| && front[k] == before[i].parent;
        assert parents[k] != parents[|front|];
      }
      forall q | q in parents && ChildrenOf(f, q) != [] ensures exists s :: s in BranchSummaries(f, parents) && s.parent == q {
        if q in front {
          var s :| s in before && s.parent == q;
          assert s in BranchSummaries(f, parents);
        } else {
          var all := BranchSummaries(f, parents);
          assert all[|before|].parent == q;
          assert all[|before|] in all;
        }
      }
    }
  }

  lemma ParentsDistinct(f: Forest, anchor: Option<MemberUuid>, loaded: seq<MemberUuid>)
    requires Window(f, anchor, loaded)
    ensures Distinct(Parents(anchor, loaded))
  {
    WindowFacts(f, anchor, loaded);
  }

  /**
   The admin context. It is refused only for a depth outside 1..5 or an unknown focus; otherwise it
   always reports itself complete, within the node budget.
   */
  method AdminContext(f: Forest, focus: Option<MemberUuid>, depth: nat) returns (r: Result<Context, ContextError>)
    requires Sound(f)
    ensures r.Err? <==> depth < 1 || depth > 5 || !Anchor(f, focus)
    ensures r.Ok? ==>
              var c := r.value;
              && c.complete && c.representedNodes == c.totalNodes
              && c.totalNodes == (if focus.Some? then Weight(f, focus.value) else |f.order|)
              && c.loadedNodes == |c.loaded| + (if focus.Some? then 1 else 0) <= 250
              && c.pageRepresentedNodes == ScopeSize(f, focus) && c.collapsedBranches == |c.clusters|
              && ReadWindow(f, focus, depth, c.loaded) == true
              && FullWindow(f, focus, depth, if focus.Some? then 249 else 250, c.loaded) == true
              && c.clusters == ClustersOf(f, c.loaded, BranchSummaries(f, Parents(focus, c.loaded)))
  {
    if depth < 1 || depth > 5 {
      return Err(BadRequest);
    }
    if focus.Some? && focus.value !in f.rows {
      return Err(FocusNotFound);
    }
    var own := if focus.Some? then 1 else 0;
    var loaded := ReadContextMembers(f, focus, depth, NODE_BUDGET - own);
    ContextWindow(f, focus, depth, NODE_BUDGET - own);
    var summaries := BranchSummaries(f, SummaryParents(f, focus, depth, loaded));
    SummariesHold(f, focus, depth, loaded);
    var clusters := ContextClusters(f, loaded, summaries);
    ContextIsComplete(f, focus, loaded, summaries);
    ScopeNonNegative(f, focus);
    var totalNodes := if focus.Some? then Weight(f, focus.value) else |f.order|;
    var loadedNodes := |loaded| + own;
    var representedNodes := loadedNodes + ClusterTotal(clusters);
    var pageRepresented := if representedNodes - own > 0 then representedNodes - own else 0;
    r := Ok(Context(loaded, clusters, pageRepresented, loadedNodes, representedNodes, totalNodes,
                    representedNodes == totalNodes, |clusters|));
  }

  lemma SummariesHold(f: Forest, anchor: Option<MemberUuid>, depth: nat, loaded: seq<MemberUuid>)
    requires ReadWindow(f, anchor, depth, loaded)
    ensures SummaryParents(f, anchor, depth, loaded) == Parents(anchor, loaded)
    ensures SummariesOf(f, Parents(anchor, loaded), BranchSummaries(f, Parents(anchor, loaded)))
  {
    FilterAll(loaded, (x: MemberUuid) => Tier(f, anchor, x) <= depth);
    ParentsDistinct(f, anchor, loaded);
    BranchSummariesMeaning(f, Parents(anchor, loaded));
  }

  lemma ScopeNonNegative(f: Forest, anchor: Option<MemberUuid>)
    requires Sound(f) && Anchor(f, anchor)
    ensures ScopeSize(f, anchor) >= 0
  {
    ScopeCount(f, anchor);
    forall d | d in f.order ensures InScope(f, anchor)(d) >= 0 {}
    SumNonNegative(f.order, InScope(f, anchor));
  }
}
