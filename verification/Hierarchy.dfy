/**
 The windowed view of the referral forest: a breadth-first window under a node budget, clusters for
 everything below and beside it, and keyset pages that open the clusters.
 */
module Hierarchy {
  import opened Prelude
  import opened Membership
  import opened Sums

  const PAGE_SIZE: nat := 50
  const NODE_BUDGET: nat := 250

  /** ORDER BY joined_at, id; `number` is the value a uuid is compared by. */
  datatype Key = Key(joinedAt: int, number: nat)

  /** The members of a tenant at a snapshot, and their ids in key order. */
  datatype Forest = Forest(rows: Members, keys: map<MemberUuid, Key>, order: seq<MemberUuid>)

  predicate KeyLess(a: Key, b: Key) {
    a.joinedAt < b.joinedAt || (a.joinedAt == b.joinedAt && a.number < b.number)
  }

  predicate InOrder(f: Forest, a: MemberUuid, b: MemberUuid) {
    a in f.keys && b in f.keys && KeyLess(f.keys[a], f.keys[b])
  }

  /** The snapshot is closed under sponsors, and the order lists every member. */
  ghost predicate Sound(f: Forest) {
    && Placed(f.rows)
    && (forall x :: x in f.order <==> x in f.rows)
    && (forall x :: x in f.rows ==> x in f.keys)
    && (forall i, j {:trigger InOrder(f, f.order[i], f.order[j])} :: 0 <= i < j < |f.order| ==> InOrder(f, f.order[i], f.order[j]))
  }

  lemma OrderDistinct(f: Forest)
    requires Sound(f)
    ensures Distinct(f.order)
  {
    forall i, j | 0 <= i < j < |f.order| ensures f.order[i] != f.order[j] {
      assert InOrder(f, f.order[i], f.order[j]);
    }
  }

  predicate ChildOf(f: Forest, p: Option<MemberUuid>, x: MemberUuid) {
    x in f.rows && f.rows[x].sponsor == p
  }

  function IsChild(f: Forest, p: Option<MemberUuid>): MemberUuid -> bool {
    (x: MemberUuid) => ChildOf(f, p, x)
  }

  /** The children of a member, or the roots, in key order. */
  function ChildrenOf(f: Forest, p: Option<MemberUuid>): seq<MemberUuid> {
    Filter(f.order, IsChild(f, p))
  }

  /** `d.path <@ a.path` */
  function Hit(f: Forest, d: MemberUuid, a: MemberUuid): int {
    if d in f.rows && a in f.rows && WithinBranch(f.rows[d].path, f.rows[a].path) then 1 else 0
  }

  function HitsOn(f: Forest, a: MemberUuid): MemberUuid -> int {
    (d: MemberUuid) => Hit(f, d, a)
  }

  function HitsOf(f: Forest, d: MemberUuid): MemberUuid -> int {
    (a: MemberUuid) => Hit(f, d, a)
  }

  /** The member and everyone below: 1 + subtreeCount. */
  function Weight(f: Forest, a: MemberUuid): int {
    Sum(f.order, HitsOn(f, a))
  }

  function Weights(f: Forest): MemberUuid -> int {
    (a: MemberUuid) => Weight(f, a)
  }

  // ------------------------------------------------------------------ one child on every path

  /** Going up from `d`: it is `a`, or its sponsor is below `a`. */
  lemma HitStep(f: Forest, d: MemberUuid, a: MemberUuid)
    requires Sound(f) && d in f.rows && a in f.rows
    ensures PlacedAt(f.rows, d)
    ensures Hit(f, d, a) == if d == a then 1 else if f.rows[d].sponsor.Some? then Hit(f, f.rows[d].sponsor.value, a) else 0
  {
    assert PlacedAt(f.rows, d);
    BranchTestIsReach(f.rows, d, a);
    if f.rows[d].sponsor.Some? {
      BranchTestIsReach(f.rows, f.rows[d].sponsor.value, a);
    }
  }

  lemma {:induction false} HitDepth(f: Forest, d: MemberUuid, a: MemberUuid)
    requires Sound(f) && d in f.rows && a in f.rows && d != a && f.rows[d].depth <= f.rows[a].depth
    ensures Hit(f, d, a) == 0
    decreases f.rows[d].depth
  {
    HitStep(f, d, a);
    if f.rows[d].sponsor.Some? {
      HitDepth(f, f.rows[d].sponsor.value, a);
    }
  }

  /** In scope: below the anchor, or anywhere when there is none. */
  function Below(f: Forest, d: MemberUuid, p: Option<MemberUuid>): int {
    match p
    case None => 1
    case Some(m) => if d == m then 0 else Hit(f, d, m)
  }

  predicate Anchor(f: Forest, p: Option<MemberUuid>) {
    p.Some? ==> p.value in f.rows
  }

  lemma ChildHits(f: Forest, d: MemberUuid, p: Option<MemberUuid>, c: MemberUuid)
    requires Sound(f) && d in f.rows && Anchor(f, p) && ChildOf(f, p, c)
    ensures ChildOf(f, p, d) ==> Hit(f, d, c) == if d == c then 1 else 0
    ensures !ChildOf(f, p, d) ==> Hit(f, d, c) == if f.rows[d].sponsor.Some? then Hit(f, f.rows[d].sponsor.value, c) else 0
  {
    HitStep(f, d, c);
    HitStep(f, c, c);
    if ChildOf(f, p, d) && p.Some? {
      HitDepth(f, p.value, c);
    }
  }

  /** Everyone below `p` is below exactly one child of `p`, and nobody else is. */
  lemma {:induction false} BelowOneChild(f: Forest, d: MemberUuid, p: Option<MemberUuid>)
    requires Sound(f) && d in f.rows && Anchor(f, p)
    ensures Sum(ChildrenOf(f, p), HitsOf(f, d)) == Below(f, d, p)
    decreases f.rows[d].depth
  {
    var cs, hits := ChildrenOf(f, p), HitsOf(f, d);
    FilterMembers(f.order, IsChild(f, p));
    forall c | c in cs
      ensures ChildOf(f, p, d) ==> hits(c) == if d == c then 1 else 0
      ensures !ChildOf(f, p, d) ==> hits(c) == if f.rows[d].sponsor.Some? then Hit(f, f.rows[d].sponsor.value, c) else 0
    {
      ChildHits(f, d, p, c);
    }
    HitStep(f, d, d);
    if p.Some? {
      HitStep(f, d, p.value);
      HitStep(f, p.value, p.value);
    }
    if ChildOf(f, p, d) {
      OrderDistinct(f);
      FilterDistinct(f.order, IsChild(f, p));
      SumPoint(cs, d, hits);
    } else if f.rows[d].sponsor.Some? {
      BelowOneChild(f, f.rows[d].sponsor.value, p);
      SumEq(cs, hits, HitsOf(f, f.rows[d].sponsor.value));
    } else {
      SumZero(cs, hits);
    }
  }

  /** The number of members in scope below an anchor. */
  function ScopeSize(f: Forest, p: Option<MemberUuid>): int {
    match p
    case None => |f.order|
    case Some(m) => Weight(f, m) - 1
  }

  function InScope(f: Forest, p: Option<MemberUuid>): MemberUuid -> int {
    (d: MemberUuid) => Below(f, d, p)
  }

  lemma ScopeCount(f: Forest, p: Option<MemberUuid>)
    requires Sound(f) && Anchor(f, p)
    ensures Sum(f.order, InScope(f, p)) == ScopeSize(f, p)
  {
    match p
    case None => SumOnes(f.order, InScope(f, p));
    case Some(m) =>
      OrderDistinct(f);
      HitStep(f, m, m);
      var self := d => if d == m then 1 else 0;
      SumPoint(f.order, m, self);
      SumPlus(f.order, InScope(f, p), self, HitsOn(f, m));
  }

  /** How many of the listed branches a member is in. */
  function HitsAmong(f: Forest, xs: seq<MemberUuid>): MemberUuid -> int {
    (d: MemberUuid) => Sum(xs, HitsOf(f, d))
  }

  /** Weighing the branches counts every member once for each of them it is in. */
  lemma {:induction false} WeightsByMember(f: Forest, xs: seq<MemberUuid>)
    ensures Sum(xs, Weights(f)) == Sum(f.order, HitsAmong(f, xs))
  {
    if xs == [] {
      SumZero(f.order, HitsAmong(f, xs));
    } else {
      var front, last := xs[..|xs| - 1], xs[|xs| - 1];
      WeightsByMember(f, front);
      SumPlus(f.order, HitsAmong(f, front), HitsOn(f, last), HitsAmong(f, xs));
    }
  }

  /** A member's weight is itself and the weights of its children; the whole forest is the weights of its roots. */
  lemma WeightsOfChildren(f: Forest, p: Option<MemberUuid>)
    requires Sound(f) && Anchor(f, p)
    ensures Sum(ChildrenOf(f, p), Weights(f)) == ScopeSize(f, p)
  {
    WeightsByMember(f, ChildrenOf(f, p));
    forall d | d in f.order ensures HitsAmong(f, ChildrenOf(f, p))(d) == InScope(f, p)(d) {
      BelowOneChild(f, d, p);
    }
    SumEq(f.order, HitsAmong(f, ChildrenOf(f, p)), InScope(f, p));
    ScopeCount(f, p);
  }

  // ------------------------------------------------------------------ a window and its fringe

  /** Where a branch can hang: at the anchor or at a loaded member. */
  predicate Hangs(f: Forest, anchor: Option<MemberUuid>, loaded: seq<MemberUuid>, x: MemberUuid) {
    x in f.rows && (f.rows[x].sponsor == anchor || (f.rows[x].sponsor.Some? && f.rows[x].sponsor.value in loaded))
  }

  /** A window grows by members that hang on what is already there. */
  ghost predicate Window(f: Forest, anchor: Option<MemberUuid>, loaded: seq<MemberUuid>) {
    loaded == [] ||
    (var front, c := loaded[..|loaded| - 1], loaded[|loaded| - 1];
     Window(f, anchor, front) && c !in front && anchor != Some(c) && Hangs(f, anchor, front, c))
  }

  predicate OnFringe(f: Forest, anchor: Option<MemberUuid>, loaded: seq<MemberUuid>, x: MemberUuid) {
    Hangs(f, anchor, loaded, x) && x !in loaded
  }

  function IsOnFringe(f: Forest, anchor: Option<MemberUuid>, loaded: seq<MemberUuid>): MemberUuid -> bool {
    (x: MemberUuid) => OnFringe(f, anchor, loaded, x)
  }

  /** The members just outside the window. */
  function Fringe(f: Forest, anchor: Option<MemberUuid>, loaded: seq<MemberUuid>): seq<MemberUuid> {
    Filter(f.order, IsOnFringe(f, anchor, loaded))
  }

  function FringeHit(f: Forest, anchor: Option<MemberUuid>, loaded: seq<MemberUuid>, d: MemberUuid): MemberUuid -> int {
    (x: MemberUuid) => if OnFringe(f, anchor, loaded, x) then Hit(f, d, x) else 0
  }

  function ChildHit(f: Forest, p: Option<MemberUuid>, d: MemberUuid): MemberUuid -> int {
    (x: MemberUuid) => if ChildOf(f, p, x) then Hit(f, d, x) else 0
  }

  lemma FringeHits(f: Forest, anchor: Option<MemberUuid>, loaded: seq<MemberUuid>, d: MemberUuid)
    ensures Sum(Fringe(f, anchor, loaded), HitsOf(f, d)) == Sum(f.order, FringeHit(f, anchor, loaded, d))
  {
    SumFilter(f.order, IsOnFringe(f, anchor, loaded), HitsOf(f, d), FringeHit(f, anchor, loaded, d));
  }

  lemma ChildHitsSum(f: Forest, p: Option<MemberUuid>, d: MemberUuid)
    ensures Sum(ChildrenOf(f, p), HitsOf(f, d)) == Sum(f.order, ChildHit(f, p, d))
  {
    SumFilter(f.order, IsChild(f, p), HitsOf(f, d), ChildHit(f, p, d));
  }

  lemma {:induction false} WindowFacts(f: Forest, anchor: Option<MemberUuid>, loaded: seq<MemberUuid>)
    requires Window(f, anchor, loaded)
    ensures Distinct(loaded)
    ensures forall x :: x in loaded ==> x in f.rows && anchor != Some(x) && Hangs(f, anchor, loaded, x)
  {
    if loaded != [] {
      var front, c := loaded[..|loaded| - 1], loaded[|loaded| - 1];
      WindowFacts(f, anchor, front);
      assert loaded == front + [c];
    }
  }

  /** What moves on the fringe when `c` is loaded. */
  function Moved(f: Forest, c: MemberUuid, d: MemberUuid): MemberUuid -> int {
    (x: MemberUuid) => (if x == c then -Hit(f, d, c) else 0) + (if ChildOf(f, Some(c), x) then Hit(f, d, x) else 0)
  }

  lemma FringeMoveAt(f: Forest, anchor: Option<MemberUuid>, front: seq<MemberUuid>, c: MemberUuid, d: MemberUuid, x: MemberUuid)
    requires Sound(f) && Window(f, anchor, front) && x in f.rows
    requires c !in front && anchor != Some(c) && Hangs(f, anchor, front, c)
    ensures FringeHit(f, anchor, front + [c], d)(x) == FringeHit(f, anchor, front, d)(x) + Moved(f, c, d)(x)
  {
    WindowFacts(f, anchor, front);
    assert PlacedAt(f.rows, x) && PlacedAt(f.rows, c);
    assert (front + [c])[|front|] == c;
    assert forall y :: y in front + [c] <==> y in front || y == c;
    if ChildOf(f, Some(c), x) {
      assert x !in front;
      assert x != c;
    }
  }

  lemma MovedSum(f: Forest, c: MemberUuid, d: MemberUuid)
    requires Sound(f) && c in f.rows
    ensures Sum(f.order, Moved(f, c, d)) == Sum(ChildrenOf(f, Some(c)), HitsOf(f, d)) - Hit(f, d, c)
  {
    OrderDistinct(f);
    var out := x => if x == c then -Hit(f, d, c) else 0;
    SumPoint(f.order, c, out);
    SumPlus(f.order, out, ChildHit(f, Some(c), d), Moved(f, c, d));
    ChildHitsSum(f, Some(c), d);
  }

  /** Loading one fringe member takes its branch off the fringe and puts its children's branches on. */
  lemma FringeMoves(f: Forest, anchor: Option<MemberUuid>, front: seq<MemberUuid>, c: MemberUuid, d: MemberUuid)
    requires Sound(f) && Window(f, anchor, front)
    requires c !in front && anchor != Some(c) && Hangs(f, anchor, front, c)
    ensures Sum(f.order, FringeHit(f, anchor, front + [c], d))
            == Sum(f.order, FringeHit(f, anchor, front, d)) - Hit(f, d, c) + Sum(ChildrenOf(f, Some(c)), HitsOf(f, d))
  {
    forall x | x in f.order ensures FringeHit(f, anchor, front + [c], d)(x) == FringeHit(f, anchor, front, d)(x) + Moved(f, c, d)(x) {
      FringeMoveAt(f, anchor, front, c, d, x);
    }
    SumPlus(f.order, FringeHit(f, anchor, front, d), Moved(f, c, d), FringeHit(f, anchor, front + [c], d));
    MovedSum(f, c, d);
  }

  /**
   Whatever window is loaded, every member in scope is either loaded or in exactly one fringe branch;
   members outside the scope are in neither.
   */
  lemma {:induction false} RepresentedOnce(f: Forest, anchor: Option<MemberUuid>, loaded: seq<MemberUuid>, d: MemberUuid)
    requires Sound(f) && Anchor(f, anchor) && Window(f, anchor, loaded) && d in f.rows
    ensures (if d in loaded then 1 else 0) + Sum(Fringe(f, anchor, loaded), HitsOf(f, d)) == Below(f, d, anchor)
  {
    FringeHits(f, anchor, loaded, d);
    if loaded == [] {
      BelowOneChild(f, d, anchor);
      ChildHitsSum(f, anchor, d);
      SumEq(f.order, FringeHit(f, anchor, loaded, d), ChildHit(f, anchor, d));
    } else {
      var front, c := loaded[..|loaded| - 1], loaded[|loaded| - 1];
      assert loaded == front + [c];
      RepresentedOnce(f, anchor, front, d);
      FringeHits(f, anchor, front, d);
      FringeMoves(f, anchor, front, c, d);
      BelowOneChild(f, d, Some(c));
      HitStep(f, d, c);
    }
  }

  function Loaded(loaded: seq<MemberUuid>): MemberUuid -> int {
    (d: MemberUuid) => if d in loaded then 1 else 0
  }

  /** So the loaded members and the weights on the fringe add up to the scope, exactly. */
  lemma WindowIsComplete(f: Forest, anchor: Option<MemberUuid>, loaded: seq<MemberUuid>)
    requires Sound(f) && Anchor(f, anchor) && Window(f, anchor, loaded)
    ensures |loaded| + Sum(Fringe(f, anchor, loaded), Weights(f)) == ScopeSize(f, anchor)
  {
    var fringe := Fringe(f, anchor, loaded);
    WeightsByMember(f, fringe);
    forall d | d in f.order ensures InScope(f, anchor)(d) == Loaded(loaded)(d) + HitsAmong(f, fringe)(d) {
      RepresentedOnce(f, anchor, loaded, d);
    }
    SumPlus(f.order, Loaded(loaded), HitsAmong(f, fringe), InScope(f, anchor));
    ScopeCount(f, anchor);
    WindowFacts(f, anchor, loaded);
    OrderDistinct(f);
    var ones := (d: MemberUuid) => 1;
    SumOnes(loaded, ones);
    SumWithin(loaded, f.order, ones, Loaded(loaded));
  }
}
