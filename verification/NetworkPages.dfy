/** Opening a cluster: keyset pages over the children of one parent. */
module NetworkPages {
  import opened Prelude
  import opened Membership
  import opened Sums
  import opened Hierarchy
  import opened NetworkContext

  /** AND (m.joined_at, m.id) > (after.joined_at, after.id), or no keyset at all. */
  predicate Beyond(f: Forest, after: Option<MemberUuid>, x: MemberUuid) {
    after.None? || InOrder(f, after.value, x)
  }

  function IsBeyond(f: Forest, p: Option<MemberUuid>, after: Option<MemberUuid>): MemberUuid -> bool {
    (x: MemberUuid) => ChildOf(f, p, x) && Beyond(f, after, x)
  }

  /** The rows of the branch query before its limit. */
  function BranchRows(f: Forest, p: Option<MemberUuid>, after: Option<MemberUuid>): seq<MemberUuid> {
    Filter(f.order, IsBeyond(f, p, after))
  }

  datatype Page = Page(visible: seq<MemberUuid>, remaining: int, representedNodes: int, next: Option<MemberUuid>)

  /** The page on a list of rows: the first PAGE_SIZE of them, a cluster for the rest, and the cursor to it. */
  function PageOf(f: Forest, rows: seq<MemberUuid>): Page {
    var visible := Firsts(rows, PAGE_SIZE);
    var shown := Sum(visible, Weights(f));
    var left := Sum(rows, Weights(f)) - shown;
    var remaining := if left > 0 then left else 0;
    Page(visible, remaining, shown + remaining, if |rows| > |visible| then LastOf(visible) else None)
  }

  /**
   The query returns up to PAGE_SIZE + 1 rows, with the count and the weight of all of them beside
   each row.
   */
  method ReadBranchPage(f: Forest, p: Option<MemberUuid>, after: Option<MemberUuid>) returns (page: Page)
    ensures page == PageOf(f, BranchRows(f, p, after))
  {
    var all := BranchRows(f, p, after);
    var rows := Firsts(all, PAGE_SIZE + 1);
    var visible := Firsts(rows, PAGE_SIZE);
    assert visible == Firsts(all, PAGE_SIZE);
    var branchCount := if rows != [] then |all| else |rows|;
    var branchRepresented := if rows != [] then Sum(all, Weights(f)) else Sum(rows, Weights(f));
    assert rows == [] ==> all == [];
    var shown := Sum(visible, Weights(f));
    var remaining := if branchRepresented - shown > 0 then branchRepresented - shown else 0;
    page := Page(visible, remaining, shown + remaining, if branchCount > |visible| then LastOf(visible) else None);
  }

  // ------------------------------------------------------------------ the keyset cuts the list

  ghost predicate Ascends(f: Forest, xs: seq<MemberUuid>) {
    forall i, j :: 0 <= i < j < |xs| ==> InOrder(f, xs[i], xs[j])
  }

  lemma {:induction false} ChildrenAscend(f: Forest, xs: seq<MemberUuid>, p: Option<MemberUuid>)
    requires Ascends(f, xs)
    ensures Ascends(f, Siblings(f, xs, p))
  {
    if xs != [] {
      var front, last := xs[..|xs| - 1], xs[|xs| - 1];
      ChildrenAscend(f, front, p);
      FilterMembers(front, IsChild(f, p));
      var cs := Siblings(f, front, p);
      forall i | 0 <= i < |cs| ensures InOrder(f, cs[i], last) {
        assert cs[i] in front;
        var j :| 0 <= j < |front| && front[j] == cs[i];
        assert InOrder(f, xs[j], xs[|front|]);
      }
    }
  }

  function BeyondKey(f: Forest, after: Option<MemberUuid>): MemberUuid -> bool {
    (x: MemberUuid) => Beyond(f, after, x)
  }

  /** The key test on the whole table is the key test on the children. */
  lemma {:induction false} BeyondAmongChildren(f: Forest, xs: seq<MemberUuid>, p: Option<MemberUuid>, after: Option<MemberUuid>)
    ensures Filter(xs, IsBeyond(f, p, after)) == Filter(Siblings(f, xs, p), BeyondKey(f, after))
  {
    if xs != [] {
      var front, last := xs[..|xs| - 1], xs[|xs| - 1];
      BeyondAmongChildren(f, front, p, after);
      FilterSnoc(Siblings(f, front, p), last, BeyondKey(f, after));
    }
  }

  lemma {:induction false} FilterNone(xs: seq<MemberUuid>, keep: MemberUuid -> bool)
    requires forall x :: x in xs ==> !keep(x)
    ensures Filter(xs, keep) == []
  {
    if xs != [] {
      assert xs[|xs| - 1] in xs;
      FilterNone(xs[..|xs| - 1], keep);
    }
  }

  lemma NotBeyond(f: Forest, cs: seq<MemberUuid>, k: nat)
    requires Ascends(f, cs) && k <= |cs|
    ensures Filter(cs[..k], BeyondKey(f, LastOf(cs[..k]))) == []
  {
    var keep := BeyondKey(f, LastOf(cs[..k]));
    forall x | x in cs[..k] ensures !keep(x) {
      var i :| 0 <= i < k && cs[..k][i] == x;
      if i < k - 1 {
        assert InOrder(f, cs[i], cs[k - 1]);
      }
    }
    FilterNone(cs[..k], keep);
  }

  lemma AllBeyond(f: Forest, cs: seq<MemberUuid>, k: nat)
    requires Ascends(f, cs) && k <= |cs|
    ensures Filter(cs[k..], BeyondKey(f, LastOf(cs[..k]))) == cs[k..]
  {
    var keep := BeyondKey(f, LastOf(cs[..k]));
    forall x | x in cs[k..] ensures keep(x) {
      var i :| 0 <= i < |cs| - k && cs[k..][i] == x;
      if k > 0 {
        assert InOrder(f, cs[k - 1], cs[k + i]);
      }
    }
    FilterAll(cs[k..], keep);
  }

  /** In an ascending list, being beyond the k-th entry is coming after it. */
  lemma CutAtKey(f: Forest, cs: seq<MemberUuid>, k: nat)
    requires Ascends(f, cs) && k <= |cs|
    ensures Filter(cs, BeyondKey(f, LastOf(cs[..k]))) == cs[k..]
  {
    NotBeyond(f, cs, k);
    AllBeyond(f, cs, k);
    FilterCut(cs, k, BeyondKey(f, LastOf(cs[..k])));
  }

  lemma FilterCut(cs: seq<MemberUuid>, k: nat, keep: MemberUuid -> bool)
    requires k <= |cs| && Filter(cs[..k], keep) == [] && Filter(cs[k..], keep) == cs[k..]
    ensures Filter(cs, keep) == cs[k..]
  {
    FilterAppend(cs[..k], cs[k..], keep);
    assert cs == cs[..k] + cs[k..];
  }

  /** Asking for what is beyond the k-th child returns the children from k on. */
  lemma KeysetCuts(f: Forest, p: Option<MemberUuid>, k: nat)
    requires Sound(f) && k <= |ChildrenOf(f, p)|
    ensures BranchRows(f, p, LastOf(ChildrenOf(f, p)[..k])) == ChildrenOf(f, p)[k..]
  {
    var cs := ChildrenOf(f, p);
    ChildrenAscend(f, f.order, p);
    BeyondAmongChildren(f, f.order, p, LastOf(cs[..k]));
    CutAtKey(f, cs, k);
  }

  // ------------------------------------------------------------------ following the pages

  lemma WeightsSplit(f: Forest, xs: seq<MemberUuid>, n: nat)
    requires n <= |xs|
    ensures Sum(xs, Weights(f)) == Sum(xs[..n], Weights(f)) + Sum(xs[n..], Weights(f))
    ensures Sum(xs[n..], Weights(f)) >= 0
  {
    assert xs == xs[..n] + xs[n..];
    SumAppend(xs[..n], xs[n..], Weights(f));
    forall x | x in xs[n..] ensures Weights(f)(x) >= 0 {
      WeightNonNegative(f, x);
    }
    SumNonNegative(xs[n..], Weights(f));
  }

  /** A page that starts at the k-th child: the next PAGE_SIZE, the weight of all that follow, and the cursor after the last shown. */
  ghost predicate PageFrom(f: Forest, cs: seq<MemberUuid>, k: nat, page: Page) {
    var n := k + |page.visible|;
    && n <= |cs| && page.visible == cs[k..n] && |page.visible| == Least(50, |cs| - k)
    && page.remaining == Sum(cs[n..], Weights(f))
    && page.representedNodes == Sum(page.visible, Weights(f)) + page.remaining == Sum(cs[k..], Weights(f))
    && page.next == if n < |cs| then LastOf(cs[..n]) else None
  }

  lemma PageOfRest(f: Forest, cs: seq<MemberUuid>, k: nat)
    requires k <= |cs|
    ensures PageFrom(f, cs, k, PageOf(f, cs[k..]))
  {
    var n := Least(PAGE_SIZE, |cs| - k);
    var rows := cs[k..];
    WeightsSplit(f, rows, n);
    assert rows[..n] == cs[k..k + n];
    assert rows[n..] == cs[k + n..];
    if n > 0 {
      assert cs[..k + n][k + n - 1] == rows[..n][n - 1];
    }
  }

  lemma PageAt(f: Forest, p: Option<MemberUuid>, k: nat)
    requires Sound(f) && k <= |ChildrenOf(f, p)|
    ensures PageFrom(f, ChildrenOf(f, p), k, PageOf(f, BranchRows(f, p, LastOf(ChildrenOf(f, p)[..k]))))
  {
    KeysetCuts(f, p, k);
    PageOfRest(f, ChildrenOf(f, p), k);
  }

  /**
   Page after page: a page shows the next children of the parent, its cursor leads to the page right
   behind, and that page represents exactly what this one left.
   */
  lemma PagesChain(f: Forest, p: Option<MemberUuid>, k: nat)
    requires Sound(f) && k <= |ChildrenOf(f, p)|
    ensures var cs := ChildrenOf(f, p);
            var page := PageOf(f, BranchRows(f, p, LastOf(cs[..k])));
            var n := k + |page.visible|;
            && PageFrom(f, cs, k, page)
            && (page.next.Some? ==>
                  k < n < |cs| && PageFrom(f, cs, n, PageOf(f, BranchRows(f, p, page.next)))
                  && page.remaining == PageOf(f, BranchRows(f, p, page.next)).representedNodes)
  {
    PageAt(f, p, k);
    var cs := ChildrenOf(f, p);
    var page := PageOf(f, BranchRows(f, p, LastOf(cs[..k])));
    if page.next.Some? {
      PageAt(f, p, k + |page.visible|);
    }
  }

  /** What a reader sees who asks for at most `pages` pages, following every cursor. */
  function Walk(f: Forest, p: Option<MemberUuid>, cursor: Option<MemberUuid>, pages: nat): seq<MemberUuid>
    decreases pages
  {
    if pages == 0 then []
    else
      var page := PageOf(f, BranchRows(f, p, cursor));
      page.visible + (if page.next.None? then [] else Walk(f, p, page.next, pages - 1))
  }

  lemma WalkStep(cs: seq<MemberUuid>, k: nat, n: nat)
    requires k <= n <= |cs|
    ensures cs[k..n] + cs[n..] == cs[k..]
    ensures n == |cs| ==> cs[k..n] == cs[k..]
  {}

  /** The first page of a walk, and where it goes on. */
  lemma WalkOne(f: Forest, p: Option<MemberUuid>, k: nat, pages: nat)
    requires Sound(f) && k <= |ChildrenOf(f, p)| && pages > 0
    ensures var cs := ChildrenOf(f, p);
            var n := k + Least(PAGE_SIZE, |cs| - k);
            Walk(f, p, LastOf(cs[..k]), pages)
            == if n < |cs| then cs[k..n] + Walk(f, p, LastOf(cs[..n]), pages - 1) else cs[k..n]
  {
    PageAt(f, p, k);
  }

  lemma WalkOn(f: Forest, p: Option<MemberUuid>, k: nat, n: nat, pages: nat)
    requires Sound(f) && k <= |ChildrenOf(f, p)| && pages > 0 && n == k + Least(PAGE_SIZE, |ChildrenOf(f, p)| - k)
    requires n < |ChildrenOf(f, p)| ==> Walk(f, p, LastOf(ChildrenOf(f, p)[..n]), pages - 1) == ChildrenOf(f, p)[n..]
    ensures Walk(f, p, LastOf(ChildrenOf(f, p)[..k]), pages) == ChildrenOf(f, p)[k..]
  {
    WalkOne(f, p, k, pages);
    WalkStep(ChildrenOf(f, p), k, n);
  }

  /**
   From the k-th child on, one page for every PAGE_SIZE children left yields all of them, each once, in
   order; asking for more changes nothing.
   */
  lemma {:induction false} WalkYieldsRest(f: Forest, p: Option<MemberUuid>, k: nat, pages: nat)
    requires Sound(f) && k <= |ChildrenOf(f, p)| <= k + PAGE_SIZE * pages
    ensures Walk(f, p, LastOf(ChildrenOf(f, p)[..k]), pages) == ChildrenOf(f, p)[k..]
    decreases pages
  {
    var cs := ChildrenOf(f, p);
    if pages > 0 {
      var n := k + Least(PAGE_SIZE, |cs| - k);
      if n < |cs| {
        WalkYieldsRest(f, p, n, pages - 1);
      }
      WalkOn(f, p, k, n, pages);
    } else {
      assert cs[k..] == [];
    }
  }

  // ------------------------------------------------------------------ from a cluster to its pages

  lemma WeightPositive(f: Forest, a: MemberUuid)
    requires Sound(f) && a in f.rows
    ensures Weight(f, a) >= 1
  {
    OrderDistinct(f);
    HitStep(f, a, a);
    var self := (d: MemberUuid) => if d == a then 1 else 0;
    var others := (d: MemberUuid) => if d == a then 0 else Hit(f, d, a);
    SumPoint(f.order, a, self);
    SumPlus(f.order, self, others, HitsOn(f, a));
    SumNonNegative(f.order, others);
  }

  lemma SomeWeight(f: Forest, xs: seq<MemberUuid>)
    requires Sound(f) && forall x :: x in xs ==> x in f.rows
    ensures Sum(xs, Weights(f)) > 0 <==> xs != []
  {
    if xs != [] {
      var front, last := xs[..|xs| - 1], xs[|xs| - 1];
      assert last in xs;
      WeightPositive(f, last);
      forall x | x in front ensures Weights(f)(x) >= 0 {
        WeightNonNegative(f, x);
      }
      SumNonNegative(front, Weights(f));
    }
  }

  lemma RestWeight(f: Forest, p: Option<MemberUuid>, k: nat)
    requires Sound(f) && k <= |ChildrenOf(f, p)|
    ensures Sum(ChildrenOf(f, p)[k..], Weights(f)) > 0 <==> k < |ChildrenOf(f, p)|
  {
    var cs := ChildrenOf(f, p);
    FilterMembers(f.order, IsChild(f, p));
    forall x | x in cs[k..] ensures x in f.rows {
      assert x in cs;
    }
    SomeWeight(f, cs[k..]);
  }

  lemma RemainingIsRest(f: Forest, loaded: seq<MemberUuid>, s: Summary)
    requires TakesFirst(f, loaded) && s.representedNodes == Sum(ChildrenOf(f, s.parent), Weights(f))
    ensures var k, cs := |Siblings(f, loaded, s.parent)|, ChildrenOf(f, s.parent);
            k <= |cs| && Siblings(f, loaded, s.parent) == cs[..k] && Remaining(f, loaded, s) == Sum(cs[k..], Weights(f))
  {
    var mine, cs := Siblings(f, loaded, s.parent), ChildrenOf(f, s.parent);
    assert mine <= cs;
    assert mine == cs[..|mine|];
    WeightsSplit(f, cs, |mine|);
  }

  /**
   A cluster of the context opens where the window stopped: the loaded children are the first ones in
   key order, there is a cluster exactly when some are missing, and then its cursor stands after the
   last loaded child and its count is what its first page represents.
   */
  lemma ClusterOpens(f: Forest, loaded: seq<MemberUuid>, s: Summary)
    requires Sound(f) && TakesFirst(f, loaded) && s.representedNodes == Sum(ChildrenOf(f, s.parent), Weights(f))
    ensures var k, cs := |Siblings(f, loaded, s.parent)|, ChildrenOf(f, s.parent);
            && k <= |cs| && Siblings(f, loaded, s.parent) == cs[..k]
            && (ClusterOf(f, loaded, s) == [] <==> k == |cs|)
            && (k < |cs| ==>
                  ClusterOf(f, loaded, s)
                  == [Cluster(s.parent, PageOf(f, BranchRows(f, s.parent, LastOf(cs[..k]))).representedNodes, LastOf(cs[..k]))])
  {
    RemainingIsRest(f, loaded, s);
    var k := |Siblings(f, loaded, s.parent)|;
    RestWeight(f, s.parent, k);
    PageAt(f, s.parent, k);
  }
}
