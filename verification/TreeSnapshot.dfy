/** The single reverse pass of the tree snapshot, against the recursive sums that it replaces. */
module TreeSnapshot {
  import opened Prelude
  import opened Sums

  type Id = nat

  datatype Node = Node(id: Id, parent: Option<Id>, revenue: int)

  /** The position of a node's parent in the list, when the list has it before the node. */
  function ParentAt(nodes: seq<Node>, k: nat): (p: Option<nat>)
    requires k < |nodes|
    ensures p.Some? ==> p.value < k && nodes[k].parent == Some(nodes[p.value].id)
  {
    FindBefore(nodes, k, nodes[k].parent)
  }

  function FindBefore(nodes: seq<Node>, n: nat, id: Option<Id>): (p: Option<nat>)
    requires n <= |nodes|
    ensures p.Some? ==> p.value < n && id == Some(nodes[p.value].id)
  {
    if n == 0 then None
    else if id == Some(nodes[n - 1].id) then Some(n - 1)
    else FindBefore(nodes, n - 1, id)
  }

  /** Depth order: ids once, and a parent that is in the list stands before its children. */
  ghost predicate DepthOrdered(nodes: seq<Node>) {
    && (forall i, j :: 0 <= i < j < |nodes| ==> nodes[i].id != nodes[j].id)
    && (forall i, j :: 0 <= i < |nodes| && 0 <= j < |nodes| && nodes[i].parent == Some(nodes[j].id) ==> j < i)
  }

  /** `k` is strictly below `i`, going up parent by parent inside the list. */
  predicate Under(nodes: seq<Node>, k: nat, i: nat)
    requires k < |nodes|
    decreases k
  {
    match ParentAt(nodes, k)
    case None => false
    case Some(q) => q == i || Under(nodes, q, i)
  }

  function Positions(n: nat): seq<nat> {
    seq(n, k requires 0 <= k < n => k)
  }

  function UnderValue(nodes: seq<Node>, val: seq<int>, i: nat): nat -> int {
    (k: nat) => if k < |nodes| && k < |val| && Under(nodes, k, i) then val[k] else 0
  }

  /** The sum of a value over everything strictly below `i` in the list. */
  function BelowSum(nodes: seq<Node>, val: seq<int>, i: nat): int {
    Sum(Positions(|nodes|), UnderValue(nodes, val, i))
  }

  // ------------------------------------------------------------------ the pass, as a recursion

  /** What the children of `i` at positions from `j` on hand up: their value and what was handed up to them. */
  function HandedUp(nodes: seq<Node>, val: seq<int>, i: nat, j: nat): int
    requires |val| == |nodes| && j <= |nodes|
    decreases |nodes| - j
  {
    if j == |nodes| then 0
    else (if ParentAt(nodes, j) == Some(i) then val[j] + HandedUp(nodes, val, j, j + 1) else 0) + HandedUp(nodes, val, i, j + 1)
  }

  /** Below `i` through a child at position `j` or later. */
  predicate Via(nodes: seq<Node>, k: nat, i: nat, j: nat)
    requires k < |nodes|
    decreases k
  {
    match ParentAt(nodes, k)
    case None => false
    case Some(q) => if q == i then k >= j else Via(nodes, q, i, j)
  }

  lemma {:induction false} UnderIsLater(nodes: seq<Node>, k: nat, i: nat)
    requires k < |nodes| && Under(nodes, k, i)
    ensures i < k
    decreases k
  {
    var q := ParentAt(nodes, k).value;
    if q != i {
      UnderIsLater(nodes, q, i);
    }
  }

  lemma {:induction false} ViaAll(nodes: seq<Node>, k: nat, i: nat)
    requires k < |nodes|
    ensures Via(nodes, k, i, i + 1) <==> Under(nodes, k, i)
    decreases k
  {
    var q := ParentAt(nodes, k);
    if q.Some? && q.value != i {
      ViaAll(nodes, q.value, i);
    }
  }

  predicate Branch(nodes: seq<Node>, k: nat, j: nat)
    requires k < |nodes|
  {
    k == j || Under(nodes, k, j)
  }

  /** The branches of the children of `i` are apart: from `j` on is from `j + 1` on, or the branch of `j`. */
  lemma {:induction false} ViaSplit(nodes: seq<Node>, k: nat, i: nat, j: nat)
    requires k < |nodes| && i < j < |nodes|
    ensures Via(nodes, k, i, j) <==> Via(nodes, k, i, j + 1) || (ParentAt(nodes, j) == Some(i) && Branch(nodes, k, j))
    ensures !(Via(nodes, k, i, j + 1) && ParentAt(nodes, j) == Some(i) && Branch(nodes, k, j))
    decreases k
  {
    var q := ParentAt(nodes, k);
    if q.Some? {
      if q.value == i {
        if Under(nodes, k, j) {
          UnderIsLater(nodes, i, j);
        }
      } else {
        ViaSplit(nodes, q.value, i, j);
      }
    }
  }

  function ViaValue(nodes: seq<Node>, val: seq<int>, i: nat, j: nat): nat -> int {
    (k: nat) => if k < |nodes| && k < |val| && Via(nodes, k, i, j) then val[k] else 0
  }

  function BranchValue(nodes: seq<Node>, val: seq<int>, j: nat): nat -> int {
    (k: nat) => if k < |nodes| && k < |val| && Branch(nodes, k, j) then val[k] else 0
  }

  lemma ViaValueSplit(nodes: seq<Node>, val: seq<int>, i: nat, j: nat)
    requires |val| == |nodes| && i < j < |nodes|
    ensures Sum(Positions(|nodes|), ViaValue(nodes, val, i, j))
            == Sum(Positions(|nodes|), ViaValue(nodes, val, i, j + 1))
               + (if ParentAt(nodes, j) == Some(i) then Sum(Positions(|nodes|), BranchValue(nodes, val, j)) else 0)
  {
    var ps := Positions(|nodes|);
    forall k | k in ps
      ensures ViaValue(nodes, val, i, j)(k)
              == ViaValue(nodes, val, i, j + 1)(k) + (if ParentAt(nodes, j) == Some(i) then BranchValue(nodes, val, j)(k) else 0)
    {
      ViaSplit(nodes, k, i, j);
    }
    if ParentAt(nodes, j) == Some(i) {
      SumPlus(ps, ViaValue(nodes, val, i, j + 1), BranchValue(nodes, val, j), ViaValue(nodes, val, i, j));
    } else {
      SumEq(ps, ViaValue(nodes, val, i, j), ViaValue(nodes, val, i, j + 1));
    }
  }

  lemma PositionsDistinct(n: nat)
    ensures Distinct(Positions(n))
  {}

  /** A branch is its top and everything under it. */
  lemma BranchSum(nodes: seq<Node>, val: seq<int>, j: nat)
    requires |val| == |nodes| && j < |nodes|
    ensures Sum(Positions(|nodes|), BranchValue(nodes, val, j)) == val[j] + BelowSum(nodes, val, j)
  {
    var ps := Positions(|nodes|);
    var top := (k: nat) => if k == j then val[j] else 0;
    PositionsDistinct(|nodes|);
    assert ps[j] == j;
    SumPoint(ps, j, top);
    forall k | k in ps ensures BranchValue(nodes, val, j)(k) == top(k) + UnderValue(nodes, val, j)(k) {
      if k == j && Under(nodes, k, j) {
        UnderIsLater(nodes, k, j);
      }
    }
    SumPlus(ps, top, UnderValue(nodes, val, j), BranchValue(nodes, val, j));
  }

  /** What has been handed up to `i` is the sum over the branches handed in so far. */
  lemma {:induction false} HandedUpIsVia(nodes: seq<Node>, val: seq<int>, i: nat, j: nat)
    requires |val| == |nodes| && i < j <= |nodes|
    ensures HandedUp(nodes, val, i, j) == Sum(Positions(|nodes|), ViaValue(nodes, val, i, j))
    decreases |nodes| - j
  {
    if j == |nodes| {
      NothingVia(nodes, val, i);
    } else {
      HandedUpIsVia(nodes, val, i, j + 1);
      ViaValueSplit(nodes, val, i, j);
      if ParentAt(nodes, j) == Some(i) {
        HandedUpIsVia(nodes, val, j, j + 1);
        AllVia(nodes, val, j);
        BranchSum(nodes, val, j);
      }
    }
  }

  lemma {:induction false} NotVia(nodes: seq<Node>, k: nat, i: nat)
    requires k < |nodes|
    ensures !Via(nodes, k, i, |nodes|)
    decreases k
  {
    var q := ParentAt(nodes, k);
    if q.Some? && q.value != i {
      NotVia(nodes, q.value, i);
    }
  }

  lemma NothingVia(nodes: seq<Node>, val: seq<int>, i: nat)
    ensures Sum(Positions(|nodes|), ViaValue(nodes, val, i, |nodes|)) == 0
  {
    forall k | k in Positions(|nodes|) ensures ViaValue(nodes, val, i, |nodes|)(k) == 0 {
      NotVia(nodes, k, i);
    }
    SumZero(Positions(|nodes|), ViaValue(nodes, val, i, |nodes|));
  }

  lemma AllVia(nodes: seq<Node>, val: seq<int>, i: nat)
    ensures Sum(Positions(|nodes|), ViaValue(nodes, val, i, i + 1)) == BelowSum(nodes, val, i)
  {
    forall k | k in Positions(|nodes|) ensures ViaValue(nodes, val, i, i + 1)(k) == UnderValue(nodes, val, i)(k) {
      ViaAll(nodes, k, i);
    }
    SumEq(Positions(|nodes|), ViaValue(nodes, val, i, i + 1), UnderValue(nodes, val, i));
  }

  /** The recursion hands up to every node exactly the sum over what is below it. */
  lemma HandedUpIsBelow(nodes: seq<Node>, val: seq<int>, i: nat)
    requires |val| == |nodes| && i < |nodes|
    ensures HandedUp(nodes, val, i, i + 1) == BelowSum(nodes, val, i)
  {
    HandedUpIsVia(nodes, val, i, i + 1);
    AllVia(nodes, val, i);
  }

  // ------------------------------------------------------------------ the pass itself

  function Ones(nodes: seq<Node>): seq<int> {
    seq(|nodes|, k requires 0 <= k < |nodes| => 1)
  }

  function Revenues(nodes: seq<Node>): seq<int> {
    seq(|nodes|, k requires 0 <= k < |nodes| => nodes[k].revenue)
  }

  function Later(a: nat, b: nat): nat {
    if a >= b then a else b
  }

  function Ids(nodes: seq<Node>): set<Id> {
    if nodes == [] then {} else Ids(nodes[..|nodes| - 1]) + {nodes[|nodes| - 1].id}
  }

  lemma {:induction false} IdListed(nodes: seq<Node>, i: nat)
    requires i < |nodes|
    ensures nodes[i].id in Ids(nodes)
  {
    if i < |nodes| - 1 {
      IdListed(nodes[..|nodes| - 1], i);
    }
  }

  lemma {:induction false} IdNotListed(nodes: seq<Node>, id: Id)
    requires forall j :: 0 <= j < |nodes| ==> nodes[j].id != id
    ensures id !in Ids(nodes)
  {
    if nodes != [] {
      IdNotListed(nodes[..|nodes| - 1], id);
    }
  }

  /** The entry of node `i` when the pass has come down to `index`. */
  predicate Entry(nodes: seq<Node>, val: seq<int>, own: seq<int>, index: nat, i: nat, total: int)
    requires |val| == |nodes| && |own| == |nodes| && index <= |nodes| && i < |nodes|
  {
    total == own[i] + HandedUp(nodes, val, i, Later(index, i + 1))
  }

  ghost predicate Accumulated(nodes: seq<Node>, val: seq<int>, own: seq<int>, index: nat, totals: map<Id, int>)
    requires |val| == |nodes| && |own| == |nodes| && index <= |nodes|
  {
    && totals.Keys == Ids(nodes)
    && (forall i :: 0 <= i < |nodes| ==> nodes[i].id in totals && Entry(nodes, val, own, index, i, totals[nodes[i].id]))
  }

  lemma {:induction false} FoundBefore(nodes: seq<Node>, n: nat, id: Option<Id>)
    requires n <= |nodes|
    ensures FindBefore(nodes, n, id).None? ==> forall j :: 0 <= j < n ==> id != Some(nodes[j].id)
  {
    if n > 0 {
      FoundBefore(nodes, n - 1, id);
    }
  }

  /** A parent that is not found before the node is not in the list at all. */
  lemma ParentById(nodes: seq<Node>, k: nat)
    requires DepthOrdered(nodes) && k < |nodes|
    ensures ParentAt(nodes, k).None? ==> nodes[k].parent.None? || nodes[k].parent.value !in Ids(nodes)
  {
    FoundBefore(nodes, k, nodes[k].parent);
    if ParentAt(nodes, k).None? && nodes[k].parent.Some? {
      IdNotListed(nodes, nodes[k].parent.value);
    }
  }

  lemma OtherId(nodes: seq<Node>, i: nat, j: nat)
    requires DepthOrdered(nodes) && i < |nodes| && j < |nodes| && i != j
    ensures nodes[i].id != nodes[j].id
  {
    var a, b := if i < j then i else j, if i < j then j else i;
    assert nodes[a].id != nodes[b].id;
  }

  /** Handing node `index` up changes its parent's entry, and only that one. */
  lemma PassEntry(nodes: seq<Node>, val: seq<int>, own: seq<int>, index: nat, i: nat, total: int)
    requires |val| == |nodes| && |own| == |nodes| && index < |nodes| && i < |nodes|
    requires Entry(nodes, val, own, index + 1, i, total)
    ensures ParentAt(nodes, index) == Some(i) ==>
              Entry(nodes, val, own, index, i, total + val[index] + HandedUp(nodes, val, index, index + 1))
    ensures ParentAt(nodes, index) != Some(i) ==> Entry(nodes, val, own, index, i, total)
  {}

  function Handed(nodes: seq<Node>, val: seq<int>, own: seq<int>, index: nat, totals: map<Id, int>): map<Id, int>
    requires |val| == |nodes| && |own| == |nodes| && index < |nodes| && nodes[index].id in totals
  {
    var node := nodes[index];
    if node.parent.Some? && node.parent.value in totals
    then totals[node.parent.value := totals[node.parent.value] + val[index] + (totals[node.id] - own[index])]
    else totals
  }

  /** What the pass reads when it comes to `index`: its own finished entry, and whether the parent has one. */
  predicate Ready(nodes: seq<Node>, val: seq<int>, own: seq<int>, index: nat, totals: map<Id, int>)
    requires |val| == |nodes| && |own| == |nodes| && index < |nodes|
  {
    var p := ParentAt(nodes, index);
    && nodes[index].id in totals && totals[nodes[index].id] == own[index] + HandedUp(nodes, val, index, index + 1)
    && (if p.Some? then nodes[p.value].id in totals
        else nodes[index].parent.None? || nodes[index].parent.value !in totals)
  }

  lemma PassReady(nodes: seq<Node>, val: seq<int>, own: seq<int>, index: nat, totals: map<Id, int>)
    requires DepthOrdered(nodes) && |val| == |nodes| && |own| == |nodes| && index < |nodes|
    requires Accumulated(nodes, val, own, index + 1, totals)
    ensures Ready(nodes, val, own, index, totals)
  {
    ParentById(nodes, index);
    assert Entry(nodes, val, own, index + 1, index, totals[nodes[index].id]);
  }

  lemma HandedMap(nodes: seq<Node>, val: seq<int>, own: seq<int>, index: nat, totals: map<Id, int>)
    requires |val| == |nodes| && |own| == |nodes| && index < |nodes| && Ready(nodes, val, own, index, totals)
    ensures var p, up := ParentAt(nodes, index), val[index] + HandedUp(nodes, val, index, index + 1);
            Handed(nodes, val, own, index, totals)
            == if p.Some? then totals[nodes[p.value].id := totals[nodes[p.value].id] + up] else totals
  {}

  lemma HandedAt(nodes: seq<Node>, val: seq<int>, own: seq<int>, index: nat, totals: map<Id, int>, i: nat)
    requires DepthOrdered(nodes) && |val| == |nodes| && |own| == |nodes| && index < |nodes| && i < |nodes|
    requires Accumulated(nodes, val, own, index + 1, totals)
    ensures nodes[index].id in totals && nodes[i].id in Handed(nodes, val, own, index, totals)
            && Entry(nodes, val, own, index, i, Handed(nodes, val, own, index, totals)[nodes[i].id])
  {
    PassReady(nodes, val, own, index, totals);
    HandedMap(nodes, val, own, index, totals);
    PassEntry(nodes, val, own, index, i, totals[nodes[i].id]);
    var p := ParentAt(nodes, index);
    if p.Some? && p.value != i {
      OtherId(nodes, i, p.value);
    }
  }

  lemma PassStep(nodes: seq<Node>, val: seq<int>, own: seq<int>, index: nat, totals: map<Id, int>)
    requires DepthOrdered(nodes) && |val| == |nodes| && |own| == |nodes| && index < |nodes|
    requires Accumulated(nodes, val, own, index + 1, totals)
    ensures nodes[index].id in totals && Accumulated(nodes, val, own, index, Handed(nodes, val, own, index, totals))
  {
    forall i | 0 <= i < |nodes|
      ensures nodes[i].id in Handed(nodes, val, own, index, totals)
      ensures Entry(nodes, val, own, index, i, Handed(nodes, val, own, index, totals)[nodes[i].id])
    {
      HandedAt(nodes, val, own, index, totals, i);
    }
  }

  lemma PassDone(nodes: seq<Node>, val: seq<int>, own: seq<int>, totals: map<Id, int>)
    requires |val| == |nodes| && |own| == |nodes| && Accumulated(nodes, val, own, 0, totals)
    ensures forall i :: 0 <= i < |nodes| ==> nodes[i].id in totals && totals[nodes[i].id] == own[i] + BelowSum(nodes, val, i)
  {
    forall i | 0 <= i < |nodes| ensures totals[nodes[i].id] == own[i] + BelowSum(nodes, val, i) {
      assert Entry(nodes, val, own, 0, i, totals[nodes[i].id]);
      HandedUpIsBelow(nodes, val, i);
    }
  }

  /** Both maps after the pass has come down to `index`. */
  ghost predicate Passed(nodes: seq<Node>, index: nat, teamSize: map<Id, int>, subtreeRevenue: map<Id, int>)
    requires index <= |nodes|
  {
    && Accumulated(nodes, Ones(nodes), Zeros(nodes), index, teamSize)
    && Accumulated(nodes, Revenues(nodes), Revenues(nodes), index, subtreeRevenue)
  }

  lemma PassBoth(nodes: seq<Node>, index: nat, teamSize: map<Id, int>, subtreeRevenue: map<Id, int>)
    requires DepthOrdered(nodes) && index < |nodes| && Passed(nodes, index + 1, teamSize, subtreeRevenue)
    ensures var node := nodes[index];
            && node.id in teamSize && node.id in subtreeRevenue
            && (node.parent.Some? ==> (node.parent.value in teamSize <==> node.parent.value in subtreeRevenue))
            && Passed(nodes, index, Handed(nodes, Ones(nodes), Zeros(nodes), index, teamSize),
                      Handed(nodes, Revenues(nodes), Revenues(nodes), index, subtreeRevenue)) == true
  {
    PassStep(nodes, Ones(nodes), Zeros(nodes), index, teamSize);
    PassStep(nodes, Revenues(nodes), Revenues(nodes), index, subtreeRevenue);
  }

  lemma PassDoneBoth(nodes: seq<Node>, teamSize: map<Id, int>, subtreeRevenue: map<Id, int>)
    requires Passed(nodes, 0, teamSize, subtreeRevenue)
    ensures Totals(nodes, teamSize, subtreeRevenue)
  {
    PassDone(nodes, Ones(nodes), Zeros(nodes), teamSize);
    PassDone(nodes, Revenues(nodes), Revenues(nodes), subtreeRevenue);
  }

  /** The number of nodes strictly below each node, and its own revenue with that of everything below it. */
  ghost predicate Totals(nodes: seq<Node>, teamSize: map<Id, int>, subtreeRevenue: map<Id, int>) {
    forall i :: 0 <= i < |nodes| ==>
      && nodes[i].id in teamSize && teamSize[nodes[i].id] == BelowSum(nodes, Ones(nodes), i)
      && nodes[i].id in subtreeRevenue && subtreeRevenue[nodes[i].id] == nodes[i].revenue + BelowSum(nodes, Revenues(nodes), i)
  }

  /** One round of the pass: the node hands its totals to its parent, if the list has it. */
  method HandUp(nodes: seq<Node>, index: nat, team: map<Id, int>, revenue: map<Id, int>)
    returns (teamSize: map<Id, int>, subtreeRevenue: map<Id, int>)
    requires index < |nodes| && nodes[index].id in team && nodes[index].id in revenue
    requires nodes[index].parent.Some? ==> (nodes[index].parent.value in team <==> nodes[index].parent.value in revenue)
    ensures teamSize == Handed(nodes, Ones(nodes), Zeros(nodes), index, team)
    ensures subtreeRevenue == Handed(nodes, Revenues(nodes), Revenues(nodes), index, revenue)
  {
    var node := nodes[index];
    teamSize, subtreeRevenue := team, revenue;
    if node.parent.Some? && node.parent.value in team {
      var parentId := node.parent.value;
      teamSize := team[parentId := team[parentId] + team[node.id] + 1];
      subtreeRevenue := revenue[parentId := revenue[parentId] + revenue[node.id]];
    }
  }

  /** One pass from the last node to the first gives every node its exact totals. */
  method Accumulate(nodes: seq<Node>) returns (teamSize: map<Id, int>, subtreeRevenue: map<Id, int>)
    requires DepthOrdered(nodes)
    ensures Totals(nodes, teamSize, subtreeRevenue) == true
  {
    teamSize := Start(nodes, Ones(nodes), Zeros(nodes));
    subtreeRevenue := Start(nodes, Revenues(nodes), Revenues(nodes));
    var index: nat := |nodes|;
    while index > 0
      invariant index <= |nodes| && Passed(nodes, index, teamSize, subtreeRevenue) == true
    {
      index := index - 1;
      PassBoth(nodes, index, teamSize, subtreeRevenue);
      teamSize, subtreeRevenue := HandUp(nodes, index, teamSize, subtreeRevenue);
    }
    PassDoneBoth(nodes, teamSize, subtreeRevenue);
  }

  function Zeros(nodes: seq<Node>): seq<int> {
    seq(|nodes|, k requires 0 <= k < |nodes| => 0)
  }

  /** One initial entry a node. */
  method Start(nodes: seq<Node>, val: seq<int>, own: seq<int>) returns (totals: map<Id, int>)
    requires DepthOrdered(nodes) && |val| == |nodes| && |own| == |nodes|
    ensures Accumulated(nodes, val, own, |nodes|, totals)
  {
    totals := map[];
    for n := 0 to |nodes|
      invariant totals.Keys == Ids(nodes[..n])
      invariant forall i :: 0 <= i < n ==> nodes[i].id in totals && totals[nodes[i].id] == own[i]
    {
      assert nodes[..n + 1][..n] == nodes[..n];
      forall i | 0 <= i < n ensures nodes[i].id != nodes[n].id {
        OtherId(nodes, i, n);
      }
      totals := totals[nodes[n].id := own[n]];
    }
    assert nodes[..|nodes|] == nodes;
  }
}
