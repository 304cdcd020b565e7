/** Sums over lists, and the few laws of counting that the hierarchy needs. */
module Sums {

  function Sum<T>(xs: seq<T>, g: T -> int): int {
    if xs == [] then 0 else Sum(xs[..|xs| - 1], g) + g(xs[|xs| - 1])
  }

  function Filter<T>(xs: seq<T>, keep: T -> bool): seq<T> {
    if xs == [] then []
    else
      var front := Filter(xs[..|xs| - 1], keep);
      if keep(xs[|xs| - 1]) then front + [xs[|xs| - 1]] else front
  }

  lemma {:induction false} FilterMembers<T(!new)>(xs: seq<T>, keep: T -> bool)
    ensures forall x :: x in Filter(xs, keep) <==> x in xs && keep(x)
  {
    if xs != [] {
      FilterMembers(xs[..|xs| - 1], keep);
      assert xs == xs[..|xs| - 1] + [xs[|xs| - 1]];
    }
  }

  ghost predicate Distinct<T(!new)>(xs: seq<T>) {
    forall i, j :: 0 <= i < j < |xs| ==> xs[i] != xs[j]
  }

  lemma {:induction false} SumEq<T(!new)>(xs: seq<T>, g: T -> int, h: T -> int)
    requires forall x :: x in xs ==> g(x) == h(x)
    ensures Sum(xs, g) == Sum(xs, h)
  {
    if xs != [] {
      assert xs[|xs| - 1] in xs;
      SumEq(xs[..|xs| - 1], g, h);
    }
  }

  /** Pointwise addition of two summands. */
  lemma {:induction false} SumPlus<T(!new)>(xs: seq<T>, g: T -> int, h: T -> int, both: T -> int)
    requires forall x :: x in xs ==> both(x) == g(x) + h(x)
    ensures Sum(xs, both) == Sum(xs, g) + Sum(xs, h)
  {
    if xs != [] {
      assert xs[|xs| - 1] in xs;
      SumPlus(xs[..|xs| - 1], g, h, both);
    }
  }

  lemma {:induction false} SumZero<T(!new)>(xs: seq<T>, g: T -> int)
    requires forall x :: x in xs ==> g(x) == 0
    ensures Sum(xs, g) == 0
  {
    if xs != [] {
      assert xs[|xs| - 1] in xs;
      SumZero(xs[..|xs| - 1], g);
    }
  }

  lemma {:induction false} SumAppend<T(!new)>(xs: seq<T>, ys: seq<T>, g: T -> int)
    ensures Sum(xs + ys, g) == Sum(xs, g) + Sum(ys, g)
  {
    if ys == [] {
      assert xs + ys == xs;
    } else {
      assert (xs + ys)[..|xs + ys| - 1] == xs + ys[..|ys| - 1];
      SumAppend(xs, ys[..|ys| - 1], g);
    }
  }

  lemma {:induction false} SumFilter<T(!new)>(xs: seq<T>, keep: T -> bool, g: T -> int, kept: T -> int)
    requires forall x :: x in xs ==> kept(x) == if keep(x) then g(x) else 0
    ensures Sum(Filter(xs, keep), g) == Sum(xs, kept)
  {
    if xs != [] {
      var front, last := xs[..|xs| - 1], xs[|xs| - 1];
      assert last in xs;
      SumFilter(front, keep, g, kept);
      SumAppend(Filter(front, keep), [last], g);
      SumOne(last, g);
    }
  }

  lemma SumOne<T(!new)>(x: T, g: T -> int)
    ensures Sum([x], g) == g(x)
  {
    assert [x][..0] == [];
  }

  lemma {:induction false} SumOnes<T(!new)>(xs: seq<T>, g: T -> int)
    requires forall x :: x in xs ==> g(x) == 1
    ensures Sum(xs, g) == |xs|
  {
    if xs != [] {
      assert xs[|xs| - 1] in xs;
      SumOnes(xs[..|xs| - 1], g);
    }
  }

  /** In a list without repetition a point mass is counted once. */
  lemma {:induction false} SumPoint<T(!new)>(xs: seq<T>, c: T, g: T -> int)
    requires Distinct(xs) && c in xs
    requires forall x :: x in xs && x != c ==> g(x) == 0
    ensures Sum(xs, g) == g(c)
  {
    var front, last := xs[..|xs| - 1], xs[|xs| - 1];
    assert xs == front + [last];
    if last == c {
      forall x | x in front ensures g(x) == 0 {
        var i :| 0 <= i < |front| && front[i] == x;
        assert xs[i] != xs[|front|];
      }
      SumZero(front, g);
    } else {
      SumPoint(front, c, g);
    }
  }

  /** A sum over some members of a list, read off the whole list. */
  lemma {:induction false} SumWithin<T(!new)>(part: seq<T>, all: seq<T>, g: T -> int, inPart: T -> int)
    requires Distinct(part) && Distinct(all) && forall x :: x in part ==> x in all
    requires forall x :: x in all ==> inPart(x) == if x in part then g(x) else 0
    ensures Sum(part, g) == Sum(all, inPart)
  {
    if part == [] {
      SumZero(all, inPart);
    } else {
      var front, last := part[..|part| - 1], part[|part| - 1];
      assert part == front + [last];
      assert last !in front by {
        forall i | 0 <= i < |front| ensures front[i] != last {
          assert part[i] != part[|front|];
        }
      }
      var inFront := x => if x in front then g(x) else 0;
      var point := x => if x == last then g(x) else 0;
      SumWithin(front, all, g, inFront);
      SumPoint(all, last, point);
      SumPlus(all, inFront, point, inPart);
    }
  }

  lemma FilterSnoc<T>(xs: seq<T>, x: T, keep: T -> bool)
    ensures Filter(xs + [x], keep) == if keep(x) then Filter(xs, keep) + [x] else Filter(xs, keep)
  {
    assert (xs + [x])[..|xs|] == xs;
  }

  lemma {:induction false} FilterDistinct<T(!new)>(xs: seq<T>, keep: T -> bool)
    requires Distinct(xs)
    ensures Distinct(Filter(xs, keep))
  {
    if xs != [] {
      var front, last := xs[..|xs| - 1], xs[|xs| - 1];
      FilterDistinct(front, keep);
      FilterMembers(front, keep);
      var fs := Filter(front, keep);
      forall i | 0 <= i < |fs| ensures fs[i] != last {
        assert fs[i] in front;
        var j :| 0 <= j < |front| && front[j] == fs[i];
        assert xs[j] != xs[|front|];
      }
    }
  }

  /** Filtering goes through concatenation. */
  lemma {:induction false} FilterAppend<T(!new)>(xs: seq<T>, ys: seq<T>, keep: T -> bool)
    ensures Filter(xs + ys, keep) == Filter(xs, keep) + Filter(ys, keep)
  {
    if ys == [] {
      assert xs + ys == xs;
      assert Filter(xs, keep) + Filter(ys, keep) == Filter(xs, keep);
    } else {
      assert (xs + ys)[..|xs + ys| - 1] == xs + ys[..|ys| - 1];
      FilterAppend(xs, ys[..|ys| - 1], keep);
    }
  }
}
