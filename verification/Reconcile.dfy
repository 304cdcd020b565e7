/** Bank reconciliation: statement rows are matched to uncleared paid payouts by amount, first in, first out. */
module Reconcile {
  import opened Prelude

  type PayoutId = nat

  /** A paid payout that is not cleared yet; lists of them are in order of payment. */
  datatype Uncleared = Uncleared(id: PayoutId, amount: int)

  datatype Match = Match(row: nat, payout: PayoutId, amount: int)

  // ------------------------------------------------------------------ per amount

  function PayoutsOf(open: seq<Uncleared>, a: int): seq<PayoutId> {
    if open == [] then []
    else PayoutsOf(open[..|open| - 1], a) + (if open[|open| - 1].amount == a then [open[|open| - 1].id] else [])
  }

  /** The statement rows of one amount, by position. */
  function RowsOf(rows: seq<int>, a: int): seq<nat> {
    if rows == [] then [] else RowsOf(rows[..|rows| - 1], a) + (if rows[|rows| - 1] == a then [|rows| - 1] else [])
  }

  function MatchedPayouts(ms: seq<Match>, a: int): seq<PayoutId> {
    if ms == [] then []
    else MatchedPayouts(ms[..|ms| - 1], a) + (if ms[|ms| - 1].amount == a then [ms[|ms| - 1].payout] else [])
  }

  function MatchedRows(ms: seq<Match>, a: int): seq<nat> {
    if ms == [] then [] else MatchedRows(ms[..|ms| - 1], a) + (if ms[|ms| - 1].amount == a then [ms[|ms| - 1].row] else [])
  }

  function UnmatchedOf(us: seq<nat>, rows: seq<int>, a: int): seq<nat> {
    if us == [] then []
    else UnmatchedOf(us[..|us| - 1], rows, a) + (if us[|us| - 1] < |rows| && rows[us[|us| - 1]] == a then [us[|us| - 1]] else [])
  }

  function Fewer(a: nat, b: nat): nat {
    if a <= b then a else b
  }

  /**
   For one amount: the first rows take the first payouts, pair by pair, as long as there are both, and
   the other rows stay unmatched.
   */
  ghost predicate Fifo(open: seq<Uncleared>, rows: seq<int>, n: nat, ms: seq<Match>, us: seq<nat>, a: int)
    requires n <= |rows|
  {
    var ps, rs := PayoutsOf(open, a), RowsOf(rows[..n], a);
    var k := Fewer(|ps|, |rs|);
    MatchedPayouts(ms, a) == ps[..k] && MatchedRows(ms, a) == rs[..k] && UnmatchedOf(us, rows, a) == rs[k..]
  }

  function Bucket(buckets: map<int, seq<PayoutId>>, a: int): seq<PayoutId> {
    if a in buckets then buckets[a] else []
  }

  /** What is left of an amount's payouts after the rows so far. */
  ghost predicate Left(open: seq<Uncleared>, rows: seq<int>, n: nat, bucket: seq<PayoutId>, a: int)
    requires n <= |rows|
  {
    var ps := PayoutsOf(open, a);
    bucket == ps[Fewer(|ps|, |RowsOf(rows[..n], a)|)..]
  }

  lemma OtherAmount(open: seq<Uncleared>, rows: seq<int>, n: nat, ms: seq<Match>, us: seq<nat>, a: int, x: Match, bucket: seq<PayoutId>)
    requires n < |rows| && rows[n] != a && x.amount == rows[n]
    requires Fifo(open, rows, n, ms, us, a) && Left(open, rows, n, bucket, a)
    ensures Fifo(open, rows, n + 1, ms + [x], us, a) && Fifo(open, rows, n + 1, ms, us + [n], a) && Left(open, rows, n + 1, bucket, a)
  {
    assert rows[..n + 1][..n] == rows[..n];
    assert (ms + [x])[..|ms|] == ms && (us + [n])[..|us|] == us;
    assert RowsOf(rows[..n], a) + [] == RowsOf(rows[..n], a);
    assert MatchedPayouts(ms, a) + [] == MatchedPayouts(ms, a) && MatchedRows(ms, a) + [] == MatchedRows(ms, a);
    assert UnmatchedOf(us, rows, a) + [] == UnmatchedOf(us, rows, a);
  }

  lemma RowTakesPayout(open: seq<Uncleared>, rows: seq<int>, n: nat, ms: seq<Match>, us: seq<nat>, bucket: seq<PayoutId>)
    requires n < |rows| && bucket != []
    requires Fifo(open, rows, n, ms, us, rows[n]) && Left(open, rows, n, bucket, rows[n])
    ensures Fifo(open, rows, n + 1, ms + [Match(n, bucket[0], rows[n])], us, rows[n])
    ensures Left(open, rows, n + 1, bucket[1..], rows[n])
  {
    var a, x := rows[n], Match(n, bucket[0], rows[n]);
    assert rows[..n + 1][..n] == rows[..n];
    assert (ms + [x])[..|ms|] == ms;
    var ps, rs := PayoutsOf(open, a), RowsOf(rows[..n], a);
    assert RowsOf(rows[..n + 1], a) == rs + [n];
    assert ps[..|rs| + 1] == ps[..|rs|] + [ps[|rs|]];
  }

  lemma RowFindsNone(open: seq<Uncleared>, rows: seq<int>, n: nat, ms: seq<Match>, us: seq<nat>)
    requires n < |rows|
    requires Fifo(open, rows, n, ms, us, rows[n]) && Left(open, rows, n, [], rows[n])
    ensures Fifo(open, rows, n + 1, ms, us + [n], rows[n])
    ensures Left(open, rows, n + 1, [], rows[n])
  {
    var a := rows[n];
    assert rows[..n + 1][..n] == rows[..n];
    assert (us + [n])[..|us|] == us;
    var ps, rs := PayoutsOf(open, a), RowsOf(rows[..n], a);
    assert RowsOf(rows[..n + 1], a) == rs + [n];
    assert (rs + [n])[|ps|..] == rs[|ps|..] + [n];
  }

  /** One queue of payouts for every amount, in order of payment. */
  method GroupByAmount(open: seq<Uncleared>) returns (buckets: map<int, seq<PayoutId>>)
    ensures forall a :: Bucket(buckets, a) == PayoutsOf(open, a)
  {
    buckets := map[];
    for i := 0 to |open|
      invariant forall a :: Bucket(buckets, a) == PayoutsOf(open[..i], a)
    {
      assert open[..i + 1][..i] == open[..i];
      var p := open[i];
      buckets := buckets[p.amount := (if p.amount in buckets then buckets[p.amount] else []) + [p.id]];
    }
    assert open[..|open|] == open;
  }

  datatype Progress = Progress(matched: seq<Match>, unmatched: seq<nat>, buckets: map<int, seq<PayoutId>>)

  /** One row: the oldest payout left of its amount, or none. */
  function TakeRow(s: Progress, rows: seq<int>, n: nat): Progress
    requires n < |rows|
  {
    var bucket := Bucket(s.buckets, rows[n]);
    if bucket == [] then s.(unmatched := s.unmatched + [n])
    else s.(matched := s.matched + [Match(n, bucket[0], rows[n])], buckets := s.buckets[rows[n] := bucket[1..]])
  }

  function TakeRows(s: Progress, rows: seq<int>, n: nat): Progress
    requires n <= |rows|
  {
    if n == 0 then s else TakeRow(TakeRows(s, rows, n - 1), rows, n - 1)
  }

  ghost predicate AmountOk(open: seq<Uncleared>, rows: seq<int>, n: nat, s: Progress, a: int)
    requires n <= |rows|
  {
    Fifo(open, rows, n, s.matched, s.unmatched, a) && Left(open, rows, n, Bucket(s.buckets, a), a)
  }

  lemma TakeRowAt(open: seq<Uncleared>, rows: seq<int>, n: nat, s: Progress, t: Progress, a: int)
    requires n < |rows| && AmountOk(open, rows, n, s, a) && t == TakeRow(s, rows, n)
    ensures AmountOk(open, rows, n + 1, t, a) == true
  {
    var bucket := Bucket(s.buckets, rows[n]);
    if a != rows[n] {
      OtherAmount(open, rows, n, s.matched, s.unmatched, a, Match(n, if bucket == [] then 0 else bucket[0], rows[n]), Bucket(s.buckets, a));
    } else if bucket == [] {
      RowFindsNone(open, rows, n, s.matched, s.unmatched);
    } else {
      RowTakesPayout(open, rows, n, s.matched, s.unmatched, bucket);
    }
  }

  lemma NothingTaken(open: seq<Uncleared>, rows: seq<int>, buckets: map<int, seq<PayoutId>>, a: int)
    requires Bucket(buckets, a) == PayoutsOf(open, a)
    ensures AmountOk(open, rows, 0, Progress([], [], buckets), a)
  {}

  lemma TakeRowsNext(open: seq<Uncleared>, rows: seq<int>, n: nat, start: Progress, a: int)
    requires 0 < n <= |rows| && AmountOk(open, rows, n - 1, TakeRows(start, rows, n - 1), a)
    ensures AmountOk(open, rows, n, TakeRows(start, rows, n), a) == true
  {
    TakeRowAt(open, rows, n - 1, TakeRows(start, rows, n - 1), TakeRows(start, rows, n), a);
  }

  lemma {:induction false} TakeRowsFrom(open: seq<Uncleared>, rows: seq<int>, n: nat, start: Progress, a: int)
    requires n <= |rows| && AmountOk(open, rows, 0, start, a)
    ensures AmountOk(open, rows, n, TakeRows(start, rows, n), a) == true
  {
    if n > 0 {
      TakeRowsFrom(open, rows, n - 1, start, a);
      TakeRowsNext(open, rows, n, start, a);
    }
  }

  /** For every amount, first rows take first payouts. */
  lemma TakeRowsAt(open: seq<Uncleared>, rows: seq<int>, n: nat, buckets: map<int, seq<PayoutId>>, a: int)
    requires n <= |rows| && Bucket(buckets, a) == PayoutsOf(open, a)
    ensures AmountOk(open, rows, n, TakeRows(Progress([], [], buckets), rows, n), a) == true
  {
    NothingTaken(open, rows, buckets, a);
    TakeRowsFrom(open, rows, n, Progress([], [], buckets), a);
  }

  lemma {:induction false} EveryRowOnce(s: Progress, rows: seq<int>, n: nat)
    requires n <= |rows|
    ensures |TakeRows(s, rows, n).matched| + |TakeRows(s, rows, n).unmatched| == |s.matched| + |s.unmatched| + n
  {
    if n > 0 {
      EveryRowOnce(s, rows, n - 1);
    }
  }

  /** Amount by amount, the statement is matched first in, first out. */
  ghost predicate Reconciled(open: seq<Uncleared>, rows: seq<int>, ms: seq<Match>, us: seq<nat>) {
    forall a :: Fifo(open, rows, |rows|, ms, us, a)
  }

  lemma TakenAll(open: seq<Uncleared>, rows: seq<int>, buckets: map<int, seq<PayoutId>>)
    requires forall a :: Bucket(buckets, a) == PayoutsOf(open, a)
    ensures var s := TakeRows(Progress([], [], buckets), rows, |rows|);
            Reconciled(open, rows, s.matched, s.unmatched) && |s.matched| + |s.unmatched| == |rows|
  {
    var s := TakeRows(Progress([], [], buckets), rows, |rows|);
    EveryRowOnce(Progress([], [], buckets), rows, |rows|);
    forall a ensures Fifo(open, rows, |rows|, s.matched, s.unmatched, a) {
      TakeRowsAt(open, rows, |rows|, buckets, a);
    }
  }

  /** The statement loop: shifts the queue of the row's amount, or reports the row. */
  method TakeStatement(buckets: map<int, seq<PayoutId>>, rows: seq<int>) returns (matched: seq<Match>, unmatched: seq<nat>)
    ensures matched == TakeRows(Progress([], [], buckets), rows, |rows|).matched
    ensures unmatched == TakeRows(Progress([], [], buckets), rows, |rows|).unmatched
  {
    var byAmount := buckets;
    matched, unmatched := [], [];
    for n := 0 to |rows|
      invariant Progress(matched, unmatched, byAmount) == TakeRows(Progress([], [], buckets), rows, n)
    {
      var bucket := Bucket(byAmount, rows[n]);
      if bucket == [] {
        unmatched := unmatched + [n];
      } else {
        matched := matched + [Match(n, bucket[0], rows[n])];
        byAmount := byAmount[rows[n] := bucket[1..]];
      }
    }
  }

  /** Every row either takes the oldest payout left of its amount, or is reported. */
  method MatchStatement(open: seq<Uncleared>, rows: seq<int>) returns (matched: seq<Match>, unmatched: seq<nat>)
    ensures Reconciled(open, rows, matched, unmatched)
    ensures |matched| + |unmatched| == |rows|
  {
    var byAmount := GroupByAmount(open);
    TakenAll(open, rows, byAmount);
    matched, unmatched := TakeStatement(byAmount, rows);
  }

  // ------------------------------------------------------------------ no payout is cleared twice

  lemma {:induction false} PayoutIsOpen(open: seq<Uncleared>, a: int, k: nat)
    requires k < |PayoutsOf(open, a)|
    ensures exists i :: 0 <= i < |open| && open[i] == Uncleared(PayoutsOf(open, a)[k], a)
  {
    var front, last := open[..|open| - 1], open[|open| - 1];
    if k < |PayoutsOf(front, a)| {
      PayoutIsOpen(front, a, k);
      var i :| 0 <= i < |front| && front[i] == Uncleared(PayoutsOf(front, a)[k], a);
      assert open[i] == front[i];
    } else {
      assert open[|front|] == Uncleared(PayoutsOf(open, a)[k], a);
    }
  }

  ghost predicate DistinctPayouts(open: seq<Uncleared>) {
    forall i, j :: 0 <= i < j < |open| ==> open[i].id != open[j].id
  }

  lemma {:induction false} PayoutsDistinct(open: seq<Uncleared>, a: int, j: nat, k: nat)
    requires DistinctPayouts(open) && j < k < |PayoutsOf(open, a)|
    ensures PayoutsOf(open, a)[j] != PayoutsOf(open, a)[k]
  {
    var front := open[..|open| - 1];
    if k < |PayoutsOf(front, a)| {
      PayoutsDistinct(front, a, j, k);
    } else {
      PayoutIsOpen(front, a, j);
    }
  }

  lemma {:induction false} RowHasAmount(rows: seq<int>, a: int, k: nat)
    requires k < |RowsOf(rows, a)|
    ensures RowsOf(rows, a)[k] < |rows| && rows[RowsOf(rows, a)[k]] == a
  {
    var front := rows[..|rows| - 1];
    if k < |RowsOf(front, a)| {
      RowHasAmount(front, a, k);
    }
  }

  lemma {:induction false} RowsAscend(rows: seq<int>, a: int, j: nat, k: nat)
    requires j < k < |RowsOf(rows, a)|
    ensures RowsOf(rows, a)[j] < RowsOf(rows, a)[k]
  {
    var front := rows[..|rows| - 1];
    if k < |RowsOf(front, a)| {
      RowsAscend(front, a, j, k);
    } else {
      RowHasAmount(front, a, j);
    }
  }

  /** The place of a match among the matches of its amount. */
  lemma {:induction false} MatchPlace(ms: seq<Match>, m: nat) returns (k: nat)
    requires m < |ms|
    ensures |MatchedRows(ms, ms[m].amount)| == |MatchedPayouts(ms, ms[m].amount)| > k
    ensures MatchedPayouts(ms, ms[m].amount)[k] == ms[m].payout && MatchedRows(ms, ms[m].amount)[k] == ms[m].row
    ensures k == |MatchedPayouts(ms[..m], ms[m].amount)|
  {
    SameNumber(ms, ms[m].amount);
    if m == |ms| - 1 {
      SameNumber(ms[..m], ms[m].amount);
      k := |MatchedPayouts(ms[..m], ms[m].amount)|;
    } else {
      k := MatchPlace(ms[..|ms| - 1], m);
      assert ms[..|ms| - 1][..m] == ms[..m];
    }
  }

  lemma {:induction false} SameNumber(ms: seq<Match>, a: int)
    ensures |MatchedRows(ms, a)| == |MatchedPayouts(ms, a)|
  {
    if ms != [] {
      SameNumber(ms[..|ms| - 1], a);
    }
  }

  lemma {:induction false} LaterPlace(ms: seq<Match>, l: nat, m: nat, a: int)
    requires l < m <= |ms| && ms[l].amount == a
    ensures |MatchedPayouts(ms[..l], a)| < |MatchedPayouts(ms[..m], a)|
  {
    assert ms[..m][..m - 1] == ms[..m - 1];
    if l < m - 1 {
      LaterPlace(ms, l, m - 1, a);
    }
  }

  /** Every match, be it the only one, gives a row of the statement an uncleared payout of exactly that row's amount. */
  lemma MatchIsExact(open: seq<Uncleared>, rows: seq<int>, ms: seq<Match>, us: seq<nat>, m: nat)
    requires Reconciled(open, rows, ms, us) && m < |ms|
    ensures ms[m].row < |rows| && rows[ms[m].row] == ms[m].amount
    ensures exists i :: 0 <= i < |open| && open[i] == Uncleared(ms[m].payout, rows[ms[m].row])
  {
    var a := ms[m].amount;
    var k := MatchPlace(ms, m);
    assert Fifo(open, rows, |rows|, ms, us, a);
    assert rows[..|rows|] == rows;
    PayoutIsOpen(open, a, k);
    RowHasAmount(rows, a, k);
  }

  /** Two matches never share a payout, nor a row of the statement. */
  lemma MatchedOnce(open: seq<Uncleared>, rows: seq<int>, ms: seq<Match>, us: seq<nat>, l: nat, m: nat)
    requires DistinctPayouts(open) && Reconciled(open, rows, ms, us)
    requires l < m < |ms|
    ensures ms[l].payout != ms[m].payout && ms[l].row != ms[m].row
  {
    var a, b := ms[l].amount, ms[m].amount;
    MatchIsExact(open, rows, ms, us, l);
    MatchIsExact(open, rows, ms, us, m);
    if a == b {
      var j := MatchPlace(ms, l);
      var k := MatchPlace(ms, m);
      assert Fifo(open, rows, |rows|, ms, us, a);
      assert rows[..|rows|] == rows;
      LaterPlace(ms, l, m, a);
      PayoutsDistinct(open, a, j, k);
      RowsAscend(rows, a, j, k);
    } else {
      var x :| 0 <= x < |open| && open[x] == Uncleared(ms[l].payout, a);
      var y :| 0 <= y < |open| && open[y] == Uncleared(ms[m].payout, b);
      assert x != y;
    }
  }
}
