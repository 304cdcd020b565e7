/** What each step of the relay leaves of every row: who is leased, who fails, and what a result makes of its row. */
module RelayOutcomes {
  import opened Prelude
  import opened Relay

  // ------------------------------------------------------------------ claiming

  predicate DueBy(x: Note, now: int) {
    x.availableAt.Some? && x.availableAt.value <= now
  }

  /** Not locked elsewhere, due, waiting or with a lease that has run out, and with an attempt left. */
  predicate Leasable(notes: seq<Note>, now: int, locked: set<NoteId>, i: int) {
    && 0 <= i < |notes| && i !in locked && DueBy(notes[i], now)
    && (notes[i].status == Pending || notes[i].status == Processing) && notes[i].attempts < 5
  }

  /** Not locked elsewhere, and its lease ran out on the last attempt. */
  predicate GivenUp(notes: seq<Note>, now: int, locked: set<NoteId>, i: int) {
    && 0 <= i < |notes| && i !in locked && DueBy(notes[i], now)
    && notes[i].status == Processing && notes[i].attempts >= 5
  }

  /** The number of older rows that can be leased. */
  function LeasableBefore(notes: seq<Note>, now: int, locked: set<NoteId>, n: nat): nat {
    if n == 0 then 0 else LeasableBefore(notes, now, locked, n - 1) + (if Leasable(notes, now, locked, n - 1) then 1 else 0)
  }

  lemma {:induction false} LeasableMore(notes: seq<Note>, now: int, locked: set<NoteId>, n: nat, m: nat)
    requires n <= m
    ensures LeasableBefore(notes, now, locked, n) <= LeasableBefore(notes, now, locked, m)
    ensures n < m && Leasable(notes, now, locked, n) ==> LeasableBefore(notes, now, locked, n) < LeasableBefore(notes, now, locked, m)
  {
    if n < m {
      LeasableMore(notes, now, locked, n, m - 1);
    }
  }

  lemma {:induction false} LeasableSame(a: seq<Note>, b: seq<Note>, now: int, locked: set<NoteId>, n: nat)
    requires forall i :: 0 <= i < n ==> (Leasable(a, now, locked, i) <==> Leasable(b, now, locked, i))
    ensures LeasableBefore(a, now, locked, n) == LeasableBefore(b, now, locked, n)
  {
    if n > 0 {
      LeasableSame(a, b, now, locked, n - 1);
    }
  }

  function Fewer(a: nat, b: nat): nat {
    if a <= b then a else b
  }

  /** The picked rows are the oldest leasable ones, in order. */
  lemma {:induction false} PicksAre(notes: seq<Note>, now: int, locked: set<NoteId>, limit: nat)
    ensures var ids := Picks(notes, now, locked, limit);
            && |ids| == Fewer(limit, LeasableBefore(notes, now, locked, |notes|))
            && forall a: nat :: a < |ids| ==> Leasable(notes, now, locked, ids[a]) && LeasableBefore(notes, now, locked, ids[a]) == a
  {
    if notes != [] {
      var n := |notes| - 1;
      PicksAre(notes[..n], now, locked, limit);
      forall i: nat | i <= n ensures LeasableBefore(notes[..n], now, locked, i) == LeasableBefore(notes, now, locked, i) {
        LeasableSame(notes[..n], notes, now, locked, i);
      }
    }
  }

  /** A leasable row is picked at its rank, if its rank is within the limit. */
  lemma PickedAt(notes: seq<Note>, now: int, locked: set<NoteId>, limit: nat, i: nat)
    requires Leasable(notes, now, locked, i)
    ensures var ids, rank := Picks(notes, now, locked, limit), LeasableBefore(notes, now, locked, i);
            if rank < limit then rank < |ids| && ids[rank] == i else i !in ids
  {
    PicksAre(notes, now, locked, limit);
    LeasableMore(notes, now, locked, i, |notes|);
    var ids, rank := Picks(notes, now, locked, limit), LeasableBefore(notes, now, locked, i);
    if rank < limit {
      var j := ids[rank];
      LeasableMore(notes, now, locked, if i < j then i else j, if i < j then j else i);
    }
  }

  /** The row and the claim of the a-th lease. */
  predicate LeasedAs(o: Outbox, p: Outbox, now: int, id: NoteId, k: Lease) {
    && id < |o.notes| && id < |p.notes| && k < |p.claims|
    && p.notes[id] == Note(Processing, o.notes[id].attempts + 1, Some(k), Some(now + 300_000))
    && p.claims[k] == Claim(id, o.notes[id].attempts + 1, now + 300_000, false, false)
  }

  /** Leasing rows one after the other: each gets a lease of its own, in order. */
  ghost predicate LeasedEach(o: Outbox, ids: seq<NoteId>, now: int, p: Outbox) {
    && |p.notes| == |o.notes| && |p.claims| == |o.claims| + |ids| && p.claims[..|o.claims|] == o.claims
    && (forall a :: 0 <= a < |ids| ==> LeasedAs(o, p, now, ids[a], |o.claims| + a))
    && (forall i: nat :: i < |o.notes| && i !in ids ==> p.notes[i] == o.notes[i])
  }

  lemma LeaseOneMore(o: Outbox, front: seq<NoteId>, now: int, p: Outbox, last: NoteId)
    requires LeasedEach(o, front, now, p) && last < |o.notes| && last !in front
    ensures LeasedEach(o, front + [last], now, ClaimOne(p, last, now))
  {
    var q, ids := ClaimOne(p, last, now), front + [last];
    forall a | 0 <= a < |ids| ensures LeasedAs(o, q, now, ids[a], |o.claims| + a) {
      if a < |front| {
        assert ids[a] == front[a] && LeasedAs(o, p, now, front[a], |o.claims| + a);
      }
    }
  }

  lemma {:induction false} EachIsLeased(o: Outbox, ids: seq<NoteId>, now: int)
    requires forall a :: 0 <= a < |ids| ==> ids[a] < |o.notes|
    requires forall a, b :: 0 <= a < b < |ids| ==> ids[a] < ids[b]
    ensures LeasedEach(o, ids, now, ClaimEach(o, ids, now)) == true
  {
    if ids == [] {
      assert LeasedEach(o, ids, now, o);
    } else {
      var front, last := ids[..|ids| - 1], ids[|ids| - 1];
      EachIsLeased(o, front, now);
      assert ids == front + [last];
      LeaseOneMore(o, front, now, ClaimEach(o, front, now), last);
    }
  }

  /** A row after a claim at `now`. */
  function AfterClaim(o: Outbox, now: int, locked: set<NoteId>, i: nat): Note
    requires i < |o.notes|
  {
    var x := o.notes[i];
    if GivenUp(o.notes, now, locked, i) then Note(Failed, x.attempts, None, None)
    else if Leasable(o.notes, now, locked, i) && LeasableBefore(o.notes, now, locked, i) < 20
    then Note(Processing, x.attempts + 1, Some(|o.claims| + LeasableBefore(o.notes, now, locked, i)), Some(now + 300_000))
    else x
  }

  /** The claim of a leased row. */
  predicate ClaimedAs(o: Outbox, now: int, locked: set<NoteId>, c: Claim, rank: nat) {
    && Leasable(o.notes, now, locked, c.note) && LeasableBefore(o.notes, now, locked, c.note) == rank
    && c == Claim(c.note, o.notes[c.note].attempts + 1, now + 300_000, false, false)
  }

  lemma ExpiredFail(o: Outbox, now: int, locked: set<NoteId>, i: nat)
    requires i < |o.notes|
    ensures var ns := FailExpired(o.notes, now, locked);
            && ns[i] == (if GivenUp(o.notes, now, locked, i) then Note(Failed, o.notes[i].attempts, None, None) else o.notes[i])
            && (Leasable(ns, now, locked, i) <==> Leasable(o.notes, now, locked, i))
  {}

  lemma ExpiredLeaveRanks(o: Outbox, now: int, locked: set<NoteId>, n: nat)
    requires n <= |o.notes|
    ensures LeasableBefore(FailExpired(o.notes, now, locked), now, locked, n) == LeasableBefore(o.notes, now, locked, n)
  {
    forall i | 0 <= i < n
      ensures Leasable(FailExpired(o.notes, now, locked), now, locked, i) <==> Leasable(o.notes, now, locked, i)
    {
      ExpiredFail(o, now, locked, i);
    }
    LeasableSame(FailExpired(o.notes, now, locked), o.notes, now, locked, n);
  }

  lemma PickedRow(o: Outbox, q: Outbox, now: int, locked: set<NoteId>, ids: seq<NoteId>, p: Outbox, i: nat)
    requires i < |o.notes| == |q.notes| && q.claims == o.claims && q.notes[i] == o.notes[i]
    requires LeasedEach(q, ids, now, p) && Leasable(o.notes, now, locked, i)
    requires var rank := LeasableBefore(o.notes, now, locked, i); if rank < 20 then rank < |ids| && ids[rank] == i else i !in ids
    ensures |p.notes| == |o.notes| && p.notes[i] == AfterClaim(o, now, locked, i)
  {
    var rank := LeasableBefore(o.notes, now, locked, i);
    if rank < 20 {
      assert LeasedAs(q, p, now, ids[rank], |o.claims| + rank);
    }
  }

  lemma UnpickedRow(o: Outbox, q: Outbox, now: int, locked: set<NoteId>, ids: seq<NoteId>, p: Outbox, i: nat)
    requires i < |o.notes| && q == o.(notes := FailExpired(o.notes, now, locked)) && ids == Picks(q.notes, now, locked, 20)
    requires LeasedEach(q, ids, now, p) && !Leasable(o.notes, now, locked, i)
    ensures |p.notes| == |o.notes| && p.notes[i] == AfterClaim(o, now, locked, i)
  {
    ExpiredFail(o, now, locked, i);
    PicksAre(q.notes, now, locked, 20);
    assert i !in ids;
  }

  /**
   A claim, row by row: what ran out on its last attempt fails, the twenty oldest leasable rows get a lease
   of five minutes and spend an attempt, and every other row is left alone.
   */
  lemma ClaimsRow(o: Outbox, now: int, locked: set<NoteId>, i: nat)
    requires i < |o.notes|
    ensures var p := ClaimPending(o, now, locked);
            |p.notes| == |o.notes| && p.notes[i] == AfterClaim(o, now, locked, i)
  {
    var q := o.(notes := FailExpired(o.notes, now, locked));
    var ids := Picks(q.notes, now, locked, 20);
    EachIsLeased(q, ids, now);
    if Leasable(o.notes, now, locked, i) {
      ExpiredFail(o, now, locked, i);
      ExpiredLeaveRanks(o, now, locked, i);
      PickedAt(q.notes, now, locked, 20, i);
      PickedRow(o, q, now, locked, ids, ClaimEach(q, ids, now), i);
    } else {
      UnpickedRow(o, q, now, locked, ids, ClaimEach(q, ids, now), i);
    }
  }

  lemma HandedOut(o: Outbox, q: Outbox, now: int, locked: set<NoteId>, ids: seq<NoteId>, p: Outbox, a: nat)
    requires |q.notes| == |o.notes| && q.claims == o.claims && LeasedEach(q, ids, now, p) && a < |ids| && ids[a] < |o.notes|
    requires Leasable(o.notes, now, locked, ids[a]) && LeasableBefore(o.notes, now, locked, ids[a]) == a && q.notes[ids[a]] == o.notes[ids[a]]
    ensures |o.claims| + a < |p.claims| && ClaimedAs(o, now, locked, p.claims[|o.claims| + a], a)
  {
    assert LeasedAs(q, p, now, ids[a], |o.claims| + a);
  }

  lemma HandedAt(o: Outbox, now: int, locked: set<NoteId>, ids: seq<NoteId>, p: Outbox, a: nat)
    requires LeasedEach(o.(notes := FailExpired(o.notes, now, locked)), ids, now, p) && a < |ids| && ids[a] < |o.notes|
    requires Leasable(FailExpired(o.notes, now, locked), now, locked, ids[a])
    requires LeasableBefore(FailExpired(o.notes, now, locked), now, locked, ids[a]) == a
    ensures |o.claims| + a < |p.claims| && ClaimedAs(o, now, locked, p.claims[|o.claims| + a], a)
  {
    ExpiredFail(o, now, locked, ids[a]);
    ExpiredLeaveRanks(o, now, locked, ids[a]);
    HandedOut(o, o.(notes := FailExpired(o.notes, now, locked)), now, locked, ids, p, a);
  }

  /** The leases of a claim, each with its claim. */
  ghost predicate AllHandedOut(o: Outbox, now: int, locked: set<NoteId>, p: Outbox) {
    forall k :: |o.claims| <= k < |p.claims| ==> ClaimedAs(o, now, locked, p.claims[k], k - |o.claims|)
  }

  lemma EachHandedOut(o: Outbox, now: int, locked: set<NoteId>, ids: seq<NoteId>, p: Outbox)
    requires ids == Picks(FailExpired(o.notes, now, locked), now, locked, 20)
    requires LeasedEach(o.(notes := FailExpired(o.notes, now, locked)), ids, now, p)
    ensures AllHandedOut(o, now, locked, p)
  {
    forall k | |o.claims| <= k < |p.claims| ensures ClaimedAs(o, now, locked, p.claims[k], k - |o.claims|) {
      PicksAre(FailExpired(o.notes, now, locked), now, locked, 20);
      HandedAt(o, now, locked, ids, p, k - |o.claims|);
    }
  }

  /** The claims that are handed out: one for each leased row, in order, behind those that there were. */
  lemma ClaimsHandedOut(o: Outbox, now: int, locked: set<NoteId>)
    ensures var p := ClaimPending(o, now, locked);
            && |p.claims| == |o.claims| + Fewer(20, LeasableBefore(o.notes, now, locked, |o.notes|))
            && p.claims[..|o.claims|] == o.claims && AllHandedOut(o, now, locked, p) == true
  {
    var q := o.(notes := FailExpired(o.notes, now, locked));
    var ids := Picks(q.notes, now, locked, 20);
    PicksAre(q.notes, now, locked, 20);
    EachIsLeased(q, ids, now);
    ExpiredLeaveRanks(o, now, locked, |o.notes|);
    EachHandedOut(o, now, locked, ids, ClaimPending(o, now, locked));
  }

  // ------------------------------------------------------------------ dispatch

  predicate Undispatched(o: Outbox, k: Lease) {
    k < |o.claims| && !o.claims[k].done && !o.claims[k].dispatched
  }

  /** A claim is dispatched exactly before its lease runs out; after that it is given up, and rows are left alone either way. */
  lemma DispatchedInTime(o: Outbox, k: Lease, now: int)
    ensures Undispatched(o, k) && now < o.claims[k].availableAt ==>
              Dispatch(o, k, now) == Outbox(o.notes, o.claims[k := o.claims[k].(dispatched := true)])
    ensures Undispatched(o, k) && now >= o.claims[k].availableAt ==>
              Dispatch(o, k, now) == Outbox(o.notes, o.claims[k := o.claims[k].(done := true)])
    ensures !Undispatched(o, k) ==> Dispatch(o, k, now) == o
  {}

  // ------------------------------------------------------------------ results

  /** The worker has dispatched, has not reported yet, and its lease is still the row's. */
  predicate Reporting(o: Outbox, k: Lease) {
    && k < |o.claims| && o.claims[k].dispatched && !o.claims[k].done && o.claims[k].note < |o.notes|
    && o.notes[o.claims[k].note].status == Processing && o.notes[o.claims[k].note].lease == Some(k)
  }

  /** 30 seconds after the first attempt, twice as long after each of the next three. */
  function RetryDelay(attempts: nat): int {
    if attempts == 1 then 30_000 else if attempts == 2 then 60_000 else if attempts == 3 then 120_000 else 240_000
  }

  lemma RetryIs(attempts: nat)
    requires 1 <= attempts <= 4
    ensures RetrySeconds(attempts) * 1000 == RetryDelay(attempts)
  {
    if attempts > 1 {
      RetryIs(attempts - 1);
    }
  }

  /**
   The result of a delivery, under every interleaving: a delivered row is sent; one that could not be
   delivered fails after its fifth attempt, and otherwise waits 30, 60, 120 or 240 seconds. No other row changes.
   */
  lemma ResultCloses(steps: seq<Step>, k: Lease, delivered: bool, now: int)
    requires Reporting(Run(EMPTY, steps), k)
    ensures var o := Run(EMPTY, steps);
            var p, id := Next(o, Result(k, delivered, now)), o.claims[k].note;
            var n := o.notes[id].attempts;
            && 1 <= n <= 5
            && p.claims == o.claims[k := o.claims[k].(done := true)]
            && p.notes == o.notes[id := if delivered then Note(Sent, n, None, None)
                                        else if n == 5 then Note(Failed, n, None, None)
                                        else Note(Pending, n, None, Some(now + RetryDelay(n)))]
  {
    RunKeeps(EMPTY, steps);
    var o := Run(EMPTY, steps);
    assert NoteOk(o, o.claims[k].note, o.notes[o.claims[k].note]);
    var n := o.notes[o.claims[k].note].attempts;
    if n < 5 {
      RetryIs(n);
    }
  }

  /** A result without the row's lease closes the claim and leaves every row alone. */
  lemma StaleResult(o: Outbox, k: Lease, delivered: bool, now: int)
    requires !Reporting(o, k)
    ensures Report(o, k, delivered, now).notes == o.notes
    ensures Report(o, k, delivered, now).claims
            == if k < |o.claims| && o.claims[k].dispatched && !o.claims[k].done then o.claims[k := o.claims[k].(done := true)] else o.claims
  {}

  /** A queued notification waits as pending, with no attempt spent, until its time. */
  lemma QueuedRow(o: Outbox, availableAt: int)
    ensures Enqueue(o, availableAt) == Outbox(o.notes + [Note(Pending, 0, None, Some(availableAt))], o.claims)
  {}
}
