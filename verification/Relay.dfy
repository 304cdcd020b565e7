/**
 The notification outbox: rows are claimed under a lease, dispatched, and closed by whoever still holds
 the lease. Claim, dispatch and result are separate steps of any number of workers.
 */
module Relay {
  import opened Prelude

  const MAX_ATTEMPTS: nat := 5
  const BATCH: nat := 20
  const LEASE_MS: int := 300_000
  const MAX_RETRY_SECONDS: nat := 240

  type NoteId = nat

  /** Lease tokens are drawn fresh; a claim's position in the history stands for its token. */
  type Lease = nat

  datatype Status = Pending | Processing | Sent | Failed

  datatype Note = Note(status: Status, attempts: nat, lease: Option<Lease>, availableAt: Option<int>)

  /** What a worker keeps of a claimed row; `dispatched` and `done` say how far it has come. */
  datatype Claim = Claim(note: NoteId, attempts: nat, availableAt: int, dispatched: bool, done: bool)

  datatype Outbox = Outbox(notes: seq<Note>, claims: seq<Claim>)

  const EMPTY: Outbox := Outbox([], [])

  // ------------------------------------------------------------------ claiming

  predicate Due(x: Note, now: int) {
    x.availableAt.Some? && x.availableAt.value <= now
  }

  predicate Claimable(x: Note, now: int) {
    (x.status.Pending? || x.status.Processing?) && Due(x, now) && x.attempts < MAX_ATTEMPTS
  }

  /** A lease that ran out on the last attempt. */
  predicate ExpiredAtCap(x: Note, now: int) {
    x.status.Processing? && Due(x, now) && x.attempts >= MAX_ATTEMPTS
  }

  function FailExpired(notes: seq<Note>, now: int, locked: set<NoteId>): (out: seq<Note>)
    ensures |out| == |notes|
  {
    seq(|notes|, i requires 0 <= i < |notes| =>
      if i !in locked && ExpiredAtCap(notes[i], now) then notes[i].(status := Failed, availableAt := None, lease := None) else notes[i])
  }

  /** The oldest claimable rows that no other transaction has locked, at most `limit`. */
  function Picks(notes: seq<Note>, now: int, locked: set<NoteId>, limit: nat): (ids: seq<NoteId>)
    ensures |ids| <= limit
    ensures forall a :: 0 <= a < |ids| ==> ids[a] < |notes| && ids[a] !in locked && Claimable(notes[ids[a]], now)
    ensures forall a, b :: 0 <= a < b < |ids| ==> ids[a] < ids[b]
  {
    if notes == [] then []
    else
      var n := |notes| - 1;
      var front := Picks(notes[..n], now, locked, limit);
      if |front| < limit && n !in locked && Claimable(notes[n], now) then front + [n] else front
  }

  function ClaimOne(o: Outbox, id: NoteId, now: int): Outbox {
    if id >= |o.notes| then o
    else
      var x := o.notes[id];
      Outbox(o.notes[id := Note(Processing, x.attempts + 1, Some(|o.claims|), Some(now + LEASE_MS))],
             o.claims + [Claim(id, x.attempts + 1, now + LEASE_MS, false, false)])
  }

  function ClaimEach(o: Outbox, ids: seq<NoteId>, now: int): Outbox {
    if ids == [] then o else ClaimOne(ClaimEach(o, ids[..|ids| - 1], now), ids[|ids| - 1], now)
  }

  /** claimPending: expired rows at the cap fail, then a batch of due rows is leased. */
  function ClaimPending(o: Outbox, now: int, locked: set<NoteId>): Outbox {
    var p := o.(notes := FailExpired(o.notes, now, locked));
    ClaimEach(p, Picks(p.notes, now, locked, BATCH), now)
  }

  // ------------------------------------------------------------------ dispatch and result

  predicate Open(o: Outbox, k: Lease) {
    k < |o.claims| && !o.claims[k].done
  }

  /** One delivery, unless the lease has already run out. */
  function Dispatch(o: Outbox, k: Lease, now: int): Outbox {
    if !Open(o, k) || o.claims[k].dispatched then o
    else if o.claims[k].availableAt <= now then o.(claims := o.claims[k := o.claims[k].(done := true)])
    else o.(claims := o.claims[k := o.claims[k].(dispatched := true)])
  }

  /** 30, 60, 120, 240 seconds. */
  function RetrySeconds(attempts: nat): (s: nat)
    requires attempts >= 1
    ensures 30 <= s <= MAX_RETRY_SECONDS
    ensures attempts >= 2 ==> s == (if 2 * RetrySeconds(attempts - 1) < MAX_RETRY_SECONDS then 2 * RetrySeconds(attempts - 1) else MAX_RETRY_SECONDS)
  {
    if attempts == 1 then 30
    else
      var before := RetrySeconds(attempts - 1);
      if 2 * before < MAX_RETRY_SECONDS then 2 * before else MAX_RETRY_SECONDS
  }

  /** The row after a worker's result, if the worker still holds the lease. */
  function Closed(x: Note, c: Claim, delivered: bool, now: int): Note {
    if delivered then x.(status := Sent, availableAt := None, lease := None)
    else if c.attempts >= MAX_ATTEMPTS then x.(status := Failed, availableAt := None, lease := None, attempts := c.attempts)
    else x.(status := Pending, availableAt := Some(now + (if c.attempts >= 1 then RetrySeconds(c.attempts) else 0) * 1000), lease := None,
            attempts := c.attempts)
  }

  predicate Holds(o: Outbox, k: Lease) {
    k < |o.claims| && o.claims[k].note < |o.notes|
    && o.notes[o.claims[k].note].status.Processing? && o.notes[o.claims[k].note].lease == Some(k)
  }

  function Report(o: Outbox, k: Lease, delivered: bool, now: int): Outbox {
    if !Open(o, k) || !o.claims[k].dispatched then o
    else
      var c := o.claims[k];
      Outbox(if Holds(o, k) then o.notes[c.note := Closed(o.notes[c.note], c, delivered, now)] else o.notes,
             o.claims[k := c.(done := true)])
  }

  function Enqueue(o: Outbox, availableAt: int): Outbox {
    o.(notes := o.notes + [Note(Pending, 0, None, Some(availableAt))])
  }

  // ------------------------------------------------------------------ the invariant

  function ClaimsOn(claims: seq<Claim>, id: NoteId): nat {
    if claims == [] then 0
    else ClaimsOn(claims[..|claims| - 1], id) + (if claims[|claims| - 1].note == id then 1 else 0)
  }

  /** How often a notification has been handed to its channel. */
  function DispatchesOf(claims: seq<Claim>, id: NoteId): nat {
    if claims == [] then 0
    else DispatchesOf(claims[..|claims| - 1], id)
         + (if claims[|claims| - 1].note == id && claims[|claims| - 1].dispatched then 1 else 0)
  }

  /** A processing row is leased to a claim of its own; no other row has a lease. */
  predicate NoteOk(o: Outbox, id: NoteId, x: Note) {
    && x.attempts <= MAX_ATTEMPTS
    && (x.status.Processing? ==>
          && x.lease.Some? && x.lease.value < |o.claims| && x.availableAt.Some?
          && o.claims[x.lease.value].note == id
          && o.claims[x.lease.value].attempts == x.attempts
          && o.claims[x.lease.value].availableAt == x.availableAt.value)
    && (!x.status.Processing? ==> x.lease.None?)
    && (x.status.Pending? ==> x.attempts < MAX_ATTEMPTS && x.availableAt.Some?)
    && (x.status.Sent? || x.status.Failed? ==> x.availableAt.None?)
  }

  ghost predicate Inv(o: Outbox) {
    && (forall i :: 0 <= i < |o.notes| ==> NoteOk(o, i, o.notes[i]) && ClaimsOn(o.claims, i) == o.notes[i].attempts)
    && (forall k :: 0 <= k < |o.claims| ==> o.claims[k].note < |o.notes| && 1 <= o.claims[k].attempts <= MAX_ATTEMPTS)
  }

  lemma {:induction false} DispatchedWithinClaims(claims: seq<Claim>, id: NoteId)
    ensures DispatchesOf(claims, id) <= ClaimsOn(claims, id)
  {
    if claims != [] {
      DispatchedWithinClaims(claims[..|claims| - 1], id);
    }
  }

  lemma {:induction false} SameClaimCounts(a: seq<Claim>, b: seq<Claim>, id: NoteId)
    requires |a| == |b| && forall k :: 0 <= k < |a| ==> a[k].note == b[k].note
    ensures ClaimsOn(a, id) == ClaimsOn(b, id)
  {
    if a != [] {
      SameClaimCounts(a[..|a| - 1], b[..|b| - 1], id);
    }
  }

  lemma {:induction false} NoClaimsYet(claims: seq<Claim>, id: NoteId)
    requires forall k :: 0 <= k < |claims| ==> claims[k].note < id
    ensures ClaimsOn(claims, id) == 0
  {
    if claims != [] {
      NoClaimsYet(claims[..|claims| - 1], id);
    }
  }

  lemma EnqueueKeeps(o: Outbox, availableAt: int)
    requires Inv(o)
    ensures Inv(Enqueue(o, availableAt))
  {
    NoClaimsYet(o.claims, |o.notes|);
    var p := Enqueue(o, availableAt);
    forall i | 0 <= i < |p.notes| ensures NoteOk(p, i, p.notes[i]) && ClaimsOn(p.claims, i) == p.notes[i].attempts {
      if i < |o.notes| {
        assert NoteOk(o, i, o.notes[i]) && p.notes[i] == o.notes[i];
      }
    }
  }

  lemma FailExpiredKeeps(o: Outbox, now: int, locked: set<NoteId>)
    requires Inv(o)
    ensures Inv(o.(notes := FailExpired(o.notes, now, locked)))
  {
    var p := o.(notes := FailExpired(o.notes, now, locked));
    forall i | 0 <= i < |p.notes| ensures NoteOk(p, i, p.notes[i]) && ClaimsOn(p.claims, i) == p.notes[i].attempts {
      assert NoteOk(o, i, o.notes[i]);
    }
  }

  lemma ClaimOneKeeps(o: Outbox, id: NoteId, now: int)
    requires Inv(o) && id < |o.notes| && o.notes[id].attempts < MAX_ATTEMPTS
    ensures Inv(ClaimOne(o, id, now))
  {
    var p := ClaimOne(o, id, now);
    assert p.claims[..|o.claims|] == o.claims;
    forall i | 0 <= i < |p.notes| ensures NoteOk(p, i, p.notes[i]) && ClaimsOn(p.claims, i) == p.notes[i].attempts {
      assert NoteOk(o, i, o.notes[i]);
    }
  }

  lemma {:induction false} ClaimEachKeeps(o: Outbox, ids: seq<NoteId>, now: int)
    requires Inv(o)
    requires forall a :: 0 <= a < |ids| ==> ids[a] < |o.notes| && o.notes[ids[a]].attempts < MAX_ATTEMPTS
    requires forall a, b :: 0 <= a < b < |ids| ==> ids[a] < ids[b]
    ensures var p := ClaimEach(o, ids, now);
            Inv(p) && |p.notes| == |o.notes| && |p.claims| == |o.claims| + |ids|
            && forall i: nat :: i < |o.notes| && i !in ids ==> p.notes[i] == o.notes[i]
  {
    if ids != [] {
      var front, last := ids[..|ids| - 1], ids[|ids| - 1];
      ClaimEachKeeps(o, front, now);
      assert ids == front + [last];
      assert last !in front;
      ClaimOneKeeps(ClaimEach(o, front, now), last, now);
    }
  }

  lemma ClaimPendingKeeps(o: Outbox, now: int, locked: set<NoteId>)
    requires Inv(o)
    ensures Inv(ClaimPending(o, now, locked))
  {
    FailExpiredKeeps(o, now, locked);
    var p := o.(notes := FailExpired(o.notes, now, locked));
    ClaimEachKeeps(p, Picks(p.notes, now, locked, BATCH), now);
  }

  lemma DispatchKeeps(o: Outbox, k: Lease, now: int)
    requires Inv(o)
    ensures Inv(Dispatch(o, k, now))
  {
    var p := Dispatch(o, k, now);
    forall i | 0 <= i < |p.notes| ensures NoteOk(p, i, p.notes[i]) && ClaimsOn(p.claims, i) == p.notes[i].attempts {
      assert NoteOk(o, i, o.notes[i]);
      SameClaimCounts(o.claims, p.claims, i);
    }
  }

  lemma ReportKeeps(o: Outbox, k: Lease, delivered: bool, now: int)
    requires Inv(o)
    ensures Inv(Report(o, k, delivered, now))
  {
    var p := Report(o, k, delivered, now);
    forall i | 0 <= i < |p.notes| ensures NoteOk(p, i, p.notes[i]) && ClaimsOn(p.claims, i) == p.notes[i].attempts {
      assert NoteOk(o, i, o.notes[i]);
      SameClaimCounts(o.claims, p.claims, i);
    }
  }

  // ------------------------------------------------------------------ interleavings

  datatype Step =
    | Add(availableAt: int)
    | Take(now: int, locked: set<NoteId>)
    | Deliver(k: Lease, now: int)
    | Result(k: Lease, delivered: bool, now: int)

  function Next(o: Outbox, s: Step): Outbox {
    match s
    case Add(at) => Enqueue(o, at)
    case Take(now, locked) => ClaimPending(o, now, locked)
    case Deliver(k, now) => Dispatch(o, k, now)
    case Result(k, delivered, now) => Report(o, k, delivered, now)
  }

  function Run(o: Outbox, steps: seq<Step>): Outbox {
    if steps == [] then o else Next(Run(o, steps[..|steps| - 1]), steps[|steps| - 1])
  }

  lemma StepKeeps(o: Outbox, s: Step)
    requires Inv(o)
    ensures Inv(Next(o, s))
  {
    match s
    case Add(at) => EnqueueKeeps(o, at);
    case Take(now, locked) => ClaimPendingKeeps(o, now, locked);
    case Deliver(k, now) => DispatchKeeps(o, k, now);
    case Result(k, delivered, now) => ReportKeeps(o, k, delivered, now);
  }

  lemma {:induction false} RunKeeps(o: Outbox, steps: seq<Step>)
    requires Inv(o)
    ensures Inv(Run(o, steps))
  {
    if steps != [] {
      RunKeeps(o, steps[..|steps| - 1]);
      StepKeeps(Run(o, steps[..|steps| - 1]), steps[|steps| - 1]);
    }
  }

  /** Under every interleaving a notification is dispatched at most five times, and no more often than it was claimed. */
  lemma AtMostFiveDispatches(steps: seq<Step>, id: NoteId)
    requires id < |Run(EMPTY, steps).notes|
    ensures var o := Run(EMPTY, steps);
            DispatchesOf(o.claims, id) <= o.notes[id].attempts == ClaimsOn(o.claims, id) <= MAX_ATTEMPTS
  {
    RunKeeps(EMPTY, steps);
    var o := Run(EMPTY, steps);
    assert NoteOk(o, id, o.notes[id]);
    DispatchedWithinClaims(o.claims, id);
  }

  /** What claiming does to one row. */
  lemma ClaimedRow(o: Outbox, now: int, locked: set<NoteId>, id: NoteId)
    requires Inv(o) && id < |o.notes|
    ensures |ClaimPending(o, now, locked).notes| == |o.notes|
    ensures ClaimPending(o, now, locked).notes[id] != o.notes[id] ==> Due(o.notes[id], now) && id !in locked
    ensures o.notes[id].status.Sent? || o.notes[id].status.Failed? ==> ClaimPending(o, now, locked).notes[id] == o.notes[id]
    ensures ExpiredAtCap(o.notes[id], now) && id !in locked ==> ClaimPending(o, now, locked).notes[id].status.Failed?
  {
    FailExpiredKeeps(o, now, locked);
    var p := o.(notes := FailExpired(o.notes, now, locked));
    var ids := Picks(p.notes, now, locked, BATCH);
    ClaimEachKeeps(p, ids, now);
    assert NoteOk(o, id, o.notes[id]);
    if id in ids {
      var a :| 0 <= a < |ids| && ids[a] == id;
      assert Claimable(p.notes[ids[a]], now) && ids[a] !in locked;
    }
  }

  /** Only the holder of the current lease, or a claim after it ran out, changes a processing row; stale results change nothing. */
  lemma OnlyHolderDecides(steps: seq<Step>, s: Step, id: NoteId)
    requires id < |Run(EMPTY, steps).notes| && Run(EMPTY, steps).notes[id].status.Processing?
    ensures var o := Run(EMPTY, steps);
            && id < |Next(o, s).notes|
            && (Next(o, s).notes[id] != o.notes[id] ==>
                  || (s.Result? && o.notes[id].lease == Some(s.k) && Open(o, s.k) && o.claims[s.k].dispatched)
                  || (s.Take? && Due(o.notes[id], s.now) && id !in s.locked))
  {
    RunKeeps(EMPTY, steps);
    var o := Run(EMPTY, steps);
    if s.Take? {
      ClaimedRow(o, s.now, s.locked, id);
    }
  }

  lemma FinalStep(o: Outbox, s: Step, id: NoteId)
    requires Inv(o) && id < |o.notes| && (o.notes[id].status.Sent? || o.notes[id].status.Failed?)
    ensures id < |Next(o, s).notes| && Next(o, s).notes[id] == o.notes[id]
  {
    if s.Take? {
      ClaimedRow(o, s.now, s.locked, id);
    }
  }

  /** Sent and failed are never left. */
  lemma {:induction false} FinalForever(before: seq<Step>, later: seq<Step>, id: NoteId)
    requires var o := Run(EMPTY, before); id < |o.notes| && (o.notes[id].status.Sent? || o.notes[id].status.Failed?)
    ensures var o := Run(EMPTY, before); id < |Run(o, later).notes| && Run(o, later).notes[id] == o.notes[id]
  {
    if later != [] {
      FinalForever(before, later[..|later| - 1], id);
      RunKeeps(EMPTY, before);
      RunKeeps(Run(EMPTY, before), later[..|later| - 1]);
      FinalStep(Run(Run(EMPTY, before), later[..|later| - 1]), later[|later| - 1], id);
    }
  }

  /**
   No row is stuck: a processing row always has a lease with an end, and from then on it is claimable
   again, or - after its last attempt - the next claim that does not skip it fails it.
   */
  lemma ProcessingRecovers(steps: seq<Step>, id: NoteId, now: int, locked: set<NoteId>)
    requires id < |Run(EMPTY, steps).notes| && Run(EMPTY, steps).notes[id].status.Processing?
    ensures var o := Run(EMPTY, steps);
            var x := o.notes[id];
            && x.lease.Some? && x.availableAt.Some?
            && (x.availableAt.value <= now ==> Claimable(x, now) || ExpiredAtCap(x, now))
            && (x.availableAt.value <= now && x.attempts == MAX_ATTEMPTS && id !in locked ==>
                  id < |ClaimPending(o, now, locked).notes| && ClaimPending(o, now, locked).notes[id].status.Failed?)
  {
    RunKeeps(EMPTY, steps);
    var o := Run(EMPTY, steps);
    assert NoteOk(o, id, o.notes[id]);
    ClaimedRow(o, now, locked, id);
  }

  // ------------------------------------------------------------------ draining ends

  /** Attempts that are left, over all rows. */
  function Budget(notes: seq<Note>): int {
    if notes == [] then 0 else Budget(notes[..|notes| - 1]) + (MAX_ATTEMPTS - notes[|notes| - 1].attempts)
  }

  lemma {:induction false} BudgetUpdate(notes: seq<Note>, i: nat, x: Note)
    requires i < |notes|
    ensures Budget(notes[i := x]) == Budget(notes) + notes[i].attempts - x.attempts
  {
    var n := |notes| - 1;
    if i < n {
      BudgetUpdate(notes[..n], i, x);
      assert notes[i := x][..n] == notes[..n][i := x];
    } else {
      assert notes[i := x][..n] == notes[..n];
    }
  }

  lemma {:induction false} BudgetSame(a: seq<Note>, b: seq<Note>)
    requires |a| == |b| && forall i :: 0 <= i < |a| ==> a[i].attempts == b[i].attempts
    ensures Budget(a) == Budget(b)
  {
    if a != [] {
      BudgetSame(a[..|a| - 1], b[..|b| - 1]);
    }
  }

  lemma {:induction false} BudgetNonNegative(notes: seq<Note>)
    requires forall i :: 0 <= i < |notes| ==> notes[i].attempts <= MAX_ATTEMPTS
    ensures Budget(notes) >= 0
  {
    if notes != [] {
      BudgetNonNegative(notes[..|notes| - 1]);
    }
  }

  lemma {:induction false} ClaimEachSpends(o: Outbox, ids: seq<NoteId>, now: int)
    requires forall a :: 0 <= a < |ids| ==> ids[a] < |o.notes|
    ensures |ClaimEach(o, ids, now).notes| == |o.notes|
    ensures Budget(ClaimEach(o, ids, now).notes) == Budget(o.notes) - |ids|
  {
    if ids != [] {
      var front, last := ids[..|ids| - 1], ids[|ids| - 1];
      ClaimEachSpends(o, front, now);
      var p := ClaimEach(o, front, now);
      BudgetUpdate(p.notes, last, ClaimOne(p, last, now).notes[last]);
    }
  }

  /** Every claimed row spends one attempt; dispatch and results spend none. */
  lemma StepSpends(o: Outbox, s: Step)
    requires Inv(o) && !s.Add?
    ensures Budget(Next(o, s).notes) == Budget(o.notes) - (|Next(o, s).claims| - |o.claims|)
    ensures Budget(Next(o, s).notes) >= 0
  {
    StepKeeps(o, s);
    var p := Next(o, s);
    forall i | 0 <= i < |p.notes| ensures p.notes[i].attempts <= MAX_ATTEMPTS {
      assert NoteOk(p, i, p.notes[i]);
    }
    BudgetNonNegative(p.notes);
    match s
    case Take(now, locked) =>
      var q := o.(notes := FailExpired(o.notes, now, locked));
      BudgetSame(q.notes, o.notes);
      FailExpiredKeeps(o, now, locked);
      ClaimEachKeeps(q, Picks(q.notes, now, locked, BATCH), now);
      ClaimEachSpends(q, Picks(q.notes, now, locked, BATCH), now);
    case Deliver(_, _) =>
    case Result(k, delivered, now) =>
      if Open(o, k) && o.claims[k].dispatched && Holds(o, k) {
        assert NoteOk(o, o.claims[k].note, o.notes[o.claims[k].note]);
        BudgetUpdate(o.notes, o.claims[k].note, p.notes[o.claims[k].note]);
      }
  }
}
