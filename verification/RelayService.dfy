/** The relay of one worker: claim a batch, deliver it row by row, and drain until a batch is not full. */
module RelayService {
  import opened Prelude
  import opened Relay

  /** Fails the expired rows at the cap one by one. */
  method FailExpiredRows(notes: seq<Note>, now: int, locked: set<NoteId>) returns (rows: seq<Note>)
    ensures rows == FailExpired(notes, now, locked)
  {
    rows := notes;
    for i := 0 to |notes|
      invariant |rows| == |notes|
      invariant forall j :: 0 <= j < |notes| ==> rows[j] == if j < i then FailExpired(notes, now, locked)[j] else notes[j]
    {
      if i !in locked && ExpiredAtCap(rows[i], now) {
        rows := rows[i := rows[i].(status := Failed, availableAt := None, lease := None)];
      }
    }
  }

  /** Leases the picked rows one by one. */
  method LeaseRows(o: Outbox, ids: seq<NoteId>, now: int) returns (out: Outbox)
    requires forall a :: 0 <= a < |ids| ==> ids[a] < |o.notes|
    ensures out == ClaimEach(o, ids, now)
  {
    out := o;
    for n := 0 to |ids|
      invariant out == ClaimEach(o, ids[..n], now) && |out.notes| == |o.notes|
    {
      assert ids[..n + 1][..n] == ids[..n];
      var x := out.notes[ids[n]];
      out := Outbox(out.notes[ids[n] := Note(Processing, x.attempts + 1, Some(|out.claims|), Some(now + LEASE_MS))],
                    out.claims + [Claim(ids[n], x.attempts + 1, now + LEASE_MS, false, false)]);
    }
    assert ids[..|ids|] == ids;
  }

  class Worker {
    var notes: seq<Note>
    var claims: seq<Claim>
    var busy: bool

    ghost function State(): Outbox
      reads this
    {
      Outbox(notes, claims)
    }

    ghost predicate Valid()
      reads this
    {
      Inv(State()) == true
    }

    constructor ()
      ensures State() == EMPTY && Valid() && !busy
    {
      notes, claims, busy := [], [], false;
    }

    method ClaimPending(now: int, locked: set<NoteId>) returns (first: Lease)
      requires Valid()
      modifies `notes, `claims
      ensures Valid()
      ensures State() == Relay.ClaimPending(old(State()), now, locked)
      ensures first == old(|claims|) <= |claims| <= first + BATCH
    {
      ClaimPendingKeeps(State(), now, locked);
      ClaimSize(State(), now, locked);
      first := |claims|;
      var rows := FailExpiredRows(notes, now, locked);
      var leased := LeaseRows(Outbox(rows, claims), Picks(rows, now, locked, BATCH), now);
      notes, claims := leased.notes, leased.claims;
    }

    /** Delivers one claimed row and writes the result back under its lease. */
    method Process(k: Lease, started: int, finished: int, delivered: bool)
      requires Valid() && k < |claims|
      modifies `notes, `claims
      ensures Valid() && |claims| == old(|claims|)
      ensures State() == Report(Dispatch(old(State()), k, started), k, delivered, finished)
      ensures Budget(notes) == Budget(old(notes))
    {
      DispatchKeeps(State(), k, started);
      StepSpends(State(), Deliver(k, started));
      ReportKeeps(Dispatch(State(), k, started), k, delivered, finished);
      StepSpends(Dispatch(State(), k, started), Result(k, delivered, finished));
      if claims[k].done {
        return;
      }
      if !claims[k].dispatched {
        if claims[k].availableAt <= started {
          claims := claims[k := claims[k].(done := true)];
          return;
        }
        claims := claims[k := claims[k].(dispatched := true)];
      }
      var c := claims[k];
      if c.note < |notes| && notes[c.note].status.Processing? && notes[c.note].lease == Some(k) {
        notes := notes[c.note := Closed(notes[c.note], c, delivered, finished)];
      }
      claims := claims[k := c.(done := true)];
    }

    /** One batch; the answer is the number of claimed rows. Clock readings and delivery outcomes come from outside. */
    method DrainOnce(locked: set<NoteId>) returns (processed: nat)
      requires Valid()
      modifies `notes, `claims
      ensures Valid() && processed <= BATCH
      ensures 0 <= Budget(notes) == Budget(old(notes)) - processed
    {
      var now: int := *;
      StepSpends(State(), Take(now, locked));
      var first := ClaimPending(now, locked);
      processed := |claims| - first;
      ghost var budget := Budget(notes);
      var k := first;
      while k < first + processed
        invariant Valid() && first <= k <= first + processed == |claims| && Budget(notes) == budget
      {
        var started: int := *;
        var finished: int := *;
        var delivered: bool := *;
        Process(k, started, finished, delivered);
        k := k + 1;
      }
    }

    /** Drains while batches are full. It ends because every claimed row spends one of its five attempts. */
    method Tick(locked: set<NoteId>)
      requires Valid()
      modifies this
      ensures Valid() && busy == old(busy)
      ensures old(busy) ==> State() == old(State())
      ensures Budget(notes) <= Budget(old(notes))
    {
      if busy {
        return;
      }
      busy := true;
      StepSpends(State(), Result(|claims|, false, 0));
      var processed := BATCH;
      while processed == BATCH
        invariant Valid() && busy
        invariant 0 <= Budget(notes) <= Budget(old(notes))
        decreases Budget(notes), processed
      {
        processed := DrainOnce(locked);
      }
      busy := false;
    }
  }

  lemma ClaimSize(o: Outbox, now: int, locked: set<NoteId>)
    requires Inv(o)
    ensures |o.claims| <= |Relay.ClaimPending(o, now, locked).claims| <= |o.claims| + BATCH
  {
    FailExpiredKeeps(o, now, locked);
    var p := o.(notes := FailExpired(o.notes, now, locked));
    ClaimEachKeeps(p, Picks(p.notes, now, locked, BATCH), now);
  }
}
