/** The deterministic fold of a payout event log into what is shown for the payout. */
module PayoutEvents {
  import opened Prelude

  datatype Kind = Requested | Processing | Settled | Rejected | Failed | Hold | Reversed

  datatype PayoutMethod = Ach | Check

  datatype Owner = WorkspaceAdmin | EarnicaSupport | ExternalProvider | SystemPolicy

  /** Missing fields are None, and so is a date that does not parse. */
  datatype Event = Event(
    id: Option<string>, version: int, kind: Kind, occurredAt: Option<int>,
    attempt: Option<string>, payMethod: Option<PayoutMethod>, reason: Option<string>, owner: Option<Owner>)

  /** The seed's creation time and whether its amount, currency and period are well formed. */
  datatype Seed = Seed(createdAt: Option<int>, financial: bool)

  datatype HoldInfo = HoldInfo(reason: string, owner: Owner)

  datatype Presentation =
    | Unavailable
    | Shown(state: Kind, processingAt: Option<int>, terminalAt: Option<int>, payMethod: Option<PayoutMethod>, attempt: Option<string>,
            hold: Option<HoldInfo>)

  // ------------------------------------------------------------------ collecting

  /** A text that is there and not blank. */
  predicate Text(t: Option<string>) {
    t.Some? && !Blank(t.value)
  }

  predicate Valid(e: Event) {
    Text(e.id) && e.version >= 1 && e.occurredAt.Some?
  }

  /** The event already collected under an id, if any. */
  function Prior(seen: seq<Event>, id: Option<string>): Option<Event> {
    if seen == [] then None
    else if seen[|seen| - 1].id == id then Some(seen[|seen| - 1])
    else Prior(seen[..|seen| - 1], id)
  }

  /** One entry an id, in order of first appearance; None for an invalid event or two events under one id. */
  function Collect(events: seq<Event>): Option<seq<Event>> {
    if events == [] then Some([])
    else
      var before, e := Collect(events[..|events| - 1]), events[|events| - 1];
      if before.None? || !Valid(e) then None
      else match Prior(before.value, e.id)
        case None => Some(before.value + [e])
        case Some(p) => if p == e then before else None
  }

  /** Insertion by version; events of equal version are refused later, so their order does not matter. */
  function InsertByVersion(s: seq<Event>, e: Event): seq<Event> {
    if s == [] || s[|s| - 1].version <= e.version then s + [e]
    else InsertByVersion(s[..|s| - 1], e) + [s[|s| - 1]]
  }

  function SortByVersion(s: seq<Event>): seq<Event> {
    if s == [] then [] else InsertByVersion(SortByVersion(s[..|s| - 1]), s[|s| - 1])
  }

  /** Versions 1, 2, 3, ... */
  predicate Numbered(s: seq<Event>) {
    forall i :: 0 <= i < |s| ==> s[i].version == i + 1
  }

  // ------------------------------------------------------------------ folding

  /** State, attempt and times after a prefix of the log; `state` is None before the request. */
  datatype Fold = Fold(state: Option<Kind>, processingAt: Option<int>, terminalAt: Option<int>,
                       attempt: Option<string>, payMethod: Option<PayoutMethod>, hold: Option<HoldInfo>, previous: int)

  predicate Terminal(k: Kind) {
    k.Settled? || k.Rejected? || k.Failed?
  }

  predicate NoAttempt(e: Event) {
    e.attempt.None? && e.payMethod.None?
  }

  function Step(f: Fold, e: Event): Option<Fold> {
    if e.occurredAt.None? || e.occurredAt.value < f.previous then None
    else
      var at := e.occurredAt.value;
      var g := f.(previous := at, hold := None);
      match e.kind
      case Hold =>
        if f.state.None? || Terminal(f.state.value) || !Text(e.reason) || e.owner.None? || !NoAttempt(e) then None
        else Some(f.(previous := at, hold := Some(HoldInfo(e.reason.value, e.owner.value))))
      case Requested => if f.state.Some? || !NoAttempt(e) then None else Some(g.(state := Some(Requested)))
      case Processing =>
        if f.state != Some(Requested) || !Text(e.attempt) || e.payMethod.None? then None
        else Some(g.(state := Some(Processing), attempt := e.attempt, payMethod := e.payMethod, processingAt := Some(at)))
      case Rejected =>
        if f.state != Some(Requested) || !NoAttempt(e) then None else Some(g.(state := Some(Rejected), terminalAt := Some(at)))
      case Settled =>
        if f.state != Some(Processing) || e.attempt != f.attempt || e.payMethod != f.payMethod then None
        else Some(g.(state := Some(Settled), terminalAt := Some(at)))
      case Failed =>
        if f.state != Some(Processing) || e.attempt != f.attempt || e.payMethod != f.payMethod then None
        else Some(g.(state := Some(Failed), terminalAt := Some(at)))
      case Reversed => None
  }

  function Begin(created: int): Fold {
    Fold(None, None, None, None, None, None, created)
  }

  function FoldLog(created: int, log: seq<Event>): Option<Fold> {
    if log == [] then Some(Begin(created))
    else
      var before := FoldLog(created, log[..|log| - 1]);
      if before.None? then None else Step(before.value, log[|log| - 1])
  }

  function Present(f: Fold): Presentation {
    if f.state.None? then Unavailable
    else Shown(f.state.value, f.processingAt, f.terminalAt, f.payMethod, f.attempt, f.hold)
  }

  function FoldEvents(events: seq<Event>, seed: Seed): Presentation {
    if seed.createdAt.None? || !seed.financial then Unavailable
    else match Collect(events)
      case None => Unavailable
      case Some(unique) =>
        var sorted := SortByVersion(unique);
        if sorted == [] || !Numbered(sorted) then Unavailable
        else match FoldLog(seed.createdAt.value, sorted)
          case None => Unavailable
          case Some(f) => Present(f)
  }

  lemma {:induction false} CollectFails(events: seq<Event>, n: nat)
    requires n <= |events| && Collect(events[..n]).None?
    ensures Collect(events).None?
  {
    if n == |events| {
      assert events[..n] == events;
    } else {
      assert events[..|events| - 1][..n] == events[..n];
      CollectFails(events[..|events| - 1], n);
    }
  }

  lemma {:induction false} FoldFails(created: int, log: seq<Event>, n: nat)
    requires n <= |log| && FoldLog(created, log[..n]).None?
    ensures FoldLog(created, log).None?
  {
    if n == |log| {
      assert log[..n] == log;
    } else {
      assert log[..|log| - 1][..n] == log[..n];
      FoldFails(created, log[..|log| - 1], n);
    }
  }

  /** Fills the id map event by event, and gives up at the first bad one. */
  method CollectEvents(events: seq<Event>) returns (r: Option<seq<Event>>)
    ensures r == Collect(events)
  {
    var ids: seq<Event> := [];
    for i := 0 to |events|
      invariant Collect(events[..i]) == Some(ids)
    {
      assert events[..i + 1][..i] == events[..i];
      var event := events[i];
      var prior := Prior(ids, event.id);
      if !Valid(event) || (prior.Some? && prior.value != event) {
        CollectFails(events, i + 1);
        return None;
      }
      if prior.None? {
        ids := ids + [event];
      }
    }
    assert events[..|events|] == events;
    r := Some(ids);
  }

  /** Folds the sorted log event by event, and gives up at the first that does not fit. */
  method FoldSorted(created: int, sorted: seq<Event>) returns (r: Option<Fold>)
    ensures r == FoldLog(created, sorted)
  {
    var f := Begin(created);
    for i := 0 to |sorted|
      invariant FoldLog(created, sorted[..i]) == Some(f)
    {
      assert sorted[..i + 1][..i] == sorted[..i];
      var next := Step(f, sorted[i]);
      if next.None? {
        FoldFails(created, sorted, i + 1);
        return None;
      }
      f := next.value;
    }
    assert sorted[..|sorted|] == sorted;
    r := Some(f);
  }

  /** Collects, sorts, checks the numbering and folds; the first broken rule makes the payout unavailable. */
  method FoldPayoutEvents(events: seq<Event>, seed: Seed) returns (p: Presentation)
    ensures p == FoldEvents(events, seed)
  {
    if seed.createdAt.None? || !seed.financial {
      return Unavailable;
    }
    var ids := CollectEvents(events);
    if ids.None? {
      return Unavailable;
    }
    var sorted := SortByVersion(ids.value);
    if sorted == [] || !Numbered(sorted) {
      return Unavailable;
    }
    var f := FoldSorted(seed.createdAt.value, sorted);
    if f.None? {
      return Unavailable;
    }
    p := Present(f.value);
  }

  // ------------------------------------------------------------------ order and repetition do not matter

  ghost predicate SameEvents(a: seq<Event>, b: seq<Event>) {
    forall e :: e in a <==> e in b
  }

  /** Every event is valid, and no two different ones share an id. */
  ghost predicate Consistent(events: seq<Event>) {
    && (forall e :: e in events ==> Valid(e))
    && (forall d, e :: d in events && e in events && d.id == e.id ==> d == e)
  }

  lemma {:induction false} PriorMeaning(seen: seq<Event>, id: Option<string>)
    ensures Prior(seen, id).Some? ==> Prior(seen, id).value in seen && Prior(seen, id).value.id == id
    ensures Prior(seen, id).None? ==> forall e :: e in seen ==> e.id != id
  {
    if seen != [] {
      PriorMeaning(seen[..|seen| - 1], id);
      assert seen == seen[..|seen| - 1] + [seen[|seen| - 1]];
    }
  }

  /** No id twice. */
  ghost predicate IdsOnce(s: seq<Event>) {
    s == [] || (IdsOnce(s[..|s| - 1]) && forall e :: e in s[..|s| - 1] ==> e.id != s[|s| - 1].id)
  }

  ghost predicate Agrees(events: seq<Event>, e: Event) {
    forall d :: d in events && d.id == e.id ==> d == e
  }

  lemma ConsistentStep(front: seq<Event>, e: Event)
    ensures Consistent(front + [e]) <==> Consistent(front) && Valid(e) && Agrees(front, e)
  {
    var all := front + [e];
    assert all[|front|] == e;
    assert forall x :: x in all <==> x in front || x == e;
  }

  /** Looking an id up among the collected events tells whether a new event agrees with the old ones. */
  lemma PriorAgrees(seen: seq<Event>, events: seq<Event>, e: Event)
    requires Consistent(events) && SameEvents(seen, events)
    ensures Agrees(events, e) <==> Prior(seen, e.id).None? || Prior(seen, e.id).value == e
    ensures Prior(seen, e.id).None? <==> forall d :: d in seen ==> d.id != e.id
    ensures Prior(seen, e.id) == Some(e) ==> e in events
  {
    PriorMeaning(seen, e.id);
  }

  /** Collecting succeeds exactly on consistent events, and keeps each of them once. */
  lemma {:induction false} CollectMeaning(events: seq<Event>)
    ensures Collect(events).Some? <==> Consistent(events)
    ensures Collect(events).Some? ==> IdsOnce(Collect(events).value) && SameEvents(Collect(events).value, events)
  {
    if events != [] {
      var front, e := events[..|events| - 1], events[|events| - 1];
      assert events == front + [e];
      CollectMeaning(front);
      ConsistentStep(front, e);
      if Collect(front).Some? {
        var seen := Collect(front).value;
        PriorAgrees(seen, front, e);
        assert (seen + [e])[..|seen|] == seen;
      }
    }
  }

  ghost predicate AllUpTo(s: seq<Event>, v: int, strict: bool) {
    forall e :: e in s ==> if strict then e.version < v else e.version <= v
  }

  ghost predicate Ascending(s: seq<Event>, strict: bool) {
    s == [] || (Ascending(s[..|s| - 1], strict) && AllUpTo(s[..|s| - 1], s[|s| - 1].version, strict))
  }

  lemma {:induction false} InsertMeaning(s: seq<Event>, e: Event)
    requires Ascending(s, false)
    ensures Ascending(InsertByVersion(s, e), false)
    ensures forall x :: x in InsertByVersion(s, e) <==> x in s || x == e
    ensures |InsertByVersion(s, e)| == |s| + 1
  {
    if s == [] || s[|s| - 1].version <= e.version {
      assert (s + [e])[..|s|] == s;
      if s != [] { assert s == s[..|s| - 1] + [s[|s| - 1]]; }
    } else {
      var front, last := s[..|s| - 1], s[|s| - 1];
      assert s == front + [last];
      InsertMeaning(front, e);
      var r := InsertByVersion(front, e);
      assert (r + [last])[..|r|] == r;
    }
  }

  lemma {:induction false} SortMeaning(s: seq<Event>)
    ensures Ascending(SortByVersion(s), false) && SameEvents(SortByVersion(s), s) && |SortByVersion(s)| == |s|
  {
    if s != [] {
      SortMeaning(s[..|s| - 1]);
      InsertMeaning(SortByVersion(s[..|s| - 1]), s[|s| - 1]);
      assert s == s[..|s| - 1] + [s[|s| - 1]];
    }
  }

  lemma {:induction false} NumberedIsStrict(s: seq<Event>)
    requires Numbered(s)
    ensures Ascending(s, true)
  {
    if s != [] {
      NumberedIsStrict(s[..|s| - 1]);
    }
  }

  /** Strictly ascending lists with the same events are the same list. */
  lemma {:induction false} StrictIsUnique(s: seq<Event>, t: seq<Event>)
    requires Ascending(s, true) && Ascending(t, true) && SameEvents(s, t)
    ensures s == t
  {
    assert t != [] ==> t[0] in t;
    if s != [] {
      var sf, sl := s[..|s| - 1], s[|s| - 1];
      assert sl in t;
      var tf, tl := t[..|t| - 1], t[|t| - 1];
      assert s == sf + [sl] && t == tf + [tl];
      assert tl in s;
      assert sl == tl;
      forall e ensures e in sf <==> e in tf {
        assert e in s <==> e in t;
      }
      StrictIsUnique(sf, tf);
    }
  }

  /** No event twice. */
  ghost predicate Once(s: seq<Event>) {
    s == [] || (Once(s[..|s| - 1]) && s[|s| - 1] !in s[..|s| - 1])
  }

  lemma {:induction false} IdsOnceOnce(s: seq<Event>)
    requires IdsOnce(s)
    ensures Once(s)
  {
    if s != [] {
      var front, last := s[..|s| - 1], s[|s| - 1];
      IdsOnceOnce(front);
      assert last in front ==> last.id != last.id;
    }
  }

  lemma {:induction false} InsertOnce(s: seq<Event>, e: Event)
    requires Ascending(s, false) && Once(s) && e !in s
    ensures Once(InsertByVersion(s, e))
  {
    if s == [] || s[|s| - 1].version <= e.version {
      assert (s + [e])[..|s|] == s;
    } else {
      var front, last := s[..|s| - 1], s[|s| - 1];
      assert s == front + [last];
      InsertOnce(front, e);
      InsertMeaning(front, e);
      var r := InsertByVersion(front, e);
      assert (r + [last])[..|r|] == r;
    }
  }

  lemma {:induction false} SortOnce(s: seq<Event>)
    requires Once(s)
    ensures Once(SortByVersion(s))
  {
    if s != [] {
      SortOnce(s[..|s| - 1]);
      SortMeaning(s[..|s| - 1]);
      InsertOnce(SortByVersion(s[..|s| - 1]), s[|s| - 1]);
    }
  }

  lemma NumberedVersions(s: seq<Event>)
    requires Numbered(s)
    ensures forall d, e :: d in s && e in s && d.version == e.version ==> d == e
  {
    forall d, e | d in s && e in s && d.version == e.version ensures d == e {
      var i :| 0 <= i < |s| && s[i] == d;
      var j :| 0 <= j < |s| && s[j] == e;
      assert s[i].version == i + 1 && s[j].version == j + 1;
    }
  }

  /** Sorted, without repetition, and with versions that tell events apart: strictly sorted. */
  lemma {:induction false} OnceIsStrict(t: seq<Event>)
    requires Ascending(t, false) && Once(t)
    requires forall d, e :: d in t && e in t && d.version == e.version ==> d == e
    ensures Ascending(t, true)
  {
    if t != [] {
      var front, last := t[..|t| - 1], t[|t| - 1];
      assert t == front + [last];
      OnceIsStrict(front);
      forall e | e in front ensures e.version < last.version {
        assert e in t && last in t;
      }
    }
  }

  /** The sorted log of consistent events: ascending, each event once, nothing lost. */
  lemma SortedLog(events: seq<Event>)
    requires Collect(events).Some?
    ensures var s := SortByVersion(Collect(events).value);
            Ascending(s, false) && Once(s) && SameEvents(s, events)
  {
    CollectMeaning(events);
    var u := Collect(events).value;
    IdsOnceOnce(u);
    SortOnce(u);
    SortMeaning(u);
    forall e ensures e in SortByVersion(u) <==> e in events {
      assert e in SortByVersion(u) <==> e in u;
    }
  }

  /** If one order of the events is numbered, every order sorts to the same log. */
  lemma SameLog(s: seq<Event>, t: seq<Event>)
    requires Ascending(t, false) && Once(t) && SameEvents(s, t) && Numbered(s)
    ensures s == t
  {
    NumberedIsStrict(s);
    NumberedVersions(s);
    forall d, e | d in t && e in t && d.version == e.version ensures d == e {
      assert d in s && e in s;
    }
    OnceIsStrict(t);
    StrictIsUnique(s, t);
  }

  /** The fold depends only on which events there are, not on their order or on how often one is repeated. */
  lemma OrderDoesNotMatter(a: seq<Event>, b: seq<Event>, seed: Seed)
    requires SameEvents(a, b)
    ensures FoldEvents(a, seed) == FoldEvents(b, seed)
  {
    CollectMeaning(a);
    CollectMeaning(b);
    assert Consistent(a) <==> Consistent(b);
    if Collect(a).Some? {
      SortedLog(a);
      SortedLog(b);
      var s, t := SortByVersion(Collect(a).value), SortByVersion(Collect(b).value);
      assert SameEvents(s, t) by {
        forall e ensures e in s <==> e in t {
          assert e in s <==> e in a;
          assert e in t <==> e in b;
        }
      }
      if Numbered(s) {
        SameLog(s, t);
      } else if Numbered(t) {
        SameLog(t, s);
      }
    }
  }

  // ------------------------------------------------------------------ the accepted logs

  /** How a log goes on after the request and its holds. */
  datatype Ending = Waiting | Turned | Sent(holds: nat, outcome: Option<Kind>)

  function Holds(n: nat): seq<Kind> {
    seq(n, i => Hold)
  }

  /** requested hold* , then nothing, rejected, or processing hold* with an optional settled or failed. */
  function Word(n: nat, e: Ending): seq<Kind> {
    [Requested] + Holds(n)
    + match e
      case Waiting => []
      case Turned => [Rejected]
      case Sent(m, outcome) => [Processing] + Holds(m) + (if outcome.Some? then [outcome.value] else [])
  }

  predicate EndingOk(e: Ending) {
    e.Sent? && e.outcome.Some? ==> e.outcome.value.Settled? || e.outcome.value.Failed?
  }

  function StateOf(e: Ending): Kind {
    match e
    case Waiting => Requested
    case Turned => Rejected
    case Sent(_, outcome) => if outcome.Some? then outcome.value else Processing
  }

  /** What the fold asks of the kinds alone. */
  function KindStep(s: Option<Kind>, k: Kind): Option<Kind> {
    match k
    case Hold => if s.None? || Terminal(s.value) then None else s
    case Requested => if s.Some? then None else Some(Requested)
    case Processing => if s != Some(Requested) then None else Some(Processing)
    case Rejected => if s != Some(Requested) then None else Some(Rejected)
    case Settled => if s != Some(Processing) then None else Some(Settled)
    case Failed => if s != Some(Processing) then None else Some(Failed)
    case Reversed => None
  }

  /** The state that a word of kinds leads to; the empty word and every refused word lead nowhere. */
  function Reach(ks: seq<Kind>): Option<Kind> {
    if ks == [] then None
    else if |ks| == 1 then KindStep(None, ks[0])
    else if Reach(ks[..|ks| - 1]).None? then None
    else KindStep(Reach(ks[..|ks| - 1]), ks[|ks| - 1])
  }

  ghost predicate IsWord(ks: seq<Kind>, k: Kind) {
    exists n, e :: EndingOk(e) && ks == Word(n, e) && k == StateOf(e)
  }

  lemma HoldsMore(n: nat)
    ensures Holds(n + 1) == Holds(n) + [Hold]
  {}

  /** The words of the grammar, one kind at a time. */
  lemma WordStep(n: nat, e: Ending, k: Kind)
    requires EndingOk(e) && KindStep(Some(StateOf(e)), k).Some?
    ensures IsWord(Word(n, e) + [k], KindStep(Some(StateOf(e)), k).value)
  {
    var m, f := NextWord(n, e, k);
  }

  lemma NextWord(n: nat, e: Ending, k: Kind) returns (m: nat, f: Ending)
    requires EndingOk(e) && KindStep(Some(StateOf(e)), k).Some?
    ensures EndingOk(f) && Word(n, e) + [k] == Word(m, f) && KindStep(Some(StateOf(e)), k) == Some(StateOf(f))
  {
    m := n;
    match e {
      case Waiting =>
        if k.Hold? {
          m, f := n + 1, Waiting;
          HoldsMore(n);
        } else if k.Processing? {
          f := Sent(0, None);
        } else {
          f := Turned;
        }
      case Sent(holds, outcome) =>
        if k.Hold? {
          f := Sent(holds + 1, None);
          HoldsMore(holds);
        } else {
          f := Sent(holds, Some(k));
        }
      case Turned =>
        assert false;
    }
  }

  /** Dropping the last kind of a word leaves a word, or nothing after the bare request. */
  lemma WordBack(n: nat, e: Ending)
    requires EndingOk(e)
    ensures var ks := Word(n, e);
            |ks| > 1 ==>
              exists m, f :: EndingOk(f) && ks[..|ks| - 1] == Word(m, f) && KindStep(Some(StateOf(f)), ks[|ks| - 1]) == Some(StateOf(e))
  {
    var ks := Word(n, e);
    if |ks| > 1 {
      var m, f := PreviousWord(n, e);
    }
  }

  lemma PreviousWord(n: nat, e: Ending) returns (m: nat, f: Ending)
    requires EndingOk(e) && |Word(n, e)| > 1
    ensures EndingOk(f)
    ensures var ks := Word(n, e);
            ks[..|ks| - 1] == Word(m, f) && KindStep(Some(StateOf(f)), ks[|ks| - 1]) == Some(StateOf(e))
  {
    m := n;
    match e {
      case Waiting =>
        m, f := n - 1, Waiting;
        HoldsMore(n - 1);
      case Turned =>
        f := Waiting;
      case Sent(holds, outcome) =>
        if outcome.Some? {
          f := Sent(holds, None);
        } else if holds > 0 {
          f := Sent(holds - 1, None);
          HoldsMore(holds - 1);
        } else {
          f := Waiting;
        }
    }
  }

  /** A word of kinds leads to a state exactly when it is a word of the grammar that ends there. */
  lemma {:induction false} ReachIsWord(ks: seq<Kind>, k: Kind)
    ensures Reach(ks) == Some(k) <==> IsWord(ks, k)
  {
    if |ks| <= 1 {
      if Reach(ks) == Some(k) {
        assert ks == Word(0, Waiting);
      }
      if n, e :| EndingOk(e) && ks == Word(n, e) && k == StateOf(e) {
        assert ks[0] == Requested;
        assert n == 0 && e == Waiting;
      }
    } else {
      var front, last := ks[..|ks| - 1], ks[|ks| - 1];
      assert ks == front + [last];
      if Reach(ks) == Some(k) {
        ReachIsWord(front, Reach(front).value);
        var n, e :| EndingOk(e) && front == Word(n, e) && Reach(front).value == StateOf(e);
        WordStep(n, e, last);
      }
      if n, e :| EndingOk(e) && ks == Word(n, e) && k == StateOf(e) {
        WordBack(n, e);
        var m, f :| EndingOk(f) && front == Word(m, f) && KindStep(Some(StateOf(f)), last) == Some(StateOf(e));
        assert IsWord(front, StateOf(f));
        ReachIsWord(front, StateOf(f));
      }
    }
  }

  function Kinds(log: seq<Event>): seq<Kind> {
    seq(|log|, i requires 0 <= i < |log| => log[i].kind)
  }

  /** The date that the next event may not precede. */
  function LastTime(created: int, log: seq<Event>): int {
    if log == [] || log[|log| - 1].occurredAt.None? then created else log[|log| - 1].occurredAt.value
  }

  /** Dates never go back, from the creation of the payout on. */
  predicate InTime(created: int, log: seq<Event>) {
    log == []
    || (InTime(created, log[..|log| - 1])
        && log[|log| - 1].occurredAt.Some? && log[|log| - 1].occurredAt.value >= LastTime(created, log[..|log| - 1]))
  }

  /** The attempt and method of the processing event, None before it. */
  function AttemptOf(log: seq<Event>): (Option<string>, Option<PayoutMethod>) {
    if log == [] then (None, None)
    else if log[|log| - 1].kind.Processing? then (log[|log| - 1].attempt, log[|log| - 1].payMethod)
    else AttemptOf(log[..|log| - 1])
  }

  /** What each kind of event has to carry. */
  predicate Carries(before: seq<Event>, e: Event) {
    match e.kind
    case Hold => Text(e.reason) && e.owner.Some? && NoAttempt(e)
    case Processing => Text(e.attempt) && e.payMethod.Some?
    case Settled => (e.attempt, e.payMethod) == AttemptOf(before)
    case Failed => (e.attempt, e.payMethod) == AttemptOf(before)
    case _ => NoAttempt(e)
  }

  predicate AllCarry(log: seq<Event>) {
    log == [] || (AllCarry(log[..|log| - 1]) && Carries(log[..|log| - 1], log[|log| - 1]))
  }

  lemma KindsStep(log: seq<Event>)
    requires log != []
    ensures Kinds(log)[..|log| - 1] == Kinds(log[..|log| - 1]) && Kinds(log)[|log| - 1] == log[|log| - 1].kind
  {}

  /** The event that starts the transfer, or those that close the payout. */
  predicate Marks(closing: bool, k: Kind) {
    if closing then Terminal(k) else k.Processing?
  }

  /** Event `i` is the only such event in the log. */
  predicate OnlyMark(log: seq<Event>, closing: bool, i: int) {
    0 <= i < |log| && forall j :: 0 <= j < |log| ==> (Marks(closing, log[j].kind) <==> j == i)
  }

  /** `at` is the date of the one such event in the log, and None when the log has none. */
  ghost predicate DateOf(log: seq<Event>, closing: bool, at: Option<int>) {
    if at.None? then forall i :: 0 <= i < |log| ==> !Marks(closing, log[i].kind)
    else exists i :: OnlyMark(log, closing, i) && log[i].occurredAt == at
  }

  /** The hold that is on: the last event's, if that is a hold; any other event lifts it. */
  function HoldOf(log: seq<Event>): Option<HoldInfo> {
    if log == [] then None
    else
      var e := log[|log| - 1];
      if e.kind.Hold? && e.reason.Some? && e.owner.Some? then Some(HoldInfo(e.reason.value, e.owner.value)) else None
  }

  /** What the fold keeps of a log it has accepted so far. */
  ghost predicate Keeps(created: int, log: seq<Event>, f: Fold) {
    && (log == [] ==> f == Begin(created))
    && (log != [] ==>
          && f.state == Reach(Kinds(log)) && f.state.Some?
          && log[|log| - 1].occurredAt == Some(f.previous)
          && (f.attempt, f.payMethod) == AttemptOf(log))
    && f.hold == HoldOf(log)
    && DateOf(log, false, f.processingAt) && DateOf(log, true, f.terminalAt)
    && (f.state.None? || f.state == Some(Requested) ==> f.processingAt.None?)
    && (f.terminalAt.Some? <==> f.state.Some? && Terminal(f.state.value))
  }

  lemma DateSame(log: seq<Event>, closing: bool, at: Option<int>)
    requires log != [] && DateOf(log[..|log| - 1], closing, at) && !Marks(closing, log[|log| - 1].kind)
    ensures DateOf(log, closing, at)
  {
    var front := log[..|log| - 1];
    if at.Some? {
      var i :| OnlyMark(front, closing, i) && front[i].occurredAt == at;
      assert forall j :: 0 <= j < |front| ==> log[j] == front[j];
      assert OnlyMark(log, closing, i);
    }
  }

  lemma DateNew(log: seq<Event>, closing: bool)
    requires log != [] && DateOf(log[..|log| - 1], closing, None)
    requires Marks(closing, log[|log| - 1].kind) && log[|log| - 1].occurredAt.Some?
    ensures DateOf(log, closing, log[|log| - 1].occurredAt)
  {
    var front := log[..|log| - 1];
    assert forall j :: 0 <= j < |front| ==> log[j] == front[j];
    assert OnlyMark(log, closing, |front|);
  }

  lemma AcceptDates(created: int, log: seq<Event>, f: Fold)
    requires log != [] && Keeps(created, log[..|log| - 1], f) && Step(f, log[|log| - 1]).Some?
    ensures var next := Step(f, log[|log| - 1]).value;
            DateOf(log, false, next.processingAt) && DateOf(log, true, next.terminalAt)
  {
    var e := log[|log| - 1];
    if e.kind.Processing? {
      DateNew(log, false);
    } else {
      DateSame(log, false, f.processingAt);
    }
    if Terminal(e.kind) {
      DateNew(log, true);
    } else {
      DateSame(log, true, f.terminalAt);
    }
  }

  lemma AcceptStep(created: int, log: seq<Event>, f: Fold)
    requires log != [] && Keeps(created, log[..|log| - 1], f)
    ensures var front, e := log[..|log| - 1], log[|log| - 1];
            var next := Step(f, e);
            && (next.Some? <==>
                  && KindStep(f.state, e.kind).Some? && Carries(front, e)
                  && e.occurredAt.Some? && e.occurredAt.value >= f.previous)
            && (next.Some? ==> Keeps(created, log, next.value))
  {
    KindsStep(log);
    if Step(f, log[|log| - 1]).Some? {
      AcceptDates(created, log, f);
    }
  }

  /** A log is accepted exactly when its kinds are a word of the grammar, its dates are in order, and its events carry what they must. */
  lemma {:induction false} AcceptedLogs(created: int, log: seq<Event>)
    requires log != []
    ensures FoldLog(created, log).Some? <==> Reach(Kinds(log)).Some? && InTime(created, log) && AllCarry(log)
    ensures FoldLog(created, log).Some? ==> Keeps(created, log, FoldLog(created, log).value)
  {
    var front := log[..|log| - 1];
    KindsStep(log);
    if front != [] {
      AcceptedLogs(created, front);
    }
    var before := FoldLog(created, front);
    if before.Some? {
      AcceptStep(created, log, before.value);
    }
  }

  /** What is shown is the log's: its final state, attempt and method, the dates of its two marks, and the hold that is on. */
  ghost predicate ShowsLog(log: seq<Event>, p: Presentation) {
    && p.Shown? && IsWord(Kinds(log), p.state)
    && (p.attempt, p.payMethod) == AttemptOf(log) && p.hold == HoldOf(log)
    && DateOf(log, false, p.processingAt) && DateOf(log, true, p.terminalAt)
  }

  /**
   The presentation is available exactly for consistent events whose log, in version order, is numbered
   from one, in time, complete in its fields, and of the form requested hold*, then nothing, rejected,
   or processing hold* with an optional settled or failed.
   */
  lemma AvailableExactly(events: seq<Event>, seed: Seed)
    requires seed.createdAt.Some? && seed.financial && Collect(events).Some?
    ensures var log := SortByVersion(Collect(events).value);
            FoldEvents(events, seed).Shown? <==>
              && log != [] && Numbered(log) && InTime(seed.createdAt.value, log) && AllCarry(log)
              && exists n, e :: EndingOk(e) && Kinds(log) == Word(n, e)
    ensures FoldEvents(events, seed).Shown? ==> ShowsLog(SortByVersion(Collect(events).value), FoldEvents(events, seed))
  {
    var log := SortByVersion(Collect(events).value);
    if log != [] && Numbered(log) {
      AcceptedLogs(seed.createdAt.value, log);
      if Reach(Kinds(log)).Some? {
        ReachIsWord(Kinds(log), Reach(Kinds(log)).value);
      }
      if n, e :| EndingOk(e) && Kinds(log) == Word(n, e) {
        assert IsWord(Kinds(log), StateOf(e));
        ReachIsWord(Kinds(log), StateOf(e));
      }
    }
  }

  /** Invalid events, and two different events under one id, make every log unavailable. */
  lemma InconsistentUnavailable(events: seq<Event>, seed: Seed)
    requires !Consistent(events)
    ensures FoldEvents(events, seed) == Unavailable
  {
    CollectMeaning(events);
  }

  // ------------------------------------------------------------------ availability, on the events themselves

  /** A text that is there and has a character other than white space. */
  ghost predicate Given(t: Option<string>) {
    t.Some? && exists k :: 0 <= k < |t.value| && !Space(t.value[k])
  }

  lemma GivenIsText(t: Option<string>)
    ensures Given(t) <==> Text(t)
  {}

  /** An id, a version from one on, and a date. */
  ghost predicate WellFormed(e: Event) {
    Given(e.id) && e.version >= 1 && e.occurredAt.Some?
  }

  /** Every event is well formed, and events of the same id are the same event. */
  ghost predicate WellFormedAll(events: seq<Event>) {
    && (forall e :: e in events ==> WellFormed(e))
    && (forall d, e :: d in events && e in events && d.id == e.id ==> d == e)
  }

  lemma WellFormedIsConsistent(events: seq<Event>)
    ensures WellFormedAll(events) <==> Consistent(events)
  {
    forall e ensures WellFormed(e) <==> Valid(e) {
      GivenIsText(e.id);
    }
  }

  /** The events in the order of their versions 1, 2, 3, ..., each once. */
  ghost predicate LogOf(events: seq<Event>, log: seq<Event>) {
    && log != [] && (forall i :: 0 <= i < |log| ==> log[i].version == i + 1)
    && (forall e :: e in log <==> e in events)
  }

  /** A log that tells a payout from its request on. */
  ghost predicate TellsPayout(created: int, log: seq<Event>) {
    InTime(created, log) && AllCarry(log) && exists n, e :: EndingOk(e) && Kinds(log) == Word(n, e)
  }

  lemma SortedIsLog(events: seq<Event>, log: seq<Event>)
    requires Collect(events).Some? && LogOf(events, log)
    ensures SortByVersion(Collect(events).value) == log
  {
    SortedLog(events);
    var sorted := SortByVersion(Collect(events).value);
    assert SameEvents(log, sorted) by {
      forall e ensures e in log <==> e in sorted {
        assert e in sorted <==> e in events;
      }
    }
    SameLog(log, sorted);
  }

  /**
   A payout is shown exactly if its seed is complete, its events are well formed, and they have an order that
   tells a payout; that order is then unique, and what is shown is what it tells.
   */
  lemma ShownExactly(events: seq<Event>, seed: Seed)
    ensures FoldEvents(events, seed).Shown? <==>
              && seed.createdAt.Some? && seed.financial && WellFormedAll(events)
              && exists log :: LogOf(events, log) && TellsPayout(seed.createdAt.value, log)
    ensures FoldEvents(events, seed).Shown? ==> forall log :: LogOf(events, log) ==> ShowsLog(log, FoldEvents(events, seed))
  {
    CollectMeaning(events);
    WellFormedIsConsistent(events);
    if seed.createdAt.Some? && seed.financial && Collect(events).Some? {
      AvailableExactly(events, seed);
      SortedLog(events);
      var sorted := SortByVersion(Collect(events).value);
      if FoldEvents(events, seed).Shown? {
        assert LogOf(events, sorted) && TellsPayout(seed.createdAt.value, sorted);
      }
      forall log | LogOf(events, log) ensures log == sorted {
        SortedIsLog(events, log);
      }
    }
  }
}
