/**
 Refresh tokens under concurrency. A refresh first reads its token without a lock and later commits
 under the user's row lock; anything may happen in between.
 */
module Sessions {
  import opened Prelude

  type UserId = nat
  type TokenId = nat
  type Family = nat

  /** sha256 of a raw token; different raw tokens have different hashes. */
  type Hash = nat

  datatype User = User(generation: nat, totpEnabled: bool)

  /** A refresh token row. Rows from before the generation column have none. */
  datatype Token = Token(
    user: UserId, hash: Hash, family: Option<Family>, revoked: bool, generation: Option<nat>,
    mfaVerified: bool, expiresAt: int, replacedBy: Option<TokenId>)

  /** A session handed out: its refresh token, and the token it was refreshed from. */
  datatype Session = Session(token: TokenId, from: Option<TokenId>)

  /** A token as a call has read it. */
  datatype Seen = Seen(id: TokenId, copy: Token)

  /** `sessions` is the history of sessions handed out; `inFlight` holds the calls between read and commit. */
  datatype Auth = Auth(users: map<UserId, User>, tokens: seq<Token>, sessions: seq<Session>, inFlight: map<nat, Option<Seen>>)

  datatype Reply = Granted(token: TokenId) | Done | Invalid | Reuse | Expired | AlreadyUsed | MfaRequired | NotFound | Clash

  // ------------------------------------------------------------------ queries and updates

  function Lookup(tokens: seq<Token>, hash: Hash): (r: Option<Seen>)
    ensures r.Some? ==> r.value.id < |tokens| && tokens[r.value.id] == r.value.copy && r.value.copy.hash == hash
    ensures r.None? ==> forall i :: 0 <= i < |tokens| ==> tokens[i].hash != hash
  {
    if tokens == [] then None
    else if tokens[|tokens| - 1].hash == hash then Some(Seen(|tokens| - 1, tokens[|tokens| - 1]))
    else Lookup(tokens[..|tokens| - 1], hash)
  }

  /** updateMany: revokes the user's tokens that are not revoked yet. */
  function RevokeAllOf(tokens: seq<Token>, user: UserId): (out: seq<Token>)
    ensures |out| == |tokens|
    ensures forall i :: 0 <= i < |tokens| ==> out[i] == if tokens[i].user == user then tokens[i].(revoked := true) else tokens[i]
  {
    seq(|tokens|, i requires 0 <= i < |tokens| => if tokens[i].user == user then tokens[i].(revoked := true) else tokens[i])
  }

  predicate FamilyFree(tokens: seq<Token>, f: Family) {
    forall i :: 0 <= i < |tokens| ==> tokens[i].family != Some(f)
  }

  // ------------------------------------------------------------------ the locked steps

  /** advanceAuthGenerationAndRevokeSessions */
  function Advance(s: Auth, user: UserId): Auth
    requires user in s.users
  {
    s.(users := s.users[user := s.users[user].(generation := s.users[user].generation + 1)], tokens := RevokeAllOf(s.tokens, user))
  }

  /** issueSessionInTransaction, with the drawn token and family. */
  function Issue(s: Auth, user: UserId, mfaVerified: bool, hash: Hash, family: Family, expiresAt: int): (Auth, Reply) {
    if user !in s.users then (s, NotFound)
    else if s.users[user].totpEnabled && !mfaVerified then (s, MfaRequired)
    else if Lookup(s.tokens, hash).Some? || !FamilyFree(s.tokens, family) then (s, Clash)
    else
      var t := Token(user, hash, Some(family), false, Some(s.users[user].generation), mfaVerified, expiresAt, None);
      (s.(tokens := s.tokens + [t], sessions := s.sessions + [Session(|s.tokens|, None)]), Granted(|s.tokens|))
  }

  /** The first, unlocked read of a call. */
  function Read(s: Auth, call: nat, hash: Hash): Auth {
    s.(inFlight := s.inFlight[call := Lookup(s.tokens, hash)])
  }

  /** The rest of refresh, under the user's lock, deciding on the token as it was read. */
  function CommitRefresh(s: Auth, call: nat, now: int, hash: Hash, family: Family, expiresAt: int): (Auth, Reply) {
    if call !in s.inFlight || s.inFlight[call].None? then (s, Invalid)
    else
      var id, seen := s.inFlight[call].value.id, s.inFlight[call].value.copy;
      if seen.user !in s.users then (s, NotFound)
      else
        var user := s.users[seen.user];
        if seen.revoked then (Advance(s, seen.user), Reuse)
        else if seen.generation != Some(user.generation) then
          (if id < |s.tokens| then s.(tokens := s.tokens[id := s.tokens[id].(revoked := true)]) else s, Invalid)
        else if seen.expiresAt < now then (s, Expired)
        else if Lookup(s.tokens, hash).Some? || (seen.family.None? && !FamilyFree(s.tokens, family)) then (s, Clash)
        else
          var fam := if seen.family.Some? then seen.family.value else family;
          var successor := Token(seen.user, hash, Some(fam), false, Some(user.generation), seen.mfaVerified, expiresAt, None);
          if id < |s.tokens| && !s.tokens[id].revoked && s.tokens[id].generation == Some(user.generation) then
            (s.(tokens := s.tokens[id := s.tokens[id].(revoked := true, replacedBy := Some(|s.tokens|))] + [successor],
                sessions := s.sessions + [Session(|s.tokens|, Some(id))]),
             Granted(|s.tokens|))
          else (s, AlreadyUsed)
  }

  /** The rest of logout, also on the token as it was read. */
  function CommitLogout(s: Auth, call: nat): Auth {
    if call !in s.inFlight || s.inFlight[call].None? || s.inFlight[call].value.copy.revoked then s
    else if s.inFlight[call].value.copy.user !in s.users then s
    else Advance(s, s.inFlight[call].value.copy.user)
  }

  function RevokeSession(s: Auth, user: UserId, id: TokenId): (Auth, Reply) {
    if user !in s.users then (s, NotFound)
    else if id >= |s.tokens| || s.tokens[id].user != user || s.tokens[id].revoked then (s, NotFound)
    else (Advance(s, user), Done)
  }

  function RevokeAll(s: Auth, user: UserId): (Auth, Reply) {
    if user !in s.users then (s, NotFound) else (Advance(s, user), Done)
  }

  /** enableMfa and disableMfa, once the code has been accepted. */
  function SetMfa(s: Auth, user: UserId, enabled: bool): (Auth, Reply) {
    if user !in s.users then (s, NotFound)
    else if !enabled && !s.users[user].totpEnabled then (s, Invalid)
    else
      var a := Advance(s, user);
      (a.(users := a.users[user := a.users[user].(totpEnabled := enabled)]), Done)
  }

  /** confirmPasswordReset, with the outcome of consuming the reset token. */
  function ResetPassword(s: Auth, user: UserId, consumed: bool): (Auth, Reply) {
    if user !in s.users then (s, NotFound) else if !consumed then (s, Invalid) else (Advance(s, user), Done)
  }

  // ------------------------------------------------------------------ the invariant

  predicate Live(t: Token) {
    !t.revoked && t.generation.Some?
  }

  predicate TokenOk(s: Auth, t: Token) {
    && t.user in s.users
    && (t.generation.Some? ==> t.family.Some? && t.generation.value <= s.users[t.user].generation)
    && (Live(t) ==> t.generation.value == s.users[t.user].generation)
    && (Live(t) && s.users[t.user].totpEnabled ==> t.mfaVerified)
    && (t.replacedBy.Some? ==> t.revoked)
  }

  predicate Apart(a: Token, b: Token) {
    a.hash != b.hash && !(Live(a) && Live(b) && a.family == b.family)
  }

  /** A copy differs from its row only in what revocation writes, and a revoked row stays revoked. */
  predicate SeenOk(tokens: seq<Token>, x: Seen) {
    && x.id < |tokens|
    && tokens[x.id] == x.copy.(revoked := tokens[x.id].revoked, replacedBy := tokens[x.id].replacedBy)
    && (x.copy.revoked ==> tokens[x.id].revoked)
  }

  predicate SessionOk(tokens: seq<Token>, x: Session) {
    && x.token < |tokens|
    && (x.from.Some? ==> x.from.value < |tokens| && tokens[x.from.value].revoked && tokens[x.from.value].replacedBy == Some(x.token))
  }

  ghost predicate TokensOk(s: Auth) {
    && (forall i :: 0 <= i < |s.tokens| ==> TokenOk(s, s.tokens[i]))
    && (forall i, j :: 0 <= i < j < |s.tokens| ==> Apart(s.tokens[i], s.tokens[j]))
  }

  ghost predicate ReadsOk(s: Auth) {
    forall c :: c in s.inFlight && s.inFlight[c].Some? ==> SeenOk(s.tokens, s.inFlight[c].value)
  }

  /** Every session in the history has its own refresh token, and none was refreshed from the same token as another. */
  ghost predicate SessionsOk(s: Auth) {
    && (forall k :: 0 <= k < |s.sessions| ==> SessionOk(s.tokens, s.sessions[k]))
    && (forall k, l :: 0 <= k < l < |s.sessions| ==> s.sessions[k].token < s.sessions[l].token)
  }

  ghost predicate Inv(s: Auth) {
    TokensOk(s) && ReadsOk(s) && SessionsOk(s)
  }

  /** Where runs start: only tokens from before the generation column, which no longer refresh. */
  ghost predicate Start(s: Auth) {
    && s.sessions == [] && s.inFlight == map[]
    && (forall i :: 0 <= i < |s.tokens| ==> s.tokens[i].user in s.users && s.tokens[i].generation.None? && s.tokens[i].replacedBy.None?)
    && (forall i, j :: 0 <= i < j < |s.tokens| ==> s.tokens[i].hash != s.tokens[j].hash)
  }

  // ------------------------------------------------------------------ preservation

  /** Rows only ever change by being revoked. */
  predicate OnlyRevoked(before: seq<Token>, after: seq<Token>) {
    && |before| <= |after|
    && (forall i :: 0 <= i < |before| ==>
          after[i] == before[i].(revoked := after[i].revoked, replacedBy := after[i].replacedBy)
          && (before[i].revoked ==> after[i].revoked && after[i].replacedBy == before[i].replacedBy)
          && (before[i].replacedBy.Some? ==> after[i].replacedBy == before[i].replacedBy))
  }

  lemma HistoryKept(s: Auth, t: Auth)
    requires ReadsOk(s) && SessionsOk(s) && OnlyRevoked(s.tokens, t.tokens)
    requires t.inFlight == s.inFlight && t.sessions == s.sessions
    ensures ReadsOk(t) && SessionsOk(t)
  {
    forall c | c in t.inFlight && t.inFlight[c].Some? ensures SeenOk(t.tokens, t.inFlight[c].value) {
      assert SeenOk(s.tokens, s.inFlight[c].value);
    }
    forall k | 0 <= k < |t.sessions| ensures SessionOk(t.tokens, t.sessions[k]) {
      assert SessionOk(s.tokens, s.sessions[k]);
    }
  }

  lemma AdvanceTokens(s: Auth, user: UserId, totp: bool)
    requires TokensOk(s) && user in s.users
    ensures var a := Advance(s, user);
            TokensOk(a.(users := a.users[user := a.users[user].(totpEnabled := totp)]))
  {
    var a := Advance(s, user);
    var t := a.(users := a.users[user := a.users[user].(totpEnabled := totp)]);
    forall i | 0 <= i < |t.tokens| ensures TokenOk(t, t.tokens[i]) {
      assert TokenOk(s, s.tokens[i]);
    }
    forall i, j | 0 <= i < j < |t.tokens| ensures Apart(t.tokens[i], t.tokens[j]) {
      assert Apart(s.tokens[i], s.tokens[j]);
    }
  }

  /** Advancing the generation revokes everything the user has, so whatever the second factor becomes is respected. */
  lemma AdvanceKeeps(s: Auth, user: UserId, totp: bool)
    requires Inv(s) && user in s.users
    ensures var a := Advance(s, user);
            Inv(a.(users := a.users[user := a.users[user].(totpEnabled := totp)])) && Inv(a)
    ensures forall i :: 0 <= i < |s.tokens| && s.tokens[i].user == user ==> Advance(s, user).tokens[i].revoked
  {
    var a := Advance(s, user);
    AdvanceTokens(s, user, totp);
    AdvanceTokens(s, user, s.users[user].totpEnabled);
    assert a.users[user := a.users[user].(totpEnabled := s.users[user].totpEnabled)] == a.users;
    HistoryKept(s, a);
    HistoryKept(s, a.(users := a.users[user := a.users[user].(totpEnabled := totp)]));
  }

  lemma AppendTokens(s: Auth, t: Token)
    requires TokensOk(s) && TokenOk(s, t) && t.replacedBy.None?
    requires forall i :: 0 <= i < |s.tokens| ==> Apart(s.tokens[i], t)
    ensures TokensOk(s.(tokens := s.tokens + [t]))
  {
    var all := s.tokens + [t];
    forall i | 0 <= i < |all| ensures TokenOk(s, all[i]) {
      if i < |s.tokens| { assert all[i] == s.tokens[i]; }
    }
    forall i, j | 0 <= i < j < |all| ensures Apart(all[i], all[j]) {
      assert all[i] == s.tokens[i];
      if j < |s.tokens| { assert all[j] == s.tokens[j]; }
    }
  }

  lemma LoggedOnce(s: Auth, tokens: seq<Token>, x: Session)
    requires SessionsOk(s) && OnlyRevoked(s.tokens, tokens) && x.token == |s.tokens| && SessionOk(tokens, x)
    ensures SessionsOk(s.(tokens := tokens, sessions := s.sessions + [x]))
  {
    var all := s.sessions + [x];
    forall k | 0 <= k < |all| ensures SessionOk(tokens, all[k]) {
      if k < |s.sessions| { assert SessionOk(s.tokens, s.sessions[k]); }
    }
    forall k, l | 0 <= k < l < |all| ensures all[k].token < all[l].token {
      assert SessionOk(s.tokens, s.sessions[k]);
    }
  }

  lemma ReadsKept(s: Auth, t: Auth)
    requires ReadsOk(s) && OnlyRevoked(s.tokens, t.tokens) && t.inFlight == s.inFlight
    ensures ReadsOk(t)
  {
    forall c | c in t.inFlight && t.inFlight[c].Some? ensures SeenOk(t.tokens, t.inFlight[c].value) {
      assert SeenOk(s.tokens, s.inFlight[c].value);
    }
  }

  lemma IssueKeeps(s: Auth, user: UserId, mfaVerified: bool, hash: Hash, family: Family, expiresAt: int)
    requires Inv(s)
    ensures Inv(Issue(s, user, mfaVerified, hash, family, expiresAt).0)
  {
    var out := Issue(s, user, mfaVerified, hash, family, expiresAt);
    if out.1.Granted? {
      var t := out.0.tokens[|s.tokens|];
      forall i | 0 <= i < |s.tokens| ensures Apart(s.tokens[i], t) {}
      AppendTokens(s, t);
      LoggedOnce(s, out.0.tokens, Session(|s.tokens|, None));
      ReadsKept(s, out.0);
    }
  }

  lemma ReadKeeps(s: Auth, call: nat, hash: Hash)
    requires Inv(s)
    ensures Inv(Read(s, call, hash))
  {}

  /** Revoking one row, and noting its successor. */
  function Rotated(tokens: seq<Token>, id: TokenId, next: Option<TokenId>): seq<Token>
    requires id < |tokens|
  {
    tokens[id := tokens[id].(revoked := true, replacedBy := if next.Some? then next else tokens[id].replacedBy)]
  }

  lemma RotatedTokens(s: Auth, id: TokenId, next: Option<TokenId>)
    requires TokensOk(s) && id < |s.tokens|
    ensures TokensOk(s.(tokens := Rotated(s.tokens, id, next)))
  {
    var ts := Rotated(s.tokens, id, next);
    forall i | 0 <= i < |ts| ensures TokenOk(s, ts[i]) {
      assert TokenOk(s, s.tokens[i]);
    }
    forall i, j | 0 <= i < j < |ts| ensures Apart(ts[i], ts[j]) {
      assert Apart(s.tokens[i], s.tokens[j]);
    }
  }

  /** A token whose snapshot matches the current generation and whose row is still live is rotated into its one successor. */
  lemma RotationKeeps(s: Auth, id: TokenId, seen: Token, hash: Hash, expiresAt: int, successor: Token)
    requires Inv(s) && SeenOk(s.tokens, Seen(id, seen)) && Live(s.tokens[id]) && seen.user in s.users
    requires forall i :: 0 <= i < |s.tokens| ==> s.tokens[i].hash != hash
    requires successor == Token(seen.user, hash, seen.family, false, Some(s.users[seen.user].generation), seen.mfaVerified, expiresAt, None)
    ensures var ts := Rotated(s.tokens, id, Some(|s.tokens|)) + [successor];
            Inv(s.(tokens := ts, sessions := s.sessions + [Session(|s.tokens|, Some(id))]))
  {
    var t0 := s.(tokens := Rotated(s.tokens, id, Some(|s.tokens|)));
    RotatedTokens(s, id, Some(|s.tokens|));
    assert TokenOk(s, s.tokens[id]);
    forall i | 0 <= i < |t0.tokens| ensures Apart(t0.tokens[i], successor) {
      if i != id {
        assert Apart(s.tokens[if i < id then i else id], s.tokens[if i < id then id else i]);
      }
    }
    AppendTokens(t0, successor);
    var ts := t0.tokens + [successor];
    LoggedOnce(s, ts, Session(|s.tokens|, Some(id)));
    ReadsKept(s, s.(tokens := ts));
  }

  lemma CommitKeeps(s: Auth, call: nat, now: int, hash: Hash, family: Family, expiresAt: int)
    requires Inv(s)
    ensures Inv(CommitRefresh(s, call, now, hash, family, expiresAt).0)
  {
    if call in s.inFlight && s.inFlight[call].Some? && s.inFlight[call].value.copy.user in s.users {
      var id, seen := s.inFlight[call].value.id, s.inFlight[call].value.copy;
      assert SeenOk(s.tokens, Seen(id, seen));
      assert TokenOk(s, s.tokens[id]);
      var out := CommitRefresh(s, call, now, hash, family, expiresAt);
      if seen.revoked {
        AdvanceKeeps(s, seen.user, false);
      } else if seen.generation != Some(s.users[seen.user].generation) {
        RotatedTokens(s, id, None);
        HistoryKept(s, out.0);
      } else if out.1.Granted? {
        RotationKeeps(s, id, seen, hash, expiresAt, out.0.tokens[|s.tokens|]);
      }
    }
  }

  // ------------------------------------------------------------------ interleavings

  datatype Step =
    | Login(user: UserId, mfaVerified: bool, hash: Hash, family: Family, expiresAt: int)
    | ReadToken(call: nat, hash: Hash)
    | FinishRefresh(call: nat, now: int, hash: Hash, family: Family, expiresAt: int)
    | FinishLogout(call: nat)
    | Revoke(user: UserId, id: TokenId)
    | RevokeEverything(user: UserId)
    | Mfa(user: UserId, enabled: bool)
    | Reset(user: UserId, consumed: bool)

  function Next(s: Auth, x: Step): Auth {
    match x
    case Login(u, m, h, f, e) => Issue(s, u, m, h, f, e).0
    case ReadToken(c, h) => Read(s, c, h)
    case FinishRefresh(c, now, h, f, e) => CommitRefresh(s, c, now, h, f, e).0
    case FinishLogout(c) => CommitLogout(s, c)
    case Revoke(u, id) => RevokeSession(s, u, id).0
    case RevokeEverything(u) => RevokeAll(s, u).0
    case Mfa(u, on) => SetMfa(s, u, on).0
    case Reset(u, ok) => ResetPassword(s, u, ok).0
  }

  function Run(s: Auth, xs: seq<Step>): Auth {
    if xs == [] then s else Next(Run(s, xs[..|xs| - 1]), xs[|xs| - 1])
  }

  lemma StepKeeps(s: Auth, x: Step)
    requires Inv(s)
    ensures Inv(Next(s, x)) == true
  {
    match x
    case Login(u, m, h, f, e) => IssueKeeps(s, u, m, h, f, e);
    case ReadToken(c, h) => ReadKeeps(s, c, h);
    case FinishRefresh(c, now, h, f, e) => CommitKeeps(s, c, now, h, f, e);
    case FinishLogout(c) =>
      if CommitLogout(s, c) != s { AdvanceKeeps(s, s.inFlight[c].value.copy.user, false); }
    case Revoke(u, id) => if u in s.users { AdvanceKeeps(s, u, false); }
    case RevokeEverything(u) => if u in s.users { AdvanceKeeps(s, u, false); }
    case Mfa(u, on) => if u in s.users { AdvanceKeeps(s, u, on); }
    case Reset(u, ok) => if u in s.users { AdvanceKeeps(s, u, false); }
  }

  lemma {:induction false} RunKeeps(s: Auth, xs: seq<Step>)
    requires Start(s)
    ensures Inv(Run(s, xs)) == true
  {
    if xs == [] {
      forall i | 0 <= i < |s.tokens| ensures TokenOk(s, s.tokens[i]) {}
    } else {
      RunKeeps(s, xs[..|xs| - 1]);
      StepKeeps(Run(s, xs[..|xs| - 1]), xs[|xs| - 1]);
    }
  }

  /** Under every interleaving, no two sessions were refreshed from the same token, and a raw token names one row. */
  lemma OneSessionPerToken(s: Auth, xs: seq<Step>, k: nat, l: nat)
    requires Start(s) && k < l < |Run(s, xs).sessions|
    ensures var t := Run(s, xs);
            && (t.sessions[k].from.Some? ==> t.sessions[k].from != t.sessions[l].from)
            && (forall i, j :: 0 <= i < j < |t.tokens| ==> t.tokens[i].hash != t.tokens[j].hash)
  {
    RunKeeps(s, xs);
    var t := Run(s, xs);
    assert SessionOk(t.tokens, t.sessions[k]) && SessionOk(t.tokens, t.sessions[l]);
    assert t.sessions[k].token < t.sessions[l].token;
    forall i, j | 0 <= i < j < |t.tokens| ensures t.tokens[i].hash != t.tokens[j].hash {
      assert Apart(t.tokens[i], t.tokens[j]);
    }
  }

  /** Rows are never dropped and keep their generation; the rows that a step adds have one. */
  predicate IssuedSince(before: seq<Token>, after: seq<Token>) {
    && |before| <= |after|
    && (forall i :: 0 <= i < |before| ==> after[i].generation == before[i].generation)
    && (forall i :: |before| <= i < |after| ==> after[i].generation.Some?)
  }

  lemma StepIssues(s: Auth, x: Step)
    ensures IssuedSince(s.tokens, Next(s, x).tokens)
  {}

  lemma {:induction false} RunIssues(s: Auth, xs: seq<Step>)
    ensures IssuedSince(s.tokens, Run(s, xs).tokens)
  {
    if xs != [] {
      RunIssues(s, xs[..|xs| - 1]);
      StepIssues(Run(s, xs[..|xs| - 1]), xs[|xs| - 1]);
    }
  }

  /** The tokens that can refresh are the unrevoked ones that the run itself has issued. */
  lemma LiveIsIssued(s: Auth, xs: seq<Step>, i: TokenId)
    requires Start(s) && i < |Run(s, xs).tokens|
    ensures Run(s, xs).tokens[i].generation.Some? <==> i >= |s.tokens|
    ensures Live(Run(s, xs).tokens[i]) <==> i >= |s.tokens| && !Run(s, xs).tokens[i].revoked
  {
    RunIssues(s, xs);
  }

  /** Under every interleaving, a session family has at most one unrevoked token among those issued since the start. */
  lemma OneLivePerFamily(s: Auth, xs: seq<Step>, i: TokenId, j: TokenId)
    requires Start(s) && |s.tokens| <= i < |Run(s, xs).tokens| && |s.tokens| <= j < |Run(s, xs).tokens|
    requires !Run(s, xs).tokens[i].revoked && !Run(s, xs).tokens[j].revoked
    requires Run(s, xs).tokens[i].family == Run(s, xs).tokens[j].family
    ensures i == j
  {
    RunKeeps(s, xs);
    LiveIsIssued(s, xs, i);
    LiveIsIssued(s, xs, j);
    var t := Run(s, xs);
    assert forall a, b :: 0 <= a < b < |t.tokens| ==> Apart(t.tokens[a], t.tokens[b]);
  }

  /**
   Under every interleaving, each unrevoked token issued since the start is of the user's current
   generation, and has passed the second factor if the user has one. The older ones, and only they, have
   no generation and never refresh.
   */
  lemma LiveIsCurrent(s: Auth, xs: seq<Step>, i: TokenId)
    requires Start(s) && i < |Run(s, xs).tokens|
    ensures var t := Run(s, xs);
            var x := t.tokens[i];
            && x.user in t.users && (x.generation.Some? <==> i >= |s.tokens|)
            && (!x.revoked && i >= |s.tokens| ==>
                  x.generation == Some(t.users[x.user].generation) && (t.users[x.user].totpEnabled ==> x.mfaVerified))
  {
    RunKeeps(s, xs);
    LiveIsIssued(s, xs, i);
    assert TokenOk(Run(s, xs), Run(s, xs).tokens[i]);
  }

  /**
   Replaying a raw token that has been rotated revokes every token of its user, the successor included.
   */
  lemma ReplayRevokesAll(s: Auth, xs: seq<Step>, call: nat, id: TokenId, now: int, hash: Hash, family: Family, expiresAt: int)
    requires Start(s) && id < |Run(s, xs).tokens| && Run(s, xs).tokens[id].revoked
    ensures var t := Run(s, xs);
            var out := CommitRefresh(Read(t, call, t.tokens[id].hash), call, now, hash, family, expiresAt);
            && out.1 == Reuse && |out.0.tokens| == |t.tokens|
            && forall i :: 0 <= i < |t.tokens| && t.tokens[i].user == t.tokens[id].user ==> out.0.tokens[i].revoked
  {
    RunKeeps(s, xs);
    var t := Run(s, xs);
    assert TokenOk(t, t.tokens[id]);
    HashNamesToken(t, id);
  }

  /** Looking a token up by its hash finds that token. */
  lemma HashNamesToken(s: Auth, id: TokenId)
    requires TokensOk(s) && id < |s.tokens|
    ensures Lookup(s.tokens, s.tokens[id].hash) == Some(Seen(id, s.tokens[id]))
  {
    var found := Lookup(s.tokens, s.tokens[id].hash);
    assert forall a, b :: 0 <= a < b < |s.tokens| ==> Apart(s.tokens[a], s.tokens[b]);
  }
}
