/** When each call on sessions is answered how, and exactly what it leaves behind. */
module SessionReplies {
  import opened Prelude
  import opened Sessions

  predicate HashFree(tokens: seq<Token>, hash: Hash) {
    forall i :: 0 <= i < |tokens| ==> tokens[i].hash != hash
  }

  predicate FamilyUnused(tokens: seq<Token>, family: Family) {
    forall i :: 0 <= i < |tokens| ==> tokens[i].family != Some(family)
  }

  /** The token is of its user's generation, as that is now. */
  predicate Current(s: Auth, t: Token) {
    t.user in s.users && t.generation == Some(s.users[t.user].generation)
  }

  predicate HasRead(s: Auth, call: nat, id: TokenId, seen: Token) {
    call in s.inFlight && s.inFlight[call] == Some(Seen(id, seen))
  }

  /** Every token of the user is revoked and its generation is one higher; the rest is as before. */
  ghost predicate EndsAllOf(s: Auth, t: Auth, user: UserId, totp: bool) {
    && user in s.users && t.users == s.users[user := User(s.users[user].generation + 1, totp)]
    && |t.tokens| == |s.tokens| && t.sessions == s.sessions && t.inFlight == s.inFlight
    && forall i :: 0 <= i < |s.tokens| ==>
         t.tokens[i] == if s.tokens[i].user == user then s.tokens[i].(revoked := true) else s.tokens[i]
  }

  lemma AdvanceEnds(s: Auth, user: UserId)
    requires user in s.users
    ensures EndsAllOf(s, Advance(s, user), user, s.users[user].totpEnabled)
  {}

  // ------------------------------------------------------------------ reading

  /** A call remembers the one row of its raw token, or that there is none. */
  lemma ReadRemembers(s: Auth, call: nat, hash: Hash)
    requires Inv(s)
    ensures var t := Read(s, call, hash);
            && t == s.(inFlight := t.inFlight) && call in t.inFlight
            && (forall c :: c != call ==> (c in t.inFlight <==> c in s.inFlight))
            && (forall c :: c != call && c in s.inFlight ==> t.inFlight[c] == s.inFlight[c])
            && (t.inFlight[call].None? <==> HashFree(s.tokens, hash))
            && (forall i :: 0 <= i < |s.tokens| && s.tokens[i].hash == hash ==> HasRead(t, call, i, s.tokens[i]))
  {
    forall i | 0 <= i < |s.tokens| && s.tokens[i].hash == hash ensures HasRead(Read(s, call, hash), call, i, s.tokens[i]) {
      HashNamesToken(s, i);
    }
  }

  // ------------------------------------------------------------------ refreshing

  /** The drawn token is new, and so is the drawn family if the old token has none. */
  predicate DrawnFresh(s: Auth, seen: Token, hash: Hash, family: Family) {
    HashFree(s.tokens, hash) && (seen.family.None? ==> FamilyUnused(s.tokens, family))
  }

  /** What a refresh may go on with: it was read unrevoked and of the generation that the user still has. */
  predicate Usable(s: Auth, seen: Token) {
    !seen.revoked && Current(s, seen)
  }

  /** The row is still as it was read: not revoked, and current. */
  predicate StillUsable(s: Auth, id: TokenId, seen: Token) {
    id < |s.tokens| && !s.tokens[id].revoked && s.tokens[id].generation == seen.generation
  }

  lemma SeenHere(s: Auth, call: nat, id: TokenId, seen: Token)
    requires Inv(s) && HasRead(s, call, id, seen)
    ensures SeenOk(s.tokens, Seen(id, seen)) && id < |s.tokens| && seen.user in s.users && seen.generation == s.tokens[id].generation
  {
    assert SeenOk(s.tokens, s.inFlight[call].value);
    assert TokenOk(s, s.tokens[id]);
  }

  lemma FreshIsDrawn(s: Auth, seen: Token, hash: Hash, family: Family)
    ensures DrawnFresh(s, seen, hash, family) <==> Lookup(s.tokens, hash).None? && (seen.family.Some? || FamilyFree(s.tokens, family))
  {}

  /**
   When a refresh is answered how, on the token as it was read and the row as it is. It is granted exactly
   to an unexpired token that was read unrevoked and current, is still so, and draws a new token.
   */
  lemma RefreshReplies(s: Auth, call: nat, now: int, hash: Hash, family: Family, expiresAt: int, id: TokenId, seen: Token)
    requires Inv(s) && HasRead(s, call, id, seen)
    ensures var r := CommitRefresh(s, call, now, hash, family, expiresAt).1;
            && (r == Reuse <==> seen.revoked)
            && (r == Invalid <==> !seen.revoked && !Current(s, seen))
            && (r == Expired <==> Usable(s, seen) && seen.expiresAt < now)
            && (r == Clash <==> Usable(s, seen) && seen.expiresAt >= now && !DrawnFresh(s, seen, hash, family))
            && (r == AlreadyUsed <==> Usable(s, seen) && seen.expiresAt >= now && DrawnFresh(s, seen, hash, family) && !StillUsable(s, id, seen))
            && (r.Granted? <==> Usable(s, seen) && seen.expiresAt >= now && DrawnFresh(s, seen, hash, family) && StillUsable(s, id, seen))
  {
    SeenHere(s, call, id, seen);
    FreshIsDrawn(s, seen, hash, family);
  }

  /** The row of a granted session: the user, family and second factor of the old token, the new hash and expiry. */
  predicate Succeeds(s: Auth, seen: Token, hash: Hash, family: Family, expiresAt: int, t: Token) {
    && t.user == seen.user && t.hash == hash && t.expiresAt == expiresAt && t.mfaVerified == seen.mfaVerified
    && t.family == Some(if seen.family.Some? then seen.family.value else family)
    && t.user in s.users && t.generation == Some(s.users[t.user].generation)
    && !t.revoked && t.replacedBy.None?
  }

  /** What a granted refresh leaves: the old row revoked and pointing to its successor, and the successor. */
  lemma GrantedRefresh(s: Auth, call: nat, now: int, hash: Hash, family: Family, expiresAt: int, id: TokenId, seen: Token)
    requires Inv(s) && HasRead(s, call, id, seen) && CommitRefresh(s, call, now, hash, family, expiresAt).1.Granted?
    ensures var t, n := CommitRefresh(s, call, now, hash, family, expiresAt).0, |s.tokens|;
            && CommitRefresh(s, call, now, hash, family, expiresAt).1.token == n
            && t == s.(tokens := t.tokens, sessions := s.sessions + [Session(n, Some(id))]) && |t.tokens| == n + 1 && id < n
            && (forall i :: 0 <= i < n && i != id ==> t.tokens[i] == s.tokens[i])
            && t.tokens[id] == s.tokens[id].(revoked := true, replacedBy := Some(n))
            && Succeeds(s, seen, hash, family, expiresAt, t.tokens[n])
  {
    SeenHere(s, call, id, seen);
  }

  /** What a refused refresh leaves: everything as it was, but for a reused token's sessions and an outdated token's row. */
  lemma RefusedRefresh(s: Auth, call: nat, now: int, hash: Hash, family: Family, expiresAt: int, id: TokenId, seen: Token)
    requires Inv(s) && HasRead(s, call, id, seen) && !CommitRefresh(s, call, now, hash, family, expiresAt).1.Granted?
    ensures var t, r := CommitRefresh(s, call, now, hash, family, expiresAt).0, CommitRefresh(s, call, now, hash, family, expiresAt).1;
            && seen.user in s.users && id < |s.tokens|
            && (r == Reuse ==> EndsAllOf(s, t, seen.user, s.users[seen.user].totpEnabled))
            && (r == Invalid ==> t == s.(tokens := s.tokens[id := s.tokens[id].(revoked := true)]))
            && (r in {Expired, Clash, AlreadyUsed} ==> t == s)
            && r in {Reuse, Invalid, Expired, Clash, AlreadyUsed}
  {
    SeenHere(s, call, id, seen);
    AdvanceEnds(s, seen.user);
  }

  /** A raw token of which there is no row is invalid, and changes nothing. */
  lemma UnknownToken(s: Auth, call: nat, now: int, hash: Hash, family: Family, expiresAt: int)
    requires call !in s.inFlight || s.inFlight[call].None?
    ensures CommitRefresh(s, call, now, hash, family, expiresAt) == (s, Invalid) && CommitLogout(s, call) == s
  {}

  /** Read and committed without a pause, an unexpired live token is refreshed whenever it draws a new token. */
  lemma LiveTokenRefreshes(s: Auth, call: nat, id: TokenId, now: int, hash: Hash, family: Family, expiresAt: int)
    requires Inv(s) && id < |s.tokens|
    ensures var x := s.tokens[id];
            CommitRefresh(Read(s, call, x.hash), call, now, hash, family, expiresAt).1.Granted? <==>
              !x.revoked && Current(s, x) && x.expiresAt >= now && DrawnFresh(s, x, hash, family)
  {
    var x := s.tokens[id];
    ReadRemembers(s, call, x.hash);
    ReadKeeps(s, call, x.hash);
    RefreshReplies(Read(s, call, x.hash), call, now, hash, family, expiresAt, id, x);
  }

  // ------------------------------------------------------------------ logging out

  /** Logout ends every session of the token's user if the token was read unrevoked, and else does nothing. */
  lemma LogoutEnds(s: Auth, call: nat, id: TokenId, seen: Token)
    requires Inv(s) && HasRead(s, call, id, seen)
    ensures seen.revoked ==> CommitLogout(s, call) == s
    ensures !seen.revoked ==> seen.user in s.users && EndsAllOf(s, CommitLogout(s, call), seen.user, s.users[seen.user].totpEnabled)
  {
    SeenHere(s, call, id, seen);
    AdvanceEnds(s, seen.user);
  }

  /** Whatever happens between the read of a live token and the commit of the logout, no token of the user is left unrevoked. */
  lemma LogoutRevokesAll(s: Auth, call: nat, id: TokenId, seen: Token, i: TokenId)
    requires Inv(s) && HasRead(s, call, id, seen) && !seen.revoked && i < |s.tokens| && s.tokens[i].user == seen.user
    ensures |CommitLogout(s, call).tokens| == |s.tokens| && CommitLogout(s, call).tokens[i].revoked
  {
    LogoutEnds(s, call, id, seen);
  }

  // ------------------------------------------------------------------ the other calls

  /** A session is issued exactly to a known user with the second factor passed, if the user has one. */
  lemma IssueReplies(s: Auth, user: UserId, mfaVerified: bool, hash: Hash, family: Family, expiresAt: int)
    ensures var t, r := Issue(s, user, mfaVerified, hash, family, expiresAt).0, Issue(s, user, mfaVerified, hash, family, expiresAt).1;
            && (r == NotFound <==> user !in s.users)
            && (r == MfaRequired <==> user in s.users && s.users[user].totpEnabled && !mfaVerified)
            && (r.Granted? <==> user in s.users && (s.users[user].totpEnabled ==> mfaVerified) && HashFree(s.tokens, hash) && FamilyUnused(s.tokens, family))
            && r in {NotFound, MfaRequired, Clash, Granted(|s.tokens|)}
            && (!r.Granted? ==> t == s)
            && (r.Granted? ==>
                  && t == s.(tokens := t.tokens, sessions := s.sessions + [Session(|s.tokens|, None)])
                  && |t.tokens| == |s.tokens| + 1 && t.tokens[..|s.tokens|] == s.tokens
                  && t.tokens[|s.tokens|]
                     == Token(user, hash, Some(family), false, Some(s.users[user].generation), mfaVerified, expiresAt, None))
  {}

  /** Revoking a session answers Done exactly for an unrevoked token of the user, and then ends all of the user's sessions. */
  lemma RevokeReplies(s: Auth, user: UserId, id: TokenId)
    ensures var t, r := RevokeSession(s, user, id).0, RevokeSession(s, user, id).1;
            && (r == Done <==> user in s.users && id < |s.tokens| && s.tokens[id].user == user && !s.tokens[id].revoked)
            && (r == Done ==> EndsAllOf(s, t, user, s.users[user].totpEnabled))
            && (r != Done ==> r == NotFound && t == s)
  {
    if user in s.users {
      AdvanceEnds(s, user);
    }
  }

  lemma RevokeAllReplies(s: Auth, user: UserId)
    ensures var t, r := RevokeAll(s, user).0, RevokeAll(s, user).1;
            && (r == Done <==> user in s.users)
            && (r == Done ==> EndsAllOf(s, t, user, s.users[user].totpEnabled))
            && (r != Done ==> r == NotFound && t == s)
  {
    if user in s.users {
      AdvanceEnds(s, user);
    }
  }

  /** The second factor changes together with the end of all sessions; it cannot be disabled when it is not on. */
  lemma MfaReplies(s: Auth, user: UserId, enabled: bool)
    ensures var t, r := SetMfa(s, user, enabled).0, SetMfa(s, user, enabled).1;
            && (r == Done <==> user in s.users && (enabled || s.users[user].totpEnabled))
            && (r == Done ==> EndsAllOf(s, t, user, enabled))
            && (r != Done ==> t == s && r == if user in s.users then Invalid else NotFound)
  {
    if user in s.users {
      AdvanceEnds(s, user);
    }
  }

  lemma ResetReplies(s: Auth, user: UserId, consumed: bool)
    ensures var t, r := ResetPassword(s, user, consumed).0, ResetPassword(s, user, consumed).1;
            && (r == Done <==> user in s.users && consumed)
            && (r == Done ==> EndsAllOf(s, t, user, s.users[user].totpEnabled))
            && (r != Done ==> t == s && r == if user in s.users then Invalid else NotFound)
  {
    if user in s.users {
      AdvanceEnds(s, user);
    }
  }
}
