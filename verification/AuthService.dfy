/** The auth service's token operations on its tables, one method for each step that runs under one lock. */
module AuthService {
  import opened Prelude
  import opened Sessions

  class TokenStore {
    var users: map<UserId, User>
    var tokens: seq<Token>
    /** Sessions handed out so far, oldest first. */
    var sessions: seq<Session>
    /** What calls between their read and their commit have read. */
    var inFlight: map<nat, Option<Seen>>

    ghost function State(): Auth
      reads this
    {
      Auth(users, tokens, sessions, inFlight)
    }

    ghost predicate Valid()
      reads this
    {
      Inv(State()) == true
    }

    constructor (initial: Auth)
      requires Start(initial)
      ensures State() == initial && Valid()
    {
      users, tokens, sessions, inFlight := initial.users, initial.tokens, initial.sessions, initial.inFlight;
      new;
      RunKeeps(initial, []);
    }

    /** The user's lock is held: the generation goes up and every token of the user is revoked. */
    method AdvanceAndRevoke(user: UserId)
      requires user in users
      modifies this
      ensures State() == Advance(old(State()), user)
    {
      users := users[user := users[user].(generation := users[user].generation + 1)];
      tokens := RevokeAllOf(tokens, user);
    }

    method IssueSession(user: UserId, mfaVerified: bool, hash: Hash, family: Family, expiresAt: int) returns (r: Reply)
      requires Valid()
      modifies this
      ensures Valid()
      ensures State() == Issue(old(State()), user, mfaVerified, hash, family, expiresAt).0
      ensures r == Issue(old(State()), user, mfaVerified, hash, family, expiresAt).1
    {
      IssueKeeps(State(), user, mfaVerified, hash, family, expiresAt);
      if user !in users {
        return NotFound;
      }
      if users[user].totpEnabled && !mfaVerified {
        return MfaRequired;
      }
      if Lookup(tokens, hash).Some? || !FamilyFree(tokens, family) {
        return Clash;
      }
      r := Granted(|tokens|);
      sessions := sessions + [Session(|tokens|, None)];
      tokens := tokens + [Token(user, hash, Some(family), false, Some(users[user].generation), mfaVerified, expiresAt, None)];
    }

    /** The unlocked first read of refresh and of logout. */
    method BeginCall(call: nat, hash: Hash)
      requires Valid()
      modifies `inFlight
      ensures Valid() && State() == Read(old(State()), call, hash)
    {
      ReadKeeps(State(), call, hash);
      inFlight := inFlight[call := Lookup(tokens, hash)];
    }

    /** Refresh after its read: reuse, outdated and expired tokens are turned away, a live one is rotated. */
    method FinishRefresh(call: nat, now: int, hash: Hash, family: Family, expiresAt: int) returns (r: Reply)
      requires Valid()
      modifies this
      ensures Valid()
      ensures State() == CommitRefresh(old(State()), call, now, hash, family, expiresAt).0
      ensures r == CommitRefresh(old(State()), call, now, hash, family, expiresAt).1
    {
      CommitKeeps(State(), call, now, hash, family, expiresAt);
      if call !in inFlight || inFlight[call].None? {
        return Invalid;
      }
      var id, seen := inFlight[call].value.id, inFlight[call].value.copy;
      if seen.user !in users {
        return NotFound;
      }
      var generation := users[seen.user].generation;
      if seen.revoked {
        AdvanceAndRevoke(seen.user);
        return Reuse;
      }
      if seen.generation != Some(generation) {
        if id < |tokens| {
          tokens := tokens[id := tokens[id].(revoked := true)];
        }
        return Invalid;
      }
      if seen.expiresAt < now {
        return Expired;
      }
      if Lookup(tokens, hash).Some? || (seen.family.None? && !FamilyFree(tokens, family)) {
        return Clash;
      }
      var next := |tokens|;
      if id >= |tokens| || tokens[id].revoked || tokens[id].generation != Some(generation) {
        return AlreadyUsed;
      }
      tokens := tokens[id := tokens[id].(revoked := true, replacedBy := Some(next))]
                + [Token(seen.user, hash, Some(if seen.family.Some? then seen.family.value else family), false,
                         Some(generation), seen.mfaVerified, expiresAt, None)];
      sessions := sessions + [Session(next, Some(id))];
      r := Granted(next);
    }

    method FinishLogout(call: nat)
      requires Valid()
      modifies this
      ensures Valid() && State() == CommitLogout(old(State()), call)
    {
      StepKeeps(State(), Step.FinishLogout(call));
      if call in inFlight && inFlight[call].Some? && !inFlight[call].value.copy.revoked && inFlight[call].value.copy.user in users {
        AdvanceAndRevoke(inFlight[call].value.copy.user);
      }
    }

    method RevokeSession(user: UserId, id: TokenId) returns (r: Reply)
      requires Valid()
      modifies this
      ensures Valid()
      ensures State() == Sessions.RevokeSession(old(State()), user, id).0 && r == Sessions.RevokeSession(old(State()), user, id).1
    {
      StepKeeps(State(), Revoke(user, id));
      if user !in users || id >= |tokens| || tokens[id].user != user || tokens[id].revoked {
        return NotFound;
      }
      AdvanceAndRevoke(user);
      r := Done;
    }

    /** enableMfa and disableMfa, with the code already accepted. */
    method SetSecondFactor(user: UserId, enabled: bool) returns (r: Reply)
      requires Valid()
      modifies this
      ensures Valid()
      ensures State() == SetMfa(old(State()), user, enabled).0 && r == SetMfa(old(State()), user, enabled).1
    {
      StepKeeps(State(), Mfa(user, enabled));
      if user !in users {
        return NotFound;
      }
      if !enabled && !users[user].totpEnabled {
        return Invalid;
      }
      AdvanceAndRevoke(user);
      users := users[user := users[user].(totpEnabled := enabled)];
      r := Done;
    }

    method ConfirmPasswordReset(user: UserId, consumed: bool) returns (r: Reply)
      requires Valid()
      modifies this
      ensures Valid()
      ensures State() == ResetPassword(old(State()), user, consumed).0 && r == ResetPassword(old(State()), user, consumed).1
    {
      StepKeeps(State(), Reset(user, consumed));
      if user !in users {
        return NotFound;
      }
      if !consumed {
        return Invalid;
      }
      AdvanceAndRevoke(user);
      r := Done;
    }
  }
}
