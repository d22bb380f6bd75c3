/**
 `InMemoryAuthStore` of app/auth/store.py: the dictionaries updated in place, each method
 proved against its function on values in the module Accounts. Times, ids and digests that
 the original draws from the clock and from random sources are parameters.
 */
module AuthStore {
  import opened Common
  import opened Accounts
  import opened Logins

  class InMemoryAuthStore {
    const capacityLimit: int
    var users: map<Id, User>
    var emailIndex: map<string, Id>
    var tokens: map<string, Token>
    var sessions: map<string, Session>

    function View(): State
      reads this
    {
      State(capacityLimit, users, emailIndex, tokens, sessions)
    }

    ghost predicate Valid()
      reads this
    {
      Inv(View()) && OnePerPurpose(View())
    }

    constructor (capacity: int)
      requires capacity >= 1
      ensures View() == Initial(capacity) && Valid()
    {
      capacityLimit := capacity;
      users, emailIndex, tokens, sessions := map[], map[], map[], map[];
    }

    /** `_expire_pending`: the overdue accounts one by one, in any order. */
    method ExpirePending(now: Time, ttl: Time)
      requires IndexExact(View())
      modifies this
      ensures View() == Accounts.ExpirePending(old(View()), now, ttl)
    {
      ghost var before := View();
      var todo := users.Keys;
      HalfwayStart(before, now, ttl);
      while todo != {}
        invariant todo <= before.users.Keys
        invariant View() == Halfway(before, todo, now, ttl)
        decreases |todo|
      {
        var id :| id in todo;
        HalfwayStep(before, todo, id, now, ttl);
        ExpireOne(id, now, ttl);
        todo := todo - {id};
      }
      HalfwayDone(before, now, ttl);
    }

    /** The loop body of `_expire_pending`. */
    method ExpireOne(id: Id, now: Time, ttl: Time)
      requires id in users
      modifies this
      ensures View() == Visit(old(View()), id, now, ttl)
    {
      var user := users[id];
      if Overdue(user, now, ttl) {
        emailIndex := emailIndex - {user.email};
        users := users[id := Erased(user, now)];
      }
    }

    /** `capacity_used`. */
    method CapacityUsed(now: Time, ttl: Time) returns (count: nat)
      ensures count == |Occupying(View(), now, ttl)|
    {
      count := 0;
      var todo := users.Keys;
      ghost var all := Occupying(View(), now, ttl);
      while todo != {}
        invariant todo <= users.Keys && count == |all - todo|
        decreases |todo|
      {
        var id :| id in todo;
        CountStep(all, todo, id);
        todo := todo - {id};
        if Counted(users[id], now, ttl) { count := count + 1; }
      }
      assert all - todo == all;
    }

    method RegisterPending(id: Id, email: string, hash: string, now: Time, ttl: Time, override: Option<int>)
      returns (d: Decision)
      requires Valid() && id !in users
      modifies this
      ensures Valid() && (View(), d) == Accounts.RegisterPending(old(View()), id, email, hash, now, ttl, override)
    {
      StepKeeps(View(), Register(id, email, hash, now, ttl, override));
      TokensStep(View(), Register(id, email, hash, now, ttl, override));
      var limit := EffectiveLimit(capacityLimit, override);
      if limit.None? { return LimitInvalid; }
      ExpirePending(now, ttl);
      if email in emailIndex { return Duplicate(emailIndex[email]); }
      var used := CapacityUsed(now, ttl);
      if used >= limit.value { return CapacityFull; }
      users := users[id := User(email, hash, Pending, Member, now, now, None, None, None)];
      emailIndex := emailIndex[email := id];
      return Created(id);
    }

    method CreateVerifiedUser(id: Id, email: string, hash: string, role: Role, now: Time, ttl: Time)
      returns (d: Decision)
      requires Valid() && id !in users
      modifies this
      ensures Valid() && (View(), d) == CreateVerified(old(View()), id, email, hash, role, now, ttl)
    {
      StepKeeps(View(), Admit(id, email, hash, role, now, ttl));
      TokensStep(View(), Admit(id, email, hash, role, now, ttl));
      ExpirePending(now, ttl);
      if email in emailIndex { return Duplicate(emailIndex[email]); }
      var used := CapacityUsed(now, ttl);
      if used >= capacityLimit { return CapacityFull; }
      users := users[id := User(email, hash, Active, role, now, now, Some(now), None, None)];
      emailIndex := emailIndex[email := id];
      return Created(id);
    }

    method GetUserByEmail(email: string) returns (r: Option<Id>)
      requires Valid()
      ensures r.Some? <==> exists id :: id in Live(View()) && users[id].email == email
      ensures r.Some? ==> r.value in Live(View()) && users[r.value].email == email
    {
      if email in emailIndex { return Some(emailIndex[email]); }
      return None;
    }

    /** `_revoke_user_sessions`. */
    method RevokeOwn(user: Id, now: Time)
      modifies this`sessions
      ensures View() == RevokeAll(old(View()), user, now)
    {
      ghost var before := sessions;
      var todo := sessions.Keys;
      while todo != {}
        invariant todo <= sessions.Keys == before.Keys
        invariant forall d :: d in before ==>
          sessions[d] == if d !in todo && before[d].user == user && before[d].revokedAt.None?
                         then before[d].(revokedAt := Some(now)) else before[d]
        decreases |todo|
      {
        var digest :| digest in todo;
        todo := todo - {digest};
        if sessions[digest].user == user && sessions[digest].revokedAt.None? {
          sessions := sessions[digest := sessions[digest].(revokedAt := Some(now))];
        }
      }
      assert sessions == RevokeAll(old(View()), user, now).sessions;
    }

    method DisableUser(id: Id, now: Time) returns (r: Option<User>)
      requires Valid()
      modifies this
      ensures Valid() && (View(), r) == Accounts.DisableUser(old(View()), id, now)
    {
      StepKeeps(View(), Disable(id, now));
      TokensStep(View(), Disable(id, now));
      if id !in users || users[id].status.Deleted? { return None; }
      var disabled := users[id].(status := Disabled, disabledAt := Some(now), updatedAt := now);
      users := users[id := disabled];
      RevokeOwn(id, now);
      return Some(disabled);
    }

    method UpdatePasswordHash(id: Id, hash: string, now: Time) returns (r: Result<Id, Id>)
      requires Valid()
      modifies this
      ensures Valid() && (View(), r) == Accounts.UpdatePasswordHash(old(View()), id, hash, now)
    {
      StepKeeps(View(), Rehash(id, hash, now));
      TokensStep(View(), Rehash(id, hash, now));
      if id !in users { return Err(id); }
      users := users[id := users[id].(passwordHash := hash, updatedAt := now)];
      return Ok(id);
    }

    /** The invalidating loop of `replace_token`, then the new entry, over whatever had its digest. */
    method ReplaceToken(user: Id, purpose: Purpose, digest: string, now: Time, expiresAt: Time)
      requires Valid()
      modifies this
      ensures Valid() && View() == Accounts.ReplaceToken(old(View()), user, purpose, digest, now, expiresAt)
      ensures Usable(View(), digest, purpose, now) <==> expiresAt > now
    {
      StepKeeps(View(), Issue(user, purpose, digest, now, expiresAt));
      TokensStep(View(), Issue(user, purpose, digest, now, expiresAt));
      Invalidate(user, purpose, now);
      tokens := tokens[digest := Token(user, purpose, now, expiresAt, None, None)];
    }

    method Invalidate(user: Id, purpose: Purpose, now: Time)
      modifies this`tokens
      ensures tokens == Cleared(old(tokens), user, purpose, now)
    {
      ghost var before := tokens;
      var todo := tokens.Keys;
      while todo != {}
        invariant todo <= tokens.Keys == before.Keys
        invariant forall d :: d in before ==>
                  tokens[d] == if d in todo then before[d] else Cleared(before, user, purpose, now)[d]
        decreases |todo|
      {
        var d :| d in todo;
        todo := todo - {d};
        if tokens[d].user == user && tokens[d].purpose == purpose && Unspent(tokens[d]) {
          tokens := tokens[d := tokens[d].(invalidatedAt := Some(now))];
        }
      }
    }

    method ConsumeEmailVerification(digest: string, now: Time) returns (r: Option<Id>)
      requires Valid()
      modifies this
      ensures Valid() && (View(), r) == ConsumeVerification(old(View()), digest, now)
    {
      StepKeeps(View(), Verify(digest, now));
      TokensStep(View(), Verify(digest, now));
      if !Usable(View(), digest, EmailVerification, now) { return None; }
      var id := tokens[digest].user;
      if id !in users || !users[id].status.Pending? { return None; }
      tokens := tokens[digest := tokens[digest].(consumedAt := Some(now))];
      users := users[id := users[id].(status := Active, verifiedAt := Some(now), updatedAt := now)];
      return Some(id);
    }

    method ConsumePasswordReset(digest: string, hash: string, now: Time) returns (r: Option<Id>)
      requires Valid()
      modifies this
      ensures Valid() && (View(), r) == ConsumeReset(old(View()), digest, hash, now)
    {
      StepKeeps(View(), Reset(digest, hash, now));
      TokensStep(View(), Reset(digest, hash, now));
      if !Usable(View(), digest, PasswordReset, now) { return None; }
      var id := tokens[digest].user;
      if id !in users || !users[id].status.Active? { return None; }
      tokens := tokens[digest := tokens[digest].(consumedAt := Some(now))];
      users := users[id := users[id].(passwordHash := hash, updatedAt := now)];
      RevokeOwn(id, now);
      return Some(id);
    }

    method CreateSession(user: Id, digest: string, now: Time, expiresAt: Time)
      requires Valid()
      modifies this
      ensures Valid() && View() == Accounts.CreateSession(old(View()), user, digest, now, expiresAt)
    {
      StepKeeps(View(), Open(user, digest, now, expiresAt));
      TokensStep(View(), Open(user, digest, now, expiresAt));
      sessions := sessions[digest := Session(user, None, now, now, expiresAt, None)];
    }

    /** `get_auth_context`; the session is written only when its time of last use changes. */
    method GetAuthContext(digest: string, now: Time) returns (r: Option<Id>)
      requires Valid()
      modifies this
      ensures Valid() && (View(), r) == AuthContext(old(View()), digest, now)
    {
      StepKeeps(View(), Authenticate(digest, now));
      TokensStep(View(), Authenticate(digest, now));
      if digest !in sessions { return None; }
      var session := sessions[digest];
      if session.revokedAt.Some? || session.expiresAt <= now { return None; }
      if session.user !in users || !users[session.user].status.Active? { return None; }
      if session.lastSeenAt != now {
        sessions := sessions[digest := session.(lastSeenAt := now)];
      } else {
        assert sessions[digest := session.(lastSeenAt := now)] == sessions;
      }
      return Some(session.user);
    }

    method SetCsrfDigest(digest: string, csrf: string, now: Time) returns (ok: bool)
      requires Valid()
      modifies this
      ensures Valid() && (View(), ok) == SetCsrf(old(View()), digest, csrf, now)
    {
      StepKeeps(View(), StoreCsrf(digest, csrf, now));
      TokensStep(View(), StoreCsrf(digest, csrf, now));
      var who := GetAuthContext(digest, now);
      if who.None? { return false; }
      sessions := sessions[digest := sessions[digest].(csrf := Some(csrf), lastSeenAt := now)];
      assert sessions == SetCsrf(old(View()), digest, csrf, now).0.sessions;
      return true;
    }

    method ValidateCsrfDigest(digest: string, csrf: string, now: Time) returns (r: Option<Id>)
      requires Valid()
      modifies this
      ensures Valid() && (View(), r) == ValidateCsrf(old(View()), digest, csrf, now)
    {
      StepKeeps(View(), CheckCsrf(digest, csrf, now));
      TokensStep(View(), CheckCsrf(digest, csrf, now));
      r := GetAuthContext(digest, now);
      if r.Some? && sessions[digest].csrf != Some(csrf) { return None; }
    }

    method RevokeSession(digest: string, now: Time)
      requires Valid()
      modifies this
      ensures Valid() && View() == Accounts.RevokeSession(old(View()), digest, now)
    {
      StepKeeps(View(), Logout(digest, now));
      TokensStep(View(), Logout(digest, now));
      if digest in sessions && sessions[digest].revokedAt.None? {
        sessions := sessions[digest := sessions[digest].(revokedAt := Some(now))];
      }
    }

    /** Returns how many sessions were open, none of which is afterwards. */
    method RevokeUserSessions(user: Id, now: Time) returns (count: nat)
      requires Valid()
      modifies this
      ensures Valid() && View() == RevokeAll(old(View()), user, now)
      ensures count == |OpenSessions(old(View()), user)| && OpenSessions(View(), user) == {}
    {
      StepKeeps(View(), RevokeUser(user, now));
      TokensStep(View(), RevokeUser(user, now));
      count := CountOpen(user);
      RevokeOwn(user, now);
    }

    method CountOpen(user: Id) returns (count: nat)
      ensures count == |OpenSessions(View(), user)|
    {
      count := 0;
      var todo := sessions.Keys;
      ghost var open := OpenSessions(View(), user);
      while todo != {}
        invariant todo <= sessions.Keys && count == |open - todo|
        decreases |todo|
      {
        var d :| d in todo;
        CountStep(open, todo, d);
        todo := todo - {d};
        if sessions[d].user == user && sessions[d].revokedAt.None? { count := count + 1; }
      }
      assert open - todo == open;
    }

    method ChangePasswordAndCreateSession(id: Id, hash: string, digest: string, now: Time, expiresAt: Time)
      returns (r: Result<Id, Id>)
      requires Valid()
      modifies this
      ensures Valid() && (View(), r) == ChangePassword(old(View()), id, hash, digest, now, expiresAt)
    {
      StepKeeps(View(), ChangeOwn(id, hash, digest, now, expiresAt));
      TokensStep(View(), ChangeOwn(id, hash, digest, now, expiresAt));
      if id !in users { return Err(id); }
      users := users[id := users[id].(passwordHash := hash, updatedAt := now)];
      RevokeOwn(id, now);
      sessions := sessions[digest := Session(id, None, now, now, expiresAt, None)];
      return Ok(id);
    }
  }

  /** `AuthService.login`, when no other request comes in between. */
  class AuthService {
    const store: InMemoryAuthStore
    const hasher: Hasher

    constructor (store: InMemoryAuthStore, hasher: Hasher)
      ensures this.store == store && this.hasher == hasher
    {
      this.store, this.hasher := store, hasher;
    }

    method Login(email: string, password: string, upgrade: string, digest: string, now: Time, expiresAt: Time)
      returns (who: Option<Id>)
      requires store.Valid()
      modifies store
      ensures store.Valid()
      ensures (store.View(), who) ==
        LoginAlone(hasher, old(store.View()), email, password, upgrade, digest, now, expiresAt)
    {
      var found := store.GetUserByEmail(email);
      if found.None? { return None; }
      var user := store.users[found.value];
      if !user.status.Active? || !hasher.accepts(password, user.passwordHash) { return None; }
      if hasher.outdated(user.passwordHash) {
        var written := store.UpdatePasswordHash(found.value, upgrade, now);
      }
      store.CreateSession(found.value, digest, now, expiresAt);
      return found;
    }
  }

  /** Visiting one more element. */
  lemma CountStep<T>(all: set<T>, todo: set<T>, x: T)
    requires x in todo
    ensures |all - (todo - {x})| == |all - todo| + if x in all then 1 else 0
  {
    if x in all { assert all - (todo - {x}) == all - todo + {x}; } else { assert all - (todo - {x}) == all - todo; }
  }

  /** Accounts not yet visited are untouched; the visited overdue ones are erased and unlisted. */
  function Halfway(before: State, todo: set<Id>, now: Time, ttl: Time): State {
    before.(users := map id | id in before.users ::
              if id !in todo && Overdue(before.users[id], now, ttl)
              then Erased(before.users[id], now) else before.users[id],
            index := map e | e in before.index && !(before.index[e] in before.users && before.index[e] !in todo
                                                    && Overdue(before.users[before.index[e]], now, ttl)) ::
                                                       before.index[e])
  }

  function Visit(s: State, id: Id, now: Time, ttl: Time): State
    requires id in s.users
  {
    if Overdue(s.users[id], now, ttl)
    then s.(users := s.users[id := Erased(s.users[id], now)], index := s.index - {s.users[id].email})
    else s
  }

  lemma HalfwayStart(before: State, now: Time, ttl: Time)
    ensures IndexExact(before) ==> Halfway(before, before.users.Keys, now, ttl) == before
  {
    assert Halfway(before, before.users.Keys, now, ttl).users == before.users;
    if IndexExact(before) { assert Halfway(before, before.users.Keys, now, ttl).index == before.index; }
  }

  lemma HalfwayStep(before: State, todo: set<Id>, id: Id, now: Time, ttl: Time)
    requires IndexExact(before) && id in todo && todo <= before.users.Keys
    ensures id in Halfway(before, todo, now, ttl).users
    ensures Visit(Halfway(before, todo, now, ttl), id, now, ttl) == Halfway(before, todo - {id}, now, ttl)
  {
    var s, t := Halfway(before, todo, now, ttl), Halfway(before, todo - {id}, now, ttl);
    assert Visit(s, id, now, ttl).users == t.users;
    assert Visit(s, id, now, ttl).index == t.index;
  }

  lemma HalfwayDone(before: State, now: Time, ttl: Time)
    ensures Halfway(before, {}, now, ttl) == Accounts.ExpirePending(before, now, ttl)
  {
    assert Halfway(before, {}, now, ttl).users == Accounts.ExpirePending(before, now, ttl).users;
    assert Halfway(before, {}, now, ttl).index == Accounts.ExpirePending(before, now, ttl).index;
  }
}
