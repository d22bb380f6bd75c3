/**
 What may happen to an account, a token and a session of the account store: for each change
 the events that make it, and what follows for whole runs.
 */
module AccountEffects {
  import opened Common
  import opened Accounts
  import Logins

  // ---------------------------------------------------------------- the causes

  /** A pending account whose time is over. */
  predicate Lapsed(u: User, now: Time, ttl: Time) {
    u.status.Pending? && u.createdAt + ttl <= now
  }

  /** A registration that gets as far as clearing out lapsed accounts. */
  predicate Sweeps(s: State, e: Event) {
    e.Admit? || (e.Register? && s.capacity >= 1 && (e.override.Some? ==> e.override.value >= 1))
  }

  predicate Erases(s: State, e: Event, u: User) {
    Sweeps(s, e) && Lapsed(u, e.now, e.ttl)
  }

  predicate Disables(s: State, e: Event, id: Id) {
    e.Disable? && e.id == id && id in s.users && !s.users[id].status.Deleted?
  }

  /** The digest is that of a token of this account and purpose, neither spent nor expired. */
  predicate Redeems(s: State, digest: string, purpose: Purpose, id: Id, now: Time) {
    && digest in s.tokens
    && s.tokens[digest].purpose == purpose && s.tokens[digest].user == id
    && s.tokens[digest].consumedAt.None? && s.tokens[digest].invalidatedAt.None? && s.tokens[digest].expiresAt > now
  }

  predicate Verifies(s: State, e: Event, id: Id) {
    e.Verify? && Redeems(s, e.digest, EmailVerification, id, e.now) && id in s.users && s.users[id].status.Pending?
  }

  predicate Resets(s: State, e: Event, id: Id) {
    e.Reset? && Redeems(s, e.digest, PasswordReset, id, e.now) && id in s.users && s.users[id].status.Active?
  }

  predicate ChangesOwn(s: State, e: Event, id: Id) {
    e.ChangeOwn? && e.id == id && id in s.users
  }

  // ---------------------------------------------------------------- accounts

  /** Every status an account may get, and the one event that gives it. */
  lemma StatusChanges(s: State, e: Event, id: Id)
    requires FreshId(s, e) && id in s.users
    ensures id in Next(s, e).users
    ensures var (u, v) := (s.users[id], Next(s, e).users[id]);
      && (v.status.Deleted? <==> u.status.Deleted? || Erases(s, e, u))
      && (v.status.Disabled? <==> u.status.Disabled? || Disables(s, e, id))
      && (v.status.Active? <==> (u.status.Active? && !Disables(s, e, id)) || Verifies(s, e, id))
      && (v.status.Pending? <==> u.status.Pending? && !Erases(s, e, u) && !Disables(s, e, id) && !Verifies(s, e, id))
  {
    if e.Register? || e.Admit? { EnrolmentSpares(s, e, id); }
  }

  /** What a registration does to an account that was there before. */
  lemma EnrolmentSpares(s: State, e: Event, id: Id)
    requires FreshId(s, e) && id in s.users && (e.Register? || e.Admit?)
    ensures id in Next(s, e).users
    ensures Next(s, e).users[id] ==
            if Erases(s, e, s.users[id])
            then s.users[id].(email := "", passwordHash := "", status := Deleted, updatedAt := e.now,
                              deletedAt := Some(e.now))
            else s.users[id]
  {
  }

  /** An account keeps its role and its birth; address and password go with an erased one alone. */
  lemma FieldChanges(s: State, e: Event, id: Id)
    requires FreshId(s, e) && id in s.users
    ensures id in Next(s, e).users
    ensures var (u, v) := (s.users[id], Next(s, e).users[id]);
      && v.role == u.role && v.createdAt == u.createdAt
      && v.email == (if Erases(s, e, u) then "" else u.email)
      && v.passwordHash == (if Erases(s, e, u) then ""
                            else if (e.Rehash? && e.id == id) || Resets(s, e, id) || ChangesOwn(s, e, id) then e.hash
                            else u.passwordHash)
  {
    if e.Register? || e.Admit? { EnrolmentSpares(s, e, id); }
  }

  /** The instants an account carries say when it was verified, disabled, deleted and last written. */
  lemma InstantChanges(s: State, e: Event, id: Id)
    requires FreshId(s, e) && id in s.users
    ensures id in Next(s, e).users
    ensures var (u, v) := (s.users[id], Next(s, e).users[id]);
      && v.verifiedAt == (if Verifies(s, e, id) then Some(e.now) else u.verifiedAt)
      && v.disabledAt == (if Disables(s, e, id) then Some(e.now) else u.disabledAt)
      && v.deletedAt == (if Erases(s, e, u) then Some(e.now) else u.deletedAt)
      && (v == u || v.updatedAt == e.now)
  {
    if e.Register? || e.Admit? { EnrolmentSpares(s, e, id); }
  }

  /** The accounts that a registration leaves in the way of its own. */
  function Standing(s: State, now: Time, ttl: Time): set<Id> {
    set x | x in s.users && !s.users[x].status.Deleted? && !Lapsed(s.users[x], now, ttl)
  }

  predicate AddressTaken(s: State, email: string, now: Time, ttl: Time) {
    exists x :: x in Standing(s, now, ttl) && s.users[x].email == email
  }

  function Room(s: State, e: Event): int
    requires e.Register? || e.Admit?
  {
    if e.Register? && e.override.Some? && e.override.value < s.capacity then e.override.value else s.capacity
  }

  predicate Enrols(s: State, e: Event, id: Id) {
    && (e.Register? || e.Admit?) && e.id == id && Sweeps(s, e)
    && !AddressTaken(s, e.email, e.now, e.ttl) && |Standing(s, e.now, e.ttl)| < Room(s, e)
  }

  lemma StandingAfter(s: State, now: Time, ttl: Time, email: string)
    requires Inv(s)
    ensures var t := ExpirePending(s, now, ttl);
      && Occupying(t, now, ttl) == Standing(s, now, ttl) && (email in t.index <==> AddressTaken(s, email, now, ttl))
      && (email in t.index ==> t.index[email] in Standing(s, now, ttl) && s.users[t.index[email]].email == email)
  {
    ExpireKeeps(s, now, ttl);
    var t := ExpirePending(s, now, ttl);
    assert Occupying(t, now, ttl) == Standing(s, now, ttl);
  }

  /** An account comes into being exactly when nobody standing has its address and there is room. */
  lemma AccountArisesIff(s: State, e: Event, id: Id)
    requires Inv(s) && FreshId(s, e) && id !in s.users
    ensures id in Next(s, e).users <==> Enrols(s, e, id)
    ensures Enrols(s, e, id) ==>
      Next(s, e).users[id] == User(e.email, e.hash, if e.Admit? then Active else Pending,
                                   if e.Admit? then e.role else Member, e.now, e.now,
                                   if e.Admit? then Some(e.now) else None, None, None)
  {
    if e.Register? || e.Admit? { StandingAfter(s, e.now, e.ttl, e.email); }
  }

  /** What a registration answers. */
  lemma DecisionMeaning(s: State, e: Event)
    requires Inv(s) && e.Register? && FreshId(s, e)
    ensures var d := RegisterPending(s, e.id, e.email, e.hash, e.now, e.ttl, e.override).1;
      && (d.LimitInvalid? <==> !Sweeps(s, e))
      && (d.Duplicate? <==> Sweeps(s, e) && AddressTaken(s, e.email, e.now, e.ttl))
      && (d.Duplicate? ==> d.user in Standing(s, e.now, e.ttl) && s.users[d.user].email == e.email)
      && (d.Created? <==> Enrols(s, e, e.id)) && (d.Created? ==> d.user == e.id)
  {
    StandingAfter(s, e.now, e.ttl, e.email);
  }

  lemma AdmissionMeaning(s: State, e: Event)
    requires Inv(s) && e.Admit? && FreshId(s, e)
    ensures var d := CreateVerified(s, e.id, e.email, e.hash, e.role, e.now, e.ttl).1;
      && !d.LimitInvalid? && (d.Duplicate? <==> AddressTaken(s, e.email, e.now, e.ttl))
      && (d.Duplicate? ==> d.user in Standing(s, e.now, e.ttl) && s.users[d.user].email == e.email)
      && (d.Created? <==> Enrols(s, e, e.id)) && (d.Created? ==> d.user == e.id)
  {
    StandingAfter(s, e.now, e.ttl, e.email);
  }

  // ---------------------------------------------------------------- tokens

  /** A newer token of the account and purpose takes an unspent one out of use. */
  predicate Supersedes(e: Event, t: Token) {
    e.Issue? && e.user == t.user && e.purpose == t.purpose && t.consumedAt.None? && t.invalidatedAt.None?
  }

  predicate Spends(s: State, e: Event, digest: string) {
    digest in s.tokens && (e.Verify? || e.Reset?) && e.digest == digest
    && (Verifies(s, e, s.tokens[digest].user) || Resets(s, e, s.tokens[digest].user))
  }

  lemma TokenChanges(s: State, e: Event, digest: string)
    requires digest in s.tokens && !(e.Issue? && e.digest == digest)
    ensures digest in Next(s, e).tokens
    ensures var (t, u) := (s.tokens[digest], Next(s, e).tokens[digest]);
      && u.user == t.user && u.purpose == t.purpose && u.createdAt == t.createdAt && u.expiresAt == t.expiresAt
      && u.consumedAt == (if Spends(s, e, digest) then Some(e.now) else t.consumedAt)
      && u.invalidatedAt == (if Supersedes(e, t) then Some(e.now) else t.invalidatedAt)
  {
    if !e.Issue? && !e.Verify? && !e.Reset? { OthersKeepTokens(s, e); }
  }

  lemma TokenArisesIff(s: State, e: Event, digest: string)
    ensures e.Issue? && e.digest == digest ==>
      digest in Next(s, e).tokens
      && Next(s, e).tokens[digest] == Token(e.user, e.purpose, e.now, e.expiresAt, None, None)
    ensures digest !in s.tokens ==> (digest in Next(s, e).tokens <==> e.Issue? && e.digest == digest)
  {
    if !e.Issue? { TokensStep(s, e); }
  }

  /** A code is accepted for exactly one account, and then the change it stands for is made. */
  lemma AcceptedMeaning(s: State, digest: string, hash: string, now: Time, id: Id)
    ensures ConsumeVerification(s, digest, now).1 == Some(id) <==> Verifies(s, Verify(digest, now), id)
    ensures ConsumeReset(s, digest, hash, now).1 == Some(id) <==> Resets(s, Reset(digest, hash, now), id)
  {
  }

  // ---------------------------------------------------------------- sessions

  /** The event closes every session of the account. */
  predicate ClosesAllOf(s: State, e: Event, user: Id) {
    Disables(s, e, user) || Resets(s, e, user) || ChangesOwn(s, e, user) || (e.RevokeUser? && e.id == user)
  }

  predicate Opens(s: State, e: Event, digest: string) {
    (e.Open? && e.digest == digest) || (e.ChangeOwn? && e.digest == digest && e.id in s.users)
  }

  /** A session after the event: still of its account, and closed if it was open and a cause for it arose. */
  predicate ClosedBy(s: State, e: Event, x: Session, y: Session, cause: bool) {
    && y.user == x.user && y.createdAt == x.createdAt && y.expiresAt == x.expiresAt
    && y.revokedAt == if x.revokedAt.None? && cause then Some(e.now) else x.revokedAt
  }

  /** An open session is closed by its own logout, or with all sessions of its account; a closed one stays closed. */
  lemma SessionClosesIff(s: State, e: Event, digest: string)
    requires digest in s.sessions && !Opens(s, e, digest)
    ensures digest in Next(s, e).sessions
    ensures ClosedBy(s, e, s.sessions[digest], Next(s, e).sessions[digest],
                     (e.Logout? && e.digest == digest) || ClosesAllOf(s, e, s.sessions[digest].user))
  {
    if e.Disable? || e.Reset? || e.RevokeUser? || e.ChangeOwn? {
      AllCloseTogether(s, e, digest);
    } else if e.Logout? || e.Authenticate? || e.StoreCsrf? || e.CheckCsrf? {
      OneCloses(s, e, digest);
    } else {
      SessionsStay(s, e, digest);
    }
  }

  lemma AllCloseTogether(s: State, e: Event, digest: string)
    requires digest in s.sessions && !Opens(s, e, digest) && (e.Disable? || e.Reset? || e.RevokeUser? || e.ChangeOwn?)
    ensures digest in Next(s, e).sessions
    ensures ClosedBy(s, e, s.sessions[digest], Next(s, e).sessions[digest], ClosesAllOf(s, e, s.sessions[digest].user))
  {
  }

  lemma OneCloses(s: State, e: Event, digest: string)
    requires digest in s.sessions && (e.Logout? || e.Authenticate? || e.StoreCsrf? || e.CheckCsrf?)
    ensures digest in Next(s, e).sessions
    ensures ClosedBy(s, e, s.sessions[digest], Next(s, e).sessions[digest], e.Logout? && e.digest == digest)
  {
  }

  lemma SessionsStay(s: State, e: Event, digest: string)
    requires e.Register? || e.Admit? || e.Rehash? || e.Issue? || e.Verify? || e.Open?
    requires digest in s.sessions && !Opens(s, e, digest)
    ensures digest in Next(s, e).sessions && Next(s, e).sessions[digest] == s.sessions[digest]
  {
  }

  lemma SessionOpensIff(s: State, e: Event, digest: string)
    ensures Opens(s, e, digest) ==>
      digest in Next(s, e).sessions
      && Next(s, e).sessions[digest] == Session(if e.Open? then e.user else e.id, None, e.now, e.now, e.expiresAt, None)
    ensures digest !in s.sessions ==> (digest in Next(s, e).sessions <==> Opens(s, e, digest))
  {
  }

  /** The session is open and current, and its account active. */
  predicate Current(s: State, digest: string, now: Time) {
    && digest in s.sessions
    && s.sessions[digest].revokedAt.None? && s.sessions[digest].expiresAt > now
    && s.sessions[digest].user in s.users && s.users[s.sessions[digest].user].status.Active?
  }

  /** A session is marked as seen, and gets its CSRF digest, only while it is current. */
  lemma SessionUse(s: State, e: Event, digest: string)
    requires digest in s.sessions && !Opens(s, e, digest)
    ensures digest in Next(s, e).sessions
    ensures var (x, y) := (s.sessions[digest], Next(s, e).sessions[digest]);
      var used := (e.Authenticate? || e.StoreCsrf? || e.CheckCsrf?) && e.digest == digest && Current(s, digest, e.now);
      && y.lastSeenAt == (if used then e.now else x.lastSeenAt)
      && y.csrf == (if used && e.StoreCsrf? then Some(e.csrf) else x.csrf)
  {
  }

  /** What the three readers of a session answer. */
  lemma AnswersMeaning(s: State, digest: string, csrf: string, now: Time, id: Id)
    ensures AuthContext(s, digest, now).1 == Some(id) <==> Current(s, digest, now) && s.sessions[digest].user == id
    ensures SetCsrf(s, digest, csrf, now).1 <==> Current(s, digest, now)
    ensures ValidateCsrf(s, digest, csrf, now).1 == Some(id)
            <==> Current(s, digest, now) && s.sessions[digest].user == id && s.sessions[digest].csrf == Some(csrf)
  {
  }

  /** The sessions that a revocation of all closes are the ones counted as open. */
  lemma RevokedCount(s: State, user: Id, now: Time)
    ensures OpenSessions(s, user) == (set d | d in s.sessions && s.sessions[d] != RevokeAll(s, user, now).sessions[d])
  {
  }

  // ---------------------------------------------------------------- runs

  lemma RunStep(ws: seq<State>, es: seq<Event>, k: nat)
    requires Run(ws, es) && k < |es|
    ensures FreshId(ws[k], es[k]) && ws[k + 1] == Next(ws[k], es[k])
  {
  }

  /**
   Once an account has been disabled, no session, old or new, ever authenticates as it, and no
   login with any password passes for it.
   */
  lemma DisableIsForever(ws: seq<State>, es: seq<Event>, i: nat, j: nat, id: Id)
    requires Run(ws, es) && i < j <= |es| && es[i].Disable? && es[i].id == id
    requires id in ws[i].users && !ws[i].users[id].status.Deleted?
    ensures forall digest, now :: AuthContext(ws[j], digest, now).1 != Some(id)
    ensures forall h, email, password :: Logins.Verified(h, ws[j], email, password) != Some(id)
  {
    RunStep(ws, es, i);
    StatusChanges(ws[i], es[i], id);
    RunForward(ws, es, i + 1, j);
  }

  /** A session that was logged out never authenticates again, unless its digest is opened anew. */
  lemma LogoutIsForever(ws: seq<State>, es: seq<Event>, i: nat, j: nat, digest: string, now: Time)
    requires Run(ws, es) && i < j <= |es| && es[i] == Logout(digest, es[i].now) && digest in ws[i].sessions
    requires forall k :: i <= k < j ==> !Creates(es[k], digest)
    ensures AuthContext(ws[j], digest, now).1.None?
  {
    RunStep(ws, es, i);
    SessionClosesIff(ws[i], es[i], digest);
    RevokedStays(ws, es, i + 1, j, digest);
  }

  /** A verified account stays active until it is disabled. */
  lemma VerifiedStaysActive(ws: seq<State>, es: seq<Event>, i: nat, j: nat, id: Id)
    requires Run(ws, es) && i < j <= |es| && Verifies(ws[i], es[i], id)
    requires forall k :: i <= k < j ==> !Disables(ws[k], es[k], id)
    ensures id in ws[j].users && ws[j].users[id].status.Active?
  {
    var holds := (m: nat) => m < |ws| && id in ws[m].users && ws[m].users[id].status.Active?;
    RunStep(ws, es, i);
    StatusChanges(ws[i], es[i], id);
    forall m: nat | i + 1 <= m < j && holds(m) ensures holds(m + 1) {
      RunStep(ws, es, m);
      StatusChanges(ws[m], es[m], id);
    }
    Chain(holds, i + 1, j);
  }

  /** A pending account waits for its code as long as its time is not over, whoever registers meanwhile. */
  lemma PendingWaits(ws: seq<State>, es: seq<Event>, i: nat, j: nat, id: Id)
    requires Run(ws, es) && i <= j <= |es| && id in ws[i].users && ws[i].users[id].status.Pending?
    requires forall k :: i <= k < j ==> !Disables(ws[k], es[k], id) && !Verifies(ws[k], es[k], id)
    requires forall k :: i <= k < j && Sweeps(ws[k], es[k]) ==> es[k].now < ws[i].users[id].createdAt + es[k].ttl
    ensures id in ws[j].users && ws[j].users[id].status.Pending? && ws[j].users[id].email == ws[i].users[id].email
  {
    var holds := (m: nat) => m < |ws| && id in ws[m].users && ws[m].users[id].status.Pending?
                             && ws[m].users[id].email == ws[i].users[id].email
                             && ws[m].users[id].createdAt == ws[i].users[id].createdAt;
    forall m: nat | i <= m < j && holds(m) ensures holds(m + 1) {
      RunStep(ws, es, m);
      StatusChanges(ws[m], es[m], id);
      FieldChanges(ws[m], es[m], id);
    }
    Chain(holds, i, j);
  }

  /** Signing up leads in: where there is room, register, code, verification and login give a current session. */
  lemma SignUpLeadsIn(s: State, id: Id, email: string, hash: string, at: Time, ttl: Time, code: string, digest: string,
                      h: Logins.Hasher, password: string)
    requires Inv(s) && Enrols(s, Register(id, email, hash, at, ttl, None), id)
    requires FreshId(s, Register(id, email, hash, at, ttl, None))
    requires ttl > 0 && h.accepts(password, hash) && !h.outdated(hash)
    ensures var s1 := Next(s, Register(id, email, hash, at, ttl, None));
      var s2 := Next(s1, Issue(id, EmailVerification, code, at, at + ttl));
      var s3 := Next(s2, Verify(code, at));
      && Logins.Verified(h, s2, email, password) == None
      && Logins.LoginAlone(h, s3, email, password, hash, digest, at, at + ttl).1 == Some(id)
      && AuthContext(Logins.LoginAlone(h, s3, email, password, hash, digest, at, at + ttl).0, digest, at).1 == Some(id)
  {
    var e1, e2 := Register(id, email, hash, at, ttl, None), Issue(id, EmailVerification, code, at, at + ttl);
    var e3 := Verify(code, at);
    var s1 := Next(s, e1);
    var s2 := Next(s1, e2);
    AccountArisesIff(s, e1, id);
    StepKeeps(s, e1);
    QuietStep(s1, e2);
    TokenArisesIff(s1, e2, code);
    assert Verifies(s2, e3, id);
    StatusChanges(s2, e3, id);
    FieldChanges(s2, e3, id);
    StepKeeps(s1, e2);
    StepKeeps(s2, e3);
  }
}
