/**
 The account store of app/auth/store.py (`InMemoryAuthStore`) on values: each operation as a
 function of the four dictionaries, and what every run of operations keeps.
 */
module Accounts {
  import opened Common

  datatype Status = Pending | Active | Disabled | Deleted

  datatype Role = Member | Admin

  datatype User = User(email: string, passwordHash: string, status: Status, role: Role, createdAt: Time,
                       updatedAt: Time, verifiedAt: Option<Time>, disabledAt: Option<Time>, deletedAt: Option<Time>)

  datatype Purpose = EmailVerification | PasswordReset

  datatype Token = Token(user: Id, purpose: Purpose, createdAt: Time, expiresAt: Time,
                         consumedAt: Option<Time>, invalidatedAt: Option<Time>)

  datatype Session = Session(user: Id, csrf: Option<string>, createdAt: Time, lastSeenAt: Time, expiresAt: Time,
                             revokedAt: Option<Time>)

  datatype State = State(capacity: int, users: map<Id, User>, index: map<string, Id>, tokens: map<string, Token>,
                         sessions: map<string, Session>)

  datatype Decision = Created(user: Id) | Duplicate(user: Id) | CapacityFull | LimitInvalid

  // ---------------------------------------------------------------- registration

  predicate Overdue(u: User, now: Time, ttl: Time) {
    u.status.Pending? && u.createdAt <= now - ttl
  }

  function Erased(u: User, now: Time): User {
    u.(email := "", passwordHash := "", status := Deleted, updatedAt := now, deletedAt := Some(now))
  }

  /** `_expire_pending`. */
  function ExpirePending(s: State, now: Time, ttl: Time): State {
    s.(users := map id | id in s.users ::
                  if Overdue(s.users[id], now, ttl) then Erased(s.users[id], now) else s.users[id],
       index := map e | e in s.index && !(s.index[e] in s.users && Overdue(s.users[s.index[e]], now, ttl)) ::
                  s.index[e])
  }

  predicate Counted(u: User, now: Time, ttl: Time) {
    u.status.Active? || u.status.Disabled? || (u.status.Pending? && u.createdAt > now - ttl)
  }

  function Occupying(s: State, now: Time, ttl: Time): set<Id> {
    set id | id in s.users && Counted(s.users[id], now, ttl)
  }

  /** `_effective_capacity_limit`; None where it raises. */
  function EffectiveLimit(capacity: int, override: Option<int>): Option<int> {
    if capacity < 1 then None
    else if override.None? then Some(capacity)
    else if override.value < 1 then None
    else Some(if capacity <= override.value then capacity else override.value)
  }

  function Enrol(s: State, id: Id, u: User): State {
    s.(users := s.users[id := u], index := s.index[u.email := id])
  }

  function RegisterPending(s: State, id: Id, email: string, hash: string, now: Time, ttl: Time,
                           override: Option<int>): (State, Decision) {
    var limit := EffectiveLimit(s.capacity, override);
    if limit.None? then (s, LimitInvalid)
    else
      var s1 := ExpirePending(s, now, ttl);
      if email in s1.index then (s1, Duplicate(s1.index[email]))
      else if |Occupying(s1, now, ttl)| >= limit.value then (s1, CapacityFull)
      else (Enrol(s1, id, User(email, hash, Pending, Member, now, now, None, None, None)), Created(id))
  }

  function CreateVerified(s: State, id: Id, email: string, hash: string, role: Role, now: Time,
                          ttl: Time): (State, Decision) {
    var s1 := ExpirePending(s, now, ttl);
    if email in s1.index then (s1, Duplicate(s1.index[email]))
    else if |Occupying(s1, now, ttl)| >= s.capacity then (s1, CapacityFull)
    else (Enrol(s1, id, User(email, hash, Active, role, now, now, Some(now), None, None)), Created(id))
  }

  // ---------------------------------------------------------------- users

  function RevokeAll(s: State, user: Id, now: Time): State {
    s.(sessions := map d | d in s.sessions ::
         if s.sessions[d].user == user && s.sessions[d].revokedAt.None?
         then s.sessions[d].(revokedAt := Some(now)) else s.sessions[d])
  }

  function SetUser(s: State, id: Id, u: User): State {
    s.(users := s.users[id := u])
  }

  function DisableUser(s: State, id: Id, now: Time): (State, Option<User>) {
    if id !in s.users || s.users[id].status.Deleted? then (s, None)
    else
      var u := s.users[id].(status := Disabled, disabledAt := Some(now), updatedAt := now);
      (RevokeAll(SetUser(s, id, u), id, now), Some(u))
  }

  /** Err where the dictionary lookup raises KeyError. */
  function UpdatePasswordHash(s: State, id: Id, hash: string, now: Time): (State, Result<Id, Id>) {
    if id !in s.users then (s, Err(id))
    else (SetUser(s, id, s.users[id].(passwordHash := hash, updatedAt := now)), Ok(id))
  }

  // ---------------------------------------------------------------- tokens

  predicate Unspent(t: Token) {
    t.consumedAt.None? && t.invalidatedAt.None?
  }

  function Cleared(tokens: map<string, Token>, user: Id, purpose: Purpose, now: Time): map<string, Token> {
    map d | d in tokens ::
      if tokens[d].user == user && tokens[d].purpose == purpose && Unspent(tokens[d])
      then tokens[d].(invalidatedAt := Some(now)) else tokens[d]
  }

  function ReplaceToken(s: State, user: Id, purpose: Purpose, digest: string, now: Time, expiresAt: Time): State {
    s.(tokens := Cleared(s.tokens, user, purpose, now)[digest := Token(user, purpose, now, expiresAt, None, None)])
  }

  /** `_active_token` finds the token. */
  predicate Usable(s: State, digest: string, purpose: Purpose, now: Time) {
    digest in s.tokens && s.tokens[digest].purpose == purpose && Unspent(s.tokens[digest])
      && s.tokens[digest].expiresAt > now
  }

  function Spend(s: State, digest: string, now: Time): State
    requires digest in s.tokens
  {
    s.(tokens := s.tokens[digest := s.tokens[digest].(consumedAt := Some(now))])
  }

  function ConsumeVerification(s: State, digest: string, now: Time): (State, Option<Id>) {
    if !Usable(s, digest, EmailVerification, now) then (s, None)
    else
      var id := s.tokens[digest].user;
      if id !in s.users || !s.users[id].status.Pending? then (s, None)
      else (SetUser(Spend(s, digest, now), id,
                    s.users[id].(status := Active, verifiedAt := Some(now), updatedAt := now)), Some(id))
  }

  function ConsumeReset(s: State, digest: string, hash: string, now: Time): (State, Option<Id>) {
    if !Usable(s, digest, PasswordReset, now) then (s, None)
    else
      var id := s.tokens[digest].user;
      if id !in s.users || !s.users[id].status.Active? then (s, None)
      else
        var u := s.users[id].(passwordHash := hash, updatedAt := now);
        (RevokeAll(SetUser(Spend(s, digest, now), id, u), id, now), Some(id))
  }

  // ---------------------------------------------------------------- sessions

  function CreateSession(s: State, user: Id, digest: string, now: Time, expiresAt: Time): State {
    s.(sessions := s.sessions[digest := Session(user, None, now, now, expiresAt, None)])
  }

  /** `_auth_context` accepts the session. */
  predicate Authenticates(s: State, digest: string, now: Time) {
    && digest in s.sessions && s.sessions[digest].revokedAt.None? && s.sessions[digest].expiresAt > now
    && s.sessions[digest].user in s.users && s.users[s.sessions[digest].user].status.Active?
  }

  function Seen(s: State, digest: string, now: Time): State
    requires digest in s.sessions
  {
    s.(sessions := s.sessions[digest := s.sessions[digest].(lastSeenAt := now)])
  }

  function AuthContext(s: State, digest: string, now: Time): (State, Option<Id>) {
    if Authenticates(s, digest, now) then (Seen(s, digest, now), Some(s.sessions[digest].user)) else (s, None)
  }

  function SetCsrf(s: State, digest: string, csrf: string, now: Time): (State, bool) {
    if !Authenticates(s, digest, now) then (s, false)
    else (s.(sessions := s.sessions[digest := s.sessions[digest].(csrf := Some(csrf), lastSeenAt := now)]), true)
  }

  /** A wrong CSRF digest is refused after the session was marked as seen. */
  function ValidateCsrf(s: State, digest: string, csrf: string, now: Time): (State, Option<Id>) {
    var (s1, who) := AuthContext(s, digest, now);
    (s1, if who.Some? && s1.sessions[digest].csrf == Some(csrf) then who else None)
  }

  function RevokeSession(s: State, digest: string, now: Time): State {
    if digest in s.sessions && s.sessions[digest].revokedAt.None?
    then s.(sessions := s.sessions[digest := s.sessions[digest].(revokedAt := Some(now))]) else s
  }

  function OpenSessions(s: State, user: Id): set<string> {
    set d | d in s.sessions && s.sessions[d].user == user && s.sessions[d].revokedAt.None?
  }

  function ChangePassword(s: State, id: Id, hash: string, digest: string, now: Time,
                          expiresAt: Time): (State, Result<Id, Id>) {
    if id !in s.users then (s, Err(id))
    else
      var s1 := RevokeAll(SetUser(s, id, s.users[id].(passwordHash := hash, updatedAt := now)), id, now);
      (CreateSession(s1, id, digest, now, expiresAt), Ok(id))
  }

  // ---------------------------------------------------------------- runs

  datatype Event =
    | Register(id: Id, email: string, hash: string, now: Time, ttl: Time, override: Option<int>)
    | Admit(id: Id, email: string, hash: string, role: Role, now: Time, ttl: Time)
    | Disable(id: Id, now: Time)
    | Rehash(id: Id, hash: string, now: Time)
    | Issue(user: Id, purpose: Purpose, digest: string, now: Time, expiresAt: Time)
    | Verify(digest: string, now: Time)
    | Reset(digest: string, hash: string, now: Time)
    | Open(user: Id, digest: string, now: Time, expiresAt: Time)
    | Authenticate(digest: string, now: Time)
    | StoreCsrf(digest: string, csrf: string, now: Time)
    | CheckCsrf(digest: string, csrf: string, now: Time)
    | Logout(digest: string, now: Time)
    | RevokeUser(id: Id, now: Time)
    | ChangeOwn(id: Id, hash: string, digest: string, now: Time, expiresAt: Time)

  function Next(s: State, e: Event): State {
    match e
    case Register(id, email, hash, now, ttl, override) => RegisterPending(s, id, email, hash, now, ttl, override).0
    case Admit(id, email, hash, role, now, ttl) => CreateVerified(s, id, email, hash, role, now, ttl).0
    case Disable(id, now) => DisableUser(s, id, now).0
    case Rehash(id, hash, now) => UpdatePasswordHash(s, id, hash, now).0
    case Issue(user, purpose, digest, now, expiresAt) => ReplaceToken(s, user, purpose, digest, now, expiresAt)
    case Verify(digest, now) => ConsumeVerification(s, digest, now).0
    case Reset(digest, hash, now) => ConsumeReset(s, digest, hash, now).0
    case Open(user, digest, now, expiresAt) => CreateSession(s, user, digest, now, expiresAt)
    case Authenticate(digest, now) => AuthContext(s, digest, now).0
    case StoreCsrf(digest, csrf, now) => SetCsrf(s, digest, csrf, now).0
    case CheckCsrf(digest, csrf, now) => ValidateCsrf(s, digest, csrf, now).0
    case Logout(digest, now) => RevokeSession(s, digest, now)
    case RevokeUser(id, now) => RevokeAll(s, id, now)
    case ChangeOwn(id, hash, digest, now, expiresAt) => ChangePassword(s, id, hash, digest, now, expiresAt).0
  }

  /** New accounts are given ids that were never used: `uuid4`. */
  predicate FreshId(s: State, e: Event) {
    e.Register? || e.Admit? ==> e.id !in s.users
  }

  /** Any clocks, digests and time-to-live values; `ws` are the states around the events. */
  ghost predicate Run(ws: seq<State>, es: seq<Event>) {
    && |ws| == |es| + 1
    && forall i :: 0 <= i < |es| ==> FreshId(ws[i], es[i]) && ws[i + 1] == Next(ws[i], es[i])
  }

  function Initial(capacity: int): State {
    State(capacity, map[], map[], map[], map[])
  }

  // ---------------------------------------------------------------- capacity and the e-mail index

  function Live(s: State): set<Id> {
    set id | id in s.users && !s.users[id].status.Deleted?
  }

  /** The index is the inverse of the e-mails of the live users. */
  predicate IndexExact(s: State) {
    && (forall id :: id in s.users && !s.users[id].status.Deleted? ==>
        s.users[id].email in s.index && s.index[s.users[id].email] == id)
    && (forall e :: e in s.index ==>
        s.index[e] in s.users && !s.users[s.index[e]].status.Deleted? && s.users[s.index[e]].email == e)
  }

  ghost predicate Inv(s: State) {
    IndexExact(s) && s.capacity >= 1 && |Live(s)| <= s.capacity
  }

  lemma SubsetSize<T>(a: set<T>, b: set<T>)
    requires a <= b
    ensures |a| <= |b|
  {
    assert b == a + (b - a);
    assert |b| == |a| + |b - a|;
  }

  lemma ExpireKeeps(s: State, now: Time, ttl: Time)
    requires Inv(s)
    ensures var t := ExpirePending(s, now, ttl);
      Inv(t) && Live(t) == Occupying(t, now, ttl) && t.users.Keys == s.users.Keys && t.capacity == s.capacity
  {
    var t := ExpirePending(s, now, ttl);
    SubsetSize(Live(t), Live(s));
  }

  /** Enrolling where the count is below the limit, whatever the clock says. */
  lemma EnrolKeeps(s: State, id: Id, u: User)
    requires Inv(s) && id !in s.users && u.email !in s.index && !u.status.Deleted? && |Live(s)| < s.capacity
    ensures Inv(Enrol(s, id, u))
  {
    assert Live(Enrol(s, id, u)) == Live(s) + {id};
  }

  lemma RegisterKeeps(s: State, id: Id, email: string, hash: string, now: Time, ttl: Time, override: Option<int>)
    requires Inv(s) && id !in s.users
    ensures Inv(RegisterPending(s, id, email, hash, now, ttl, override).0)
  {
    ExpireKeeps(s, now, ttl);
    if RegisterPending(s, id, email, hash, now, ttl, override).1.Created? {
      EnrolKeeps(ExpirePending(s, now, ttl), id, User(email, hash, Pending, Member, now, now, None, None, None));
    }
  }

  lemma AdmitKeeps(s: State, id: Id, email: string, hash: string, role: Role, now: Time, ttl: Time)
    requires Inv(s) && id !in s.users
    ensures Inv(CreateVerified(s, id, email, hash, role, now, ttl).0)
  {
    ExpireKeeps(s, now, ttl);
    if CreateVerified(s, id, email, hash, role, now, ttl).1.Created? {
      EnrolKeeps(ExpirePending(s, now, ttl), id, User(email, hash, Active, role, now, now, Some(now), None, None));
    }
  }

  predicate SameAccounts(s: State, t: State) {
    && t.capacity == s.capacity && t.index == s.index && t.users.Keys == s.users.Keys
    && forall id :: id in s.users ==> t.users[id].email == s.users[id].email
                                      && (t.users[id].status.Deleted? <==> s.users[id].status.Deleted?)
  }

  lemma SameAccountsKeep(s: State, t: State)
    requires Inv(s) && SameAccounts(s, t)
    ensures Inv(t)
  {
    assert Live(t) == Live(s);
  }

  /** Tokens are issued, sessions are opened, used and closed: no account is written. */
  predicate NoAccountWritten(e: Event) {
    e.Issue? || e.Open? || e.Authenticate? || e.StoreCsrf? || e.CheckCsrf? || e.Logout? || e.RevokeUser?
  }

  lemma QuietStep(s: State, e: Event)
    requires NoAccountWritten(e)
    ensures Next(s, e).users == s.users && Next(s, e).index == s.index && Next(s, e).capacity == s.capacity
  {
  }

  /** One account written: its address stays, its status only moves forward. */
  predicate OneWritten(s: State, t: State) {
    && t.index == s.index && t.capacity == s.capacity
    && (t.users == s.users
        || exists id ::
             && id in s.users && id in t.users && t.users == s.users[id := t.users[id]]
             && Advances(s.users[id], t.users[id]))
  }

  predicate Advances(u: User, v: User) {
    && v.email == u.email && (v.status.Deleted? <==> u.status.Deleted?) && Rank(u.status) <= Rank(v.status)
    && (u.status.Disabled? ==> v.status.Disabled?)
  }

  lemma DisableWrites(s: State, id: Id, now: Time)
    ensures OneWritten(s, DisableUser(s, id, now).0)
  {
    var t := DisableUser(s, id, now).0;
    if id in s.users && id in t.users && t.users == s.users[id := t.users[id]] {
      assert Advances(s.users[id], t.users[id]) || t.users == s.users;
    }
  }

  lemma PasswordWrites(s: State, id: Id, hash: string, digest: string, now: Time, expiresAt: Time)
    ensures OneWritten(s, UpdatePasswordHash(s, id, hash, now).0)
    ensures OneWritten(s, ChangePassword(s, id, hash, digest, now, expiresAt).0)
  {
    if id in s.users {
      var u := s.users[id].(passwordHash := hash, updatedAt := now);
      assert Advances(s.users[id], u) && UpdatePasswordHash(s, id, hash, now).0.users == s.users[id := u];
      assert ChangePassword(s, id, hash, digest, now, expiresAt).0.users == s.users[id := u];
    }
  }

  lemma TokenWrites(s: State, digest: string, hash: string, now: Time)
    ensures OneWritten(s, ConsumeVerification(s, digest, now).0)
    ensures OneWritten(s, ConsumeReset(s, digest, hash, now).0)
  {
    if digest in s.tokens && s.tokens[digest].user in s.users {
      var id := s.tokens[digest].user;
      var v, r := ConsumeVerification(s, digest, now).0, ConsumeReset(s, digest, hash, now).0;
      assert v.users == s.users || (v.users == s.users[id := v.users[id]] && Advances(s.users[id], v.users[id]));
      assert r.users == s.users || (r.users == s.users[id := r.users[id]] && Advances(s.users[id], r.users[id]));
    }
  }

  lemma OthersWriteOne(s: State, e: Event)
    requires !e.Register? && !e.Admit?
    ensures OneWritten(s, Next(s, e))
  {
    if NoAccountWritten(e) {
      QuietStep(s, e);
    } else {
      match e
      case Disable(id, now) => DisableWrites(s, id, now);
      case Rehash(id, hash, now) => PasswordWrites(s, id, hash, "", now, now);
      case ChangeOwn(id, hash, digest, now, expiresAt) => PasswordWrites(s, id, hash, digest, now, expiresAt);
      case Verify(digest, now) => TokenWrites(s, digest, "", now);
      case Reset(digest, hash, now) => TokenWrites(s, digest, hash, now);
    }
  }

  lemma OneWrittenKeeps(s: State, t: State)
    requires OneWritten(s, t)
    ensures SameAccounts(s, t) && Forward(s, t)
  {
  }

  lemma StepKeeps(s: State, e: Event)
    requires Inv(s) && FreshId(s, e)
    ensures Inv(Next(s, e)) && Next(s, e).capacity == s.capacity
  {
    if e.Register? {
      RegisterKeeps(s, e.id, e.email, e.hash, e.now, e.ttl, e.override);
    } else if e.Admit? {
      AdmitKeeps(s, e.id, e.email, e.hash, e.role, e.now, e.ttl);
    } else {
      OthersWriteOne(s, e);
      OneWrittenKeeps(s, Next(s, e));
      SameAccountsKeep(s, Next(s, e));
    }
  }

  /** At most `capacity` accounts are not deleted, and the index is exact, at every point of every run. */
  lemma {:induction false} RunKeepsInv(ws: seq<State>, es: seq<Event>)
    requires Run(ws, es) && Inv(ws[0])
    ensures forall i :: 0 <= i < |ws| ==> Inv(ws[i]) && ws[i].capacity == ws[0].capacity
  {
    if |es| > 0 {
      var n := |es| - 1;
      assert Run(ws[..n + 1], es[..n]);
      RunKeepsInv(ws[..n + 1], es[..n]);
      assert Inv(ws[..n + 1][n]);
      StepKeeps(ws[n], es[n]);
    }
  }

  /** A registration is refused for capacity exactly when that many accounts are live after the expiry. */
  lemma RefusedIffFull(s: State, id: Id, email: string, hash: string, now: Time, ttl: Time, override: Option<int>)
    requires Inv(s) && id !in s.users
    ensures var t := ExpirePending(s, now, ttl);
      RegisterPending(s, id, email, hash, now, ttl, override).1.CapacityFull?
      <==> (override.Some? ==> override.value >= 1)
           && (forall x :: x in Live(t) ==> t.users[x].email != email)
           && |Live(t)| >= (if override.Some? && override.value < s.capacity then override.value else s.capacity)
  {
    ExpireKeeps(s, now, ttl);
    var t := ExpirePending(s, now, ttl);
    if email in t.index { assert t.index[email] in Live(t); }
  }

  // ---------------------------------------------------------------- accounts only move forward

  function Rank(s: Status): nat {
    match s case Pending => 0 case Active => 1 case Disabled => 2 case Deleted => 3
  }

  /** Status never goes back; a deleted account never changes status, a disabled one neither. */
  predicate Forward(s: State, t: State) {
    && s.users.Keys <= t.users.Keys
    && forall id :: id in s.users ==>
         && Rank(s.users[id].status) <= Rank(t.users[id].status)
         && (s.users[id].status.Disabled? ==> t.users[id].status.Disabled?)
  }

  lemma StepForward(s: State, e: Event)
    requires FreshId(s, e)
    ensures Forward(s, Next(s, e))
  {
    if !e.Register? && !e.Admit? {
      OthersWriteOne(s, e);
      OneWrittenKeeps(s, Next(s, e));
    }
  }

  lemma ForwardTrans(s: State, t: State, u: State)
    requires Forward(s, t) && Forward(t, u)
    ensures Forward(s, u)
  {
    forall id | id in s.users ensures Rank(s.users[id].status) <= Rank(u.users[id].status) { assert id in t.users; }
  }

  lemma RunStepForward(ws: seq<State>, es: seq<Event>, k: nat)
    requires Run(ws, es) && k < |es|
    ensures Forward(ws[k], ws[k + 1])
  {
    StepForward(ws[k], es[k]);
  }

  lemma {:induction false} ForwardChain(ws: seq<State>, i: nat, j: nat)
    requires i <= j < |ws| && forall k :: i <= k < j ==> Forward(ws[k], ws[k + 1])
    ensures Forward(ws[i], ws[j])
  {
    if i < j {
      ForwardChain(ws, i, j - 1);
      ForwardTrans(ws[i], ws[j - 1], ws[j]);
    }
  }

  lemma RunForward(ws: seq<State>, es: seq<Event>, i: nat, j: nat)
    requires Run(ws, es) && i <= j <= |es|
    ensures Forward(ws[i], ws[j])
  {
    forall k | i <= k < j ensures Forward(ws[k], ws[k + 1]) { RunStepForward(ws, es, k); }
    ForwardChain(ws, i, j);
  }

  /** Once disabled, an account never authenticates again, on any session, old or new. */
  lemma DisabledForever(ws: seq<State>, es: seq<Event>, i: nat, j: nat, id: Id, digest: string, now: Time)
    requires Run(ws, es) && i <= j <= |es|
    requires id in ws[i].users && ws[i].users[id].status.Disabled?
    ensures AuthContext(ws[j], digest, now).1 != Some(id)
  {
    RunForward(ws, es, i, j);
  }

  /** No account is verified twice, however its codes repeat. */
  lemma VerifiedOnce(ws: seq<State>, es: seq<Event>, i: nat, j: nat)
    requires Run(ws, es) && i < j < |es| && es[i].Verify? && es[j].Verify?
    ensures var (a, b) := (ConsumeVerification(ws[i], es[i].digest, es[i].now).1,
                           ConsumeVerification(ws[j], es[j].digest, es[j].now).1);
      a.Some? && b.Some? ==> a != b
  {
    RunForward(ws, es, i + 1, j);
  }

  // ---------------------------------------------------------------- tokens

  predicate Rivals(a: Token, b: Token) {
    Unspent(a) && Unspent(b) && a.user == b.user && a.purpose == b.purpose
  }

  predicate OnePerPurpose(s: State) {
    forall d, e :: d in s.tokens && e in s.tokens && Rivals(s.tokens[d], s.tokens[e]) ==> d == e
  }

  lemma {:induction false} OneLiveToken(ws: seq<State>, es: seq<Event>)
    requires Run(ws, es) && OnePerPurpose(ws[0])
    ensures OnePerPurpose(ws[|es|])
  {
    if |es| > 0 {
      var n := |es| - 1;
      assert Run(ws[..n + 1], es[..n]);
      OneLiveToken(ws[..n + 1], es[..n]);
      assert ws[n] == ws[..n + 1][n];
      TokensStep(ws[n], es[n]);
    }
  }

  /** Outside `Issue` the tokens only become spent. */
  predicate TokensShrink(s: State, t: State) {
    t.tokens.Keys == s.tokens.Keys
    && forall d :: d in s.tokens ==> t.tokens[d].user == s.tokens[d].user && t.tokens[d].purpose == s.tokens[d].purpose
                                     && (Unspent(t.tokens[d]) ==> Unspent(s.tokens[d]))
  }

  lemma IssueKeepsOne(s: State, user: Id, purpose: Purpose, digest: string, now: Time, expiresAt: Time)
    requires OnePerPurpose(s)
    ensures OnePerPurpose(ReplaceToken(s, user, purpose, digest, now, expiresAt))
  {
  }

  lemma ShrinkKeepsOne(s: State, t: State)
    requires TokensShrink(s, t) && OnePerPurpose(s)
    ensures OnePerPurpose(t)
  {
  }

  lemma UseShrinks(s: State, digest: string, hash: string, now: Time)
    ensures TokensShrink(s, ConsumeVerification(s, digest, now).0)
    ensures TokensShrink(s, ConsumeReset(s, digest, hash, now).0)
  {
  }

  lemma OthersKeepTokens(s: State, e: Event)
    requires !e.Issue? && !e.Verify? && !e.Reset?
    ensures Next(s, e).tokens == s.tokens
  {
  }

  lemma TokensStep(s: State, e: Event)
    ensures !e.Issue? ==> TokensShrink(s, Next(s, e))
    ensures OnePerPurpose(s) ==> OnePerPurpose(Next(s, e))
  {
    if e.Issue? {
      if OnePerPurpose(s) { IssueKeepsOne(s, e.user, e.purpose, e.digest, e.now, e.expiresAt); }
    } else {
      match e {
        case Verify(digest, now) => UseShrinks(s, digest, "", now);
        case Reset(digest, hash, now) => UseShrinks(s, digest, hash, now);
        case _ => OthersKeepTokens(s, e);
      }
      if OnePerPurpose(s) { ShrinkKeepsOne(s, Next(s, e)); }
    }
  }

  predicate Spent(s: State, digest: string) {
    digest in s.tokens && !Unspent(s.tokens[digest])
  }

  predicate IssuedBetween(es: seq<Event>, digest: string, i: nat, j: nat)
    requires j <= |es|
  {
    exists k :: i <= k < j && es[k].Issue? && es[k].digest == digest
  }

  lemma {:induction false} SpentChain(ws: seq<State>, i: nat, j: nat, digest: string)
    requires i <= j < |ws| && Spent(ws[i], digest)
    requires forall k :: i <= k < j && Spent(ws[k], digest) ==> Spent(ws[k + 1], digest)
    ensures Spent(ws[j], digest)
  {
    if i < j { SpentChain(ws, i, j - 1, digest); }
  }

  lemma SpentStays(ws: seq<State>, es: seq<Event>, i: nat, j: nat, digest: string)
    requires Run(ws, es) && i <= j <= |es| && Spent(ws[i], digest) && !IssuedBetween(es, digest, i, j)
    ensures Spent(ws[j], digest)
  {
    forall k | i <= k < j && Spent(ws[k], digest) ensures Spent(ws[k + 1], digest) { RunStepSpent(ws, es, k, digest); }
    SpentChain(ws, i, j, digest);
  }

  lemma SpentStep(s: State, e: Event, digest: string)
    requires Spent(s, digest) && !(e.Issue? && e.digest == digest)
    ensures Spent(Next(s, e), digest)
  {
    if !e.Issue? { TokensStep(s, e); }
  }

  lemma RunStepSpent(ws: seq<State>, es: seq<Event>, k: nat, digest: string)
    requires Run(ws, es) && k < |es| && Spent(ws[k], digest) && !(es[k].Issue? && es[k].digest == digest)
    ensures Spent(ws[k + 1], digest)
  {
    SpentStep(ws[k], es[k], digest);
  }

  function TokenUser(s: State, e: Event): Option<Id> {
    match e
    case Verify(digest, now) => ConsumeVerification(s, digest, now).1
    case Reset(digest, hash, now) => ConsumeReset(s, digest, hash, now).1
    case _ => None
  }

  /** A digest is accepted twice only if it was issued again in between. */
  lemma ConsumedOnce(ws: seq<State>, es: seq<Event>, i: nat, j: nat)
    requires Run(ws, es) && i < j < |es|
    requires es[i].Verify? || es[i].Reset?
    requires es[j].Verify? || es[j].Reset?
    requires es[i].digest == es[j].digest && TokenUser(ws[i], es[i]).Some? && TokenUser(ws[j], es[j]).Some?
    ensures IssuedBetween(es, es[i].digest, i + 1, j)
  {
    assert Spent(ws[i + 1], es[i].digest);
    if !IssuedBetween(es, es[i].digest, i + 1, j) { SpentStays(ws, es, i + 1, j, es[i].digest); }
  }

  // ---------------------------------------------------------------- sessions

  predicate Revoked(s: State, digest: string) {
    digest in s.sessions && s.sessions[digest].revokedAt.Some?
  }

  predicate Creates(e: Event, digest: string) {
    (e.Open? || e.ChangeOwn?) && e.digest == digest
  }

  lemma RevokedStep(s: State, e: Event, digest: string)
    requires Revoked(s, digest) && !Creates(e, digest)
    ensures Revoked(Next(s, e), digest)
  {
  }

  lemma {:induction false} RevokedStays(ws: seq<State>, es: seq<Event>, i: nat, j: nat, digest: string)
    requires Run(ws, es) && i <= j <= |es| && Revoked(ws[i], digest)
    requires forall k :: i <= k < j ==> !Creates(es[k], digest)
    ensures Revoked(ws[j], digest)
  {
    if i < j {
      RevokedStays(ws, es, i, j - 1, digest);
      RevokedStep(ws[j - 1], es[j - 1], digest);
    }
  }

  /** The account whose sessions an event closes. */
  function Closes(s: State, e: Event): Option<Id> {
    match e
    case Reset(digest, hash, now) => ConsumeReset(s, digest, hash, now).1
    case Disable(id, now) => if DisableUser(s, id, now).1.Some? then Some(id) else None
    case RevokeUser(id, _) => Some(id)
    case ChangeOwn(id, _, _, _, _) => if id in s.users then Some(id) else None
    case _ => None
  }

  lemma ClosesAll(s: State, e: Event, digest: string)
    requires digest in s.sessions && Closes(s, e) == Some(s.sessions[digest].user) && !Creates(e, digest)
    ensures Revoked(Next(s, e), digest)
  {
  }

  /**
   After a consumed password reset (or a disable, a revocation of all sessions, a change of
   password) no session the account had before ever authenticates again, unless its very
   digest is issued anew.
   */
  lemma OldSessionsStayClosed(ws: seq<State>, es: seq<Event>, i: nat, j: nat, digest: string, now: Time)
    requires Run(ws, es) && i < j <= |es|
    requires digest in ws[i].sessions && Closes(ws[i], es[i]) == Some(ws[i].sessions[digest].user)
    requires forall k :: i <= k < j ==> !Creates(es[k], digest)
    ensures AuthContext(ws[j], digest, now).1.None? && !SetCsrf(ws[j], digest, "", now).1
  {
    ClosesAll(ws[i], es[i], digest);
    RevokedStays(ws, es, i + 1, j, digest);
  }

  /** Whoever authenticates is an active account whose own session is open and current. */
  lemma ContextMeaning(s: State, digest: string, csrf: string, now: Time)
    ensures var (t, who) := AuthContext(s, digest, now);
      && (who.Some? <==> Authenticates(s, digest, now))
      && (who.Some? ==>
          who.value in s.users && s.users[who.value].status.Active? && t.sessions[digest].lastSeenAt == now)
      && AuthContext(t, digest, now) == (t, who)
      && (ValidateCsrf(SetCsrf(s, digest, csrf, now).0, digest, csrf, now).1 == who)
  {
    var t := AuthContext(s, digest, now).0;
    if Authenticates(s, digest, now) { assert Seen(t, digest, now).sessions == t.sessions; }
  }
}
