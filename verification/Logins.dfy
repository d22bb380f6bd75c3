/**
 `login` of app/auth/service.py: it reads the account, writes an upgraded hash and opens the
 session in sections of their own, so that other requests come in between. What a consumed
 password reset promises about the logins that are under way.
 */
module Logins {
  import opened Common
  import opened Accounts

  /** The password hasher: which password a stored hash accepts, and which hashes are due for an upgrade. */
  datatype Hasher = Hasher(accepts: (string, string) -> bool, outdated: string -> bool)

  /** What is left to do of a login that passed the password check; an upgraded hash is already computed. */
  datatype Phase = Upgrading(hash: string) | Opening | Left

  datatype Login = Login(user: Id, password: string, phase: Phase)

  datatype System = System(accounts: State, logins: map<nat, Login>)

  // ---------------------------------------------------------------- one login

  /** The account that the address and password belong to; None where the login is refused. */
  function Verified(h: Hasher, s: State, email: string, password: string): Option<Id> {
    if email !in s.index || s.index[email] !in s.users then None
    else
      var u := s.users[s.index[email]];
      if u.status.Active? && h.accepts(password, u.passwordHash) then Some(s.index[email]) else None
  }

  function Started(h: Hasher, s: State, id: Id, password: string, upgrade: string): Login
    requires id in s.users
  {
    Login(id, password, if h.outdated(s.users[id].passwordHash) then Upgrading(upgrade) else Opening)
  }

  datatype Act =
    | Read(login: nat, email: string, password: string, upgrade: string)
    | Upgrade(login: nat, now: Time)
    | Enter(login: nat, digest: string, now: Time, expiresAt: Time)
    | Foreign(event: Event)

  /** What an act does to the account store. */
  function Written(s: System, a: Act): State {
    match a
    case Read(_, _, _, _) => s.accounts
    case Upgrade(l, now) =>
      if l in s.logins && s.logins[l].phase.Upgrading?
      then Next(s.accounts, Rehash(s.logins[l].user, s.logins[l].phase.hash, now)) else s.accounts
    case Enter(l, digest, now, expiresAt) =>
      if l in s.logins then Next(s.accounts, Open(s.logins[l].user, digest, now, expiresAt)) else s.accounts
    case Foreign(e) => Next(s.accounts, e)
  }

  /** A refused login, and one whose account is missing when the hash is written, ends there. */
  function Moved(h: Hasher, s: System, a: Act): map<nat, Login> {
    match a
    case Read(l, email, password, upgrade) =>
      var who := Verified(h, s.accounts, email, password);
      if who.None? then s.logins else s.logins[l := Started(h, s.accounts, who.value, password, upgrade)]
    case Upgrade(l, _) =>
      if l !in s.logins then s.logins
      else s.logins[l := s.logins[l].(phase := if s.logins[l].user in s.accounts.users then Opening else Left)]
    case Enter(l, _, _, _) => if l in s.logins then s.logins[l := s.logins[l].(phase := Left)] else s.logins
    case Foreign(_) => s.logins
  }

  function Perform(h: Hasher, s: System, a: Act): System {
    System(Written(s, a), Moved(h, s, a))
  }

  /** Among the passwords `ps`, the hash accepts `password` and nothing else. */
  ghost predicate Encodes(h: Hasher, ps: set<string>, hash: string, password: string) {
    forall p :: p in ps ==> (h.accepts(p, hash) <==> p == password)
  }

  /** `ps` are the passwords people enter; logins upgrade and enter only as far as they got. */
  ghost predicate Allowed(h: Hasher, ps: set<string>, s: System, a: Act) {
    match a
    case Read(l, _, password, upgrade) => l !in s.logins && password in ps && Encodes(h, ps, upgrade, password)
    case Upgrade(l, _) => l in s.logins && s.logins[l].phase.Upgrading?
    case Enter(l, _, _, _) => l in s.logins && s.logins[l].phase.Opening?
    case Foreign(e) => FreshId(s.accounts, e) && !e.Rehash? && !e.Open?
  }

  ghost predicate Takes(h: Hasher, ps: set<string>, s: System, a: Act, t: System) {
    Allowed(h, ps, s, a) && t == Perform(h, s, a)
  }

  /** Any number of logins and other requests, in any order and with any clocks; a login may also stop anywhere. */
  ghost predicate Proceeds(h: Hasher, ps: set<string>, ws: seq<System>, acts: seq<Act>) {
    && |ws| == |acts| + 1
    && forall k :: 0 <= k < |acts| ==> Takes(h, ps, ws[k], acts[k], ws[k + 1])
  }

  /** A login with nobody in between. */
  function LoginAlone(h: Hasher, s: State, email: string, password: string, upgrade: string, digest: string, now: Time,
                      expiresAt: Time): (State, Option<Id>)
  {
    var who := Verified(h, s, email, password);
    if who.None? then (s, None)
    else
      var s1 := if h.outdated(s.users[who.value].passwordHash)
                then UpdatePasswordHash(s, who.value, upgrade, now).0 else s;
      (CreateSession(s1, who.value, digest, now, expiresAt), who)
  }

  function LoginActs(h: Hasher, s: State, l: nat, email: string, password: string, upgrade: string, digest: string,
                     now: Time, expiresAt: Time): seq<Act>
  {
    var who := Verified(h, s, email, password);
    var (read, enter) := (Read(l, email, password, upgrade), Enter(l, digest, now, expiresAt));
    if who.None? then [read]
    else if h.outdated(s.users[who.value].passwordHash) then [read, Upgrade(l, now), enter]
    else [read, enter]
  }

  function After(h: Hasher, s: System, acts: seq<Act>): System
    decreases |acts|
  {
    if acts == [] then s else After(h, Perform(h, s, acts[0]), acts[1..])
  }

  lemma AfterOne(h: Hasher, s: System, a: Act)
    ensures After(h, s, [a]) == Perform(h, s, a)
  {
    assert [a][1..] == [];
  }

  lemma AfterTwo(h: Hasher, s: System, a: Act, b: Act)
    ensures After(h, s, [a, b]) == Perform(h, Perform(h, s, a), b)
  {
    AfterOne(h, Perform(h, s, a), b);
    assert [a, b][1..] == [b];
  }

  lemma AfterThree(h: Hasher, s: System, a: Act, b: Act, c: Act)
    ensures After(h, s, [a, b, c]) == Perform(h, Perform(h, Perform(h, s, a), b), c)
  {
    AfterTwo(h, Perform(h, s, a), b, c);
    assert [a, b, c][1..] == [b, c];
  }

  lemma ReadAlone(h: Hasher, s: System, a: Act)
    requires a.Read?
    ensures var (who, t) := (Verified(h, s.accounts, a.email, a.password), Perform(h, s, a));
      t.accounts == s.accounts
      && (who.Some? ==>
          a.login in t.logins && t.logins[a.login] == Started(h, s.accounts, who.value, a.password, a.upgrade))
  {
  }

  lemma EnterAlone(h: Hasher, s: System, a: Act)
    requires a.Enter? && a.login in s.logins
    ensures Perform(h, s, a).accounts == CreateSession(s.accounts, s.logins[a.login].user, a.digest, a.now, a.expiresAt)
  {
  }

  lemma UpgradeAlone(h: Hasher, s: System, a: Act)
    requires a.Upgrade? && a.login in s.logins && s.logins[a.login].phase.Upgrading?
    ensures var (x, t) := (s.logins[a.login], Perform(h, s, a));
      t.accounts == UpdatePasswordHash(s.accounts, x.user, x.phase.hash, a.now).0
      && a.login in t.logins && t.logins[a.login].user == x.user
  {
  }

  /** The steps of a login, taken one after the other, are the login. */
  lemma LoginIsItsActs(h: Hasher, s: System, l: nat, email: string, password: string, upgrade: string, digest: string,
                       now: Time, expiresAt: Time)
    ensures After(h, s, LoginActs(h, s.accounts, l, email, password, upgrade, digest, now, expiresAt)).accounts
            == LoginAlone(h, s.accounts, email, password, upgrade, digest, now, expiresAt).0
  {
    var read, upgrading, enter := Read(l, email, password, upgrade), Upgrade(l, now), Enter(l, digest, now, expiresAt);
    var who := Verified(h, s.accounts, email, password);
    var t := Perform(h, s, read);
    ReadAlone(h, s, read);
    if who.None? {
      AfterOne(h, s, read);
    } else if h.outdated(s.accounts.users[who.value].passwordHash) {
      AfterThree(h, s, read, upgrading, enter);
      UpgradeAlone(h, t, upgrading);
      EnterAlone(h, Perform(h, t, upgrading), enter);
    } else {
      AfterTwo(h, s, read, enter);
      EnterAlone(h, t, enter);
    }
  }

  /**
   A login alone lets in exactly who knows the password of an active account. The session it
   opens authenticates until it expires, and an upgrade changes no password.
   */
  lemma LoginAloneMeaning(h: Hasher, ps: set<string>, s: State, email: string, password: string, upgrade: string,
                          digest: string, now: Time, expiresAt: Time, right: string)
    requires Inv(s) && password in ps && Encodes(h, ps, upgrade, password)
    requires email in s.index && Encodes(h, ps, s.users[s.index[email]].passwordHash, right)
    ensures var (t, who) := LoginAlone(h, s, email, password, upgrade, digest, now, expiresAt);
      && who == (if s.users[s.index[email]].status.Active? && password == right then Some(s.index[email]) else None)
      && Encodes(h, ps, t.users[s.index[email]].passwordHash, right)
      && (who.Some? ==> (AuthContext(t, digest, now).1 == who <==> expiresAt > now))
      && (who.None? ==> t == s)
  {
  }

  // ---------------------------------------------------------------- what a reset promises

  /** The account's password is replaced otherwise than by a login. */
  predicate SetsPassword(s: State, a: Act, user: Id) {
    a.Foreign? && match a.event
      case Reset(digest, hash, now) => ConsumeReset(s, digest, hash, now).1 == Some(user)
      case ChangeOwn(id, _, _, _, _) => id == user
      case _ => false
  }

  /** A login of the account that was under way in `before`, with another password, writes or opens. */
  predicate Late(before: map<nat, Login>, a: Act, user: Id, password: string) {
    (a.Upgrade? || a.Enter?) && a.login in before
    && before[a.login].user == user && before[a.login].password != password
  }

  /** The session opened by this act, if any, is opened with the right password. */
  predicate EntersWith(s: System, a: Act, user: Id, password: string) {
    a.Enter? && a.login in s.logins && s.logins[a.login].user == user ==> s.logins[a.login].password == password
  }

  /** The hash stored for the account accepts this password alone. */
  ghost predicate OnlyPassword(h: Hasher, ps: set<string>, s: State, user: Id, password: string) {
    user in s.users && Encodes(h, ps, s.users[user].passwordHash, password)
  }

  /** From state `i` on only this password opens sessions, or would do so in a new login. */
  ghost predicate ResetHolds(h: Hasher, ps: set<string>, ws: seq<System>, acts: seq<Act>, i: nat, user: Id,
                             password: string)
    requires |ws| == |acts| + 1
  {
    && (forall k :: i <= k < |acts| ==> EntersWith(ws[k], acts[k], user, password))
    && (forall k :: i <= k < |ws| ==> OnlyPassword(h, ps, ws[k].accounts, user, password))
  }

  predicate NoneLate(ws: seq<System>, acts: seq<Act>, i: nat, user: Id, password: string)
    requires i < |ws|
  {
    forall k :: i <= k < |acts| ==> !Late(ws[i].logins, acts[k], user, password)
  }

  /** Logins hold a password someone entered and, until they write it, a hash of it. */
  ghost predicate LoginsFine(h: Hasher, ps: set<string>, logins: map<nat, Login>) {
    forall l :: l in logins ==> LoginFine(h, ps, logins[l])
  }

  ghost predicate LoginFine(h: Hasher, ps: set<string>, x: Login) {
    x.password in ps && (x.phase.Upgrading? ==> Encodes(h, ps, x.phase.hash, x.password))
  }

  lemma StepLoginsFine(h: Hasher, ps: set<string>, s: System, a: Act)
    requires LoginsFine(h, ps, s.logins) && Allowed(h, ps, s, a)
    ensures LoginsFine(h, ps, Moved(h, s, a))
  {
  }

  /** Nobody forgets whose login it is. */
  predicate LoginsKept(before: map<nat, Login>, now: map<nat, Login>) {
    forall l :: l in before ==> l in now && now[l].user == before[l].user && now[l].password == before[l].password
  }

  lemma StepLoginsKept(h: Hasher, ps: set<string>, s: System, a: Act)
    requires Allowed(h, ps, s, a)
    ensures LoginsKept(s.logins, Moved(h, s, a))
  {
  }

  lemma RunStep(h: Hasher, ps: set<string>, ws: seq<System>, acts: seq<Act>, k: nat)
    requires Proceeds(h, ps, ws, acts) && k < |acts|
    ensures Takes(h, ps, ws[k], acts[k], ws[k + 1])
  {
  }

  /** The logins are fine and are those of `before`, gone further, and new ones. */
  ghost predicate LoginsOn(h: Hasher, ps: set<string>, before: map<nat, Login>, logins: map<nat, Login>) {
    LoginsFine(h, ps, logins) && LoginsKept(before, logins)
  }

  lemma StepLoginsOn(h: Hasher, ps: set<string>, before: map<nat, Login>, s: System, a: Act, t: System)
    requires LoginsOn(h, ps, before, s.logins) && Takes(h, ps, s, a, t)
    ensures LoginsOn(h, ps, before, t.logins)
  {
    StepLoginsFine(h, ps, s, a);
    StepLoginsKept(h, ps, s, a);
    KeptTrans(before, s.logins, t.logins);
  }

  lemma RunLogins(h: Hasher, ps: set<string>, ws: seq<System>, acts: seq<Act>, i: nat, k: nat)
    requires Proceeds(h, ps, ws, acts) && i <= k <= |acts| && LoginsFine(h, ps, ws[i].logins)
    ensures LoginsOn(h, ps, ws[i].logins, ws[k].logins)
  {
    var holds := (m: nat) => m < |ws| && LoginsOn(h, ps, ws[i].logins, ws[m].logins);
    forall m: nat | i <= m < k && holds(m) ensures holds(m + 1) {
      RunStep(h, ps, ws, acts, m);
      StepLoginsOn(h, ps, ws[i].logins, ws[m], acts[m], ws[m + 1]);
    }
    Chain(holds, i, k);
  }

  lemma KeptTrans(a: map<nat, Login>, b: map<nat, Login>, c: map<nat, Login>)
    requires LoginsKept(a, b) && LoginsKept(b, c)
    ensures LoginsKept(a, c)
  {
  }

  // ---------------------------------------------------------------- nothing late: the reset holds

  /** What holds after the reset while nothing was late; `before` are the logins that were under way then. */
  ghost predicate Held(h: Hasher, ps: set<string>, before: map<nat, Login>, s: System, user: Id, password: string) {
    && OnlyPassword(h, ps, s.accounts, user, password) && !s.accounts.users[user].status.Pending?
    && forall l :: l in s.logins && s.logins[l].user == user && s.logins[l].password != password ==> l in before
  }

  lemma ForeignKeepsHash(s: State, e: Event, user: Id)
    requires user in s.users && !s.users[user].status.Pending? && FreshId(s, e)
    requires !e.Rehash? && !SetsPassword(s, Foreign(e), user)
    ensures var t := Next(s, e);
      user in t.users && !t.users[user].status.Pending? && t.users[user].passwordHash == s.users[user].passwordHash
  {
    if e.Register? {
      var t := RegisterPending(s, e.id, e.email, e.hash, e.now, e.ttl, e.override).0;
      EnrolKeepsHash(s, t, e.now, e.ttl, e.id, user);
    } else if e.Admit? {
      var t := CreateVerified(s, e.id, e.email, e.hash, e.role, e.now, e.ttl).0;
      EnrolKeepsHash(s, t, e.now, e.ttl, e.id, user);
    } else {
      OtherKeepsHash(s, e, user);
    }
  }

  /** Expiry erases pending accounts only, and a new account is not this one. */
  lemma EnrolKeepsHash(s: State, t: State, now: Time, ttl: Time, id: Id, user: Id)
    requires user in s.users && !s.users[user].status.Pending? && id != user
    requires var s1 := ExpirePending(s, now, ttl);
      t == s || t == s1 || (id in t.users && t == Enrol(s1, id, t.users[id]))
    ensures user in t.users && t.users[user] == s.users[user]
  {
  }

  lemma OtherKeepsHash(s: State, e: Event, user: Id)
    requires user in s.users && !s.users[user].status.Pending? && !e.Register? && !e.Admit?
    requires !e.Rehash? && !SetsPassword(s, Foreign(e), user)
    ensures var t := Next(s, e);
      user in t.users && !t.users[user].status.Pending? && t.users[user].passwordHash == s.users[user].passwordHash
  {
    match e {
      case Disable(_, _) =>
      case Verify(_, _) =>
      case Reset(_, _, _) =>
      case ChangeOwn(_, _, _, _, _) =>
      case _ => QuietStep(s, e);
    }
  }

  lemma ReadFindsPassword(h: Hasher, ps: set<string>, s: State, email: string, entered: string, password: string)
    requires entered in ps && Verified(h, s, email, entered).Some?
    requires OnlyPassword(h, ps, s, Verified(h, s, email, entered).value, password)
    ensures entered == password
  {
  }

  lemma ReadKeepsHeld(h: Hasher, ps: set<string>, before: map<nat, Login>, s: System, a: Act, user: Id,
                      password: string)
    requires Held(h, ps, before, s, user, password) && a.Read? && Allowed(h, ps, s, a)
    ensures Held(h, ps, before, Perform(h, s, a), user, password)
  {
    var who := Verified(h, s.accounts, a.email, a.password);
    if who == Some(user) { ReadFindsPassword(h, ps, s.accounts, a.email, a.password, password); }
  }

  lemma UpgradeKeepsHeld(h: Hasher, ps: set<string>, before: map<nat, Login>, s: System, a: Act, user: Id,
                         password: string)
    requires Held(h, ps, before, s, user, password) && a.Upgrade? && Allowed(h, ps, s, a)
    requires LoginsFine(h, ps, s.logins) && LoginsKept(before, s.logins) && !Late(before, a, user, password)
    ensures Held(h, ps, before, Perform(h, s, a), user, password)
  {
    var x := s.logins[a.login];
    assert LoginFine(h, ps, x);
  }

  lemma StepKeepsHeld(h: Hasher, ps: set<string>, before: map<nat, Login>, s: System, a: Act, user: Id,
                      password: string)
    requires Held(h, ps, before, s, user, password) && Allowed(h, ps, s, a)
    requires LoginsFine(h, ps, s.logins) && LoginsKept(before, s.logins)
    requires !Late(before, a, user, password) && !SetsPassword(s.accounts, a, user)
    ensures Held(h, ps, before, Perform(h, s, a), user, password) && EntersWith(s, a, user, password)
  {
    match a
    case Read(_, _, _, _) => ReadKeepsHeld(h, ps, before, s, a, user, password);
    case Upgrade(_, _) => UpgradeKeepsHeld(h, ps, before, s, a, user, password);
    case Enter(_, _, _, _) =>
    case Foreign(e) => ForeignKeepsHash(s.accounts, e, user);
  }

  lemma RunStepHeld(h: Hasher, ps: set<string>, ws: seq<System>, acts: seq<Act>, i: nat, k: nat, user: Id,
                    password: string)
    requires Proceeds(h, ps, ws, acts) && i <= k < |acts| && LoginsFine(h, ps, ws[i].logins)
    requires Held(h, ps, ws[i].logins, ws[k], user, password) && NoneLate(ws, acts, i, user, password)
    requires !SetsPassword(ws[k].accounts, acts[k], user)
    ensures Held(h, ps, ws[i].logins, ws[k + 1], user, password) && EntersWith(ws[k], acts[k], user, password)
  {
    RunLogins(h, ps, ws, acts, i, k);
    RunStep(h, ps, ws, acts, k);
    StepKeepsHeld(h, ps, ws[i].logins, ws[k], acts[k], user, password);
  }

  lemma RunKeepsHeld(h: Hasher, ps: set<string>, ws: seq<System>, acts: seq<Act>, i: nat, k: nat, user: Id,
                     password: string)
    requires Proceeds(h, ps, ws, acts) && i <= k <= |acts| && LoginsFine(h, ps, ws[i].logins)
    requires Held(h, ps, ws[i].logins, ws[i], user, password) && NoneLate(ws, acts, i, user, password)
    requires forall m :: i <= m < |acts| ==> !SetsPassword(ws[m].accounts, acts[m], user)
    ensures Held(h, ps, ws[i].logins, ws[k], user, password)
  {
    var holds := (m: nat) => m < |ws| && Held(h, ps, ws[i].logins, ws[m], user, password);
    forall m: nat | i <= m < k && holds(m) ensures holds(m + 1) {
      RunStepHeld(h, ps, ws, acts, i, m, user, password);
    }
    Chain(holds, i, k);
  }

  // ---------------------------------------------------------------- something late: it does not

  /** A late login either enters with the other password, or makes it the stored one. */
  lemma LateBreaks(h: Hasher, ps: set<string>, before: map<nat, Login>, s: System, a: Act, user: Id, password: string)
    requires Allowed(h, ps, s, a) && LoginsFine(h, ps, s.logins) && LoginsKept(before, s.logins)
    requires Late(before, a, user, password) && user in s.accounts.users
    ensures !EntersWith(s, a, user, password) || !OnlyPassword(h, ps, Perform(h, s, a).accounts, user, password)
  {
    var x := s.logins[a.login];
    assert LoginFine(h, ps, x);
    if a.Upgrade? { assert Perform(h, s, a).accounts.users[user].passwordHash == x.phase.hash; }
  }

  predicate ResetDone(s: State, a: Act, user: Id) {
    a.Foreign? && a.event.Reset? && ConsumeReset(s, a.event.digest, a.event.hash, a.event.now).1 == Some(user)
  }

  lemma ResetIsHeld(h: Hasher, ps: set<string>, s: System, a: Act, user: Id, password: string)
    requires ResetDone(s.accounts, a, user) && Encodes(h, ps, a.event.hash, password)
    ensures var t := Perform(h, s, a); t.logins == s.logins && Held(h, ps, t.logins, t, user, password)
  {
  }

  /**
   After a consumed reset the new password alone opens sessions of the account, and alone
   would pass a new login, if and only if no login that read the account before, with another
   password, writes its upgraded hash or opens its session after it.
   */
  lemma ResetHoldsIff(h: Hasher, ps: set<string>, ws: seq<System>, acts: seq<Act>, r: nat, user: Id, password: string)
    requires Proceeds(h, ps, ws, acts) && LoginsFine(h, ps, ws[0].logins) && r < |acts|
    requires ResetDone(ws[r].accounts, acts[r], user) && Encodes(h, ps, acts[r].event.hash, password)
    requires forall k :: r < k < |acts| ==> !SetsPassword(ws[k].accounts, acts[k], user)
    ensures ResetHolds(h, ps, ws, acts, r + 1, user, password) <==> NoneLate(ws, acts, r + 1, user, password)
  {
    RunLogins(h, ps, ws, acts, 0, r);
    RunLogins(h, ps, ws, acts, 0, r + 1);
    RunStep(h, ps, ws, acts, r);
    ResetIsHeld(h, ps, ws[r], acts[r], user, password);
    if NoneLate(ws, acts, r + 1, user, password) {
      NoneLateHolds(h, ps, ws, acts, r + 1, user, password);
    } else {
      var k :| r + 1 <= k < |acts| && Late(ws[r + 1].logins, acts[k], user, password);
      LateFails(h, ps, ws, acts, r + 1, k, user, password);
    }
  }

  lemma NoneLateHolds(h: Hasher, ps: set<string>, ws: seq<System>, acts: seq<Act>, i: nat, user: Id, password: string)
    requires Proceeds(h, ps, ws, acts) && i <= |acts| && LoginsFine(h, ps, ws[i].logins)
    requires Held(h, ps, ws[i].logins, ws[i], user, password) && NoneLate(ws, acts, i, user, password)
    requires forall m :: i <= m < |acts| ==> !SetsPassword(ws[m].accounts, acts[m], user)
    ensures ResetHolds(h, ps, ws, acts, i, user, password)
  {
    forall k | i <= k < |ws|
      ensures OnlyPassword(h, ps, ws[k].accounts, user, password)
      ensures k < |acts| ==> EntersWith(ws[k], acts[k], user, password)
    {
      RunKeepsHeld(h, ps, ws, acts, i, k, user, password);
      if k < |acts| { RunStepHeld(h, ps, ws, acts, i, k, user, password); }
    }
  }

  lemma LateFails(h: Hasher, ps: set<string>, ws: seq<System>, acts: seq<Act>, i: nat, k: nat, user: Id,
                  password: string)
    requires Proceeds(h, ps, ws, acts) && i <= k < |acts| && LoginsFine(h, ps, ws[i].logins)
    requires Late(ws[i].logins, acts[k], user, password)
    ensures !ResetHolds(h, ps, ws, acts, i, user, password)
  {
    if ResetHolds(h, ps, ws, acts, i, user, password) {
      RunLogins(h, ps, ws, acts, i, k);
      RunStep(h, ps, ws, acts, k);
      assert OnlyPassword(h, ps, ws[k].accounts, user, password);
      LateBreaks(h, ps, ws[i].logins, ws[k], acts[k], user, password);
    }
  }

  // ---------------------------------------------------------------- no login under way: the reset holds

  predicate Over(logins: map<nat, Login>, l: nat) {
    l in logins && logins[l].phase.Left?
  }

  lemma StepOver(h: Hasher, ps: set<string>, s: System, a: Act, t: System, l: nat)
    requires Over(s.logins, l) && Takes(h, ps, s, a, t)
    ensures Over(t.logins, l)
  {
  }

  lemma OverStays(h: Hasher, ps: set<string>, ws: seq<System>, acts: seq<Act>, i: nat, k: nat, l: nat)
    requires Proceeds(h, ps, ws, acts) && i <= k <= |acts| && Over(ws[i].logins, l)
    ensures Over(ws[k].logins, l)
  {
    var holds := (m: nat) => m < |ws| && Over(ws[m].logins, l);
    forall m: nat | i <= m < k && holds(m) ensures holds(m + 1) {
      RunStep(h, ps, ws, acts, m);
      StepOver(h, ps, ws[m], acts[m], ws[m + 1], l);
    }
    Chain(holds, i, k);
  }

  /** A login writes its hash at most once, and then opens its session, once; it ends where its account is gone. */
  lemma LoginsMoveOn(h: Hasher, ps: set<string>, ws: seq<System>, acts: seq<Act>, i: nat, j: nat)
    requires Proceeds(h, ps, ws, acts) && i < j < |acts|
    ensures acts[i].Enter? && (acts[j].Enter? || acts[j].Upgrade?) ==> acts[i].login != acts[j].login
    ensures acts[i].Upgrade? ==>
      acts[i].login in ws[i + 1].logins
      && ws[i + 1].logins[acts[i].login].phase ==
         if ws[i].logins[acts[i].login].user in ws[i].accounts.users then Opening else Left
  {
    RunStep(h, ps, ws, acts, i);
    RunStep(h, ps, ws, acts, j);
    if acts[i].Enter? { OverStays(h, ps, ws, acts, i + 1, j, acts[i].login); }
  }

  /** If every login was through when the reset was consumed, the reset holds, whatever comes after it. */
  lemma SettledLoginsKeepReset(h: Hasher, ps: set<string>, ws: seq<System>, acts: seq<Act>, r: nat, user: Id,
                               password: string)
    requires Proceeds(h, ps, ws, acts) && LoginsFine(h, ps, ws[0].logins) && r < |acts|
    requires ResetDone(ws[r].accounts, acts[r], user) && Encodes(h, ps, acts[r].event.hash, password)
    requires forall k :: r < k < |acts| ==> !SetsPassword(ws[k].accounts, acts[k], user)
    requires forall l :: l in ws[r].logins ==> Over(ws[r].logins, l)
    ensures ResetHolds(h, ps, ws, acts, r + 1, user, password)
  {
    RunStep(h, ps, ws, acts, r);
    forall k | r + 1 <= k < |acts| ensures !Late(ws[r + 1].logins, acts[k], user, password) {
      RunStep(h, ps, ws, acts, k);
      if Late(ws[r + 1].logins, acts[k], user, password) { OverStays(h, ps, ws, acts, r, k, acts[k].login); }
    }
    ResetHoldsIff(h, ps, ws, acts, r, user, password);
  }

  // ---------------------------------------------------------------- who authenticates after a reset

  /** The session, if it is the account's at all, is closed. */
  predicate Barred(s: State, digest: string, user: Id) {
    digest in s.sessions && s.sessions[digest].user == user ==> s.sessions[digest].revokedAt.Some?
  }

  predicate OpensFor(s: System, a: Act, digest: string, user: Id) {
    a.Enter? && a.digest == digest && a.login in s.logins && s.logins[a.login].user == user
  }

  lemma ResetBars(h: Hasher, s: System, a: Act, user: Id, digest: string)
    requires ResetDone(s.accounts, a, user)
    ensures Barred(Perform(h, s, a).accounts, digest, user)
  {
  }

  lemma ForeignKeepsBarred(s: State, e: Event, digest: string, user: Id)
    requires Barred(s, digest, user) && !e.Open? && !SetsPassword(s, Foreign(e), user)
    ensures Barred(Next(s, e), digest, user)
  {
  }

  lemma StepKeepsBarred(h: Hasher, ps: set<string>, s: System, a: Act, digest: string, user: Id)
    requires Barred(s.accounts, digest, user) && Allowed(h, ps, s, a)
    requires !SetsPassword(s.accounts, a, user) && !OpensFor(s, a, digest, user)
    ensures Barred(Perform(h, s, a).accounts, digest, user)
  {
    if a.Foreign? { ForeignKeepsBarred(s.accounts, a.event, digest, user); }
  }

  /** A session that is not barred was opened since. */
  lemma OpenedSince(h: Hasher, ps: set<string>, ws: seq<System>, acts: seq<Act>, i: nat, j: nat, digest: string,
                    user: Id) returns (k: nat)
    requires Proceeds(h, ps, ws, acts) && i <= j <= |acts| && Barred(ws[i].accounts, digest, user)
    requires forall m :: i <= m < |acts| ==> !SetsPassword(ws[m].accounts, acts[m], user)
    requires !Barred(ws[j].accounts, digest, user)
    ensures i <= k < j && OpensFor(ws[k], acts[k], digest, user)
  {
    k := BreakingStep((m: nat) => m < |ws| && Barred(ws[m].accounts, digest, user), i, j);
    RunStep(h, ps, ws, acts, k);
    if !OpensFor(ws[k], acts[k], digest, user) { StepKeepsBarred(h, ps, ws[k], acts[k], digest, user); }
  }

  /**
   After a consumed reset, while no login is late, whoever authenticates as the account does so
   on a session that a login opened after the reset with the new password.
   */
  lemma OnlyNewPasswordGetsIn(h: Hasher, ps: set<string>, ws: seq<System>, acts: seq<Act>, r: nat, user: Id,
                              password: string, digest: string, now: Time) returns (k: nat)
    requires Proceeds(h, ps, ws, acts) && LoginsFine(h, ps, ws[0].logins) && r < |acts|
    requires ResetDone(ws[r].accounts, acts[r], user) && Encodes(h, ps, acts[r].event.hash, password)
    requires forall k :: r < k < |acts| ==> !SetsPassword(ws[k].accounts, acts[k], user)
    requires NoneLate(ws, acts, r + 1, user, password)
    requires AuthContext(ws[|acts|].accounts, digest, now).1 == Some(user)
    ensures r < k < |acts| && OpensFor(ws[k], acts[k], digest, user)
    ensures ws[k].logins[acts[k].login].password == password
  {
    RunStep(h, ps, ws, acts, r);
    ResetBars(h, ws[r], acts[r], user, digest);
    k := OpenedSince(h, ps, ws, acts, r + 1, |acts|, digest, user);
    ResetHoldsIff(h, ps, ws, acts, r, user, password);
    assert EntersWith(ws[k], acts[k], user, password);
  }

  // ---------------------------------------------------------------- a run with a late login

  lemma FiveActs(h: Hasher, ps: set<string>, ws: seq<System>, acts: seq<Act>)
    requires |ws| == 6 && |acts| == 5
    requires Takes(h, ps, ws[0], acts[0], ws[1]) && Takes(h, ps, ws[1], acts[1], ws[2])
             && Takes(h, ps, ws[2], acts[2], ws[3])
    requires Takes(h, ps, ws[3], acts[3], ws[4]) && Takes(h, ps, ws[4], acts[4], ws[5])
    ensures Proceeds(h, ps, ws, acts)
  {
  }

  /** An active account of this address, whose stored hash is this one. */
  predicate Listed(s: State, email: string, user: Id, hash: string) {
    && email in s.index && s.index[email] == user && user in s.users
    && s.users[user].status.Active? && s.users[user].passwordHash == hash
  }

  predicate ResetReady(s: State, token: string, user: Id, now: Time) {
    Usable(s, token, PasswordReset, now) && s.tokens[token].user == user
  }

  lemma ReadStarts(h: Hasher, s: System, email: string, user: Id, hash: string, a: Act)
    requires Listed(s.accounts, email, user, hash) && a.Read? && a.email == email && h.accepts(a.password, hash)
    ensures var t := Perform(h, s, a);
      t.accounts == s.accounts
      && t.logins == s.logins[a.login := Login(user, a.password,
                                               if h.outdated(hash) then Upgrading(a.upgrade) else Opening)]
  {
  }

  lemma ResetSets(h: Hasher, s: System, email: string, user: Id, hash: string, token: string, newHash: string,
                  now: Time)
    requires Listed(s.accounts, email, user, hash) && ResetReady(s.accounts, token, user, now)
    ensures var (a, t) := (Foreign(Reset(token, newHash, now)), Perform(h, s, Foreign(Reset(token, newHash, now))));
      ResetDone(s.accounts, a, user) && t.logins == s.logins && Listed(t.accounts, email, user, newHash)
  {
  }

  lemma UpgradeSets(h: Hasher, s: System, email: string, user: Id, hash: string, l: nat, now: Time)
    requires Listed(s.accounts, email, user, hash) && l in s.logins && s.logins[l].user == user
             && s.logins[l].phase.Upgrading?
    ensures var t := Perform(h, s, Upgrade(l, now));
      Listed(t.accounts, email, user, s.logins[l].phase.hash)
        && t.logins == s.logins[l := s.logins[l].(phase := Opening)]
  {
  }

  lemma EnterAuthenticates(h: Hasher, s: System, email: string, user: Id, hash: string, a: Act, now: Time)
    requires Listed(s.accounts, email, user, hash) && a.Enter? && a.login in s.logins && s.logins[a.login].user == user
    requires now < a.expiresAt
    ensures AuthContext(Perform(h, s, a).accounts, a.digest, now).1 == Some(user)
    ensures Listed(Perform(h, s, a).accounts, email, user, hash)
  {
  }

  /**
   Wherever an outdated hash and a reset token are in store, a login with the old password that
   read before the reset and writes after it undoes the reset: a login started after the reset
   gets in with the old password, and the new one is refused.
   */
  lemma OldPasswordReturns(h: Hasher, ps: set<string>, s: System, email: string, user: Id, hash: string, was: string,
                           chosen: string, token: string, upgrade: string, newHash: string, digest: string, l: nat,
                           at: Time)
    returns (ws: seq<System>, acts: seq<Act>)
    requires Listed(s.accounts, email, user, hash) && ResetReady(s.accounts, token, user, at)
    requires was in ps && chosen in ps && was != chosen && l !in s.logins && l + 1 !in s.logins
    requires h.accepts(was, hash) && h.outdated(hash) && !h.outdated(upgrade)
    requires Encodes(h, ps, upgrade, was) && Encodes(h, ps, newHash, chosen)
    ensures Proceeds(h, ps, ws, acts) && ws[0] == s && |acts| == 5
    ensures ResetDone(ws[1].accounts, acts[1], user) && acts[1].event.hash == newHash
    ensures acts[3] == Read(l + 1, email, was, upgrade) && acts[4].Enter? && acts[4].login == l + 1
            && acts[4].digest == digest
    ensures AuthContext(ws[5].accounts, digest, at).1 == Some(user)
    ensures Verified(h, ws[5].accounts, email, chosen) == None && Verified(h, ws[5].accounts, email, was) == Some(user)
  {
    var read, reset := Read(l, email, was, upgrade), Foreign(Reset(token, newHash, at));
    var again, enter := Read(l + 1, email, was, upgrade), Enter(l + 1, digest, at, at + 1);
    var s1, s2, s3 := LateUpgrade(h, s, email, user, hash, token, newHash, read, at);
    assert s3.logins == s.logins[l := Login(user, was, Opening)];
    var s4, s5 := EntersAgain(h, s3, email, user, upgrade, again, enter, at);
    ws, acts := [s, s1, s2, s3, s4, s5], [read, reset, Upgrade(l, at), again, enter];
    FiveActs(h, ps, ws, acts);
  }

  /** Read, reset, upgrade: the stored hash is the one computed before the reset. */
  lemma LateUpgrade(h: Hasher, s: System, email: string, user: Id, hash: string, token: string, newHash: string,
                    read: Act, at: Time)
    returns (s1: System, s2: System, s3: System)
    requires Listed(s.accounts, email, user, hash) && ResetReady(s.accounts, token, user, at)
    requires read.Read? && read.email == email && h.accepts(read.password, hash) && h.outdated(hash)
    ensures s1 == Perform(h, s, read) && s2 == Perform(h, s1, Foreign(Reset(token, newHash, at)))
    ensures s3 == Perform(h, s2, Upgrade(read.login, at))
            && ResetDone(s1.accounts, Foreign(Reset(token, newHash, at)), user)
    ensures s2.logins == s1.logins == s.logins[read.login := Login(user, read.password, Upgrading(read.upgrade))]
    ensures Listed(s3.accounts, email, user, read.upgrade)
    ensures s3.logins == s.logins[read.login := Login(user, read.password, Opening)]
  {
    ReadStarts(h, s, email, user, hash, read);
    s1 := Perform(h, s, read);
    ResetSets(h, s1, email, user, hash, token, newHash, at);
    s2 := Perform(h, s1, Foreign(Reset(token, newHash, at)));
    UpgradeSets(h, s2, email, user, newHash, read.login, at);
    s3 := Perform(h, s2, Upgrade(read.login, at));
  }

  lemma EntersAgain(h: Hasher, s: System, email: string, user: Id, hash: string, read: Act, enter: Act, at: Time)
    returns (s1: System, s2: System)
    requires Listed(s.accounts, email, user, hash) && !h.outdated(hash)
    requires read.Read? && read.email == email && h.accepts(read.password, hash)
    requires enter.Enter? && enter.login == read.login && at < enter.expiresAt
    ensures s1 == Perform(h, s, read) && s2 == Perform(h, s1, enter)
    ensures s1.accounts == s.accounts && enter.login in s1.logins && s1.logins[enter.login].phase.Opening?
    ensures Listed(s2.accounts, email, user, hash) && AuthContext(s2.accounts, enter.digest, at).1 == Some(user)
  {
    ReadStarts(h, s, email, user, hash, read);
    s1 := Perform(h, s, read);
    EnterAuthenticates(h, s1, email, user, hash, enter, at);
    s2 := Perform(h, s1, enter);
  }

  /** Such a state is reached from an empty store: an account is created, a reset is asked for. */
  lemma OutdatedIsReachable(h: Hasher, ps: set<string>, email: string, hash: string, token: string, at: Time, ttl: Time)
    returns (ws: seq<System>, acts: seq<Act>)
    ensures Proceeds(h, ps, ws, acts) && |acts| == 2 && ws[0] == System(Initial(1), map[])
    ensures Listed(ws[2].accounts, email, 0, hash) && ResetReady(ws[2].accounts, token, 0, at) && ws[2].logins == map[]
  {
    var s := System(Initial(1), map[]);
    var admit, issue := Foreign(Admit(0, email, hash, Member, at, ttl)),
        Foreign(Issue(0, PasswordReset, token, at, at + 1));
    var s1 := Perform(h, s, admit);
    assert ExpirePending(s.accounts, at, ttl) == s.accounts;
    assert Occupying(s.accounts, at, ttl) == {};
    ws, acts := [s, s1, Perform(h, s1, issue)], [admit, issue];
  }

  /** A hasher with two generations of hashes is all that such a run needs. */
  lemma SomeHasher(was: string, chosen: string) returns (h: Hasher, hash: string, upgrade: string, newHash: string)
    requires was != chosen
    ensures h.accepts(was, hash) && h.outdated(hash) && !h.outdated(upgrade) && !h.outdated(newHash)
    ensures Encodes(h, {was, chosen}, upgrade, was) && Encodes(h, {was, chosen}, newHash, chosen)
  {
    h := Hasher((p: string, x: string) => |x| > 0 && x[1..] == p, (x: string) => |x| > 0 && x[0] == '1');
    hash, upgrade, newHash := "1" + was, "2" + was, "2" + chosen;
    assert hash[1..] == was && upgrade[1..] == was && newHash[1..] == chosen;
  }
}
