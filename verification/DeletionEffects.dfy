/**
 What may happen to a session, an outbox row and an object of the deletion protocol: for each
 change the events that make it, and nobody else's.
 */
module DeletionEffects {
  import opened Common
  import opened Deletion

  // ---------------------------------------------------------------- sessions

  predicate Alive(db: Db, id: Id) {
    id in db.sessions && db.sessions[id].deletedAt.None?
  }

  predicate Tombstoned(db: Db, id: Id, at: Time) {
    id in db.sessions && db.sessions[id].deletedAt == Some(at)
  }

  /** A user of this session asks for its deletion for the first time. */
  predicate OwnerBegins(db: Db, e: Event, id: Id) {
    e.Begin? && e.id == id && id in db.sessions && e.owner == db.sessions[id].owner && id !in db.outbox
  }

  /** A live session ends by a job that drops it or by its own owner's request, and by nothing else. */
  lemma LiveEndsIff(c: Names, s: System, e: Event, id: Id)
    requires Alive(s.world.db, id)
    ensures !Alive(Next(c, s, e).world.db, id) <==> (e.Drop? && id in e.ids) || OwnerBegins(s.world.db, e, id)
    ensures Alive(Next(c, s, e).world.db, id) ==>
              Next(c, s, e).world.db.sessions[id] == s.world.db.sessions[id]
  {
  }

  /** What the owner's request leaves: the tombstone, an open outbox row of the same instant, and a worker on it. */
  lemma OwnerTombstones(c: Names, s: System, e: Event, id: Id)
    requires Alive(s.world.db, id) && OwnerBegins(s.world.db, e, id)
    ensures var t := Next(c, s, e);
      && t.world.db.sessions == s.world.db.sessions[id := s.world.db.sessions[id].(deletedAt := Some(e.now))]
      && t.world.db.outbox == s.world.db.outbox[id := OutboxRow(e.now, None, None, e.now, None)]
      && WorkerAt(t, e.w) == Started(Intent(id, e.now, None, None)) && t.world.objects == s.world.objects
  {
  }

  /** Anybody else's request changes nothing, tombstoned or not, and leaves its worker idle. */
  lemma StrangerChangesNothing(c: Names, s: System, w: nat, id: Id, owner: Id, now: Time)
    requires id in s.world.db.sessions ==> s.world.db.sessions[id].owner != owner
    ensures var t := Next(c, s, Begin(w, id, owner, now));
      t.world == s.world && WorkerAt(t, w) == Idle && forall n: nat :: n != w ==> WorkerAt(t, n) == WorkerAt(s, n)
  {
  }

  /** The owner's second request changes no row: it takes up the first one where it stands. */
  lemma SecondRequestResumes(c: Names, s: System, w: nat, id: Id, at: Time, now: Time)
    requires Tombstoned(s.world.db, id, at) && id in s.world.db.outbox
    ensures var (t, row) := (Next(c, s, Begin(w, id, s.world.db.sessions[id].owner, now)), s.world.db.outbox[id]);
      t.world == s.world && WorkerAt(t, w) == Started(Intent(id, row.deletedAt, row.uploadedAt, row.completedAt))
  {
  }

  /** In every run, a session that stops being live is dropped by a job, or tombstoned by its owner. */
  lemma LiveEndsInRuns(c: Names, es: seq<Event>, e: Event, id: Id)
    requires Alive(Run(c, es).world.db, id) && !Alive(Run(c, es + [e]).world.db, id)
    ensures (e.Drop? && id in e.ids) || (e.Begin? && e.id == id && e.owner == Run(c, es).world.db.sessions[id].owner)
  {
    assert (es + [e])[..|es|] == es;
    LiveEndsIff(c, Run(c, es), e, id);
  }

  /** A session comes into being live, by its creation alone, with the owner and the expiry given. */
  lemma SessionArisesIff(c: Names, s: System, e: Event, id: Id)
    requires id !in s.world.db.sessions
    ensures var db := Next(c, s, e).world.db;
      && (id in db.sessions <==> e.Create? && e.id == id)
      && (id in db.sessions ==> db.sessions[id] == SessionRow(e.owner, e.expiresAt, None))
  {
  }

  /** The worker holds an uploaded intent of this row, and the row is still as it was when it was read. */
  predicate CompletesNow(s: System, e: Event, id: Id) {
    && e.Complete? && WorkerAt(s, e.w).Ready? && WorkerAt(s, e.w).intent.sessionId == id && id in s.world.db.outbox
    && var row := s.world.db.outbox[id];
       row.deletedAt == WorkerAt(s, e.w).intent.deletedAt && row.uploadedAt.Some? && row.completedAt.None?
       && e.now >= row.deletedAt
  }

  /** A tombstoned session goes exactly when its own open row is completed behind an upload mark. */
  lemma TombstoneEndsIff(c: Names, dom: Intents, s: System, e: Event, id: Id, at: Time)
    requires Steady(c, dom, s.world) && Tombstoned(s.world.db, id, at)
    ensures !Tombstoned(Next(c, s, e).world.db, id, at) <==> CompletesNow(s, e, id)
    ensures Tombstoned(Next(c, s, e).world.db, id, at) ==>
              Next(c, s, e).world.db.sessions[id] == s.world.db.sessions[id]
    ensures CompletesNow(s, e, id) ==> Next(c, s, e).world.db.sessions == s.world.db.sessions - {id}
  {
    SteadyRow(c, dom, s.world, id, at);
    if e.Complete? && WorkerAt(s, e.w).Ready? {
      CompletionCases(c, s, e, id);
    } else if e.Complete? {
      NotReady(c, s, e);
    } else {
      OnlyCompletionRemoves(c, s, e, id, at);
    }
  }

  lemma SteadyRow(c: Names, dom: Intents, w: World, id: Id, at: Time)
    requires Steady(c, dom, w) && Tombstoned(w.db, id, at)
    ensures id in w.db.outbox && RowAllowed(w.db.outbox[id])
    ensures w.db.outbox[id].deletedAt == at && w.db.outbox[id].completedAt.None?
  {
  }

  lemma NotReady(c: Names, s: System, e: Event)
    requires e.Complete? && !WorkerAt(s, e.w).Ready?
    ensures Next(c, s, e) == s
  {
  }

  lemma CompletionCases(c: Names, s: System, e: Event, id: Id)
    requires e.Complete? && WorkerAt(s, e.w).Ready? && id in s.world.db.sessions && id in s.world.db.outbox
    requires s.world.db.sessions[id].deletedAt == Some(s.world.db.outbox[id].deletedAt)
    requires RowAllowed(s.world.db.outbox[id]) && s.world.db.outbox[id].completedAt.None?
    ensures id !in Next(c, s, e).world.db.sessions <==> CompletesNow(s, e, id)
    ensures id in Next(c, s, e).world.db.sessions ==>
              Next(c, s, e).world.db.sessions[id] == s.world.db.sessions[id]
    ensures CompletesNow(s, e, id) ==> Next(c, s, e).world.db.sessions == s.world.db.sessions - {id}
  {
  }

  // ---------------------------------------------------------------- outbox rows

  /** The worker has uploaded the manifest of this row. */
  predicate MarksNow(s: System, e: Event, id: Id) {
    && e.Mark? && WorkerAt(s, e.w).Stored? && WorkerAt(s, e.w).intent.sessionId == id && id in s.world.db.outbox
    && var row := s.world.db.outbox[id];
       row.deletedAt == WorkerAt(s, e.w).intent.deletedAt && row.uploadedAt.None? && row.completedAt.None?
       && e.now >= row.deletedAt
  }

  /** The failure of a worker on this session is recorded while the row is open. */
  predicate RecordsNow(s: System, e: Event, id: Id) {
    && e.Fail? && e.recorded && !WorkerAt(s, e.w).Idle? && WorkerAt(s, e.w).intent.sessionId == id
    && id in s.world.db.outbox && s.world.db.outbox[id].completedAt.None?
  }

  /** Every change of a row: marked, completed, a failure recorded, retired after completion; nothing else. */
  lemma RowChanges(c: Names, s: System, e: Event, id: Id)
    requires id in s.world.db.outbox && RowAllowed(s.world.db.outbox[id])
    ensures var (db, row) := (Next(c, s, e).world.db, s.world.db.outbox[id]);
      && (id !in db.outbox <==> e.Retire? && id in e.ids && row.completedAt.Some?)
      && (MarksNow(s, e, id) ==> db.outbox[id] == OutboxRow(row.deletedAt, Some(e.now), row.completedAt, e.now, None))
      && (CompletesNow(s, e, id) ==>
            db.outbox[id] == OutboxRow(row.deletedAt, row.uploadedAt, Some(e.now), e.now, None))
      && (RecordsNow(s, e, id) ==>
            db.outbox[id] == OutboxRow(row.deletedAt, row.uploadedAt, row.completedAt, e.now, Some(e.category)))
      && (id in db.outbox && !MarksNow(s, e, id) && !CompletesNow(s, e, id) && !RecordsNow(s, e, id) ==>
            db.outbox[id] == row)
  {
    if e.Mark? { MarkCases(c, s, e, id); }
  }

  lemma MarkCases(c: Names, s: System, e: Event, id: Id)
    requires e.Mark? && id in s.world.db.outbox && RowAllowed(s.world.db.outbox[id])
    ensures var (db, row) := (Next(c, s, e).world.db, s.world.db.outbox[id]);
      && id in db.outbox
      && (MarksNow(s, e, id) ==> db.outbox[id] == OutboxRow(row.deletedAt, Some(e.now), row.completedAt, e.now, None))
      && (!MarksNow(s, e, id) ==> db.outbox[id] == row)
  {
  }

  lemma RowArisesIff(c: Names, s: System, e: Event, id: Id)
    requires id !in s.world.db.outbox
    ensures id in Next(c, s, e).world.db.outbox <==> OwnerBegins(s.world.db, e, id) && Alive(s.world.db, id)
  {
  }

  // ---------------------------------------------------------------- objects and workers

  /** Only a worker that sealed a manifest writes, and only under its intent's key. */
  lemma ObjectChanges(c: Names, s: System, e: Event, key: string)
    ensures var (before, after) := (s.world.objects, Next(c, s, e).world.objects);
      if e.Put? && WorkerAt(s, e.w).Sealed?
         && key == c.key(WorkerAt(s, e.w).intent.sessionId, WorkerAt(s, e.w).intent.deletedAt)
      then key in after && after[key] == WorkerAt(s, e.w).blob
      else (key in after <==> key in before) && (key in before ==> after[key] == before[key])
  {
  }

  /** A worker gets on exactly when its call succeeds; a refused transaction leaves it where it is. */
  lemma WorkerMoves(c: Names, dom: Intents, s: System, e: Event)
    requires Steady(c, dom, s.world) && (e.Mark? || e.Complete?)
    ensures var (k, t) := (WorkerAt(s, e.w), WorkerAt(Next(c, s, e), e.w));
      && (e.Mark? && k.Stored? ==> (t.Ready? <==> MarksNow(s, e, k.intent.sessionId) || MarkedBefore(s, k.intent)))
      && (e.Complete? && k.Ready? ==> (t.Idle? <==> CompletesNow(s, e, k.intent.sessionId) || DoneBefore(s, k.intent)))
      && (!t.Ready? && !t.Idle? ==> t == k)
  {
    var i := WorkerAt(s, e.w);
    if !i.Idle? && i.intent.sessionId in s.world.db.outbox { assert RowAllowed(s.world.db.outbox[i.intent.sessionId]); }
  }

  /** Another worker marked or completed the row this copy speaks of. */
  predicate MarkedBefore(s: System, i: Intent) {
    && i.sessionId in s.world.db.outbox && s.world.db.outbox[i.sessionId].deletedAt == i.deletedAt
    && (s.world.db.outbox[i.sessionId].uploadedAt.Some? || s.world.db.outbox[i.sessionId].completedAt.Some?)
  }

  predicate DoneBefore(s: System, i: Intent) {
    && i.sessionId in s.world.db.outbox && s.world.db.outbox[i.sessionId].deletedAt == i.deletedAt
    && s.world.db.outbox[i.sessionId].uploadedAt.Some? && s.world.db.outbox[i.sessionId].completedAt.Some?
  }

  /** A worker takes up open rows only, and goes through its program in order; a crash or a failure ends it. */
  lemma WorkerOrder(c: Names, s: System, e: Event)
    requires e.Pick? || e.Seal? || e.Put? || e.Skip? || e.Fail? || e.Crash?
    requires e.Pick? && e.id in s.world.db.outbox ==> RowAllowed(s.world.db.outbox[e.id])
    ensures var (k, t) := (WorkerAt(s, e.w), WorkerAt(Next(c, s, e), e.w));
      && (t.Started? && t != k ==>
            e.Pick? && e.id in Pending(s.world.db) && t.intent == IntentOf(e.id, s.world.db.outbox[e.id]))
      && (t.Sealed? && t != k ==>
            e.Seal? && k == Started(t.intent) && t.intent.uploadedAt.None?
            && t.blob == Blob(c.manifest(t.intent.sessionId, t.intent.deletedAt), e.seal))
      && (t.Stored? && t != k ==> e.Put? && k.Sealed? && k.intent == t.intent)
      && (t.Ready? && t != k ==> e.Skip? && k == Started(t.intent) && t.intent.uploadedAt.Some?)
      && (t.Idle? && t != k ==> e.Fail? || e.Crash?)
      && (e.Fail? || e.Crash? ==> t.Idle?)
  {
  }

  /** And each of these steps is open to it. */
  lemma WorkerCanGoOn(c: Names, s: System, w: nat, id: Id, seal: nat)
    ensures id in Pending(s.world.db) ==>
              WorkerAt(Next(c, s, Pick(w, id)), w) == Started(IntentOf(id, s.world.db.outbox[id]))
    ensures var k := WorkerAt(s, w);
      && (k.Started? && k.intent.uploadedAt.None? && k.intent.completedAt.None? ==>
            WorkerAt(Next(c, s, Seal(w, seal)), w).Sealed?)
      && (k.Started? && k.intent.uploadedAt.Some? && k.intent.completedAt.None? ==>
            WorkerAt(Next(c, s, Skip(w)), w).Ready?)
      && (k.Sealed? ==> WorkerAt(Next(c, s, Put(w)), w).Stored?)
  {
  }

  /** What the marking and the completing transaction answer. */
  lemma AnswersMeaning(db: Db, id: Id, at: Time, now: Time)
    ensures var (known, r) := (id in db.outbox && db.outbox[id].deletedAt == at, MarkUploaded(db, id, at, now).1);
      && (r == Err(IntentMissing) <==> !known)
      && (r == Err(CheckViolation) <==>
            known && db.outbox[id].uploadedAt.None? && db.outbox[id].completedAt.None? && now < at)
      && (r.Ok? ==> r.value.sessionId == id && r.value.deletedAt == at
                    && (r.value.uploadedAt.Some? || r.value.completedAt.Some?))
    ensures var (known, r) := (id in db.outbox && db.outbox[id].deletedAt == at, CompleteDeletion(db, id, at, now).1);
      && (r == Ok(false) <==> !known || db.outbox[id].uploadedAt.None?)
      && (r.Err? ==> r == Err(CheckViolation) && db.outbox[id].completedAt.None?)
  {
  }

  // ---------------------------------------------------------------- one request, start to end

  /** What a failed attempt is filed under. */
  function CategoryOf(i: Intent, a: Attempt): Category {
    if i.uploadedAt.None? && a.fault == EncryptFault then EncryptionFailed
    else if i.uploadedAt.None? && a.fault == UploadFault then UploadFailed
    else StorageFailed
  }

  /** A failed attempt leaves the row open, with the failure filed where it could be recorded. */
  lemma FailureIsFiled(c: Names, w: World, i: Intent, a: Attempt)
    requires Fresh(w.db, i) && RowAllowed(w.db.outbox[i.sessionId]) && !Succeeds(i, a)
    ensures var (w', ok) := CompleteIntent(c, w, i, a);
      && !ok && w'.db.sessions == w.db.sessions && i.sessionId in w'.db.outbox
      && w'.db.outbox[i.sessionId].completedAt.None?
      && (a.recorded ==> w'.db.outbox[i.sessionId].error == Some(CategoryOf(i, a))
                         && w'.db.outbox[i.sessionId].attemptedAt == a.now)
  {
  }

  /** An intent that was completed before needs nothing more. */
  lemma CompletedIsDone(c: Names, w: World, i: Intent, a: Attempt)
    requires i.completedAt.Some?
    ensures CompleteIntent(c, w, i, a) == (w, true)
  {
  }

  predicate SameRow(db: Db, db': Db, id: Id) {
    && (id in db'.sessions <==> id in db.sessions) && (id in db.sessions ==> db'.sessions[id] == db.sessions[id])
    && (id in db'.outbox <==> id in db.outbox) && (id in db.outbox ==> db'.outbox[id] == db.outbox[id])
  }

  predicate SameObject(before: map<string, Blob>, after: map<string, Blob>, key: string) {
    (key in after <==> key in before) && (key in before ==> after[key] == before[key])
  }

  /** An attempt touches no other session, no other row and no other object. */
  lemma OthersUntouched(c: Names, w: World, i: Intent, a: Attempt, id: Id, key: string)
    requires id != i.sessionId && key != c.key(i.sessionId, i.deletedAt)
    ensures var w' := CompleteIntent(c, w, i, a).0; SameRow(w.db, w'.db, id) && SameObject(w.objects, w'.objects, key)
  {
    FinishTouchesOwn(w, i, a, id);
    if i.completedAt.None? && i.uploadedAt.None? && a.fault != EncryptFault && a.fault != UploadFault {
      var w1 := Uploaded(c, w, i, a.seal);
      var (db, r) := MarkUploaded(w1.db, i.sessionId, i.deletedAt, a.now);
      if r.Ok? { FinishTouchesOwn(w1.(db := db), r.value, a, id); }
    }
  }

  lemma FinishTouchesOwn(w: World, i: Intent, a: Attempt, id: Id)
    requires id != i.sessionId
    ensures var w' := FinishIntent(w, i, a).0; SameRow(w.db, w'.db, id) && w'.objects == w.objects
  {
  }

  /**
   `delete_session` of a live session: a stranger is answered no and changes nothing; its owner
   is answered yes, with the session gone, its row completed and its manifest stored, exactly
   when no call raises and the clock does not go back.
   */
  lemma DeleteOutcome(c: Names, dom: Intents, w: World, id: Id, owner: Id, now: Time, begun: bool, a: Attempt)
    requires Faithful(c, dom) && Steady(c, dom, w) && (id, now) in dom
    requires Alive(w.db, id) && id !in w.db.outbox
    ensures var (w', r) := DeleteOnce(c, w, id, owner, now, begun, a);
      if !begun then r.None? && w' == w
      else if owner != w.db.sessions[id].owner then r == Some(false) && w' == w
      else && (r == Some(true) <==> a.fault == NoFault && a.now >= now) && r != Some(false)
           && (r == Some(true) ==> id !in w'.db.sessions && w'.db.outbox[id].completedAt == Some(a.now)
                                   && HasManifest(c, w'.objects, id, now))
           && (r.None? ==> Tombstoned(w'.db, id, now) && id in Pending(w'.db))
  {
    if begun && owner == w.db.sessions[id].owner {
      BeginKeepsSteady(c, dom, w, id, owner, now);
      var db := BeginDeletion(w.db, id, owner, now).0;
      FirstAttempt(c, dom, w.(db := db), Intent(id, now, None, None), a);
    }
  }

  lemma FirstAttempt(c: Names, dom: Intents, w: World, i: Intent, a: Attempt)
    requires Faithful(c, dom) && Steady(c, dom, w) && Fresh(w.db, i) && i.uploadedAt.None?
    requires Tombstoned(w.db, i.sessionId, i.deletedAt)
    ensures var (w', ok) := CompleteIntent(c, w, i, a);
      && (ok <==> a.fault == NoFault && a.now >= i.deletedAt)
      && (ok ==> i.sessionId !in w'.db.sessions && i.sessionId in w'.db.outbox
                 && w'.db.outbox[i.sessionId].completedAt == Some(a.now)
                 && HasManifest(c, w'.objects, i.sessionId, i.deletedAt))
      && (!ok ==> Tombstoned(w'.db, i.sessionId, i.deletedAt) && i.sessionId in Pending(w'.db))
  {
    AttemptOutcome(c, dom, w, i, a);
    assert RowAllowed(w.db.outbox[i.sessionId]);
    if !Succeeds(i, a) { FailureIsFiled(c, w, i, a); }
  }

  /** The owner's repeated request for a tombstoned session finishes what is left of it. */
  lemma RepeatedRequest(c: Names, dom: Intents, w: World, id: Id, at: Time, now: Time, a: Attempt)
    requires Faithful(c, dom) && Steady(c, dom, w) && Tombstoned(w.db, id, at)
    ensures var (w', r) := DeleteOnce(c, w, id, w.db.sessions[id].owner, now, true, a);
      && (r == Some(true) <==> Succeeds(Intent(id, at, w.db.outbox[id].uploadedAt, None), a))
      && (r == Some(true) ==> id !in w'.db.sessions) && r != Some(false)
  {
    AttemptOutcome(c, dom, w, Intent(id, at, w.db.outbox[id].uploadedAt, None), a);
  }
}
