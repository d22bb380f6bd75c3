/**
 The deletion outbox: app/deletion/service.py over the outbox methods of app/db/postgres.py.

 A tombstoned session is removed in four steps (tombstone, upload the encrypted manifest,
 mark, complete). Every database method is one transaction; a worker may crash between
 any two steps and may act on an intent it read long ago.
 */
module Deletion {
  import opened Common

  datatype SessionRow = SessionRow(owner: Id, expiresAt: Time, deletedAt: Option<Time>)

  datatype Category = EncryptionFailed | UploadFailed | StorageFailed

  datatype OutboxRow = OutboxRow(deletedAt: Time, uploadedAt: Option<Time>, completedAt: Option<Time>,
                                 attemptedAt: Time, error: Option<Category>)

  /** A worker's copy of an outbox row; it may be stale. */
  datatype Intent = Intent(sessionId: Id, deletedAt: Time, uploadedAt: Option<Time>, completedAt: Option<Time>)

  datatype Db = Db(sessions: map<Id, SessionRow>, outbox: map<Id, OutboxRow>)

  /** An object encrypted by age; `seal` stands for the ephemeral key. */
  datatype Blob = Blob(plaintext: string, seal: nat)

  /** Intents by session and tombstone time. */
  type Intents = set<(Id, Time)>

  datatype World = World(db: Db, objects: map<string, Blob>)

  datatype DbError = DuplicateKey | IntentIncomplete | IntentMissing | CheckViolation

  /** The bytes and the object key of an intent's manifest. */
  datatype Names = Names(manifest: (Id, Time) -> string, key: (Id, Time) -> string)

  /** No two of these intents share a key; `ManifestNames.NamesAreFaithful` says when the real names meet it. */
  predicate Faithful(c: Names, dom: Intents) {
    forall p, q :: p in dom && q in dom && c.key(p.0, p.1) == c.key(q.0, q.1) ==> p == q
  }

  // ---------------------------------------------------------------- transactions

  function IntentOf(id: Id, row: OutboxRow): Intent {
    Intent(id, row.deletedAt, row.uploadedAt, row.completedAt)
  }

  /** The table's CHECK constraints. */
  predicate RowAllowed(row: OutboxRow) {
    && (row.uploadedAt.Some? ==> row.uploadedAt.value >= row.deletedAt)
    && (row.completedAt.Some? ==> row.uploadedAt.Some? && row.completedAt.value >= row.deletedAt)
  }

  function BeginDeletion(db: Db, id: Id, owner: Id, now: Time): (Db, Result<Option<Intent>, DbError>) {
    if id !in db.sessions || db.sessions[id].owner != owner then (db, Ok(None))
    else if db.sessions[id].deletedAt.None? then
      if id in db.outbox then (db, Err(DuplicateKey))
      else
        var row := OutboxRow(now, None, None, now, None);
        (Db(db.sessions[id := db.sessions[id].(deletedAt := Some(now))], db.outbox[id := row]),
         Ok(Some(IntentOf(id, row))))
    else if id !in db.outbox then (db, Err(IntentIncomplete))
    else (db, Ok(Some(IntentOf(id, db.outbox[id]))))
  }

  function MarkUploaded(db: Db, id: Id, at: Time, now: Time): (Db, Result<Intent, DbError>) {
    if id !in db.outbox || db.outbox[id].deletedAt != at then (db, Err(IntentMissing))
    else
      var row := db.outbox[id];
      if row.uploadedAt.Some? || row.completedAt.Some? then (db, Ok(IntentOf(id, row)))
      else
        var marked := row.(uploadedAt := Some(now), attemptedAt := now, error := None);
        if !RowAllowed(marked) then (db, Err(CheckViolation))
        else (db.(outbox := db.outbox[id := marked]), Ok(IntentOf(id, marked)))
  }

  function CompleteDeletion(db: Db, id: Id, at: Time, now: Time): (Db, Result<bool, DbError>) {
    if id !in db.outbox || db.outbox[id].deletedAt != at || db.outbox[id].uploadedAt.None? then (db, Ok(false))
    else if db.outbox[id].completedAt.Some? then (db, Ok(true))
    else
      var row := db.outbox[id].(completedAt := Some(now), attemptedAt := now, error := None);
      if !RowAllowed(row) then (db, Err(CheckViolation))
      else
        var sessions := if id in db.sessions && db.sessions[id].deletedAt == Some(at)
                        then db.sessions - {id} else db.sessions;
        (Db(sessions, db.outbox[id := row]), Ok(true))
  }

  function RecordFailure(db: Db, id: Id, category: Category, now: Time): Db {
    if id in db.outbox && db.outbox[id].completedAt.None?
    then db.(outbox := db.outbox[id := db.outbox[id].(attemptedAt := now, error := Some(category))])
    else db
  }

  function CreateSession(db: Db, id: Id, owner: Id, expiresAt: Time): Db {
    if id in db.sessions then db else db.(sessions := db.sessions[id := SessionRow(owner, expiresAt, None)])
  }

  /** Outright removal of live sessions: `delete_session` and the expiry job, which both skip tombstones. */
  function DropLive(db: Db, ids: set<Id>): Db {
    db.(sessions := map id | id in db.sessions && !(id in ids && db.sessions[id].deletedAt.None?) :: db.sessions[id])
  }

  /** The outbox retention job, which removes completed rows only. */
  function DropCompleted(db: Db, ids: set<Id>): Db {
    db.(outbox := map id | id in db.outbox && !(id in ids && db.outbox[id].completedAt.Some?) :: db.outbox[id])
  }

  // ---------------------------------------------------------------- workers

  /** Where a worker is inside `_complete_intent`. */
  datatype Worker =
    | Idle
    | Started(intent: Intent)
    | Sealed(intent: Intent, blob: Blob)
    | Stored(intent: Intent)
    | Ready(intent: Intent)

  datatype System = System(world: World, workers: map<nat, Worker>)

  datatype Event =
    | Create(id: Id, owner: Id, expiresAt: Time)
    | Drop(ids: set<Id>)
    | Retire(ids: set<Id>)
    | Begin(w: nat, id: Id, owner: Id, now: Time)
    | Pick(w: nat, id: Id)
    | Seal(w: nat, seal: nat)
    | Put(w: nat)
    | Mark(w: nat, now: Time)
    | Skip(w: nat)
    | Complete(w: nat, now: Time)
    | Fail(w: nat, category: Category, now: Time, recorded: bool)
    | Crash(w: nat)

  function WorkerAt(s: System, w: nat): Worker {
    if w in s.workers then s.workers[w] else Idle
  }

  /**
   A step the worker's program counter does not allow leaves the system as it is. A
   transaction that raises or answers no leaves the worker where it is, to fail or crash next.
   */
  function Next(c: Names, s: System, e: Event): System {
    var db := s.world.db;
    match e
    case Create(id, owner, expiresAt) => WithDb(s, CreateSession(db, id, owner, expiresAt))
    case Drop(ids) => WithDb(s, DropLive(db, ids))
    case Retire(ids) => WithDb(s, DropCompleted(db, ids))
    case Begin(w, id, owner, now) =>
      var (db', r) := BeginDeletion(db, id, owner, now);
      Go(WithDb(s, db'), w, if r.Ok? && r.value.Some? then Started(r.value.value) else Idle)
    case Pick(w, id) =>
      if id in db.outbox && db.outbox[id].completedAt.None? then Go(s, w, Started(IntentOf(id, db.outbox[id]))) else s
    case Seal(w, seal) =>
      var k := WorkerAt(s, w);
      if k.Started? && k.intent.completedAt.None? && k.intent.uploadedAt.None?
      then Go(s, w, Sealed(k.intent, Blob(c.manifest(k.intent.sessionId, k.intent.deletedAt), seal))) else s
    case Put(w) =>
      var k := WorkerAt(s, w);
      if k.Sealed?
      then
        var key := c.key(k.intent.sessionId, k.intent.deletedAt);
        Go(s.(world := s.world.(objects := s.world.objects[key := k.blob])), w, Worker.Stored(k.intent))
      else s
    case Mark(w, now) =>
      var k := WorkerAt(s, w);
      if k.Stored? then
        var (db', r) := MarkUploaded(db, k.intent.sessionId, k.intent.deletedAt, now);
        Go(WithDb(s, db'), w, if r.Ok? then Ready(r.value) else k)
      else s
    case Skip(w) =>
      var k := WorkerAt(s, w);
      if k.Started? && k.intent.completedAt.None? && k.intent.uploadedAt.Some? then Go(s, w, Ready(k.intent)) else s
    case Complete(w, now) =>
      var k := WorkerAt(s, w);
      if k.Ready? then
        var (db', r) := CompleteDeletion(db, k.intent.sessionId, k.intent.deletedAt, now);
        Go(WithDb(s, db'), w, if r == Ok(true) then Idle else k)
      else s
    case Fail(w, category, now, recorded) =>
      var k := WorkerAt(s, w);
      if k.Idle? then s
      else Go(if recorded then WithDb(s, RecordFailure(db, k.intent.sessionId, category, now)) else s, w, Idle)
    case Crash(w) => Go(s, w, Idle)
  }

  function WithDb(s: System, db: Db): System { s.(world := s.world.(db := db)) }

  function Go(s: System, w: nat, k: Worker): System { s.(workers := s.workers[w := k]) }

  function Run(c: Names, es: seq<Event>): System {
    if es == [] then System(World(Db(map[], map[]), map[]), map[])
    else Next(c, Run(c, es[..|es| - 1]), es[|es| - 1])
  }

  /** The intents that `Begin` creates in a run. */
  function Created(c: Names, es: seq<Event>): Intents {
    if es == [] then {} else Created(c, es[..|es| - 1]) + CreatedBy(Run(c, es[..|es| - 1]), es[|es| - 1])
  }

  function CreatedBy(s: System, e: Event): Intents {
    if e.Begin? && BeginDeletion(s.world.db, e.id, e.owner, e.now).0 != s.world.db then {(e.id, e.now)} else {}
  }

  // ---------------------------------------------------------------- what every run keeps

  /** The encrypted manifest of the intent lies under the intent's key. */
  predicate HasManifest(c: Names, objects: map<string, Blob>, id: Id, at: Time) {
    var key := c.key(id, at);
    key in objects && objects[key].plaintext == c.manifest(id, at)
  }

  /** The intents of `dom` whose manifests are in the object store. */
  function Stored(c: Names, dom: Intents, objects: map<string, Blob>): Intents {
    set p | p in dom && HasManifest(c, objects, p.0, p.1)
  }

  /** Tombstones and open outbox rows come in pairs with one `deleted_at`. */
  predicate Paired(db: Db) {
    && (forall id :: id in db.sessions && db.sessions[id].deletedAt.Some? ==>
          id in db.outbox && db.outbox[id].completedAt.None?
            && db.outbox[id].deletedAt == db.sessions[id].deletedAt.value)
    && (forall id :: id in db.outbox && db.outbox[id].completedAt.None? ==>
          id in db.sessions && db.sessions[id].deletedAt == Some(db.outbox[id].deletedAt))
  }

  /** Every row passes the CHECKs, and a row marked as uploaded has its manifest stored. */
  ghost predicate Backed(db: Db, dom: Intents, stored: Intents) {
    forall id :: id in db.outbox ==>
      && RowAllowed(db.outbox[id])
      && (id, db.outbox[id].deletedAt) in dom
      && (db.outbox[id].uploadedAt.Some? ==> (id, db.outbox[id].deletedAt) in stored)
  }

  ghost predicate Sound(db: Db, dom: Intents, stored: Intents) {
    Paired(db) && Backed(db, dom, stored)
  }

  ghost predicate WorkerSound(c: Names, dom: Intents, stored: Intents, k: Worker) {
    && (!k.Idle? ==> (k.intent.sessionId, k.intent.deletedAt) in dom)
    && (k.Sealed? ==> k.blob.plaintext == c.manifest(k.intent.sessionId, k.intent.deletedAt))
    && (k.Stored? ==> (k.intent.sessionId, k.intent.deletedAt) in stored)
  }

  ghost predicate Safe(c: Names, dom: Intents, s: System) {
    var stored := Stored(c, dom, s.world.objects);
    && Sound(s.world.db, dom, stored)
    && (forall n :: n in s.workers ==> WorkerSound(c, dom, stored, s.workers[n]))
  }

  // Each transaction, on its own.

  lemma BeginKeepsSound(db: Db, dom: Intents, stored: Intents, id: Id, owner: Id, now: Time)
    requires Sound(db, dom, stored)
    requires BeginDeletion(db, id, owner, now).0 != db ==> (id, now) in dom
    ensures Sound(BeginDeletion(db, id, owner, now).0, dom, stored)
  {
  }

  lemma MarkKeepsSound(db: Db, dom: Intents, stored: Intents, id: Id, at: Time, now: Time)
    requires Sound(db, dom, stored) && (id, at) in stored
    ensures Sound(MarkUploaded(db, id, at, now).0, dom, stored)
  {
  }

  lemma CompleteKeepsSound(db: Db, dom: Intents, stored: Intents, id: Id, at: Time, now: Time)
    requires Sound(db, dom, stored)
    ensures Sound(CompleteDeletion(db, id, at, now).0, dom, stored)
  {
  }

  lemma FailureKeepsSound(db: Db, dom: Intents, stored: Intents, id: Id, category: Category, now: Time)
    requires Sound(db, dom, stored)
    ensures Sound(RecordFailure(db, id, category, now), dom, stored)
  {
  }

  lemma JobsKeepSound(db: Db, dom: Intents, stored: Intents, id: Id, owner: Id, at: Time, ids: set<Id>)
    requires Sound(db, dom, stored)
    ensures Sound(CreateSession(db, id, owner, at), dom, stored)
    ensures Sound(DropLive(db, ids), dom, stored) && Sound(DropCompleted(db, ids), dom, stored)
  {
  }

  /** Uploading a sealed manifest stores its own and damages no other, however often it is repeated. */
  lemma PutStores(c: Names, dom: Intents, objects: map<string, Blob>, id: Id, at: Time, seal: nat)
    requires Faithful(c, dom) && (id, at) in dom
    ensures Stored(c, dom, objects[c.key(id, at) := Blob(c.manifest(id, at), seal)])
            == Stored(c, dom, objects) + {(id, at)}
  {
    var objects' := objects[c.key(id, at) := Blob(c.manifest(id, at), seal)];
    forall p | p in dom
      ensures HasManifest(c, objects', p.0, p.1) <==> HasManifest(c, objects, p.0, p.1) || p == (id, at)
    {
    }
  }

  lemma PutKeepsSafe(c: Names, dom: Intents, s: System, w: nat)
    requires Faithful(c, dom) && Safe(c, dom, s)
    ensures Safe(c, dom, Next(c, s, Put(w)))
    ensures Stored(c, dom, s.world.objects) <= Stored(c, dom, Next(c, s, Put(w)).world.objects)
  {
    var k := WorkerAt(s, w);
    if k.Sealed? {
      var i := k.intent;
      var stored := Stored(c, dom, s.world.objects);
      assert WorkerSound(c, dom, stored, k);
      var objects := s.world.objects[c.key(i.sessionId, i.deletedAt) :=
                                     Blob(c.manifest(i.sessionId, i.deletedAt), k.blob.seal)];
      assert Next(c, s, Put(w)) == Go(s.(world := s.world.(objects := objects)), w, Worker.Stored(i));
      PutStores(c, dom, s.world.objects, i.sessionId, i.deletedAt, k.blob.seal);
      MoreStoredKeepsSafe(c, dom, s, objects, w, i);
    }
  }

  lemma MoreStoredKeepsSafe(c: Names, dom: Intents, s: System, objects: map<string, Blob>, w: nat, i: Intent)
    requires Safe(c, dom, s) && (i.sessionId, i.deletedAt) in dom
    requires Stored(c, dom, objects) == Stored(c, dom, s.world.objects) + {(i.sessionId, i.deletedAt)}
    ensures Safe(c, dom, Go(s.(world := s.world.(objects := objects)), w, Worker.Stored(i)))
  {
    var before, after := Stored(c, dom, s.world.objects), Stored(c, dom, objects);
    assert Sound(s.world.db, dom, after);
    forall n | n in s.workers ensures WorkerSound(c, dom, after, s.workers[n]) {
      assert WorkerSound(c, dom, before, s.workers[n]);
    }
  }

  /** A sound transaction by a worker that ends at a sound point keeps the system safe. */
  lemma TransactionKeepsSafe(c: Names, dom: Intents, s: System, db: Db, w: nat, k: Worker)
    requires Safe(c, dom, s) && Sound(db, dom, Stored(c, dom, s.world.objects))
             && WorkerSound(c, dom, Stored(c, dom, s.world.objects), k)
    ensures Safe(c, dom, WithDb(s, db)) && Safe(c, dom, Go(WithDb(s, db), w, k)) && Safe(c, dom, Go(s, w, k))
  {
  }

  lemma MarkStepKeepsSafe(c: Names, dom: Intents, s: System, e: Event)
    requires Safe(c, dom, s) && e.Mark?
    ensures Safe(c, dom, Next(c, s, e))
  {
    var db, k := s.world.db, WorkerAt(s, e.w);
    var stored := Stored(c, dom, s.world.objects);
    assert WorkerSound(c, dom, stored, k);
    if k.Stored? {
      MarkKeepsSound(db, dom, stored, k.intent.sessionId, k.intent.deletedAt, e.now);
      var (db', r) := MarkUploaded(db, k.intent.sessionId, k.intent.deletedAt, e.now);
      TransactionKeepsSafe(c, dom, s, db', e.w, if r.Ok? then Ready(r.value) else k);
    }
  }

  lemma CompleteStepKeepsSafe(c: Names, dom: Intents, s: System, e: Event)
    requires Safe(c, dom, s) && e.Complete?
    ensures Safe(c, dom, Next(c, s, e))
  {
    var db, k := s.world.db, WorkerAt(s, e.w);
    var stored := Stored(c, dom, s.world.objects);
    assert WorkerSound(c, dom, stored, k);
    if k.Ready? {
      CompleteKeepsSound(db, dom, stored, k.intent.sessionId, k.intent.deletedAt, e.now);
      var (db', r) := CompleteDeletion(db, k.intent.sessionId, k.intent.deletedAt, e.now);
      TransactionKeepsSafe(c, dom, s, db', e.w, if r == Ok(true) then Idle else k);
    }
  }

  lemma FailStepKeepsSafe(c: Names, dom: Intents, s: System, e: Event)
    requires Safe(c, dom, s) && e.Fail?
    ensures Safe(c, dom, Next(c, s, e))
  {
    var db, k := s.world.db, WorkerAt(s, e.w);
    if !k.Idle? {
      FailureKeepsSound(db, dom, Stored(c, dom, s.world.objects), k.intent.sessionId, e.category, e.now);
      TransactionKeepsSafe(c, dom, s, RecordFailure(db, k.intent.sessionId, e.category, e.now), e.w, Idle);
    }
  }

  lemma WorkerStepKeepsSafe(c: Names, dom: Intents, s: System, e: Event)
    requires Safe(c, dom, s) && (e.Mark? || e.Complete? || e.Fail?)
    ensures Safe(c, dom, Next(c, s, e))
  {
    if e.Mark? {
      MarkStepKeepsSafe(c, dom, s, e);
    } else if e.Complete? {
      CompleteStepKeepsSafe(c, dom, s, e);
    } else {
      FailStepKeepsSafe(c, dom, s, e);
    }
  }

  lemma JobStepKeepsSafe(c: Names, dom: Intents, s: System, e: Event)
    requires Safe(c, dom, s) && (e.Create? || e.Drop? || e.Retire? || e.Begin?) && CreatedBy(s, e) <= dom
    ensures Safe(c, dom, Next(c, s, e))
  {
    var db := s.world.db;
    var stored := Stored(c, dom, s.world.objects);
    match e {
      case Create(id, owner, at) =>
        JobsKeepSound(db, dom, stored, id, owner, at, {});
        TransactionKeepsSafe(c, dom, s, CreateSession(db, id, owner, at), 0, Idle);
      case Drop(ids) =>
        JobsKeepSound(db, dom, stored, 0, 0, 0, ids);
        TransactionKeepsSafe(c, dom, s, DropLive(db, ids), 0, Idle);
      case Retire(ids) =>
        JobsKeepSound(db, dom, stored, 0, 0, 0, ids);
        TransactionKeepsSafe(c, dom, s, DropCompleted(db, ids), 0, Idle);
      case Begin(w, id, owner, now) =>
        BeginKeepsSound(db, dom, stored, id, owner, now);
        var (db', r) := BeginDeletion(db, id, owner, now);
        TransactionKeepsSafe(c, dom, s, db', w, if r.Ok? && r.value.Some? then Started(r.value.value) else Idle);
    }
  }

  lemma LocalStepKeepsSafe(c: Names, dom: Intents, s: System, e: Event)
    requires Safe(c, dom, s) && (e.Pick? || e.Seal? || e.Skip? || e.Crash?)
    ensures Safe(c, dom, Next(c, s, e))
  {
    if Next(c, s, e) != s {
      TransactionKeepsSafe(c, dom, s, s.world.db, e.w, WorkerAt(Next(c, s, e), e.w));
    }
  }

  /** No step of any worker, job or user breaks the protocol, and no stored manifest is lost. */
  lemma NextKeepsSafe(c: Names, dom: Intents, s: System, e: Event)
    requires Faithful(c, dom) && Safe(c, dom, s) && CreatedBy(s, e) <= dom
    ensures Safe(c, dom, Next(c, s, e))
    ensures Stored(c, dom, s.world.objects) <= Stored(c, dom, Next(c, s, e).world.objects)
  {
    if e.Put? {
      PutKeepsSafe(c, dom, s, e.w);
    } else if e.Mark? || e.Complete? || e.Fail? {
      WorkerStepKeepsSafe(c, dom, s, e);
    } else if e.Create? || e.Drop? || e.Retire? || e.Begin? {
      JobStepKeepsSafe(c, dom, s, e);
    } else {
      LocalStepKeepsSafe(c, dom, s, e);
    }
  }

  lemma {:induction false} RunSafe(c: Names, dom: Intents, es: seq<Event>)
    requires Faithful(c, dom) && Created(c, es) <= dom
    ensures Safe(c, dom, Run(c, es))
  {
    if es != [] {
      RunSafe(c, dom, es[..|es| - 1]);
      NextKeepsSafe(c, dom, Run(c, es[..|es| - 1]), es[|es| - 1]);
    }
  }

  /** A tombstoned session stays in every transaction but a completion. */
  lemma TombstoneStays(db: Db, id: Id, at: Time, other: Id, owner: Id, when: Time, ids: set<Id>)
    requires id in db.sessions && db.sessions[id].deletedAt == Some(at)
    ensures var after := BeginDeletion(db, other, owner, when).0;
            id in after.sessions && after.sessions[id] == db.sessions[id]
    ensures var after := CreateSession(db, other, owner, when);
            id in after.sessions && after.sessions[id] == db.sessions[id]
    ensures var after := DropLive(db, ids); id in after.sessions && after.sessions[id] == db.sessions[id]
  {
  }

  lemma OnlyCompletionRemoves(c: Names, s: System, e: Event, id: Id, at: Time)
    requires id in s.world.db.sessions && s.world.db.sessions[id].deletedAt == Some(at) && !e.Complete?
    ensures var db := Next(c, s, e).world.db; id in db.sessions && db.sessions[id] == s.world.db.sessions[id]
  {
    if e.Create? {
      TombstoneStays(s.world.db, id, at, e.id, e.owner, e.expiresAt, {});
    } else if e.Drop? {
      TombstoneStays(s.world.db, id, at, 0, 0, 0, e.ids);
    } else if e.Begin? {
      TombstoneStays(s.world.db, id, at, e.id, e.owner, e.now, {});
    }
  }

  lemma CompletionNeedsUpload(db: Db, dom: Intents, stored: Intents, id: Id, at: Time, other: Id, otherAt: Time,
                              now: Time)
    requires Sound(db, dom, stored) && id in db.sessions && db.sessions[id].deletedAt == Some(at)
    requires var after := CompleteDeletion(db, other, otherAt, now).0; id in after.sessions ==>
             after.sessions[id].deletedAt != Some(at)
    ensures (id, at) in stored
  {
  }

  lemma VanishingNeedsUpload(c: Names, dom: Intents, s: System, e: Event, id: Id, at: Time)
    requires Sound(s.world.db, dom, Stored(c, dom, s.world.objects))
    requires id in s.world.db.sessions && s.world.db.sessions[id].deletedAt == Some(at)
    requires var db := Next(c, s, e).world.db; id in db.sessions ==> db.sessions[id].deletedAt != Some(at)
    ensures e.Complete? && (id, at) in Stored(c, dom, s.world.objects)
  {
    if !e.Complete? {
      OnlyCompletionRemoves(c, s, e, id, at);
    } else if WorkerAt(s, e.w).Ready? {
      var i := WorkerAt(s, e.w).intent;
      CompletionNeedsUpload(s.world.db, dom, Stored(c, dom, s.world.objects), id, at, i.sessionId, i.deletedAt, e.now);
    }
  }

  /**
   In every run, a step after which a tombstoned session is gone is a completion, and the
   session's manifest already lies in the object store under its one key, for good. All that
   is asked of the names is that no two intents the run creates share a key.
   */
  lemma RemovalNeedsManifest(c: Names, es: seq<Event>, e: Event, more: seq<Event>, id: Id, at: Time)
    requires Faithful(c, Created(c, es + more))
    requires var db := Run(c, es).world.db; id in db.sessions && db.sessions[id].deletedAt == Some(at)
    requires var db := Run(c, es + [e]).world.db; id in db.sessions ==> db.sessions[id].deletedAt != Some(at)
    ensures e.Complete? && HasManifest(c, Run(c, es).world.objects, id, at)
    ensures HasManifest(c, Run(c, es + more).world.objects, id, at)
  {
    var dom := Created(c, es + more);
    assert (es + [e])[..|es|] == es;
    CreatedGrows(c, es, more);
    RunSafe(c, dom, es);
    VanishingNeedsUpload(c, dom, Run(c, es), e, id, at);
    assert (id, at) in Stored(c, dom, Run(c, es).world.objects);
    ManifestsPersist(c, dom, es, more);
    assert (id, at) in Stored(c, dom, Run(c, es + more).world.objects);
  }

  lemma {:induction false} CreatedGrows(c: Names, es: seq<Event>, more: seq<Event>)
    ensures Created(c, es) <= Created(c, es + more)
  {
    if more == [] {
      assert es + more == es;
    } else {
      assert (es + more)[..|es + more| - 1] == es + more[..|more| - 1];
      CreatedGrows(c, es, more[..|more| - 1]);
    }
  }

  /** The protocol does remove sessions: one worker, start to end. */
  lemma RemovalHappens(c: Names, id: Id, owner: Id, at: Time, seal: nat) returns (es: seq<Event>)
    ensures id in Run(c, es).world.db.sessions && Run(c, es).world.db.sessions[id].deletedAt == Some(at)
    ensures id !in Run(c, es + [Complete(0, at)]).world.db.sessions && Created(c, es) == {(id, at)}
  {
    es := [];
    es := Extended(c, es, Create(id, owner, at));
    es := Extended(c, es, Begin(0, id, owner, at));
    es := Extended(c, es, Seal(0, seal));
    es := Extended(c, es, Put(0));
    es := Extended(c, es, Mark(0, at));
    var last := Extended(c, es, Complete(0, at));
  }

  lemma Extended(c: Names, es: seq<Event>, e: Event) returns (r: seq<Event>)
    ensures r == es + [e] && Run(c, r) == Next(c, Run(c, es), e)
            && Created(c, r) == Created(c, es) + CreatedBy(Run(c, es), e)
  {
    r := es + [e];
    assert r[..|es|] == es;
  }

  /** A tombstone was set by the run. */
  lemma TombstoneIsCreated(c: Names, es: seq<Event>, id: Id, at: Time)
    requires Faithful(c, Created(c, es))
    requires var db := Run(c, es).world.db; id in db.sessions && db.sessions[id].deletedAt == Some(at)
    ensures (id, at) in Created(c, es)
  {
    RunSafe(c, Created(c, es), es);
  }

  lemma FaithfulPart(c: Names, part: Intents, dom: Intents)
    requires part <= dom && Faithful(c, dom)
    ensures Faithful(c, part)
  {
  }

  /** Objects are never lost. */
  lemma LastStepKeepsStored(c: Names, dom: Intents, es: seq<Event>)
    requires es != [] && Faithful(c, dom) && Created(c, es) <= dom
    ensures Stored(c, dom, Run(c, es[..|es| - 1]).world.objects) <= Stored(c, dom, Run(c, es).world.objects)
  {
    RunSafe(c, dom, es[..|es| - 1]);
    NextKeepsSafe(c, dom, Run(c, es[..|es| - 1]), es[|es| - 1]);
  }

  lemma CreatedPrefix(c: Names, es: seq<Event>, n: nat)
    requires n <= |es|
    ensures Created(c, es[..n]) <= Created(c, es)
  {
    CreatedGrows(c, es[..n], es[n..]);
    assert es[..n] + es[n..] == es;
  }

  lemma StoredGrows(c: Names, dom: Intents, es: seq<Event>, i: nat, j: nat)
    requires i <= j <= |es| && Faithful(c, dom) && Created(c, es) <= dom
    ensures Stored(c, dom, Run(c, es[..i]).world.objects) <= Stored(c, dom, Run(c, es[..j]).world.objects)
  {
    var holds := (m: nat) => m <= |es| &&
      Stored(c, dom, Run(c, es[..i]).world.objects) <= Stored(c, dom, Run(c, es[..m]).world.objects);
    forall m: nat | i <= m < j && holds(m) ensures holds(m + 1) { StoredGrowsOnce(c, dom, es, m + 1); }
    Chain(holds, i, j);
  }

  lemma StoredGrowsOnce(c: Names, dom: Intents, es: seq<Event>, j: nat)
    requires 0 < j <= |es| && Faithful(c, dom) && Created(c, es) <= dom
    ensures Stored(c, dom, Run(c, es[..j - 1]).world.objects) <= Stored(c, dom, Run(c, es[..j]).world.objects)
  {
    CreatedPrefix(c, es, j);
    LastStepKeepsStored(c, dom, es[..j]);
    assert es[..j][..j - 1] == es[..j - 1];
  }

  lemma ManifestsPersist(c: Names, dom: Intents, es: seq<Event>, more: seq<Event>)
    requires Faithful(c, dom) && Created(c, es + more) <= dom
    ensures Stored(c, dom, Run(c, es).world.objects) <= Stored(c, dom, Run(c, es + more).world.objects)
  {
    var all := es + more;
    assert all[..|es|] == es && all[..|all|] == all;
    StoredGrows(c, dom, all, |es|, |all|);
  }

  /** A completed row was uploaded, and its manifest is stored; the incomplete-intent error is unreachable. */
  lemma ProtocolFacts(c: Names, es: seq<Event>, id: Id, owner: Id, now: Time)
    requires Faithful(c, Created(c, es))
    ensures var w := Run(c, es).world;
            && (id in w.db.outbox && w.db.outbox[id].completedAt.Some? ==>
                  w.db.outbox[id].uploadedAt.Some? && HasManifest(c, w.objects, id, w.db.outbox[id].deletedAt))
            && BeginDeletion(w.db, id, owner, now).1 != Err(IntentIncomplete)
  {
    RunSafe(c, Created(c, es), es);
    var w := Run(c, es).world;
    if id in w.db.outbox && w.db.outbox[id].completedAt.Some? {
      assert RowAllowed(w.db.outbox[id]);
      assert (id, w.db.outbox[id].deletedAt) in Stored(c, Created(c, es), w.objects);
    }
  }

  // ---------------------------------------------------------------- one worker, start to end

  datatype Fault = NoFault | EncryptFault | UploadFault | MarkFault | CompleteFault

  /**
   What the environment does during one `_complete_intent`: the clock, the first call that raises, and whether
   the failure is recorded.
  */
  datatype Attempt = Attempt(now: Time, fault: Fault, seal: nat, recorded: bool)

  function Failed(w: World, i: Intent, category: Category, a: Attempt): World {
    if a.recorded then w.(db := RecordFailure(w.db, i.sessionId, category, a.now)) else w
  }

  function FinishIntent(w: World, i: Intent, a: Attempt): (World, bool) {
    var (db, r) := CompleteDeletion(w.db, i.sessionId, i.deletedAt, a.now);
    if a.fault == CompleteFault || r != Ok(true) then (Failed(w, i, StorageFailed, a), false)
    else (w.(db := db), true)
  }

  function CompleteIntent(c: Names, w: World, i: Intent, a: Attempt): (World, bool) {
    if i.completedAt.Some? then (w, true)
    else if i.uploadedAt.Some? then FinishIntent(w, i, a)
    else if a.fault == EncryptFault then (Failed(w, i, EncryptionFailed, a), false)
    else if a.fault == UploadFault then (Failed(w, i, UploadFailed, a), false)
    else
      var w1 := Uploaded(c, w, i, a.seal);
      var (db, r) := MarkUploaded(w1.db, i.sessionId, i.deletedAt, a.now);
      if a.fault == MarkFault || r.Err? then (Failed(w1, i, StorageFailed, a), false)
      else FinishIntent(w1.(db := db), r.value, a)
  }

  /** `delete_session`; None where it raises DeletionUnavailableError. `begun` is false when the first call raises. */
  function DeleteOnce(c: Names, w: World, id: Id, owner: Id, now: Time, begun: bool,
                      a: Attempt): (World, Option<bool>) {
    var (db, b) := BeginDeletion(w.db, id, owner, now);
    if !begun || b.Err? then (w, None)
    else if b.value.None? then (w, Some(false))
    else
      var (w', ok) := CompleteIntent(c, w.(db := db), b.value.value, a);
      (w', if ok then Some(true) else None)
  }

  function ResumeAll(c: Names, w: World, intents: seq<Intent>, attempts: nat -> Attempt): (World, nat) {
    if intents == [] then (w, 0) else
    var n := |intents| - 1;
    var (w1, done) := ResumeAll(c, w, intents[..n], attempts);
    var (w2, ok) := CompleteIntent(c, w1, intents[n], attempts(n));
    (w2, if ok then done + 1 else done)
  }

  ghost function Pending(db: Db): set<Id> {
    set id | id in db.outbox && db.outbox[id].completedAt.None?
  }

  /** The copy still says what the open row says. */
  predicate Fresh(db: Db, i: Intent) {
    i.sessionId in db.outbox && i.completedAt.None? && IntentOf(i.sessionId, db.outbox[i.sessionId]) == i
  }

  ghost predicate Steady(c: Names, dom: Intents, w: World) {
    Sound(w.db, dom, Stored(c, dom, w.objects))
  }

  lemma BeginKeepsSteady(c: Names, dom: Intents, w: World, id: Id, owner: Id, now: Time)
    requires Steady(c, dom, w) && (BeginDeletion(w.db, id, owner, now).0 != w.db ==> (id, now) in dom)
    ensures Steady(c, dom, w.(db := BeginDeletion(w.db, id, owner, now).0))
  {
    BeginKeepsSound(w.db, dom, Stored(c, dom, w.objects), id, owner, now);
  }

  /**
   An attempt completes a pending intent exactly when no call it makes raises and the
   clock has not gone back behind the tombstone (the CHECKs refuse that).
   */
  predicate Succeeds(i: Intent, a: Attempt) {
    && a.now >= i.deletedAt
    && (a.fault == NoFault || (i.uploadedAt.Some? && a.fault != CompleteFault))
  }

  lemma FailedKeeps(c: Names, dom: Intents, w: World, i: Intent, category: Category, a: Attempt)
    requires Steady(c, dom, w)
    ensures Steady(c, dom, Failed(w, i, category, a))
    ensures Pending(Failed(w, i, category, a).db) == Pending(w.db)
    ensures forall j :: Fresh(w.db, j) ==> Fresh(Failed(w, i, category, a).db, j)
  {
    FailureKeepsSound(w.db, dom, Stored(c, dom, w.objects), i.sessionId, category, a.now);
  }

  lemma CompletionOutcome(db: Db, i: Intent, now: Time)
    requires Fresh(db, i) && i.uploadedAt.Some? && Paired(db) && RowAllowed(db.outbox[i.sessionId])
    ensures var (db', r) := CompleteDeletion(db, i.sessionId, i.deletedAt, now);
            && (r == Ok(true) <==> now >= i.deletedAt)
            && (r == Ok(true) ==> Pending(db') == Pending(db) - {i.sessionId} && i.sessionId !in db'.sessions)
            && (forall j :: Fresh(db, j) && j.sessionId != i.sessionId ==> Fresh(db', j))
  {
  }

  lemma FinishOutcome(c: Names, dom: Intents, w: World, i: Intent, a: Attempt)
    requires Steady(c, dom, w) && Fresh(w.db, i) && i.uploadedAt.Some?
    ensures var (w', ok) := FinishIntent(w, i, a);
            && Steady(c, dom, w')
            && (ok <==> a.now >= i.deletedAt && a.fault != CompleteFault)
            && Pending(w'.db) == (if ok then Pending(w.db) - {i.sessionId} else Pending(w.db))
            && (ok ==> i.sessionId !in w'.db.sessions)
            && (forall j :: Fresh(w.db, j) && j.sessionId != i.sessionId ==> Fresh(w'.db, j))
  {
    CompletionOutcome(w.db, i, a.now);
    FailedKeeps(c, dom, w, i, StorageFailed, a);
    CompleteKeepsSound(w.db, dom, Stored(c, dom, w.objects), i.sessionId, i.deletedAt, a.now);
  }

  lemma MarkingOutcome(db: Db, i: Intent, now: Time)
    requires Fresh(db, i) && i.uploadedAt.None?
    ensures var (db', r) := MarkUploaded(db, i.sessionId, i.deletedAt, now);
            && (r.Ok? <==> now >= i.deletedAt)
            && (r.Ok? ==> Fresh(db', r.value) && r.value == i.(uploadedAt := Some(now)))
            && Pending(db') == Pending(db)
            && (forall j :: Fresh(db, j) && j.sessionId != i.sessionId ==> Fresh(db', j))
  {
  }

  /** The object store after the upload of the intent's manifest. */
  function Uploaded(c: Names, w: World, i: Intent, seal: nat): World {
    w.(objects := w.objects[c.key(i.sessionId, i.deletedAt) := Blob(c.manifest(i.sessionId, i.deletedAt), seal)])
  }

  lemma UploadKeepsSteady(c: Names, dom: Intents, w: World, i: Intent, a: Attempt)
    requires Faithful(c, dom) && Steady(c, dom, w) && (i.sessionId, i.deletedAt) in dom
    ensures var w1 := Uploaded(c, w, i, a.seal);
            Steady(c, dom, w1) && Steady(c, dom, w1.(db := MarkUploaded(w.db, i.sessionId, i.deletedAt, a.now).0))
  {
    PutStores(c, dom, w.objects, i.sessionId, i.deletedAt, a.seal);
    var stored := Stored(c, dom, w.objects) + {(i.sessionId, i.deletedAt)};
    assert Sound(w.db, dom, stored);
    MarkKeepsSound(w.db, dom, stored, i.sessionId, i.deletedAt, a.now);
  }

  /** One attempt on one open intent: it succeeds exactly when it should, and touches nothing else. */
  lemma AttemptOutcome(c: Names, dom: Intents, w: World, i: Intent, a: Attempt)
    requires Faithful(c, dom) && Steady(c, dom, w) && Fresh(w.db, i)
    ensures var (w', ok) := CompleteIntent(c, w, i, a);
            && Steady(c, dom, w')
            && (ok <==> Succeeds(i, a))
            && Pending(w'.db) == (if ok then Pending(w.db) - {i.sessionId} else Pending(w.db))
            && (ok ==> i.sessionId !in w'.db.sessions)
            && (forall j :: Fresh(w.db, j) && j.sessionId != i.sessionId ==> Fresh(w'.db, j))
  {
    if i.uploadedAt.Some? {
      FinishOutcome(c, dom, w, i, a);
    } else if a.fault == EncryptFault {
      FailedKeeps(c, dom, w, i, EncryptionFailed, a);
    } else if a.fault == UploadFault {
      FailedKeeps(c, dom, w, i, UploadFailed, a);
    } else {
      UploadKeepsSteady(c, dom, w, i, a);
      MarkingOutcome(w.db, i, a.now);
      var w1 := Uploaded(c, w, i, a.seal);
      var (db, r) := MarkUploaded(w1.db, i.sessionId, i.deletedAt, a.now);
      if a.fault == MarkFault || r.Err? {
        FailedKeeps(c, dom, w1, i, StorageFailed, a);
      } else {
        FinishOutcome(c, dom, w1.(db := db), r.value, a);
      }
    }
  }

  ghost function Successes(intents: seq<Intent>, attempts: nat -> Attempt): set<Id> {
    set k: nat | k < |intents| && Succeeds(intents[k], attempts(k)) :: intents[k].sessionId
  }

  predicate DistinctIntents(intents: seq<Intent>) {
    forall j, k :: 0 <= j < k < |intents| ==> intents[j].sessionId != intents[k].sessionId
  }

  lemma SuccessesSnoc(intents: seq<Intent>, attempts: nat -> Attempt)
    requires intents != [] && DistinctIntents(intents)
    ensures var n := |intents| - 1;
            var before := Successes(intents[..n], attempts);
            && intents[n].sessionId !in before
            && Successes(intents, attempts) ==
               if Succeeds(intents[n], attempts(n)) then before + {intents[n].sessionId} else before
  {
    var n := |intents| - 1;
    var init := intents[..n];
    var before, all := Successes(init, attempts), Successes(intents, attempts);
    forall id | id in all ensures id in before || (Succeeds(intents[n], attempts(n)) && id == intents[n].sessionId) {
      var k: nat :| k < |intents| && Succeeds(intents[k], attempts(k)) && intents[k].sessionId == id;
      if k < n { assert Succeeds(init[k], attempts(k)); }
    }
    forall id | id in before ensures id in all {
      var k: nat :| k < n && Succeeds(init[k], attempts(k)) && init[k].sessionId == id;
      assert Succeeds(intents[k], attempts(k));
    }
  }

  ghost predicate Unlisted(intents: seq<Intent>, j: Intent) {
    forall k :: 0 <= k < |intents| ==> intents[k].sessionId != j.sessionId
  }

  /** What a pass over `intents` has done when it is in `w'` with the count `done`. */
  ghost predicate Passed(c: Names, dom: Intents, w: World, intents: seq<Intent>, attempts: nat -> Attempt, w': World,
                         done: nat) {
    && Steady(c, dom, w')
    && Pending(w'.db) == Pending(w.db) - Successes(intents, attempts)
    && done == |Successes(intents, attempts)|
    && (forall j :: Fresh(w.db, j) && Unlisted(intents, j) ==> Fresh(w'.db, j))
  }

  ghost predicate AllFresh(db: Db, intents: seq<Intent>) {
    forall k :: 0 <= k < |intents| ==> Fresh(db, intents[k])
  }

  lemma LastUnlisted(intents: seq<Intent>)
    requires intents != [] && DistinctIntents(intents)
    ensures Unlisted(intents[..|intents| - 1], intents[|intents| - 1])
    ensures forall j :: Unlisted(intents, j) ==>
            Unlisted(intents[..|intents| - 1], j) && j.sessionId != intents[|intents| - 1].sessionId
  {
  }

  lemma LastIsFresh(c: Names, dom: Intents, w: World, intents: seq<Intent>, attempts: nat -> Attempt, w1: World,
                    done: nat)
    requires intents != [] && DistinctIntents(intents) && Fresh(w.db, intents[|intents| - 1])
    requires Passed(c, dom, w, intents[..|intents| - 1], attempts, w1, done)
    ensures Steady(c, dom, w1) && Fresh(w1.db, intents[|intents| - 1])
  {
    LastUnlisted(intents);
  }

  lemma CountNext(before: set<Id>, all: set<Id>, open: set<Id>, left: set<Id>, next: set<Id>, id: Id, ok: bool,
                  done: nat)
    requires left == open - before && done == |before| && id !in before
    requires all == (if ok then before + {id} else before) && next == (if ok then left - {id} else left)
    ensures next == open - all && (if ok then done + 1 else done) == |all|
  {
  }

  lemma FreshNext(w: Db, w1: Db, w2: Db, intents: seq<Intent>)
    requires intents != [] && DistinctIntents(intents)
    requires forall j :: Fresh(w, j) && Unlisted(intents[..|intents| - 1], j) ==> Fresh(w1, j)
    requires forall j :: Fresh(w1, j) && j.sessionId != intents[|intents| - 1].sessionId ==> Fresh(w2, j)
    ensures forall j :: Fresh(w, j) && Unlisted(intents, j) ==> Fresh(w2, j)
  {
    LastUnlisted(intents);
  }

  lemma PassedNext(c: Names, dom: Intents, w: World, intents: seq<Intent>, attempts: nat -> Attempt, w1: World,
                   done: nat, w2: World, ok: bool)
    requires intents != [] && DistinctIntents(intents)
    requires Passed(c, dom, w, intents[..|intents| - 1], attempts, w1, done)
    requires var i := intents[|intents| - 1];
      && Steady(c, dom, w2) && (ok <==> Succeeds(i, attempts(|intents| - 1)))
      && Pending(w2.db) == (if ok then Pending(w1.db) - {i.sessionId} else Pending(w1.db))
      && (forall j :: Fresh(w1.db, j) && j.sessionId != i.sessionId ==> Fresh(w2.db, j))
    ensures Passed(c, dom, w, intents, attempts, w2, if ok then done + 1 else done)
  {
    SuccessesSnoc(intents, attempts);
    FreshNext(w.db, w1.db, w2.db, intents);
    CountNext(Successes(intents[..|intents| - 1], attempts), Successes(intents, attempts), Pending(w.db),
              Pending(w1.db), Pending(w2.db),
              intents[|intents| - 1].sessionId, ok, done);
  }

  lemma PrefixFine(db: Db, intents: seq<Intent>)
    requires intents != [] && DistinctIntents(intents) && AllFresh(db, intents)
    ensures DistinctIntents(intents[..|intents| - 1]) && AllFresh(db, intents[..|intents| - 1])
            && Fresh(db, intents[|intents| - 1])
  {
  }

  /** A pass over a listing completes exactly the intents whose attempts succeed, and counts them. */
  lemma {:induction false} ResumeOutcome(c: Names, dom: Intents, w: World, intents: seq<Intent>,
                                         attempts: nat -> Attempt)
    requires Faithful(c, dom) && Steady(c, dom, w) && DistinctIntents(intents) && AllFresh(w.db, intents)
    ensures var (w', done) := ResumeAll(c, w, intents, attempts); Passed(c, dom, w, intents, attempts, w', done)
  {
    if intents == [] {
      PassedNothing(c, dom, w, attempts);
    } else {
      var n := |intents| - 1;
      PrefixFine(w.db, intents);
      ResumeOutcome(c, dom, w, intents[..n], attempts);
      var (w1, done) := ResumeAll(c, w, intents[..n], attempts);
      ResumeNext(c, dom, w, intents, attempts, w1, done);
      ResumeUnfold(c, w, intents, attempts);
    }
  }

  lemma ResumeUnfold(c: Names, w: World, intents: seq<Intent>, attempts: nat -> Attempt)
    requires intents != []
    ensures var n := |intents| - 1;
      var (w1, done) := ResumeAll(c, w, intents[..n], attempts);
      var (w2, ok) := CompleteIntent(c, w1, intents[n], attempts(n));
      ResumeAll(c, w, intents, attempts) == (w2, if ok then done + 1 else done)
  {
  }

  /** The last intent of a pass. */
  lemma ResumeNext(c: Names, dom: Intents, w: World, intents: seq<Intent>, attempts: nat -> Attempt, w1: World,
                   done: nat)
    requires Faithful(c, dom) && intents != [] && DistinctIntents(intents) && AllFresh(w.db, intents)
    requires Passed(c, dom, w, intents[..|intents| - 1], attempts, w1, done)
    ensures var (w2, ok) := CompleteIntent(c, w1, intents[|intents| - 1], attempts(|intents| - 1));
      Passed(c, dom, w, intents, attempts, w2, if ok then done + 1 else done)
  {
    var n := |intents| - 1;
    var (w2, ok) := CompleteIntent(c, w1, intents[n], attempts(n));
    LastIsFresh(c, dom, w, intents, attempts, w1, done);
    AttemptOutcome(c, dom, w1, intents[n], attempts(n));
    PassedNext(c, dom, w, intents, attempts, w1, done, w2, ok);
  }

  lemma PassedNothing(c: Names, dom: Intents, w: World, attempts: nat -> Attempt)
    requires Steady(c, dom, w)
    ensures Passed(c, dom, w, [], attempts, w, 0)
  {
    assert Successes([], attempts) == {};
  }

  // ---------------------------------------------------------------- the listing and the drain

  /** ORDER BY deleted_at, session_id. */
  predicate Precedes(db: Db, a: Id, b: Id)
    requires a in db.outbox && b in db.outbox
  {
    db.outbox[a].deletedAt < db.outbox[b].deletedAt || (db.outbox[a].deletedAt == db.outbox[b].deletedAt && a < b)
  }

  predicate IsFirst(db: Db, ids: set<Id>, m: Id)
    requires ids <= db.outbox.Keys
  {
    m in ids && forall x :: x in ids && x != m ==> Precedes(db, m, x)
  }

  lemma {:induction false} FirstExists(db: Db, ids: set<Id>)
    requires ids != {} && ids <= db.outbox.Keys
    ensures exists m :: IsFirst(db, ids, m)
    decreases |ids|
  {
    var x :| x in ids;
    if ids == {x} {
      assert IsFirst(db, ids, x);
    } else {
      FirstExists(db, ids - {x});
      var y :| IsFirst(db, ids - {x}, y);
      var m := if Precedes(db, x, y) then x else y;
      forall z | z in ids && z != m ensures Precedes(db, m, z) {
        assert z == x || z in ids - {x};
      }
      assert IsFirst(db, ids, m);
    }
  }

  /** The first `limit` of the given open rows. */
  ghost function Listing(db: Db, ids: set<Id>, limit: nat): seq<Intent>
    requires ids <= db.outbox.Keys
    decreases |ids|
  {
    if limit == 0 || ids == {} then [] else
    FirstExists(db, ids);
    var m: Id :| IsFirst(db, ids, m);
    [IntentOf(m, db.outbox[m])] + Listing(db, ids - {m}, limit - 1)
  }

  /** The listing starts with the least intent. */
  lemma FirstListed(db: Db, ids: set<Id>, limit: nat) returns (m: Id)
    requires ids <= db.outbox.Keys && limit > 0 && ids != {}
    ensures IsFirst(db, ids, m) && Listing(db, ids, limit) == [IntentOf(m, db.outbox[m])]
            + Listing(db, ids - {m}, limit - 1)
  {
    FirstExists(db, ids);
    m :| IsFirst(db, ids, m);
    ListingUnfold(db, ids, limit, m);
  }

  /** The listing names `limit` of the intents, or all of them, each once and as its row says. */
  lemma {:induction false} ListingMeaning(db: Db, ids: set<Id>, limit: nat)
    requires ids <= db.outbox.Keys
    ensures |Listing(db, ids, limit)| == if |ids| <= limit then |ids| else limit
    ensures forall i :: i in Listing(db, ids, limit) ==>
            i.sessionId in ids && i == IntentOf(i.sessionId, db.outbox[i.sessionId])
    ensures DistinctIntents(Listing(db, ids, limit))
    decreases limit
  {
    if limit > 0 && ids != {} {
      var m := FirstListed(db, ids, limit);
      ListingMeaning(db, ids - {m}, limit - 1);
      DistinctCons(IntentOf(m, db.outbox[m]), Listing(db, ids - {m}, limit - 1));
    }
  }

  lemma DistinctCons(i: Intent, rest: seq<Intent>)
    requires DistinctIntents(rest) && forall j :: j in rest ==> j.sessionId != i.sessionId
    ensures DistinctIntents([i] + rest)
  {
  }

  predicate Earlier(db: Db, a: Intent, b: Id) {
    a.sessionId in db.outbox && b in db.outbox && Precedes(db, a.sessionId, b)
  }

  ghost predicate InOrder(db: Db, r: seq<Intent>) {
    forall j, k :: 0 <= j < k < |r| ==> Earlier(db, r[j], r[k].sessionId)
  }

  lemma InOrderCons(db: Db, m: Intent, rest: seq<Intent>)
    requires InOrder(db, rest) && forall i :: i in rest ==> Earlier(db, m, i.sessionId)
    ensures InOrder(db, [m] + rest)
  {
    var r := [m] + rest;
    forall j, k | 0 <= j < k < |r| ensures Earlier(db, r[j], r[k].sessionId) {
      assert rest[k - 1] in rest && r[k] == rest[k - 1];
      assert j > 0 ==> r[j] == rest[j - 1];
    }
  }

  /** The listing is in order. */
  lemma {:induction false} ListingOrdered(db: Db, ids: set<Id>, limit: nat)
    requires ids <= db.outbox.Keys
    ensures InOrder(db, Listing(db, ids, limit))
    decreases limit
  {
    if limit > 0 && ids != {} {
      var m := FirstListed(db, ids, limit);
      ListingOrdered(db, ids - {m}, limit - 1);
      ListingMeaning(db, ids - {m}, limit - 1);
      InOrderCons(db, IntentOf(m, db.outbox[m]), Listing(db, ids - {m}, limit - 1));
    }
  }

  /** No intent left out comes before one listed. */
  lemma {:induction false} ListingTakesFirst(db: Db, ids: set<Id>, limit: nat, i: Intent, x: Id)
    requires ids <= db.outbox.Keys && i in Listing(db, ids, limit) && x in ids
    requires forall j :: j in Listing(db, ids, limit) ==> j.sessionId != x
    ensures Earlier(db, i, x)
    decreases limit
  {
    var m := FirstListed(db, ids, limit);
    ListingMeaning(db, ids - {m}, limit - 1);
    var first, rest := IntentOf(m, db.outbox[m]), Listing(db, ids - {m}, limit - 1);
    assert first in [first] + rest;
    if i != first {
      forall j | j in rest ensures j.sessionId != x { assert j in [first] + rest; }
      ListingTakesFirst(db, ids - {m}, limit - 1, i, x);
    }
  }

  predicate Clean(intents: seq<Intent>, attempts: nat -> Attempt) {
    forall k: nat :: k < |intents| ==> attempts(k).fault == NoFault && attempts(k).now >= intents[k].deletedAt
  }

  /** With working services and a clock that has not gone back, a pass completes min(limit, pending) intents. */
  lemma CleanPass(c: Names, dom: Intents, w: World, limit: nat, attempts: nat -> Attempt)
    requires Faithful(c, dom) && Steady(c, dom, w)
    requires Clean(Listing(w.db, Pending(w.db), limit), attempts)
    ensures var intents := Listing(w.db, Pending(w.db), limit);
            var (w', done) := ResumeAll(c, w, intents, attempts);
            && Steady(c, dom, w')
            && done == (if |Pending(w.db)| <= limit then |Pending(w.db)| else limit)
            && |Pending(w'.db)| == |Pending(w.db)| - done
            && Pending(w'.db) <= Pending(w.db)
  {
    var intents := Listing(w.db, Pending(w.db), limit);
    ListingMeaning(w.db, Pending(w.db), limit);
    forall k | 0 <= k < |intents| ensures Fresh(w.db, intents[k]) { assert intents[k] in intents; }
    ResumeOutcome(c, dom, w, intents, attempts);
    AllSucceed(intents, attempts);
    forall id | id in Successes(intents, attempts) ensures id in Pending(w.db) {
      var k: nat :| k < |intents| && Succeeds(intents[k], attempts(k)) && intents[k].sessionId == id;
      assert intents[k] in intents;
    }
  }

  lemma {:induction false} AllSucceed(intents: seq<Intent>, attempts: nat -> Attempt)
    requires DistinctIntents(intents) && Clean(intents, attempts)
    ensures |Successes(intents, attempts)| == |intents|
  {
    if intents == [] {
      assert Successes(intents, attempts) == {};
    } else {
      AllSucceed(intents[..|intents| - 1], attempts);
      SuccessesSnoc(intents, attempts);
    }
  }

  /** Every call succeeds, at the instant `now`. */
  function Ideal(now: Time): nat -> Attempt {
    k => Attempt(now, NoFault, 0, true)
  }

  ghost function Pass(c: Names, w: World, limit: nat, now: Time): World {
    ResumeAll(c, w, Listing(w.db, Pending(w.db), limit), Ideal(now)).0
  }

  /** Consecutive passes: each world is the one before after a clean pass. */
  ghost predicate Passes(c: Names, ws: seq<World>, limit: nat, now: Time) {
    forall k :: 0 < k < |ws| ==> ws[k] == Pass(c, ws[k - 1], limit, now)
  }

  ghost predicate ClockAfter(db: Db, now: Time) {
    forall id :: id in Pending(db) ==> db.outbox[id].deletedAt <= now
  }

  lemma PassKeepsClock(c: Names, dom: Intents, w: World, limit: nat, now: Time)
    requires Faithful(c, dom) && Steady(c, dom, w) && ClockAfter(w.db, now)
    ensures Clean(Listing(w.db, Pending(w.db), limit), Ideal(now))
  {
    var intents := Listing(w.db, Pending(w.db), limit);
    ListingMeaning(w.db, Pending(w.db), limit);
    forall k: nat | k < |intents| ensures now >= intents[k].deletedAt { assert intents[k] in intents; }
  }

  ghost predicate SameTimes(db: Db, db': Db) {
    forall id :: id in db'.outbox ==> id in db.outbox && db'.outbox[id].deletedAt == db.outbox[id].deletedAt
  }

  lemma FinishKeepsTimes(w: World, i: Intent, a: Attempt)
    ensures SameTimes(w.db, FinishIntent(w, i, a).0.db)
  {
  }

  /** An attempt changes no tombstone time. */
  lemma AttemptKeepsTimes(c: Names, dom: Intents, w: World, i: Intent, a: Attempt)
    ensures SameTimes(w.db, CompleteIntent(c, w, i, a).0.db)
  {
    FinishKeepsTimes(w, i, a);
    var (db, r) := MarkUploaded(w.db, i.sessionId, i.deletedAt, a.now);
    if r.Ok? { FinishKeepsTimes(Uploaded(c, w, i, a.seal).(db := db), r.value, a); }
  }

  lemma {:induction false} PassKeepsTimes(c: Names, dom: Intents, w: World, intents: seq<Intent>,
                                          attempts: nat -> Attempt)
    ensures SameTimes(w.db, ResumeAll(c, w, intents, attempts).0.db)
  {
    if intents != [] {
      var n := |intents| - 1;
      PassKeepsTimes(c, dom, w, intents[..n], attempts);
      AttemptKeepsTimes(c, dom, ResumeAll(c, w, intents[..n], attempts).0, intents[n], attempts(n));
    }
  }

  ghost predicate Drainable(c: Names, dom: Intents, w: World, now: Time) {
    Steady(c, dom, w) && ClockAfter(w.db, now)
  }

  lemma IdealPass(c: Names, dom: Intents, w: World, limit: nat, now: Time)
    requires Faithful(c, dom) && Drainable(c, dom, w, now)
    ensures Drainable(c, dom, Pass(c, w, limit, now), now)
    ensures |Pending(Pass(c, w, limit, now).db)| == (if |Pending(w.db)| <= limit then 0 else |Pending(w.db)| - limit)
  {
    PassKeepsClock(c, dom, w, limit, now);
    CleanPass(c, dom, w, limit, Ideal(now));
    PassKeepsTimes(c, dom, w, Listing(w.db, Pending(w.db), limit), Ideal(now));
    var w' := Pass(c, w, limit, now);
    forall id | id in Pending(w'.db) ensures w'.db.outbox[id].deletedAt <= now {
      assert id in Pending(w.db);
    }
  }

  /** Each clean pass shrinks the outbox. */
  lemma {:induction false} PassesShrink(c: Names, dom: Intents, ws: seq<World>, limit: nat, now: Time, k: nat)
    requires Faithful(c, dom) && Passes(c, ws, limit, now) && k < |ws| && Drainable(c, dom, ws[0], now) && limit >= 1
    ensures Drainable(c, dom, ws[k], now)
    ensures |Pending(ws[k].db)| <= (if |Pending(ws[0].db)| <= k then 0 else |Pending(ws[0].db)| - k)
  {
    if k > 0 {
      PassesShrink(c, dom, ws, limit, now, k - 1);
      IdealPass(c, dom, ws[k - 1], limit, now);
    }
  }

  /** Whatever crashed before, repeated clean passes drain the outbox and remove every tombstoned session. */
  lemma RecoveryDrains(c: Names, es: seq<Event>, ws: seq<World>, limit: nat, now: Time, k: nat)
    requires Faithful(c, Created(c, es)) && limit >= 1 && Passes(c, ws, limit, now) && k < |ws|
    requires ws[0] == Run(c, es).world && ClockAfter(ws[0].db, now) && k >= |Pending(ws[0].db)|
    ensures Pending(ws[k].db) == {}
    ensures forall id :: id in ws[k].db.sessions ==> ws[k].db.sessions[id].deletedAt.None?
  {
    var dom := Created(c, es);
    RunSafe(c, dom, es);
    PassesShrink(c, dom, ws, limit, now, k);
    forall id | id in ws[k].db.sessions ensures ws[k].db.sessions[id].deletedAt.None? {
      assert id !in Pending(ws[k].db);
    }
  }

  // ---------------------------------------------------------------- attempts are runs of workers

  function RunFrom(c: Names, s: System, es: seq<Event>): System {
    if es == [] then s else Next(c, RunFrom(c, s, es[..|es| - 1]), es[|es| - 1])
  }

  lemma {:induction false} RunFromConcat(c: Names, s: System, es: seq<Event>, more: seq<Event>)
    ensures RunFrom(c, s, es + more) == RunFrom(c, RunFrom(c, s, es), more)
  {
    if more == [] {
      assert es + more == es;
    } else {
      assert (es + more)[..|es + more| - 1] == es + more[..|more| - 1];
      RunFromConcat(c, s, es, more[..|more| - 1]);
    }
  }

  /** A worker's own step: nothing of the database jobs and no new tombstone. */
  predicate OwnStep(e: Event) {
    e.Pick? || e.Seal? || e.Put? || e.Mark? || e.Skip? || e.Complete? || e.Fail? || e.Crash?
  }

  predicate OwnSteps(es: seq<Event>) {
    forall e :: e in es ==> OwnStep(e)
  }

  /** The worker's steps when `_complete_intent` finishes an uploaded intent. */
  function FinishSteps(db: Db, w: nat, i: Intent, a: Attempt): seq<Event> {
    if a.fault == CompleteFault then [Fail(w, StorageFailed, a.now, a.recorded)]
    else if CompleteDeletion(db, i.sessionId, i.deletedAt, a.now).1 == Ok(true) then [Complete(w, a.now)]
    else [Complete(w, a.now), Fail(w, StorageFailed, a.now, a.recorded)]
  }

  /** The worker's steps in one `_complete_intent`, for every fault and every intent. */
  function AttemptSteps(db: Db, w: nat, i: Intent, a: Attempt): seq<Event> {
    if i.completedAt.Some? then [Crash(w)]
    else if i.uploadedAt.Some? then [Skip(w)] + FinishSteps(db, w, i, a)
    else if a.fault == EncryptFault then [Fail(w, EncryptionFailed, a.now, a.recorded)]
    else if a.fault == UploadFault then [Seal(w, a.seal), Fail(w, UploadFailed, a.now, a.recorded)]
    else if a.fault == MarkFault then [Seal(w, a.seal), Put(w), Fail(w, StorageFailed, a.now, a.recorded)]
    else
      var (db', r) := MarkUploaded(db, i.sessionId, i.deletedAt, a.now);
      [Seal(w, a.seal), Put(w), Mark(w, a.now)]
      + if r.Ok? then FinishSteps(db', w, r.value, a) else [Fail(w, StorageFailed, a.now, a.recorded)]
  }

  lemma RunOne(c: Names, s: System, e: Event)
    ensures RunFrom(c, s, [e]) == Next(c, s, e)
  {
    assert [e][..0] == [];
  }

  lemma RunTwo(c: Names, s: System, e: Event, f: Event)
    ensures RunFrom(c, s, [e, f]) == Next(c, Next(c, s, e), f)
  {
    assert [e, f][..1] == [e];
    RunOne(c, s, e);
  }

  lemma RunThree(c: Names, s: System, e: Event, f: Event, g: Event)
    ensures RunFrom(c, s, [e, f, g]) == Next(c, Next(c, Next(c, s, e), f), g)
  {
    assert [e, f, g][..2] == [e, f];
    RunTwo(c, s, e, f);
  }

  /** The system after worker `w` has done its work: the world as given, the worker idle, the others as they were. */
  predicate Finished(s: System, w: nat, world: World, t: System) {
    t.world == world && WorkerAt(t, w) == Idle && forall n: nat :: n != w && n in s.workers.Keys + t.workers.Keys ==>
      WorkerAt(t, n) == WorkerAt(s, n)
  }

  lemma FinishIsWorkerRun(c: Names, s: System, w: nat, i: Intent, a: Attempt)
    requires WorkerAt(s, w) == Ready(i)
    ensures Finished(s, w, FinishIntent(s.world, i, a).0, RunFrom(c, s, FinishSteps(s.world.db, w, i, a)))
  {
    var fail := Fail(w, StorageFailed, a.now, a.recorded);
    RunOne(c, s, fail);
    RunOne(c, s, Complete(w, a.now));
    RunTwo(c, s, Complete(w, a.now), fail);
  }

  lemma UploadIsWorkerRun(c: Names, s: System, w: nat, i: Intent, a: Attempt)
    requires WorkerAt(s, w) == Started(i) && i.uploadedAt.None? && i.completedAt.None?
    ensures var t := Next(c, Next(c, s, Seal(w, a.seal)), Put(w));
      t.world == Uploaded(c, s.world, i, a.seal) && WorkerAt(t, w) == Worker.Stored(i)
      && t.workers == s.workers[w := Worker.Stored(i)]
  {
    var t := Next(c, s, Seal(w, a.seal));
    assert WorkerAt(t, w) == Sealed(i, Blob(c.manifest(i.sessionId, i.deletedAt), a.seal));
  }

  lemma UploadMarkIsRun(c: Names, s: System, w: nat, i: Intent, a: Attempt)
    requires WorkerAt(s, w) == Started(i) && i.uploadedAt.None? && i.completedAt.None?
    ensures var (t, r) := (RunFrom(c, s, [Seal(w, a.seal), Put(w), Mark(w, a.now)]),
                           MarkUploaded(s.world.db, i.sessionId, i.deletedAt, a.now));
      && t.world == Uploaded(c, s.world, i, a.seal).(db := r.0)
      && t.workers == s.workers[w := if r.1.Ok? then Ready(r.1.value) else Worker.Stored(i)]
  {
    UploadIsWorkerRun(c, s, w, i, a);
    RunThree(c, s, Seal(w, a.seal), Put(w), Mark(w, a.now));
  }

  lemma MarkIsWorkerRun(c: Names, s: System, w: nat, i: Intent, a: Attempt)
    requires WorkerAt(s, w) == Started(i) && i.uploadedAt.None? && i.completedAt.None?
    requires a.fault != EncryptFault && a.fault != UploadFault && a.fault != MarkFault
    ensures Finished(s, w, CompleteIntent(c, s.world, i, a).0, RunFrom(c, s, AttemptSteps(s.world.db, w, i, a)))
  {
    UploadMarkIsRun(c, s, w, i, a);
    var steps := [Seal(w, a.seal), Put(w), Mark(w, a.now)];
    var t := RunFrom(c, s, steps);
    var (db', r) := MarkUploaded(s.world.db, i.sessionId, i.deletedAt, a.now);
    if r.Ok? {
      RunFromConcat(c, s, steps, FinishSteps(db', w, r.value, a));
      FinishIsWorkerRun(c, t, w, r.value, a);
    } else {
      var fail := Fail(w, StorageFailed, a.now, a.recorded);
      RunFromConcat(c, s, steps, [fail]);
      RunOne(c, t, fail);
    }
  }

  lemma UploadedIsWorkerRun(c: Names, s: System, w: nat, i: Intent, a: Attempt)
    requires WorkerAt(s, w) == Started(i) && i.uploadedAt.Some? && i.completedAt.None?
    ensures Finished(s, w, CompleteIntent(c, s.world, i, a).0, RunFrom(c, s, AttemptSteps(s.world.db, w, i, a)))
  {
    var t := Next(c, s, Skip(w));
    RunOne(c, s, Skip(w));
    RunFromConcat(c, s, [Skip(w)], FinishSteps(s.world.db, w, i, a));
    FinishIsWorkerRun(c, t, w, i, a);
  }

  lemma FaultIsWorkerRun(c: Names, s: System, w: nat, i: Intent, a: Attempt)
    requires WorkerAt(s, w) == Started(i) && i.uploadedAt.None? && i.completedAt.None?
    requires a.fault == EncryptFault || a.fault == UploadFault || a.fault == MarkFault
    ensures Finished(s, w, CompleteIntent(c, s.world, i, a).0, RunFrom(c, s, AttemptSteps(s.world.db, w, i, a)))
  {
    if a.fault == EncryptFault {
      RunOne(c, s, Fail(w, EncryptionFailed, a.now, a.recorded));
    } else if a.fault == UploadFault {
      UploadFaultIsWorkerRun(c, s, w, i, a);
    } else {
      MarkFaultIsWorkerRun(c, s, w, i, a);
    }
  }

  lemma UploadFaultIsWorkerRun(c: Names, s: System, w: nat, i: Intent, a: Attempt)
    requires WorkerAt(s, w) == Started(i) && i.uploadedAt.None? && i.completedAt.None? && a.fault == UploadFault
    ensures Finished(s, w, CompleteIntent(c, s.world, i, a).0, RunFrom(c, s, AttemptSteps(s.world.db, w, i, a)))
  {
    RunTwo(c, s, Seal(w, a.seal), Fail(w, UploadFailed, a.now, a.recorded));
  }

  lemma MarkFaultIsWorkerRun(c: Names, s: System, w: nat, i: Intent, a: Attempt)
    requires WorkerAt(s, w) == Started(i) && i.uploadedAt.None? && i.completedAt.None? && a.fault == MarkFault
    ensures Finished(s, w, CompleteIntent(c, s.world, i, a).0, RunFrom(c, s, AttemptSteps(s.world.db, w, i, a)))
  {
    UploadIsWorkerRun(c, s, w, i, a);
    RunThree(c, s, Seal(w, a.seal), Put(w), Fail(w, StorageFailed, a.now, a.recorded));
  }

  lemma StepsAreOwn(db: Db, w: nat, i: Intent, a: Attempt)
    ensures OwnSteps(AttemptSteps(db, w, i, a))
  {
  }

  /** Every attempt, whatever fails in it, is what a worker does when nobody interleaves. */
  lemma AttemptIsWorkerRun(c: Names, s: System, w: nat, i: Intent, a: Attempt)
    requires WorkerAt(s, w) == Started(i)
    ensures Finished(s, w, CompleteIntent(c, s.world, i, a).0, RunFrom(c, s, AttemptSteps(s.world.db, w, i, a)))
    ensures OwnSteps(AttemptSteps(s.world.db, w, i, a))
  {
    StepsAreOwn(s.world.db, w, i, a);
    if i.completedAt.Some? {
      RunOne(c, s, Crash(w));
    } else if i.uploadedAt.Some? {
      UploadedIsWorkerRun(c, s, w, i, a);
    } else if a.fault == EncryptFault || a.fault == UploadFault || a.fault == MarkFault {
      FaultIsWorkerRun(c, s, w, i, a);
    } else {
      MarkIsWorkerRun(c, s, w, i, a);
    }
  }

  /** The listing read by a pass: one worker for each intent, holding its copy. */
  function Picks(intents: seq<Intent>): seq<Event> {
    if intents == [] then []
    else Picks(intents[..|intents| - 1]) + [Pick(|intents| - 1, intents[|intents| - 1].sessionId)]
  }

  function ResumeSteps(c: Names, w: World, intents: seq<Intent>, attempts: nat -> Attempt): seq<Event> {
    if intents == [] then [] else
    var n := |intents| - 1;
    ResumeSteps(c, w, intents[..n], attempts)
      + AttemptSteps(ResumeAll(c, w, intents[..n], attempts).0.db, n, intents[n], attempts(n))
  }

  ghost predicate Holding(s: System, intents: seq<Intent>, from: nat) {
    forall k: nat :: from <= k < |intents| ==> WorkerAt(s, k) == Started(intents[k])
  }

  lemma PickHolds(c: Names, t: System, intents: seq<Intent>, n: nat)
    requires n < |intents| && Fresh(t.world.db, intents[n]) && Holding(t, intents[..n], 0)
    ensures var e := Pick(n, intents[n].sessionId);
      Next(c, t, e).world == t.world && Holding(Next(c, t, e), intents[..n + 1], 0)
  {
    var u := Next(c, t, Pick(n, intents[n].sessionId));
    forall k: nat | k < n + 1 ensures WorkerAt(u, k) == Started(intents[..n + 1][k]) {
      if k < n { assert WorkerAt(t, k) == Started(intents[..n][k]); }
    }
  }

  lemma {:induction false} PicksHold(c: Names, s: System, intents: seq<Intent>, n: nat)
    requires n <= |intents| && AllFresh(s.world.db, intents)
    ensures RunFrom(c, s, Picks(intents[..n])).world == s.world
            && Holding(RunFrom(c, s, Picks(intents[..n])), intents[..n], 0)
    ensures OwnSteps(Picks(intents[..n]))
  {
    if n > 0 {
      PicksHold(c, s, intents, n - 1);
      PicksUnfold(intents, n);
      OnePickMore(c, s, Picks(intents[..n - 1]), intents, n - 1);
    }
  }

  lemma PicksUnfold(intents: seq<Intent>, n: nat)
    requires 0 < n <= |intents|
    ensures Picks(intents[..n]) == Picks(intents[..n - 1]) + [Pick(n - 1, intents[n - 1].sessionId)]
  {
    assert intents[..n][..n - 1] == intents[..n - 1];
  }

  lemma OnePickMore(c: Names, s: System, before: seq<Event>, intents: seq<Intent>, n: nat)
    requires n < |intents| && AllFresh(s.world.db, intents) && OwnSteps(before)
    requires RunFrom(c, s, before).world == s.world && Holding(RunFrom(c, s, before), intents[..n], 0)
    ensures var es := before + [Pick(n, intents[n].sessionId)];
      RunFrom(c, s, es).world == s.world && Holding(RunFrom(c, s, es), intents[..n + 1], 0) && OwnSteps(es)
  {
    var e := Pick(n, intents[n].sessionId);
    RunFromConcat(c, s, before, [e]);
    RunOne(c, RunFrom(c, s, before), e);
    PickHolds(c, RunFrom(c, s, before), intents, n);
  }

  lemma ResumeStepsUnfold(c: Names, w: World, intents: seq<Intent>, attempts: nat -> Attempt, n: nat)
    requires n < |intents|
    ensures var w1 := ResumeAll(c, w, intents[..n], attempts).0;
      && ResumeAll(c, w, intents[..n + 1], attempts).0 == CompleteIntent(c, w1, intents[n], attempts(n)).0
      && ResumeSteps(c, w, intents[..n + 1], attempts)
         == ResumeSteps(c, w, intents[..n], attempts) + AttemptSteps(w1.db, n, intents[n], attempts(n))
  {
    assert intents[..n + 1][..n] == intents[..n];
    ResumeUnfold(c, w, intents[..n + 1], attempts);
  }

  lemma OwnConcat(es: seq<Event>, more: seq<Event>)
    requires OwnSteps(es) && OwnSteps(more)
    ensures OwnSteps(es + more)
  {
  }

  /** One more attempt after the steps `es`, which led to `t`. */
  lemma ResumeStepRun(c: Names, s: System, es: seq<Event>, t: System, intents: seq<Intent>, n: nat, a: Attempt)
    requires t == RunFrom(c, s, es) && OwnSteps(es) && n < |intents| && Holding(t, intents, n)
    ensures var more := AttemptSteps(t.world.db, n, intents[n], a);
      && RunFrom(c, s, es + more).world == CompleteIntent(c, t.world, intents[n], a).0
      && Holding(RunFrom(c, s, es + more), intents, n + 1) && OwnSteps(es + more)
  {
    var more := AttemptSteps(t.world.db, n, intents[n], a);
    AttemptIsWorkerRun(c, t, n, intents[n], a);
    RunFromConcat(c, s, es, more);
    OwnConcat(es, more);
    HoldingOn(t, n, CompleteIntent(c, t.world, intents[n], a).0, RunFrom(c, t, more), intents);
  }

  /** The first `n` intents of a pass, done by workers 0 to n - 1. */
  ghost predicate StepsDone(c: Names, s: System, intents: seq<Intent>, attempts: nat -> Attempt, n: nat)
    requires n <= |intents|
  {
    var es := ResumeSteps(c, s.world, intents[..n], attempts);
    var t := RunFrom(c, s, es);
    t.world == ResumeAll(c, s.world, intents[..n], attempts).0 && Holding(t, intents, n) && OwnSteps(es)
  }

  lemma StepsDoneNext(c: Names, s: System, intents: seq<Intent>, attempts: nat -> Attempt, n: nat)
    requires n < |intents| && StepsDone(c, s, intents, attempts, n)
    ensures StepsDone(c, s, intents, attempts, n + 1)
  {
    var before := ResumeSteps(c, s.world, intents[..n], attempts);
    ResumeStepsUnfold(c, s.world, intents, attempts, n);
    ResumeStepRun(c, s, before, RunFrom(c, s, before), intents, n, attempts(n));
  }

  lemma {:induction false} ResumeStepsRun(c: Names, s: System, intents: seq<Intent>, attempts: nat -> Attempt, n: nat)
    requires n <= |intents| && Holding(s, intents, 0)
    ensures StepsDone(c, s, intents, attempts, n)
  {
    if n == 0 {
      assert intents[..0] == [];
    } else {
      ResumeStepsRun(c, s, intents, attempts, n - 1);
      StepsDoneNext(c, s, intents, attempts, n - 1);
    }
  }

  lemma HoldingOn(s: System, w: nat, world: World, t: System, intents: seq<Intent>)
    requires Finished(s, w, world, t) && Holding(s, intents, w)
    ensures Holding(t, intents, w + 1)
  {
    forall k: nat | w + 1 <= k < |intents| ensures WorkerAt(t, k) == Started(intents[k]) {
      assert WorkerAt(s, k) == Started(intents[k]);
      assert k in s.workers.Keys;
    }
  }

  lemma {:induction false} RunSplits(c: Names, es: seq<Event>, more: seq<Event>)
    ensures Run(c, es + more) == RunFrom(c, Run(c, es), more)
    ensures OwnSteps(more) ==> Created(c, es + more) == Created(c, es)
  {
    if more == [] {
      assert es + more == es;
    } else {
      assert (es + more)[..|es + more| - 1] == es + more[..|more| - 1];
      RunSplits(c, es, more[..|more| - 1]);
      assert more[|more| - 1] in more;
    }
  }

  /** A pass of `resume_pending`, whatever fails in it, is itself part of a run, and creates no intent. */
  lemma ResumeIsRun(c: Names, es: seq<Event>, intents: seq<Intent>, attempts: nat -> Attempt) returns (more: seq<Event>)
    requires AllFresh(Run(c, es).world.db, intents)
    ensures Run(c, es + more).world == ResumeAll(c, Run(c, es).world, intents, attempts).0
    ensures Created(c, es + more) == Created(c, es)
  {
    var s := Run(c, es);
    assert intents[..|intents|] == intents;
    PicksHold(c, s, intents, |intents|);
    var t := RunFrom(c, s, Picks(intents));
    ResumeStepsRun(c, t, intents, attempts, |intents|);
    var steps := ResumeSteps(c, t.world, intents, attempts);
    more := Picks(intents) + steps;
    RunFromConcat(c, s, Picks(intents), steps);
    RunSplits(c, es, more);
  }

  // ---------------------------------------------------------------- the repository and the service

  class Repository {
    var sessions: map<Id, SessionRow>
    var outbox: map<Id, OutboxRow>

    function Tables(): Db
      reads this
    {
      Db(sessions, outbox)
    }

    constructor ()
      ensures Tables() == Db(map[], map[])
    {
      sessions, outbox := map[], map[];
    }

    method BeginSessionDeletion(id: Id, owner: Id, now: Time) returns (r: Result<Option<Intent>, DbError>)
      modifies this
      ensures (Tables(), r) == BeginDeletion(old(Tables()), id, owner, now)
    {
      if id !in sessions || sessions[id].owner != owner { return Ok(None); }
      if sessions[id].deletedAt.None? {
        if id in outbox { return Err(DuplicateKey); }
        sessions := sessions[id := sessions[id].(deletedAt := Some(now))];
        outbox := outbox[id := OutboxRow(now, None, None, now, None)];
      }
      if id !in outbox { return Err(IntentIncomplete); }
      return Ok(Some(IntentOf(id, outbox[id])));
    }

    method MarkManifestUploaded(id: Id, at: Time, now: Time) returns (r: Result<Intent, DbError>)
      modifies this
      ensures (Tables(), r) == MarkUploaded(old(Tables()), id, at, now)
    {
      if id !in outbox || outbox[id].deletedAt != at { return Err(IntentMissing); }
      if outbox[id].uploadedAt.None? && outbox[id].completedAt.None? {
        var marked := outbox[id].(uploadedAt := Some(now), attemptedAt := now, error := None);
        if !RowAllowed(marked) { return Err(CheckViolation); }
        outbox := outbox[id := marked];
      }
      return Ok(IntentOf(id, outbox[id]));
    }

    method CompleteSessionDeletion(id: Id, at: Time, now: Time) returns (r: Result<bool, DbError>)
      modifies this
      ensures (Tables(), r) == CompleteDeletion(old(Tables()), id, at, now)
    {
      if id !in outbox || outbox[id].deletedAt != at || outbox[id].uploadedAt.None? { return Ok(false); }
      if outbox[id].completedAt.Some? { return Ok(true); }
      var row := outbox[id].(completedAt := Some(now), attemptedAt := now, error := None);
      if !RowAllowed(row) { return Err(CheckViolation); }
      if id in sessions && sessions[id].deletedAt == Some(at) { sessions := sessions - {id}; }
      outbox := outbox[id := row];
      return Ok(true);
    }

    method RecordDeletionFailure(id: Id, category: Category, now: Time)
      modifies this
      ensures Tables() == RecordFailure(old(Tables()), id, category, now)
    {
      if id in outbox && outbox[id].completedAt.None? {
        outbox := outbox[id := outbox[id].(attemptedAt := now, error := Some(category))];
      }
    }

    method ListPendingDeletions(limit: nat) returns (r: seq<Intent>)
      ensures r == Listing(Tables(), Pending(Tables()), limit)
    {
      var open := set id | id in outbox && outbox[id].completedAt.None?;
      r := ListFirst(Tables(), open, limit);
    }
  }

  /** The least of the rows by (`deleted_at`, `session_id`). */
  method FirstOf(db: Db, ids: set<Id>) returns (m: Id)
    requires ids != {} && ids <= db.outbox.Keys
    ensures IsFirst(db, ids, m)
  {
    m :| m in ids;
    var rest := ids - {m};
    while rest != {}
      invariant rest <= ids && m in ids && m !in rest
      invariant IsFirst(db, ids - rest, m)
      decreases rest
    {
      var x :| x in rest;
      if Precedes(db, x, m) {
        assert forall z :: z in ids - rest && z != m ==> Precedes(db, x, z);
        m := x;
      }
      rest := rest - {x};
    }
    assert ids - rest == ids;
  }

  lemma Regroup<T>(r: seq<T>, x: T, rest: seq<T>)
    ensures r + ([x] + rest) == (r + [x]) + rest
  {
  }

  /** ORDER BY and LIMIT over the rows `all`. */
  method ListFirst(db: Db, all: set<Id>, limit: nat) returns (r: seq<Intent>)
    requires all <= db.outbox.Keys
    ensures r == Listing(db, all, limit)
  {
    var ids, room := all, limit;
    r := [];
    while room > 0 && ids != {}
      invariant ids <= all
      invariant r + Listing(db, ids, room) == Listing(db, all, limit)
      decreases room
    {
      var m := FirstOf(db, ids);
      ListingUnfold(db, ids, room, m);
      Regroup(r, IntentOf(m, db.outbox[m]), Listing(db, ids - {m}, room - 1));
      r := r + [IntentOf(m, db.outbox[m])];
      ids, room := ids - {m}, room - 1;
    }
  }

  lemma ListingUnfold(db: Db, ids: set<Id>, limit: nat, m: Id)
    requires ids <= db.outbox.Keys && limit > 0 && IsFirst(db, ids, m)
    ensures Listing(db, ids, limit) == [IntentOf(m, db.outbox[m])] + Listing(db, ids - {m}, limit - 1)
  {
    forall x | IsFirst(db, ids, x) ensures x == m {
      if x != m { assert false; }
    }
  }

  class ObjectStore {
    var objects: map<string, Blob>

    constructor ()
      ensures objects == map[]
    {
      objects := map[];
    }

    method PutPrivateObject(key: string, blob: Blob)
      modifies this
      ensures objects == old(objects)[key := blob]
    {
      objects := objects[key := blob];
    }
  }

  datatype ServiceError = LimitOutOfRange | DeletionUnavailable

  class DeletionService {
    const names: Names
    const repository: Repository
    const store: ObjectStore

    constructor (names: Names, repository: Repository, store: ObjectStore)
      ensures this.names == names && this.repository == repository && this.store == store
    {
      this.names, this.repository, this.store := names, repository, store;
    }

    function Current(): World
      reads repository, store
    {
      World(repository.Tables(), store.objects)
    }

    method RecordFailed(i: Intent, category: Category, a: Attempt)
      modifies repository
      ensures Current() == Failed(old(Current()), i, category, a)
    {
      if a.recorded { repository.RecordDeletionFailure(i.sessionId, category, a.now); }
    }

    /** `_complete_intent`; `ok` is false where the source raises DeletionUnavailableError. */
    method CompleteOne(i: Intent, a: Attempt) returns (ok: bool)
      modifies repository, store
      ensures (Current(), ok) == CompleteIntent(names, old(Current()), i, a)
    {
      if i.completedAt.Some? { return true; }
      var active := i;
      if active.uploadedAt.None? {
        if a.fault == EncryptFault {
          RecordFailed(active, EncryptionFailed, a);
          return false;
        }
        var blob := Blob(names.manifest(active.sessionId, active.deletedAt), a.seal);
        if a.fault == UploadFault {
          RecordFailed(active, UploadFailed, a);
          return false;
        }
        store.PutPrivateObject(names.key(active.sessionId, active.deletedAt), blob);
        if a.fault == MarkFault {
          RecordFailed(active, StorageFailed, a);
          return false;
        }
        var marked := repository.MarkManifestUploaded(active.sessionId, active.deletedAt, a.now);
        if marked.Err? {
          RecordFailed(active, StorageFailed, a);
          return false;
        }
        active := marked.value;
      }
      ok := FinishOne(active, a);
    }

    method FinishOne(i: Intent, a: Attempt) returns (ok: bool)
      modifies repository
      ensures (Current(), ok) == FinishIntent(old(Current()), i, a)
    {
      if a.fault == CompleteFault {
        RecordFailed(i, StorageFailed, a);
        return false;
      }
      var completed := repository.CompleteSessionDeletion(i.sessionId, i.deletedAt, a.now);
      if completed != Ok(true) {
        RecordFailed(i, StorageFailed, a);
        return false;
      }
      return true;
    }

    /** `listed` is false when the listing query raises. */
    method ResumePending(limit: int, listed: bool, attempts: nat -> Attempt) returns (r: Result<nat, ServiceError>)
      modifies repository, store
      ensures r == Err(LimitOutOfRange) <==> !(1 <= limit <= 1000)
      ensures r == Err(DeletionUnavailable) <==> 1 <= limit <= 1000 && !listed
      ensures r.Err? ==> Current() == old(Current())
      ensures r.Ok? ==>
        var intents := Listing(old(repository.Tables()), Pending(old(repository.Tables())), limit);
        (Current(), r.value) == ResumeAll(names, old(Current()), intents, attempts)
    {
      if !(1 <= limit <= 1000) { return Err(LimitOutOfRange); }
      if !listed { return Err(DeletionUnavailable); }
      var pending := repository.ListPendingDeletions(limit);
      var completed := CompleteEach(pending, attempts);
      return Ok(completed);
    }

    /** The loop of `resume_pending`: a failed intent is skipped, the others are counted. */
    method CompleteEach(pending: seq<Intent>, attempts: nat -> Attempt) returns (completed: nat)
      modifies repository, store
      ensures (Current(), completed) == ResumeAll(names, old(Current()), pending, attempts)
    {
      completed := 0;
      for k := 0 to |pending|
        invariant (Current(), completed) == ResumeAll(names, old(Current()), pending[..k], attempts)
      {
        assert pending[..k + 1][..k] == pending[..k];
        var ok := CompleteOne(pending[k], attempts(k));
        if ok { completed := completed + 1; }
      }
      assert pending[..|pending|] == pending;
    }

    /** `begun` is false when `begin_session_deletion` raises for a reason outside the model. */
    method DeleteSession(id: Id, owner: Id, now: Time, begun: bool, a: Attempt) returns (r: Result<bool, ServiceError>)
      modifies repository, store
      ensures var (w, b) := DeleteOnce(names, old(Current()), id, owner, now, begun, a);
        Current() == w && r == if b.None? then Err(DeletionUnavailable) else Ok(b.value)
      ensures begun && (id !in old(repository.sessions) || old(repository.sessions)[id].owner != owner) ==>
                r == Ok(false) && Current() == old(Current())
    {
      if !begun { return Err(DeletionUnavailable); }
      var intent := repository.BeginSessionDeletion(id, owner, now);
      if intent.Err? { return Err(DeletionUnavailable); }
      if intent.value.None? { return Ok(false); }
      var ok := CompleteOne(intent.value.value, a);
      return if ok then Ok(true) else Err(DeletionUnavailable);
    }
  }
}
