/**
 Attachment rows from upload to binding: app/attachments/store.py, the binding and purge
 code of app/db/session.py, and the record check of app/db/models.py.

 Tables are maps; a transaction either yields the new tables or leaves the old ones.
 */
module Attachments {
  import opened Common

  datatype Status = Processing | ReviewRequired | Confirmed | Failed | Bound

  datatype Media = Pdf | Png | Jpeg

  datatype Method = DirectText | Ocr | Mixed

  datatype Att = Att(owner: Id, session: Option<Id>, turn: Option<Id>, position: Option<int>, status: Status,
                     media: Media, pages: Option<int>, extraction: Option<Method>, blocks: seq<string>,
                       text: Option<string>, warnings: seq<string>, error: Option<string>, reservation: Option<Id>,
                         reservedAt: Option<Time>, createdAt: Time, updatedAt: Time, expiresAt: Option<Time>)

  datatype SessionRow = SessionRow(owner: Id, expiresAt: Time)

  datatype TurnRow = TurnRow(session: Id, owner: Id, createdAt: Time)

  datatype Tables = Tables(sessions: map<Id, SessionRow>, turns: map<Id, TurnRow>, atts: map<Id, Att>)

  /** An OCR or text extraction that passed its own validation. */
  datatype Extraction = Extraction(media: Media, pages: int, extraction: Method, blocks: seq<string>,
                                   warnings: seq<string>)

  type ValidExtraction = x: Extraction | x.pages >= 1 && x.blocks != [] witness Extraction(Pdf, 1, Ocr, ["x"], [])

  datatype Error = NotFound | AlreadyBound | NotReviewable | NotConfirmed | TypeMismatch | TextInvalid | CodeInvalid
                 | BadIds | SessionMissing | GuardRejected | Integrity

  const FAILURE_CODES: set<string> := {
    "attachment_type_unsupported", "attachment_type_mismatch", "attachment_name_invalid", "attachment_pdf_encrypted",
    "attachment_corrupt", "attachment_text_empty", "attachment_too_large", "attachment_page_limit_exceeded",
    "attachment_pixel_limit_exceeded", "attachment_extracted_text_too_long", "attachment_extraction_timeout",
    "attachment_service_busy", "attachment_service_unavailable" }

  // ---------------------------------------------------------------- confirmed text

  /** What `str.strip` removes. */
  predicate Space(ch: char) {
    || '\U{09}' <= ch <= '\U{0d}' || '\U{1c}' <= ch <= ' ' || ch == '\U{85}' || ch == '\U{a0}' || ch == '\U{1680}'
    || '\U{2000}' <= ch <= '\U{200a}' || ch == '\U{2028}' || ch == '\U{2029}' || ch == '\U{202f}'
    || ch == '\U{205f}' || ch == '\U{3000}'
  }

  function StripLeft(s: string): string {
    if s != "" && Space(s[0]) then StripLeft(s[1..]) else s
  }

  function StripRight(s: string): string {
    if s != "" && Space(s[|s| - 1]) then StripRight(s[..|s| - 1]) else s
  }

  function Strip(s: string): string {
    StripRight(StripLeft(s))
  }

  /** `normalize_confirmed_text` on a present value; None where it raises. */
  function NormalizeText(s: string): Option<string> {
    var t := Strip(s);
    if t == "" || |t| > 200000 then None else Some(t)
  }

  /** Text as `confirm` stores it: nothing left to strip, not empty, not too long. */
  predicate GoodText(t: string) {
    0 < |t| <= 200000 && !Space(t[0]) && !Space(t[|t| - 1])
  }

  /** `length(trim(text)) > 0`: SQLite trims spaces only, and its `length` stops at the first NUL. */
  predicate NonBlank(t: string) {
    exists i :: 0 <= i < |t| && t[i] != ' ' && t[i] != '\0' && forall j :: 0 <= j < i ==> t[j] == ' '
  }

  lemma {:induction false} StripRightClean(s: string)
    ensures StripRight(s) <= s
    ensures StripRight(s) != "" ==> !Space(StripRight(s)[|StripRight(s)| - 1])
  {
    if s != "" && Space(s[|s| - 1]) { StripRightClean(s[..|s| - 1]); }
  }

  lemma {:induction false} StripLeftClean(s: string)
    ensures StripLeft(s) != "" ==> !Space(StripLeft(s)[0])
    ensures |StripLeft(s)| <= |s|
  {
    if s != "" && Space(s[0]) { StripLeftClean(s[1..]); }
  }

  /** Normalised text is stored as it is: normalising it again changes nothing. */
  lemma NormalizedTextIsGood(s: string)
    requires NormalizeText(s).Some?
    ensures GoodText(NormalizeText(s).value)
    ensures NonBlank(NormalizeText(s).value) <==> NormalizeText(s).value[0] != '\0'
  {
    var a := StripLeft(s);
    StripLeftClean(s);
    StripRightClean(a);
    var t := StripRight(a);
    assert t[0] == a[0];
  }

  lemma GoodTextIff(t: string)
    ensures GoodText(t) <==> NormalizeText(t) == Some(t)
  {
    StripLeftClean(t);
    StripRightClean(StripLeft(t));
  }

  // ---------------------------------------------------------------- one row

  /** The CHECK constraints of the attachments table. */
  predicate RowChecks(a: Att) {
    && (if a.status.Bound?
        then a.session.Some? && a.turn.Some? && a.position.Some? && a.reservation.None? && a.reservedAt.None?
          && a.expiresAt.None?
        else && a.session.None? && a.turn.None? && a.expiresAt.Some?
             && ((a.reservation.None? && a.reservedAt.None? && a.position.None?)
                 || (a.status.Confirmed? && a.reservation.Some? && a.reservedAt.Some? && a.position.Some?)))
    && (if a.status.Processing? || a.status.Failed?
        then a.pages.None? && a.extraction.None? && a.blocks == []
        else a.pages.Some? && a.extraction.Some? && a.blocks != [])
    && (a.pages.Some? ==> a.pages.value >= 1)
    && (if a.status.Confirmed? || a.status.Bound? then a.text.Some? && NonBlank(a.text.value) else a.text.None?)
    && (a.status.Failed? <==> a.error.Some?)
    && (a.position.Some? ==> 0 <= a.position.value <= 2)
  }

  /** What the table must hold beyond its CHECKs for its rows to read back. */
  predicate RowOk(a: Att) {
    && RowChecks(a)
    && (a.text.Some? ==> GoodText(a.text.value))
    && (a.error.Some? ==> a.error.value in FAILURE_CODES)
  }

  /** `AttachmentReviewPublic.status_data_is_consistent` with its field validators. */
  predicate ReviewConsistent(status: Status, a: Att, extraction: Option<Method>, text: Option<string>,
                             error: Option<string>) {
    var extracted := a.pages.Some? && extraction.Some? && a.blocks != [];
    && (a.pages.Some? ==> a.pages.value >= 1)
    && (text.Some? ==> NormalizeText(text.value).Some?)
    && match status
       case Processing => a.blocks == [] && text.None? && error.None? && extraction.None?
       case ReviewRequired => extracted && text.None? && error.None?
       case Confirmed => extracted && text.Some? && error.None?
       case Bound => extracted && text.Some? && error.None?
       case Failed => error.Some? && error.value in FAILURE_CODES && a.blocks == [] && text.None?
  }

  /** `AttachmentRecord.record_is_consistent`: true where the validator accepts the record. */
  predicate RecordConsistent(a: Att) {
    && (a.position.Some? ==> 0 <= a.position.value <= 2)
    && (if (a.status.ReviewRequired? || a.status.Confirmed? || a.status.Bound?) && a.blocks == []
        then && ReviewConsistent(Processing, a, None, None, None)
             && a.pages.Some? && a.extraction.Some?
             && (if a.status.ReviewRequired? then a.text.None? && a.error.None?
                 else a.error.None? && (a.text.Some? ==> NormalizeText(a.text.value).Some?))
        else ReviewConsistent(a.status, a, a.extraction, a.text, a.error))
    && (if a.status.Bound?
        then a.session.Some? && a.turn.Some? && a.position.Some? && a.expiresAt.None? && a.reservation.None?
          && a.reservedAt.None?
        else && a.session.None? && a.turn.None? && a.expiresAt.Some?
             && (a.reservation.Some? || a.reservedAt.Some? || a.position.Some? ==>
                   a.reservation.Some? && a.reservedAt.Some? && a.position.Some? && a.status.Confirmed?))
  }

  /** Rows that keep the invariant always read back into records. */
  lemma RowReadsBack(a: Att)
    requires RowOk(a)
    ensures RecordConsistent(a)
  {
    if a.text.Some? { GoodTextIff(a.text.value); }
  }

  // ---------------------------------------------------------------- transitions of one row

  predicate Live(a: Att, now: Time) {
    a.expiresAt.None? || a.expiresAt.value > now
  }

  function Extracted(a: Att, x: ValidExtraction, now: Time): Att {
    a.(status := ReviewRequired, pages := Some(x.pages), extraction := Some(x.extraction), blocks := x.blocks,
       text := None, warnings := x.warnings, error := None, updatedAt := now)
  }

  function FailedWith(a: Att, code: string, now: Time): Att {
    a.(status := Failed, pages := None, extraction := None, blocks := [], text := None, warnings := [],
       error := Some(code), updatedAt := now)
  }

  function ReservedAs(a: Att, rid: Id, position: int, now: Time): Att {
    a.(reservation := Some(rid), reservedAt := Some(now), position := Some(position), updatedAt := now)
  }

  function Unreserved(a: Att, now: Time): Att {
    a.(reservation := None, reservedAt := None, position := None, updatedAt := now)
  }

  function BoundTo(a: Att, session: Id, turn: Id, now: Time): Att {
    a.(status := Bound, session := Some(session), turn := Some(turn), reservation := None, reservedAt := None,
       expiresAt := None, updatedAt := now)
  }

  // ---------------------------------------------------------------- transactions on the tables

  /** The row `_require_record` returns. */
  predicate Owned(t: Tables, id: Id, owner: Id) {
    id in t.atts && t.atts[id].owner == owner
  }

  predicate OwnedBy(t: Tables, owner: Id, rid: Id, id: Id) {
    Owned(t, id, owner) && t.atts[id].reservation == Some(rid)
  }

  function Put(t: Tables, id: Id, a: Att): Tables {
    t.(atts := t.atts[id := a])
  }

  function CreateProcessing(t: Tables, id: Id, owner: Id, media: Media, now: Time,
                            ttl: Time): (Tables, Result<Id, Error>) {
    if id in t.atts then (t, Err(Integrity))
    else (Put(t, id, Att(owner, None, None, None, Processing, media, None, None, [], None, [], None, None, None, now,
                         now, Some(now + ttl))), Ok(id))
  }

  function SaveExtraction(t: Tables, id: Id, owner: Id, x: ValidExtraction, now: Time): (Tables, Result<Id, Error>) {
    if !Owned(t, id, owner) || !Live(t.atts[id], now) then (t, Err(NotFound))
    else if t.atts[id].status.Bound? then (t, Err(AlreadyBound))
    else if !t.atts[id].status.Processing? then (t, Err(NotReviewable))
    else if x.media != t.atts[id].media then (t, Err(TypeMismatch))
    else (Put(t, id, Extracted(t.atts[id], x, now)), Ok(id))
  }

  function SaveFailure(t: Tables, id: Id, owner: Id, code: string, now: Time): (Tables, Result<Id, Error>) {
    if code !in FAILURE_CODES then (t, Err(CodeInvalid))
    else if !Owned(t, id, owner) || !Live(t.atts[id], now) then (t, Err(NotFound))
    else if t.atts[id].status.Bound? then (t, Err(AlreadyBound))
    else if !t.atts[id].status.Processing? then (t, Err(NotReviewable))
    else (Put(t, id, FailedWith(t.atts[id], code, now)), Ok(id))
  }

  /** `str.strip` keeps NUL, so text that begins with it passes the validation and fails the table's CHECK. */
  function Confirm(t: Tables, id: Id, owner: Id, text: string, now: Time): (Tables, Result<Id, Error>) {
    var normal := NormalizeText(text);
    if normal.None? then (t, Err(TextInvalid))
    else if !Owned(t, id, owner) || !Live(t.atts[id], now) then (t, Err(NotFound))
    else if t.atts[id].status.Bound? || t.atts[id].reservation.Some? then (t, Err(AlreadyBound))
    else if !t.atts[id].status.ReviewRequired? && !t.atts[id].status.Confirmed? then (t, Err(NotReviewable))
    else if !NonBlank(normal.value) then (t, Err(Integrity))
    else (Put(t, id, t.atts[id].(status := Confirmed, text := normal, updatedAt := now)), Ok(id))
  }

  predicate DistinctIds(ids: seq<Id>) {
    forall i, j :: 0 <= i < j < |ids| ==> ids[i] != ids[j]
  }

  /** `_attachment_ids`: one to three distinct ids. */
  predicate IdsAllowed(ids: seq<Id>) {
    1 <= |ids| <= 3 && DistinctIds(ids)
  }

  /** What the checks of `reserve` say about one row. */
  function Reservable(a: Att, now: Time): Option<Error> {
    if !Live(a, now) then Some(NotFound)
    else if a.status.Bound? || a.reservation.Some? then Some(AlreadyBound)
    else if !a.status.Confirmed? then Some(NotConfirmed)
    else None
  }

  /** The first complaint among the rows, in the caller's order. */
  function FirstComplaint(t: Tables, ids: seq<Id>, now: Time): (r: Option<Error>)
    requires forall id :: id in ids ==> id in t.atts
    ensures r.None? <==> forall id :: id in ids ==> Reservable(t.atts[id], now).None?
  {
    if ids == [] then None
    else if Reservable(t.atts[ids[0]], now).Some? then Reservable(t.atts[ids[0]], now)
    else FirstComplaint(t, ids[1..], now)
  }

  function IndexOf(ids: seq<Id>, id: Id): (i: nat)
    requires id in ids
    ensures i < |ids| && ids[i] == id
  {
    if ids[0] == id then 0 else 1 + IndexOf(ids[1..], id)
  }

  function WithReserved(t: Tables, ids: seq<Id>, rid: Id, now: Time): Tables {
    t.(atts := map id | id in t.atts ::
         if id in ids then ReservedAs(t.atts[id], rid, IndexOf(ids, id), now) else t.atts[id])
  }

  function Reserve(t: Tables, ids: seq<Id>, owner: Id, rid: Id, now: Time): (Tables, Result<Id, Error>) {
    if !IdsAllowed(ids) then (t, Err(BadIds))
    else if exists id :: id in t.atts && OwnedBy(t, owner, rid, id) then (t, Err(AlreadyBound))
    else if exists id :: id in ids && !Owned(t, id, owner) then (t, Err(NotFound))
    else
      var complaint := FirstComplaint(t, ids, now);
      if complaint.Some? then (t, Err(complaint.value))
      else if exists id :: id in t.atts && t.atts[id].reservation == Some(rid)
                           && t.atts[id].position.Some? && 0 <= t.atts[id].position.value < |ids|
      then (t, Err(Integrity))
      else (WithReserved(t, ids, rid, now), Ok(rid))
  }

  /** The WHERE clause of `release`. */
  predicate Releasable(a: Att, owner: Id, rid: Id) {
    a.reservation == Some(rid) && a.owner == owner && a.status.Confirmed? && a.session.None? && a.turn.None?
  }

  function Release(t: Tables, owner: Id, rid: Id, now: Time): Tables {
    t.(atts := map id | id in t.atts ::
                 if Releasable(t.atts[id], owner, rid) then Unreserved(t.atts[id], now) else t.atts[id])
  }

  function Delete(t: Tables, id: Id, owner: Id): (Tables, Result<Id, Error>) {
    if !Owned(t, id, owner) then (t, Err(NotFound))
    else if t.atts[id].status.Bound? || t.atts[id].reservation.Some? then (t, Err(AlreadyBound))
    else (t.(atts := t.atts - {id}), Ok(id))
  }

  /** ORDER BY key, id LIMIT limit. */
  ghost predicate FirstDue(due: set<Id>, key: Id -> Time, limit: nat, victims: set<Id>) {
    && victims <= due
    && |victims| == (if |due| <= limit then |due| else limit)
    && forall v, x :: v in victims && x in due - victims ==> key(v) < key(x) || (key(v) == key(x) && v < x)
  }

  ghost function DueDrafts(t: Tables, now: Time): set<Id> {
    set id | id in t.atts && t.atts[id].session.None? && t.atts[id].expiresAt.Some? && t.atts[id].expiresAt.value <= now
  }

  function DraftExpiry(t: Tables): Id -> Time {
    id => if id in t.atts && t.atts[id].expiresAt.Some? then t.atts[id].expiresAt.value else 0
  }

  ghost function DueSessions(t: Tables, now: Time): set<Id> {
    set id | id in t.sessions && t.sessions[id].expiresAt <= now
  }

  function SessionExpiry(t: Tables): Id -> Time {
    id => if id in t.sessions then t.sessions[id].expiresAt else 0
  }

  function DropDrafts(t: Tables, victims: set<Id>): Tables {
    t.(atts := map id | id in t.atts && id !in victims :: t.atts[id])
  }

  function FailStale(t: Tables, victims: set<Id>, now: Time): Tables {
    t.(atts := map id | id in t.atts ::
         if id in victims then FailedWith(t.atts[id], "attachment_service_unavailable", now) else t.atts[id])
  }

  ghost function Stale(t: Tables, owner: Id): set<Id> {
    set id | id in t.atts && t.atts[id].owner == owner
      && (t.atts[id].status.Processing? || t.atts[id].status.ReviewRequired?)
  }

  /** Deleting sessions: ON DELETE CASCADE removes their turns and everything bound to either. */
  function DropSessions(t: Tables, gone: set<Id>): Tables {
    Tables(map s | s in t.sessions && s !in gone :: t.sessions[s],
           map u | u in t.turns && t.turns[u].session !in gone :: t.turns[u],
           map id | id in t.atts
                    && !(t.atts[id].session.Some? && t.atts[id].session.value in gone)
                    && !(t.atts[id].turn.Some? && t.atts[id].turn.value in t.turns
                         && t.turns[t.atts[id].turn.value].session in gone)
             :: t.atts[id])
  }

  /** The rows one `_purge` removes: at most 100 expired sessions, then at most 100 expired drafts. */
  datatype PurgeChoice = PurgeChoice(sessions: set<Id>, drafts: set<Id>)

  const PURGE_LIMIT := 100

  ghost predicate PurgeAllowed(t: Tables, now: Time, p: PurgeChoice) {
    && FirstDue(DueSessions(t, now), SessionExpiry(t), PURGE_LIMIT, p.sessions)
    && FirstDue(DueDrafts(DropSessions(t, p.sessions), now), DraftExpiry(t), PURGE_LIMIT, p.drafts)
  }

  function Purge(t: Tables, p: PurgeChoice): Tables {
    DropDrafts(DropSessions(t, p.sessions), p.drafts)
  }

  datatype Binding = Binding(rid: Id, ids: seq<Id>)

  /** The reserved rows, ordered by (turn_position, id), are exactly `ids` in this order. */
  predicate ListedAs(t: Tables, owner: Id, b: Binding) {
    && (forall id :: id in t.atts && OwnedBy(t, owner, b.rid, id) ==> id in b.ids)
    && (forall i :: 0 <= i < |b.ids| ==> OwnedBy(t, owner, b.rid, b.ids[i]) && t.atts[b.ids[i]].position.Some?)
    && (forall i, j :: 0 <= i < j < |b.ids| ==>
          t.atts[b.ids[i]].position.value < t.atts[b.ids[j]].position.value
          || (t.atts[b.ids[i]].position.value == t.atts[b.ids[j]].position.value && b.ids[i] < b.ids[j]))
  }

  function WithBound(t: Tables, ids: seq<Id>, session: Id, turn: Id, now: Time): Tables {
    t.(atts := map id | id in t.atts :: if id in ids then BoundTo(t.atts[id], session, turn, now) else t.atts[id])
  }

  predicate Bindable(a: Att, position: nat, now: Time) {
    Live(a, now) && a.status.Confirmed? && a.position == Some(position)
  }

  /**
   `_bind_reserved_attachments` after its purge. The composite foreign key is checked by
   the first UPDATE, so a turn of another session is refused before the second row is read.
   */
  function Bind(t: Tables, owner: Id, session: Id, turn: Id, b: Binding, now: Time): (Tables, Result<Id, Error>) {
    if session !in t.sessions || t.sessions[session].owner != owner then (t, Err(SessionMissing))
    else if turn !in t.turns || t.turns[turn].owner != owner then (t, Err(SessionMissing))
    else if !IdsAllowed(b.ids) then (t, Err(BadIds))
    else if exists id :: id in t.atts && Owned(t, id, owner) && t.atts[id].turn == Some(turn)
      then (t, Err(AlreadyBound))
    else if !ListedAs(t, owner, b) then (t, Err(AlreadyBound))
    else if !Bindable(t.atts[b.ids[0]], 0, now) then (t, Err(NotConfirmed))
    else if t.turns[turn].session != session then (t, Err(Integrity))
    else if exists i :: 0 <= i < |b.ids| && !Bindable(t.atts[b.ids[i]], i, now) then (t, Err(NotConfirmed))
    else (WithBound(t, b.ids, session, turn, now), Ok(turn))
  }

  function AddTurn(t: Tables, session: Id, turn: Id, owner: Id, now: Time, ttl: Time): Tables
    requires session in t.sessions
  {
    t.(sessions := t.sessions[session := t.sessions[session].(expiresAt := now + ttl)],
       turns := t.turns[turn := TurnRow(session, owner, now)])
  }

  /**
   `persist_session_turn`: purge, find the session, recheck (`accepted`), extend the
   session, insert the turn, and bind after a second purge. Any error rolls all of it back.
   */
  function Persist(t: Tables, owner: Id, session: Id, turn: Id, accepted: bool, binding: Option<Binding>,
                   now: Time, ttl: Time, p1: PurgeChoice, p2: PurgeChoice): (Tables, Result<Id, Error>) {
    var t1 := Purge(t, p1);
    if session !in t1.sessions || t1.sessions[session].owner != owner then (t, Err(SessionMissing))
    else if !accepted then (t, Err(GuardRejected))
    else if turn in t1.turns then (t, Err(Integrity))
    else
      var t2 := AddTurn(t1, session, turn, owner, now, ttl);
      if binding.None? then (t2, Ok(turn))
      else
        var (t3, r) := Bind(Purge(t2, p2), owner, session, turn, binding.value, now);
        if r.Ok? then (t3, r) else (t, r)
  }

  function CreateSession(t: Tables, session: Id, owner: Id, expiresAt: Time): (Tables, Result<Id, Error>) {
    if session in t.sessions then (t, Err(Integrity))
    else (t.(sessions := t.sessions[session := SessionRow(owner, expiresAt)]), Ok(session))
  }

  /** `delete_session`; the purge before it is kept even when there is nothing to delete. */
  function DeleteSession(t: Tables, session: Id, owner: Id, p: PurgeChoice): Tables {
    var t1 := Purge(t, p);
    if session in t1.sessions && t1.sessions[session].owner == owner then DropSessions(t1, {session}) else t1
  }

  /** `bind_reserved_attachments`: one transaction of its own. */
  function BindAlone(t: Tables, owner: Id, session: Id, turn: Id, b: Binding, now: Time,
                     p: PurgeChoice): (Tables, Result<Id, Error>) {
    var (t1, r) := Bind(Purge(t, p), owner, session, turn, b, now);
    if r.Ok? then (t1, r) else (t, r)
  }

  // ---------------------------------------------------------------- the invariant of the tables

  predicate BoundAt(t: Tables, turn: Id, position: int, id: Id) {
    id in t.atts && t.atts[id].status.Bound? && t.atts[id].turn == Some(turn) && t.atts[id].position == Some(position)
  }

  predicate Filled(t: Tables, turn: Id, position: int) {
    exists id :: id in t.atts && BoundAt(t, turn, position, id)
  }

  predicate HeldAt(t: Tables, rid: Id, position: int, id: Id) {
    id in t.atts && t.atts[id].reservation == Some(rid) && t.atts[id].position == Some(position)
  }

  predicate RowsOk(t: Tables) {
    forall id :: id in t.atts ==> RowOk(t.atts[id])
  }

  predicate TurnsOwned(t: Tables) {
    forall u :: u in t.turns ==>
      t.turns[u].session in t.sessions && t.sessions[t.turns[u].session].owner == t.turns[u].owner
  }

  /** A bound row and its turn: the composite foreign key, and one owner for both. */
  predicate Attached(t: Tables, a: Att) {
    && a.session.Some? && a.turn.Some? && a.turn.value in t.turns
    && t.turns[a.turn.value].session == a.session.value && t.turns[a.turn.value].owner == a.owner
  }

  predicate BoundAttached(t: Tables) {
    forall id :: id in t.atts && t.atts[id].status.Bound? ==> Attached(t, t.atts[id])
  }

  /** Unique index on (turn_id, turn_position). */
  ghost predicate OnePerPlace(t: Tables) {
    forall u, k, x, y :: BoundAt(t, u, k, x) && BoundAt(t, u, k, y) ==> x == y
  }

  /** No gap below an occupied place. */
  ghost predicate NoGaps(t: Tables) {
    forall u, k, x, j :: BoundAt(t, u, k, x) && 0 <= j < k ==> Filled(t, u, j)
  }

  /** Unique index on (reservation_id, turn_position). */
  ghost predicate OnePerHold(t: Tables) {
    forall r, k, x, y :: HeldAt(t, r, k, x) && HeldAt(t, r, k, y) ==> x == y
  }

  ghost predicate Inv(t: Tables) {
    RowsOk(t) && TurnsOwned(t) && BoundAttached(t) && OnePerPlace(t) && NoGaps(t) && OnePerHold(t)
  }

  predicate IsBound(t: Tables, id: Id) {
    id in t.atts && t.atts[id].status.Bound?
  }

  ghost predicate SameBound(t: Tables, s: Tables) {
    && (forall id :: IsBound(t, id) ==> id in s.atts && s.atts[id] == t.atts[id])
    && (forall id :: IsBound(s, id) ==> id in t.atts && t.atts[id] == s.atts[id])
  }

  ghost predicate HoldsFrom(t: Tables, s: Tables) {
    forall r, k, id :: HeldAt(s, r, k, id) ==> HeldAt(t, r, k, id)
  }

  /** A row bound before is the same row after, unless it went away with its session. */
  ghost predicate BoundStays(t: Tables, s: Tables) {
    forall id :: IsBound(t, id) && t.atts[id].session.Some? ==>
      if id in s.atts then s.atts[id] == t.atts[id] else t.atts[id].session.value !in s.sessions
  }

  ghost predicate KeepsBound(t: Tables, s: Tables) {
    s.sessions.Keys <= t.sessions.Keys && s.atts.Keys <= t.atts.Keys && BoundStays(t, s)
  }

  /** Steps that leave the bound rows alone and reserve nothing. */
  lemma FrameKeeps(t: Tables, s: Tables)
    requires Inv(t) && RowsOk(s) && s.turns == t.turns && s.sessions == t.sessions
    requires SameBound(t, s) && HoldsFrom(t, s)
    ensures Inv(s)
  {
    assert BoundAttached(s) by {
      forall id | id in s.atts && s.atts[id].status.Bound? ensures Attached(s, s.atts[id]) { assert IsBound(s, id); }
    }
    PlacesFrame(t, s);
  }

  lemma PlacesFrame(t: Tables, s: Tables)
    requires OnePerPlace(t) && NoGaps(t) && OnePerHold(t) && SameBound(t, s) && HoldsFrom(t, s)
    ensures OnePerPlace(s) && NoGaps(s) && OnePerHold(s)
  {
    forall u, k, x | BoundAt(s, u, k, x) ensures BoundAt(t, u, k, x) { assert IsBound(s, x); }
    forall u, k, x, j | BoundAt(s, u, k, x) && 0 <= j < k ensures Filled(s, u, j) {
      assert BoundAt(t, u, k, x);
      assert Filled(t, u, j);
      var y :| y in t.atts && BoundAt(t, u, j, y);
      assert IsBound(t, y);
      assert BoundAt(s, u, j, y);
    }
  }

  /** One unbound row written, its reservation left as it was. */
  lemma PutKeeps(t: Tables, id: Id, a: Att)
    requires Inv(t) && RowOk(a) && !a.status.Bound? && !IsBound(t, id)
    requires a.reservation.Some? ==>
             id in t.atts && t.atts[id].reservation == a.reservation && t.atts[id].position == a.position
    ensures Inv(Put(t, id, a))
    ensures SameBound(t, Put(t, id, a))
  {
    FrameKeeps(t, Put(t, id, a));
  }
}
