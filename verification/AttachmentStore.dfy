/**
 The attachment tables as app/attachments/store.py and app/db/session.py update them. A
 transaction works on a copy that is kept only when nothing raised.
 */
module AttachmentStore {
  import opened Common
  import opened Attachments
  import opened AttachmentRuns
  import opened AttachmentHistory

  class AttachmentDatabase {
    var sessions: map<Id, SessionRow>
    var turns: map<Id, TurnRow>
    var atts: map<Id, Att>

    function View(): Tables
      reads this
    {
      Tables(sessions, turns, atts)
    }

    ghost predicate Valid()
      reads this
    {
      Inv(View())
    }

    constructor ()
      ensures View() == EMPTY && Valid()
    {
      sessions, turns, atts := map[], map[], map[];
    }

    method Upload(id: Id, owner: Id, media: Media, now: Time, ttl: Time) returns (r: Result<Id, Error>)
      requires Valid()
      modifies this
      ensures Valid() && (View(), r) == CreateProcessing(old(View()), id, owner, media, now, ttl)
    {
      UploadKeeps(View(), id, owner, media, now, ttl);
      if id in atts { return Err(Integrity); }
      atts := atts[id := Att(owner, None, None, None, Processing, media, None, None, [], None, [], None, None, None,
                             now, now, Some(now + ttl))];
      return Ok(id);
    }

    /** The UPDATE leaves the text column alone: a row in processing has none. */
    method SaveExtraction(id: Id, owner: Id, x: ValidExtraction, now: Time) returns (r: Result<Id, Error>)
      requires Valid()
      modifies this
      ensures Valid() && (View(), r) == Attachments.SaveExtraction(old(View()), id, owner, x, now)
    {
      ExtractionKeeps(View(), id, owner, x, now);
      if id !in atts || atts[id].owner != owner || !Live(atts[id], now) { return Err(NotFound); }
      var row := atts[id];
      assert RowOk(row);
      if row.status.Bound? { return Err(AlreadyBound); }
      if !row.status.Processing? { return Err(NotReviewable); }
      if x.media != row.media { return Err(TypeMismatch); }
      atts := atts[id := row.(status := ReviewRequired, pages := Some(x.pages), extraction := Some(x.extraction),
                              blocks := x.blocks, warnings := x.warnings, error := None, updatedAt := now)];
      return Ok(id);
    }

    method SaveFailure(id: Id, owner: Id, code: string, now: Time) returns (r: Result<Id, Error>)
      requires Valid()
      modifies this
      ensures Valid() && (View(), r) == Attachments.SaveFailure(old(View()), id, owner, code, now)
    {
      FailureKeeps(View(), id, owner, code, now);
      if code !in FAILURE_CODES { return Err(CodeInvalid); }
      if id !in atts || atts[id].owner != owner || !Live(atts[id], now) { return Err(NotFound); }
      var row := atts[id];
      if row.status.Bound? { return Err(AlreadyBound); }
      if !row.status.Processing? { return Err(NotReviewable); }
      atts := atts[id := row.(status := Failed, pages := None, extraction := None, blocks := [], text := None,
                              warnings := [], error := Some(code), updatedAt := now)];
      return Ok(id);
    }

    method Confirm(id: Id, owner: Id, text: string, now: Time) returns (r: Result<Id, Error>)
      requires Valid()
      modifies this
      ensures Valid() && (View(), r) == Attachments.Confirm(old(View()), id, owner, text, now)
    {
      ConfirmKeeps(View(), id, owner, text, now);
      var normal := NormalizeText(text);
      if normal.None? { return Err(TextInvalid); }
      if id !in atts || atts[id].owner != owner || !Live(atts[id], now) { return Err(NotFound); }
      var row := atts[id];
      if row.status.Bound? || row.reservation.Some? { return Err(AlreadyBound); }
      if !row.status.ReviewRequired? && !row.status.Confirmed? { return Err(NotReviewable); }
      if !NonBlank(normal.value) { return Err(Integrity); }
      atts := atts[id := row.(status := Confirmed, text := normal, updatedAt := now)];
      return Ok(id);
    }

    /** The first listed row that cannot be reserved. */
    method Complaint(ids: seq<Id>, now: Time) returns (r: Option<Error>)
      requires forall id :: id in ids ==> id in atts
      ensures r == FirstComplaint(View(), ids, now)
    {
      for i := 0 to |ids|
        invariant FirstComplaint(View(), ids, now) == FirstComplaint(View(), ids[i..], now)
      {
        var row := atts[ids[i]];
        if !Live(row, now) { return Some(NotFound); }
        if row.status.Bound? || row.reservation.Some? { return Some(AlreadyBound); }
        if !row.status.Confirmed? { return Some(NotConfirmed); }
      }
      return None;
    }

    method Reserve(ids: seq<Id>, owner: Id, rid: Id, now: Time) returns (r: Result<Id, Error>)
      requires Valid()
      modifies this
      ensures Valid() && (View(), r) == Attachments.Reserve(old(View()), ids, owner, rid, now)
    {
      ReserveKeeps(View(), ids, owner, rid, now);
      if !IdsAllowed(ids) { return Err(BadIds); }
      if exists id :: id in atts && OwnedBy(View(), owner, rid, id) { return Err(AlreadyBound); }
      if exists id :: id in ids && !Owned(View(), id, owner) { return Err(NotFound); }
      var complaint := Complaint(ids, now);
      if complaint.Some? { return Err(complaint.value); }
      var rows := Place(View(), ids, rid, now);
      if rows.None? { return Err(Integrity); }
      atts := rows.value;
      return Ok(rid);
    }

    method Release(owner: Id, rid: Id, now: Time) returns (count: nat)
      requires Valid()
      modifies this
      ensures Valid() && View() == Attachments.Release(old(View()), owner, rid, now)
      ensures count == |Hits(old(View()), owner, rid)|
    {
      ReleaseKeeps(View(), owner, rid, now);
      ReleasedRows(View(), owner, rid, now);
      var hits := Hits(View(), owner, rid);
      count := |hits|;
      atts := map id | id in atts :: if id in hits then Unreserved(atts[id], now) else atts[id];
    }

    method Delete(id: Id, owner: Id) returns (r: Result<Id, Error>)
      requires Valid()
      modifies this
      ensures Valid() && (View(), r) == Attachments.Delete(old(View()), id, owner)
    {
      DeleteKeeps(View(), id, owner);
      if id !in atts || atts[id].owner != owner { return Err(NotFound); }
      if atts[id].status.Bound? || atts[id].reservation.Some? { return Err(AlreadyBound); }
      atts := atts - {id};
      return Ok(id);
    }

    /** `victims` are the rows the SELECT chose. */
    method PurgeExpired(owner: Id, victims: set<Id>, limit: nat, now: Time) returns (count: nat)
      requires Valid() && Allowed(View(), Expire(owner, victims, limit, now))
      modifies this
      ensures Valid() && View() == DropDrafts(old(View()), victims) && count == |victims| <= limit
    {
      ExpireKeeps(View(), owner, victims, limit, now);
      atts := map id | id in atts && id !in victims :: atts[id];
      return |victims|;
    }

    method FailStaleProcessing(owner: Id, victims: set<Id>, limit: nat, now: Time) returns (count: nat)
      requires Valid() && Allowed(View(), GiveUp(owner, victims, limit, now))
      modifies this
      ensures Valid() && View() == FailStale(old(View()), victims, now) && count == |victims| <= limit
    {
      FailStaleKeeps(View(), owner, victims, now);
      atts := map id | id in atts ::
        if id in victims then FailedWith(atts[id], "attachment_service_unavailable", now) else atts[id];
      return |victims|;
    }

    method OpenSession(session: Id, owner: Id, expiresAt: Time) returns (r: Result<Id, Error>)
      requires Valid()
      modifies this
      ensures Valid() && (View(), r) == CreateSession(old(View()), session, owner, expiresAt)
    {
      OpenKeeps(View(), session, owner, expiresAt);
      if session in sessions { return Err(Integrity); }
      sessions := sessions[session := SessionRow(owner, expiresAt)];
      return Ok(session);
    }

    method Purge(now: Time, p: PurgeChoice)
      requires Valid() && PurgeAllowed(View(), now, p)
      modifies this
      ensures Valid() && View() == Attachments.Purge(old(View()), p)
    {
      PurgeKeeps(View(), now, p);
      Cascade(p.sessions);
      atts := map id | id in atts && id !in p.drafts :: atts[id];
    }

    /** DELETE FROM sessions with its cascades: turns first, then what refers to either. */
    method Cascade(gone: set<Id>)
      modifies this
      ensures View() == DropSessions(old(View()), gone)
    {
      var t := CascadeOver(View(), gone);
      Keep(t);
    }

    method DeleteSession(session: Id, owner: Id, now: Time, p: PurgeChoice) returns (found: bool)
      requires Valid() && PurgeAllowed(View(), now, p)
      modifies this
      ensures Valid() && View() == Attachments.DeleteSession(old(View()), session, owner, p)
      ensures found <==> session in old(sessions) && old(sessions[session]).owner == owner && session !in p.sessions
      ensures found ==> session !in sessions
    {
      EraseKeeps(View(), session, owner, now, p);
      Purge(now, p);
      if session in sessions && sessions[session].owner == owner {
        Cascade({session});
        return true;
      }
      return false;
    }

    method BindReserved(owner: Id, session: Id, turn: Id, b: Binding, now: Time, p: PurgeChoice)
      returns (r: Result<Id, Error>)
      requires Valid() && PurgeAllowed(View(), now, p)
      modifies this
      ensures Valid() && (View(), r) == BindAlone(old(View()), owner, session, turn, b, now, p)
    {
      BindAloneKeeps(View(), owner, session, turn, b, now, p);
      PurgeKeeps(View(), now, p);
      var t;
      t, r := BindWithin(Attachments.Purge(View(), p), owner, session, turn, b, now);
      if r.Ok? { Keep(t); }
    }

    method PersistTurn(owner: Id, session: Id, turn: Id, accepted: bool, binding: Option<Binding>, now: Time, ttl: Time,
                       p1: PurgeChoice, p2: PurgeChoice) returns (r: Result<Id, Error>)
      requires Valid() && PersistChoices(View(), owner, session, turn, now, ttl, p1, p2)
      modifies this
      ensures Valid() && (View(), r) == Persist(old(View()), owner, session, turn, accepted, binding, now, ttl, p1, p2)
    {
      PersistKeeps(View(), owner, session, turn, accepted, binding, now, ttl, p1, p2);
      var t := Attachments.Purge(View(), p1);
      if session !in t.sessions || t.sessions[session].owner != owner { return Err(SessionMissing); }
      if !accepted { return Err(GuardRejected); }
      if turn in t.turns { return Err(Integrity); }
      WithTurnKeeps(View(), owner, session, turn, now, ttl, p1);
      t := t.(sessions := t.sessions[session := t.sessions[session].(expiresAt := now + ttl)]);
      t := t.(turns := t.turns[turn := TurnRow(session, owner, now)]);
      r := Ok(turn);
      if binding.Some? {
        PurgeKeeps(t, now, p2);
        t, r := BindWithin(Attachments.Purge(t, p2), owner, session, turn, binding.value, now);
      }
      if r.Ok? { Keep(t); }
    }

    /** COMMIT. */
    method Keep(t: Tables)
      modifies this
      ensures View() == t
    {
      sessions, turns, atts := t.sessions, t.turns, t.atts;
    }

    /** `get_session_history`: the purge first, then the session if it is left, each turn with its attachments. */
    method GetSessionHistory(session: Id, owner: Id, now: Time, p: PurgeChoice, listing: seq<Id>, rows: seq<Id>)
      returns (r: Option<map<Id, seq<Id>>>)
      requires Valid() && PurgeAllowed(View(), now, p)
      requires RowListing(Attachments.Purge(View(), p), session, owner, rows)
      requires TurnListing(Attachments.Purge(View(), p), session, owner, listing)
      modifies this
      ensures Valid() && View() == Attachments.Purge(old(View()), p)
      ensures r.None? <==> session !in sessions || sessions[session].owner != owner
      ensures r.Some? ==> Grouped(View(), listing, rows, r.value)
    {
      Purge(now, p);
      if session !in sessions || sessions[session].owner != owner { return None; }
      var read := ReadHistory(session, owner, listing, rows);
      return Some(read.value);
    }

    /** What the reader makes of the tables after the purge: each turn with its attachments, or the ValueError. */
    method ReadHistory(session: Id, owner: Id, listing: seq<Id>, rows: seq<Id>)
      returns (r: Result<map<Id, seq<Id>>, Error>)
      requires RowListing(View(), session, owner, rows) && TurnListing(View(), session, owner, listing)
      ensures r.Ok? <==> Readable(View(), session, listing, rows)
      ensures r.Ok? ==> Grouped(View(), listing, rows, r.value)
      ensures Valid() ==> r.Ok?
    {
      if Valid() { HistoryReadable(View(), session, owner, listing, rows); }
      r := History(View(), session, listing, rows);
    }
  }

  /** The first loop of the reader: every row checked by `fits`, and appended to its turn. */
  method GroupRows(t: Tables, fits: Id -> bool, listing: seq<Id>, rows: seq<Id>) returns (r: Option<map<Id, seq<Id>>>)
    requires forall id :: id in rows && fits(id) ==>
             id in t.atts && t.atts[id].turn.Some? && t.atts[id].turn.value in listing
    ensures r.Some? <==> forall id :: id in rows ==> fits(id)
    ensures r.Some? ==> Grouped(t, listing, rows, r.value)
  {
    var groups := map u | u in listing :: [];
    for i := 0 to |rows|
      invariant Grouped(t, listing, rows[..i], groups)
      invariant forall id :: id in rows[..i] ==> fits(id)
    {
      assert rows[i] in rows;
      if !fits(rows[i]) { return None; }
      var u := t.atts[rows[i]].turn.value;
      GroupedNext(t, listing, rows, i, groups);
      groups := groups[u := groups[u] + [rows[i]]];
      assert rows[..i + 1] == rows[..i] + [rows[i]];
    }
    assert rows[..|rows|] == rows;
    return Some(groups);
  }

  function Fitting(t: Tables, session: Id, listing: seq<Id>): Id -> bool {
    id => id in t.atts && RowFits(t, session, listing, id)
  }

  lemma FittingMeaning(t: Tables, session: Id, listing: seq<Id>, rows: seq<Id>)
    ensures (forall id :: id in rows ==> Fitting(t, session, listing)(id)) <==> AllFit(t, session, listing, rows)
    ensures forall id :: Fitting(t, session, listing)(id) ==>
            id in t.atts && t.atts[id].turn.Some? && t.atts[id].turn.value in listing
  {
  }

  /** Both loops: the rows grouped, then the places of each turn checked. */
  method History(t: Tables, session: Id, listing: seq<Id>, rows: seq<Id>) returns (r: Result<map<Id, seq<Id>>, Error>)
    ensures r.Ok? <==> Readable(t, session, listing, rows)
    ensures r.Ok? ==> Grouped(t, listing, rows, r.value)
  {
    FittingMeaning(t, session, listing, rows);
    var groups := GroupRows(t, Fitting(t, session, listing), listing, rows);
    if groups.None? { return Err(Integrity); }
    var placed := AllInPlace(t, groups.value, listing, rows);
    return if placed then Ok(groups.value) else Err(Integrity);
  }

  /** The second loop: every turn's attachments stand at their places. */
  method AllInPlace(t: Tables, groups: map<Id, seq<Id>>, listing: seq<Id>, rows: seq<Id>) returns (ok: bool)
    requires Grouped(t, listing, rows, groups)
    ensures ok <==> forall u :: u in listing ==> InPlace(t, OfTurn(t, rows, u))
  {
    for i := 0 to |listing|
      invariant forall k :: 0 <= k < i ==> InPlace(t, OfTurn(t, rows, listing[k]))
    {
      if !InPlace(t, groups[listing[i]]) {
        assert listing[i] in listing;
        return false;
      }
    }
    return true;
  }

  ghost predicate Grouped(t: Tables, listing: seq<Id>, rows: seq<Id>, groups: map<Id, seq<Id>>) {
    groups.Keys == (set u | u in listing) && forall u :: u in listing ==> groups[u] == OfTurn(t, rows, u)
  }

  lemma GroupedNext(t: Tables, listing: seq<Id>, rows: seq<Id>, i: nat, groups: map<Id, seq<Id>>)
    requires i < |rows| && Grouped(t, listing, rows[..i], groups)
    requires rows[i] in t.atts && t.atts[rows[i]].turn.Some? && t.atts[rows[i]].turn.value in listing
    ensures var u := t.atts[rows[i]].turn.value;
      Grouped(t, listing, rows[..i + 1], groups[u := groups[u] + [rows[i]]])
  {
    assert rows[..i + 1][..i] == rows[..i];
  }

  function Hits(t: Tables, owner: Id, rid: Id): set<Id> {
    set id | id in t.atts && Releasable(t.atts[id], owner, rid)
  }

  /** DELETE FROM sessions: the turns of the sessions go, then everything that refers to either. */
  method CascadeOver(t: Tables, gone: set<Id>) returns (s: Tables)
    ensures s == DropSessions(t, gone)
  {
    var lost := set u | u in t.turns && t.turns[u].session in gone;
    var atts := map id | id in t.atts && !(t.atts[id].session.Some? && t.atts[id].session.value in gone)
                         && !(t.atts[id].turn.Some? && t.atts[id].turn.value in lost) :: t.atts[id];
    assert atts == DropSessions(t, gone).atts;
    s := Tables(map x | x in t.sessions && x !in gone :: t.sessions[x], map u | u in t.turns && u !in lost ::
                t.turns[u], atts);
  }

  lemma ReleasedRows(t: Tables, owner: Id, rid: Id, now: Time)
    ensures (map id | id in t.atts :: if id in Hits(t, owner, rid) then Unreserved(t.atts[id], now) else t.atts[id])
            == Attachments.Release(t, owner, rid, now).atts
  {
  }

  /** A release changes the tables exactly when it counts a row. */
  lemma ReleaseChanges(t: Tables, owner: Id, rid: Id, now: Time)
    ensures |Hits(t, owner, rid)| == 0 <==> Release(t, owner, rid, now) == t
  {
    var s := Release(t, owner, rid, now);
    if id :| id in Hits(t, owner, rid) {
      assert s.atts[id].reservation != t.atts[id].reservation;
    } else {
      forall id | id in t.atts ensures s.atts[id] == t.atts[id] { assert id !in Hits(t, owner, rid); }
      assert s.atts == t.atts;
    }
  }

  predicate Clash(t: Tables, rid: Id, places: nat) {
    exists id :: id in t.atts && t.atts[id].reservation == Some(rid)
                 && t.atts[id].position.Some? && 0 <= t.atts[id].position.value < places
  }

  lemma ClashNext(t: Tables, rid: Id, i: nat)
    ensures Clash(t, rid, i + 1) <==> Clash(t, rid, i) || exists id :: id in t.atts && HeldAt(t, rid, i, id)
  {
    if id :| id in t.atts && HeldAt(t, rid, i, id) { assert t.atts[id].position.value < i + 1; }
  }

  lemma ClashGrows(t: Tables, rid: Id, i: nat, j: nat)
    requires i <= j && Clash(t, rid, i)
    ensures Clash(t, rid, j)
  {
  }

  /** The UPDATEs of `reserve`, one place after the other; None when the unique index objects. */
  method Place(t: Tables, ids: seq<Id>, rid: Id, now: Time) returns (r: Option<map<Id, Att>>)
    requires DistinctIds(ids)
    requires forall id :: id in ids ==> id in t.atts && t.atts[id].reservation.None?
    ensures r.None? <==> Clash(t, rid, |ids|)
    ensures r.Some? ==> r.value == WithReserved(t, ids, rid, now).atts
  {
    var rows := t.atts;
    for i := 0 to |ids|
      invariant Placed(t, ids[..i], rid, now, rows)
      invariant !Clash(t, rid, i)
    {
      ClashNext(t, rid, i);
      if other :| other in rows && rows[other].reservation == Some(rid) && rows[other].position == Some(i) {
        PlacedElsewhere(t, ids[..i], rid, now, rows, other);
        assert HeldAt(t, rid, i, other);
        ClashGrows(t, rid, i + 1, |ids|);
        return None;
      }
      NoneHeld(t, ids[..i], rid, now, rows);
      PlacedNext(t, ids, i, rid, now, rows);
      rows := rows[ids[i] := ReservedAs(rows[ids[i]], rid, i, now)];
    }
    assert ids[..|ids|] == ids;
    PlacedAll(t, ids, rid, now, rows);
    return Some(rows);
  }

  /** A place that no row holds now was held by none before. */
  lemma NoneHeld(t: Tables, done: seq<Id>, rid: Id, now: Time, rows: map<Id, Att>)
    requires Placed(t, done, rid, now, rows) && forall id :: id in done ==> id in t.atts && t.atts[id].reservation.None?
    requires forall id :: id in rows ==> !(rows[id].reservation == Some(rid) && rows[id].position == Some(|done|))
    ensures forall id :: id in t.atts ==> !HeldAt(t, rid, |done|, id)
  {
  }

  /** The rows after the UPDATEs for the first places. */
  ghost predicate Placed(t: Tables, done: seq<Id>, rid: Id, now: Time, rows: map<Id, Att>) {
    && rows.Keys == t.atts.Keys
    && (forall k :: 0 <= k < |done| ==> done[k] in t.atts && rows[done[k]] == ReservedAs(t.atts[done[k]], rid, k, now))
    && (forall id :: id in t.atts && id !in done ==> rows[id] == t.atts[id])
  }

  lemma PlacedElsewhere(t: Tables, done: seq<Id>, rid: Id, now: Time, rows: map<Id, Att>, other: Id)
    requires Placed(t, done, rid, now, rows) && other in rows && rows[other].position == Some(|done|)
    ensures rows[other] == t.atts[other]
  {
    assert forall k :: 0 <= k < |done| ==> rows[done[k]].position == Some(k);
  }

  lemma PlacedNext(t: Tables, ids: seq<Id>, i: nat, rid: Id, now: Time, rows: map<Id, Att>)
    requires DistinctIds(ids) && i < |ids| && Placed(t, ids[..i], rid, now, rows) && ids[i] in t.atts
    ensures Placed(t, ids[..i + 1], rid, now, rows[ids[i] := ReservedAs(rows[ids[i]], rid, i, now)])
  {
    NotBefore(ids, i);
    assert ids[..i + 1] == ids[..i] + [ids[i]];
  }

  lemma PlacedAll(t: Tables, ids: seq<Id>, rid: Id, now: Time, rows: map<Id, Att>)
    requires DistinctIds(ids) && Placed(t, ids, rid, now, rows)
    ensures rows == WithReserved(t, ids, rid, now).atts
  {
    forall id | id in t.atts && id in ids ensures rows[id] == ReservedAs(t.atts[id], rid, IndexOf(ids, id), now) {
      var k := IndexOf(ids, id);
      assert ids[k] == id;
    }
  }

  lemma NotBefore(ids: seq<Id>, i: nat)
    requires DistinctIds(ids) && i < |ids|
    ensures ids[i] !in ids[..i]
  {
  }

  lemma BoundNext(t: Tables, ids: seq<Id>, i: nat, session: Id, turn: Id, now: Time)
    requires i < |ids| && ids[i] in t.atts
    ensures WithBound(t, ids[..i + 1], session, turn, now).atts
            == WithBound(t, ids[..i], session, turn, now).atts[ids[i] := BoundTo(t.atts[ids[i]], session, turn, now)]
  {
    assert ids[..i + 1] == ids[..i] + [ids[i]];
  }

  /**
   The UPDATEs of `_bind_reserved_attachments`, one per place. Each names the place and the
   reservation it expects and always finds its row.
   */
  method BindEach(t: Tables, owner: Id, session: Id, turn: Id, b: Binding, now: Time)
    returns (rows: map<Id, Att>, error: Option<Error>)
    requires DistinctIds(b.ids) && b.ids != [] && turn in t.turns
    requires forall i :: 0 <= i < |b.ids| ==> b.ids[i] in t.atts && OwnedBy(t, owner, b.rid, b.ids[i])
    ensures error.None? ==> rows == WithBound(t, b.ids, session, turn, now).atts
    ensures error == if !Bindable(t.atts[b.ids[0]], 0, now) then Some(NotConfirmed)
                     else if t.turns[turn].session != session then Some(Integrity)
                     else if exists i :: 0 <= i < |b.ids| && !Bindable(t.atts[b.ids[i]], i, now) then Some(NotConfirmed)
                     else None
  {
    rows := t.atts;
    for i := 0 to |b.ids|
      invariant rows == WithBound(t, b.ids[..i], session, turn, now).atts
      invariant forall k :: 0 <= k < i ==> Bindable(t.atts[b.ids[k]], k, now)
      invariant i > 0 ==> t.turns[turn].session == session
    {
      NotBefore(b.ids, i);
      var row := rows[b.ids[i]];
      if !Live(row, now) { return rows, Some(NotConfirmed); }
      if !row.status.Confirmed? || row.position != Some(i) { return rows, Some(NotConfirmed); }
      if t.turns[turn].session != session { return rows, Some(Integrity); }
      assert row.reservation == Some(b.rid) && row.owner == owner;
      BoundNext(t, b.ids, i, session, turn, now);
      rows := rows[b.ids[i] := BoundTo(row, session, turn, now)];
    }
    assert b.ids[..|b.ids|] == b.ids;
    return rows, None;
  }

  /** `_bind_reserved_attachments` inside a transaction. */
  method BindWithin(t: Tables, owner: Id, session: Id, turn: Id, b: Binding, now: Time)
    returns (s: Tables, r: Result<Id, Error>)
    ensures (s, r) == Bind(t, owner, session, turn, b, now)
  {
    if session !in t.sessions || t.sessions[session].owner != owner { return t, Err(SessionMissing); }
    if turn !in t.turns || t.turns[turn].owner != owner { return t, Err(SessionMissing); }
    if !IdsAllowed(b.ids) { return t, Err(BadIds); }
    if exists id :: id in t.atts && Owned(t, id, owner) && t.atts[id].turn == Some(turn) {
      return t, Err(AlreadyBound);
    }
    if !ListedAs(t, owner, b) { return t, Err(AlreadyBound); }
    var rows, error := BindEach(t, owner, session, turn, b, now);
    if error.Some? { return t, Err(error.value); }
    return t.(atts := rows), Ok(turn);
  }
}
