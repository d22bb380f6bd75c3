/**
 Runs over the attachment tables: the row and relation invariant, what a bound row and a
 reserved set can become, and why the history reader of app/db/session.py never raises.
 */
module AttachmentRuns {
  import opened Common
  import opened Attachments

  // ---------------------------------------------------------------- every transaction keeps the invariant

  lemma UploadKeeps(t: Tables, id: Id, owner: Id, media: Media, now: Time, ttl: Time)
    requires Inv(t)
    ensures Inv(CreateProcessing(t, id, owner, media, now, ttl).0)
    ensures SameBound(t, CreateProcessing(t, id, owner, media, now, ttl).0)
  {
    if id !in t.atts { PutKeeps(t, id, CreateProcessing(t, id, owner, media, now, ttl).0.atts[id]); }
  }

  lemma ExtractionKeeps(t: Tables, id: Id, owner: Id, x: ValidExtraction, now: Time)
    requires Inv(t)
    ensures Inv(SaveExtraction(t, id, owner, x, now).0)
    ensures SameBound(t, SaveExtraction(t, id, owner, x, now).0)
  {
    if SaveExtraction(t, id, owner, x, now).1.Ok? {
      assert RowOk(t.atts[id]);
      PutKeeps(t, id, Extracted(t.atts[id], x, now));
    }
  }

  lemma FailureKeeps(t: Tables, id: Id, owner: Id, code: string, now: Time)
    requires Inv(t)
    ensures Inv(SaveFailure(t, id, owner, code, now).0)
    ensures SameBound(t, SaveFailure(t, id, owner, code, now).0)
  {
    if SaveFailure(t, id, owner, code, now).1.Ok? {
      assert RowOk(t.atts[id]);
      PutKeeps(t, id, FailedWith(t.atts[id], code, now));
    }
  }

  lemma ConfirmKeeps(t: Tables, id: Id, owner: Id, text: string, now: Time)
    requires Inv(t)
    ensures Inv(Confirm(t, id, owner, text, now).0)
    ensures SameBound(t, Confirm(t, id, owner, text, now).0)
  {
    if Confirm(t, id, owner, text, now).1.Ok? {
      var a := ConfirmedRow(t, id, owner, text, now);
      PutKeeps(t, id, a);
    } else {
      ConfirmRefuses(t, id, owner, text, now);
    }
  }

  lemma ConfirmRefuses(t: Tables, id: Id, owner: Id, text: string, now: Time)
    requires Confirm(t, id, owner, text, now).1.Err?
    ensures Confirm(t, id, owner, text, now).0 == t
  {
  }

  lemma ConfirmedRow(t: Tables, id: Id, owner: Id, text: string, now: Time) returns (a: Att)
    requires RowsOk(t) && Confirm(t, id, owner, text, now).1.Ok?
    ensures id in t.atts && !IsBound(t, id) && t.atts[id].reservation.None?
    ensures RowOk(a) && a.status.Confirmed? && a.reservation.None?
    ensures Confirm(t, id, owner, text, now).0 == Put(t, id, a)
  {
    assert RowOk(t.atts[id]);
    ConfirmedRowOk(t.atts[id], text, now);
    a := t.atts[id].(status := Confirmed, text := NormalizeText(text), updatedAt := now);
  }

  lemma ConfirmedRowOk(a: Att, text: string, now: Time)
    requires RowOk(a) && (a.status.ReviewRequired? || a.status.Confirmed?)
    requires NormalizeText(text).Some? && NonBlank(NormalizeText(text).value)
    ensures RowOk(a.(status := Confirmed, text := NormalizeText(text), updatedAt := now))
  {
    NormalizedTextIsGood(text);
  }

  /** Success takes exactly the listed rows, each to its place in the list; failure takes none. */
  lemma ReserveAllOrNothing(t: Tables, ids: seq<Id>, owner: Id, rid: Id, now: Time)
    ensures var (s, r) := Reserve(t, ids, owner, rid, now);
      if r.Ok? then
        && s.sessions == t.sessions && s.turns == t.turns && s.atts.Keys == t.atts.Keys
        && (forall i :: 0 <= i < |ids| ==>
              && Owned(t, ids[i], owner) && t.atts[ids[i]].status.Confirmed? && t.atts[ids[i]].reservation.None?
                 && Live(t.atts[ids[i]], now)
              && s.atts[ids[i]] == ReservedAs(t.atts[ids[i]], rid, i, now))
        && (forall id :: id in t.atts && id !in ids ==> s.atts[id] == t.atts[id] && !OwnedBy(s, owner, rid, id))
      else s == t
  {
    var (s, r) := Reserve(t, ids, owner, rid, now);
    if r.Ok? {
      forall i | 0 <= i < |ids|
        ensures Owned(t, ids[i], owner) && Reservable(t.atts[ids[i]], now).None? && IndexOf(ids, ids[i]) == i
      {
        assert ids[i] in ids;
        var j := IndexOf(ids, ids[i]);
        assert ids[j] == ids[i];
      }
    }
  }

  lemma ReserveKeepsRows(t: Tables, ids: seq<Id>, owner: Id, rid: Id, now: Time)
    requires RowsOk(t) && Reserve(t, ids, owner, rid, now).1.Ok?
    ensures RowsOk(Reserve(t, ids, owner, rid, now).0)
    ensures SameBound(t, Reserve(t, ids, owner, rid, now).0)
  {
    var s := Reserve(t, ids, owner, rid, now).0;
    ReserveAllOrNothing(t, ids, owner, rid, now);
    forall id | id in s.atts ensures RowOk(s.atts[id])
      && (t.atts[id].status.Bound? || s.atts[id].status.Bound? ==> s.atts[id] == t.atts[id]) {
      assert RowOk(t.atts[id]);
      if id in ids { var i :| 0 <= i < |ids| && ids[i] == id; }
    }
  }

  lemma ReserveKeeps(t: Tables, ids: seq<Id>, owner: Id, rid: Id, now: Time)
    requires Inv(t)
    ensures Inv(Reserve(t, ids, owner, rid, now).0)
    ensures SameBound(t, Reserve(t, ids, owner, rid, now).0)
  {
    var (s, ok) := Reserve(t, ids, owner, rid, now);
    if ok.Ok? {
      ReserveAllOrNothing(t, ids, owner, rid, now);
      ReserveKeepsRows(t, ids, owner, rid, now);
      ReserveTaken(t, ids, owner, rid, now);
      TakenUnique(t, s, ids, rid, now);
      AttachedSame(t, s);
      PlacesSame(t, s);
    } else {
      ReserveRefuses(t, ids, owner, rid, now);
    }
  }

  lemma ReserveRefuses(t: Tables, ids: seq<Id>, owner: Id, rid: Id, now: Time)
    requires Reserve(t, ids, owner, rid, now).1.Err?
    ensures Reserve(t, ids, owner, rid, now).0 == t
  {
  }

  lemma AttachedSame(t: Tables, s: Tables)
    requires BoundAttached(t) && SameBound(t, s) && s.turns == t.turns
    ensures BoundAttached(s)
  {
    forall id | id in s.atts && s.atts[id].status.Bound? ensures Attached(s, s.atts[id]) { assert IsBound(s, id); }
  }

  lemma PlacesSame(t: Tables, s: Tables)
    requires OnePerPlace(t) && NoGaps(t) && SameBound(t, s)
    ensures OnePerPlace(s) && NoGaps(s)
  {
    forall u, k, x | BoundAt(s, u, k, x) ensures BoundAt(t, u, k, x) { assert IsBound(s, x); }
    forall u, k, x, j | BoundAt(s, u, k, x) && 0 <= j < k ensures Filled(s, u, j) {
      assert BoundAt(t, u, k, x);
      assert Filled(t, u, j);
      var y :| y in t.atts && BoundAt(t, u, j, y);
      assert IsBound(t, y);
      assert BoundAt(s, u, j, y);
    }
  }

  ghost predicate Taken(t: Tables, s: Tables, ids: seq<Id>, rid: Id, now: Time) {
    && s.atts.Keys == t.atts.Keys
    && (forall i :: 0 <= i < |ids| ==> ids[i] in t.atts && s.atts[ids[i]] == ReservedAs(t.atts[ids[i]], rid, i, now))
    && (forall id :: id in t.atts && id !in ids ==> s.atts[id] == t.atts[id])
    && (forall k, id :: 0 <= k < |ids| ==> !HeldAt(t, rid, k, id))
  }

  /** After a reservation a held place is one of the new ones, or an old one that does not clash with them. */
  lemma HoldsAfterReserve(t: Tables, s: Tables, ids: seq<Id>, rid: Id, now: Time, r: Id, k: int, x: Id)
    requires Taken(t, s, ids, rid, now) && HeldAt(s, r, k, x)
    ensures if x in ids then r == rid && 0 <= k < |ids| && ids[k] == x
            else HeldAt(t, r, k, x) && !(r == rid && 0 <= k < |ids|)
  {
    if x in ids { var i :| 0 <= i < |ids| && ids[i] == x; } else { assert HeldAt(t, r, k, x); }
  }

  lemma TakenUnique(t: Tables, s: Tables, ids: seq<Id>, rid: Id, now: Time)
    requires Taken(t, s, ids, rid, now) && OnePerHold(t)
    ensures OnePerHold(s)
  {
    forall r, k, x, y | HeldAt(s, r, k, x) && HeldAt(s, r, k, y) ensures x == y {
      HoldsAfterReserve(t, s, ids, rid, now, r, k, x);
      HoldsAfterReserve(t, s, ids, rid, now, r, k, y);
    }
  }

  lemma ReserveTaken(t: Tables, ids: seq<Id>, owner: Id, rid: Id, now: Time)
    requires Reserve(t, ids, owner, rid, now).1.Ok?
    ensures Taken(t, Reserve(t, ids, owner, rid, now).0, ids, rid, now)
  {
    ReserveAllOrNothing(t, ids, owner, rid, now);
  }

  lemma ReleaseKeeps(t: Tables, owner: Id, rid: Id, now: Time)
    requires Inv(t)
    ensures Inv(Release(t, owner, rid, now))
    ensures SameBound(t, Release(t, owner, rid, now))
  {
    var s := Release(t, owner, rid, now);
    forall id | id in s.atts ensures RowOk(s.atts[id]) { assert RowOk(t.atts[id]); }
    FrameKeeps(t, s);
  }

  lemma DropDraftsKeeps(t: Tables, victims: set<Id>)
    requires Inv(t)
    requires forall id :: id in victims ==> !IsBound(t, id)
    ensures Inv(DropDrafts(t, victims))
    ensures SameBound(t, DropDrafts(t, victims))
  {
    FrameKeeps(t, DropDrafts(t, victims));
  }

  lemma DeleteKeeps(t: Tables, id: Id, owner: Id)
    requires Inv(t)
    ensures Inv(Delete(t, id, owner).0)
    ensures SameBound(t, Delete(t, id, owner).0)
  {
    FrameKeeps(t, Delete(t, id, owner).0);
  }

  lemma FailStaleKeeps(t: Tables, owner: Id, victims: set<Id>, now: Time)
    requires Inv(t) && victims <= Stale(t, owner)
    ensures Inv(FailStale(t, victims, now))
    ensures SameBound(t, FailStale(t, victims, now))
  {
    var s := FailStale(t, victims, now);
    forall id | id in s.atts ensures RowOk(s.atts[id]) { assert RowOk(t.atts[id]); }
    FrameKeeps(t, s);
  }

  // Deleting sessions takes whole turns with all their rows.

  lemma CascadeByTurn(t: Tables, gone: set<Id>, id: Id)
    requires Inv(t) && IsBound(t, id)
    ensures var s := DropSessions(t, gone);
      (id in s.atts <==> t.atts[id].session.value !in gone) && (id in s.atts <==> t.atts[id].turn.value in s.turns)
  {
    assert RowOk(t.atts[id]);
    assert Attached(t, t.atts[id]);
  }

  lemma CascadeKeeps(t: Tables, gone: set<Id>)
    requires Inv(t)
    ensures Inv(DropSessions(t, gone))
    ensures KeepsBound(t, DropSessions(t, gone))
  {
    var s := DropSessions(t, gone);
    forall id | id in s.atts && s.atts[id].status.Bound? ensures Attached(s, s.atts[id]) {
      assert IsBound(t, id);
      CascadeByTurn(t, gone, id);
      assert Attached(t, t.atts[id]);
    }
    forall u, k, x | BoundAt(s, u, k, x) ensures BoundAt(t, u, k, x) {}
    forall r, k, x | HeldAt(s, r, k, x) ensures HeldAt(t, r, k, x) {}
    forall u, k, x, j | BoundAt(s, u, k, x) && 0 <= j < k ensures Filled(s, u, j) {
      assert BoundAt(t, u, k, x) && IsBound(t, x);
      assert Filled(t, u, j);
      var y :| y in t.atts && BoundAt(t, u, j, y);
      assert IsBound(t, y);
      CascadeByTurn(t, gone, x);
      CascadeByTurn(t, gone, y);
      assert BoundAt(s, u, j, y);
    }
    forall id | IsBound(t, id) && id !in s.atts ensures t.atts[id].session.value in gone { CascadeByTurn(t, gone, id); }
  }

  lemma PurgeKeeps(t: Tables, now: Time, p: PurgeChoice)
    requires Inv(t) && PurgeAllowed(t, now, p)
    ensures Inv(Purge(t, p))
    ensures KeepsBound(t, Purge(t, p))
  {
    CascadeKeeps(t, p.sessions);
    var s := DropSessions(t, p.sessions);
    forall id | id in p.drafts ensures !IsBound(s, id) {
      assert id in DueDrafts(s, now);
      assert RowOk(s.atts[id]);
    }
    DropDraftsKeeps(s, p.drafts);
  }

  lemma AddTurnKeeps(t: Tables, session: Id, turn: Id, owner: Id, now: Time, ttl: Time)
    requires Inv(t) && session in t.sessions && t.sessions[session].owner == owner && turn !in t.turns
    ensures Inv(AddTurn(t, session, turn, owner, now, ttl))
  {
    var s := AddTurn(t, session, turn, owner, now, ttl);
    forall id | id in s.atts && s.atts[id].status.Bound? ensures Attached(s, s.atts[id]) {
      assert Attached(t, t.atts[id]);
    }
    assert SameBound(t, s);
    assert HoldsFrom(t, s);
    PlacesFrame(t, s);
  }

  /** A successful binding takes the listed rows, each at its place, to a turn that had none. */
  lemma BindTakes(t: Tables, owner: Id, session: Id, turn: Id, b: Binding, now: Time)
    requires Inv(t) && Bind(t, owner, session, turn, b, now).1.Ok?
    ensures var s := Bind(t, owner, session, turn, b, now).0;
      && s == WithBound(t, b.ids, session, turn, now)
      && turn in t.turns && t.turns[turn].session == session && t.turns[turn].owner == owner
      && (forall id :: IsBound(t, id) ==> t.atts[id].turn != Some(turn))
      && (forall i :: 0 <= i < |b.ids| ==>
            && OwnedBy(t, owner, b.rid, b.ids[i]) && t.atts[b.ids[i]].status.Confirmed?
            && t.atts[b.ids[i]].position == Some(i)
            && s.atts[b.ids[i]] == BoundTo(t.atts[b.ids[i]], session, turn, now))
      && (forall id :: id in t.atts && id !in b.ids ==> !OwnedBy(t, owner, b.rid, id))
  {
    forall i | 0 <= i < |b.ids| ensures Bindable(t.atts[b.ids[i]], i, now) {}
    forall id | IsBound(t, id) ensures t.atts[id].turn != Some(turn) {
      assert RowOk(t.atts[id]) && Attached(t, t.atts[id]);
    }
  }

  ghost predicate Attaches(t: Tables, s: Tables, ids: seq<Id>, session: Id, turn: Id, now: Time) {
    && s.atts.Keys == t.atts.Keys && |ids| <= 3
    && (forall i :: 0 <= i < |ids| ==>
        ids[i] in t.atts && t.atts[ids[i]].status.Confirmed? && t.atts[ids[i]].position == Some(i)
                                       && s.atts[ids[i]] == BoundTo(t.atts[ids[i]], session, turn, now))
    && (forall id :: id in t.atts && id !in ids ==> s.atts[id] == t.atts[id])
    && (forall id :: IsBound(t, id) ==> id !in ids && t.atts[id].turn != Some(turn))
  }

  lemma PlacesAfterBind(t: Tables, s: Tables, ids: seq<Id>, session: Id, turn: Id, now: Time, u: Id, k: int, x: Id)
    requires Attaches(t, s, ids, session, turn, now) && BoundAt(s, u, k, x)
    ensures if u == turn then 0 <= k < |ids| && x == ids[k] else BoundAt(t, u, k, x)
  {
    if x in ids { var i :| 0 <= i < |ids| && ids[i] == x; } else { assert IsBound(t, x); }
  }

  lemma BindKeepsPlaces(t: Tables, s: Tables, ids: seq<Id>, session: Id, turn: Id, now: Time)
    requires Attaches(t, s, ids, session, turn, now) && OnePerPlace(t) && NoGaps(t)
    ensures OnePerPlace(s) && NoGaps(s)
  {
    forall u, k, x, y | BoundAt(s, u, k, x) && BoundAt(s, u, k, y) ensures x == y {
      PlacesAfterBind(t, s, ids, session, turn, now, u, k, x);
      PlacesAfterBind(t, s, ids, session, turn, now, u, k, y);
    }
    forall u, k, x, j | BoundAt(s, u, k, x) && 0 <= j < k ensures Filled(s, u, j) {
      PlacesAfterBind(t, s, ids, session, turn, now, u, k, x);
      if u == turn {
        assert BoundAt(s, u, j, ids[j]);
      } else {
        assert Filled(t, u, j);
        var y :| y in t.atts && BoundAt(t, u, j, y);
        assert IsBound(t, y);
        assert BoundAt(s, u, j, y);
      }
    }
  }

  lemma BindRelates(t: Tables, s: Tables, ids: seq<Id>, session: Id, turn: Id, now: Time)
    requires |ids| <= 3 && s == WithBound(t, ids, session, turn, now)
    requires forall id :: IsBound(t, id) ==> t.atts[id].turn != Some(turn)
    requires forall i :: 0 <= i < |ids| ==>
      ids[i] in t.atts && t.atts[ids[i]].status.Confirmed? && t.atts[ids[i]].position == Some(i)
    ensures Attaches(t, s, ids, session, turn, now)
  {
  }

  lemma RowsAfterBind(t: Tables, s: Tables, ids: seq<Id>, session: Id, turn: Id, now: Time)
    requires Attaches(t, s, ids, session, turn, now) && RowsOk(t)
    ensures RowsOk(s)
  {
    forall id | id in s.atts ensures RowOk(s.atts[id]) {
      assert RowOk(t.atts[id]);
      if id in ids { var i :| 0 <= i < |ids| && ids[i] == id; }
    }
  }

  lemma AttachedAfterBind(t: Tables, s: Tables, owner: Id, ids: seq<Id>, session: Id, turn: Id, now: Time)
    requires Attaches(t, s, ids, session, turn, now) && BoundAttached(t) && s.turns == t.turns
    requires turn in t.turns && t.turns[turn].session == session && t.turns[turn].owner == owner
    requires forall i :: 0 <= i < |ids| ==> t.atts[ids[i]].owner == owner
    ensures BoundAttached(s)
  {
    forall id | id in s.atts && s.atts[id].status.Bound? ensures Attached(s, s.atts[id]) {
      if id in ids {
        var i :| 0 <= i < |ids| && ids[i] == id;
      } else {
        assert IsBound(t, id) && Attached(t, t.atts[id]);
      }
    }
  }

  lemma HoldsAfterBind(t: Tables, s: Tables, ids: seq<Id>, session: Id, turn: Id, now: Time)
    requires Attaches(t, s, ids, session, turn, now) && OnePerHold(t)
    ensures OnePerHold(s)
  {
    assert forall i :: 0 <= i < |ids| ==> s.atts[ids[i]].reservation.None?;
    forall r, k, x | HeldAt(s, r, k, x) ensures HeldAt(t, r, k, x) { assert x !in ids; }
  }

  lemma BindKeeps(t: Tables, owner: Id, session: Id, turn: Id, b: Binding, now: Time)
    requires Inv(t)
    ensures Inv(Bind(t, owner, session, turn, b, now).0)
    ensures KeepsBound(t, Bind(t, owner, session, turn, b, now).0)
  {
    var (s, ok) := Bind(t, owner, session, turn, b, now);
    if ok.Ok? {
      BindTakes(t, owner, session, turn, b, now);
      BindRelates(t, s, b.ids, session, turn, now);
      BindKeepsPlaces(t, s, b.ids, session, turn, now);
      RowsAfterBind(t, s, b.ids, session, turn, now);
      AttachedAfterBind(t, s, owner, b.ids, session, turn, now);
      HoldsAfterBind(t, s, b.ids, session, turn, now);
      BoundAfterBind(t, s, b.ids, session, turn, now);
    } else {
      BindRefuses(t, owner, session, turn, b, now);
    }
  }

  lemma BindRefuses(t: Tables, owner: Id, session: Id, turn: Id, b: Binding, now: Time)
    requires Bind(t, owner, session, turn, b, now).1.Err?
    ensures Bind(t, owner, session, turn, b, now).0 == t
  {
  }

  lemma BoundAfterBind(t: Tables, s: Tables, ids: seq<Id>, session: Id, turn: Id, now: Time)
    requires Attaches(t, s, ids, session, turn, now) && s.sessions == t.sessions
    ensures KeepsBound(t, s)
  {
  }

  lemma KeepsBoundTrans(t: Tables, s: Tables, w: Tables)
    requires KeepsBound(t, s) && KeepsBound(s, w)
    ensures KeepsBound(t, w)
  {
    forall id | IsBound(t, id) && t.atts[id].session.Some? && id in w.atts ensures w.atts[id] == t.atts[id] {
      if id in s.atts { assert IsBound(s, id); }
    }
  }

  /** The tables `persist_session_turn` has built when it reaches the binding. */
  function WithTurn(t: Tables, owner: Id, session: Id, turn: Id, now: Time, ttl: Time, p1: PurgeChoice): Tables
    requires session in Purge(t, p1).sessions
  {
    AddTurn(Purge(t, p1), session, turn, owner, now, ttl)
  }

  lemma WithTurnKeeps(t: Tables, owner: Id, session: Id, turn: Id, now: Time, ttl: Time, p1: PurgeChoice)
    requires Inv(t) && PurgeAllowed(t, now, p1)
    requires session in Purge(t, p1).sessions && Purge(t, p1).sessions[session].owner == owner
             && turn !in Purge(t, p1).turns
    ensures var s := WithTurn(t, owner, session, turn, now, ttl, p1); Inv(s) && KeepsBound(t, s)
  {
    PurgeKeeps(t, now, p1);
    AddTurnKeeps(Purge(t, p1), session, turn, owner, now, ttl);
    KeepsBoundTrans(t, Purge(t, p1), WithTurn(t, owner, session, turn, now, ttl, p1));
  }

  lemma BindAloneKeeps(t: Tables, owner: Id, session: Id, turn: Id, b: Binding, now: Time, p: PurgeChoice)
    requires Inv(t) && PurgeAllowed(t, now, p)
    ensures var s := BindAlone(t, owner, session, turn, b, now, p).0; Inv(s) && KeepsBound(t, s)
  {
    PurgeKeeps(t, now, p);
    BindKeeps(Purge(t, p), owner, session, turn, b, now);
    KeepsBoundTrans(t, Purge(t, p), Bind(Purge(t, p), owner, session, turn, b, now).0);
  }

  /** A commit either changes nothing, adds a turn, or adds a turn and binds to it. */
  lemma PersistShape(t: Tables, owner: Id, session: Id, turn: Id, accepted: bool, binding: Option<Binding>,
                     now: Time, ttl: Time, p1: PurgeChoice, p2: PurgeChoice)
    ensures var (s, r) := Persist(t, owner, session, turn, accepted, binding, now, ttl, p1, p2);
      var t1 := Purge(t, p1);
      if r.Err? then s == t
      else
        && session in t1.sessions && t1.sessions[session].owner == owner && turn !in t1.turns
        && var t2 := WithTurn(t, owner, session, turn, now, ttl, p1);
           if binding.None? then s == t2
           else BindAlone(t2, owner, session, turn, binding.value, now, p2).1.Ok?
                && s == BindAlone(t2, owner, session, turn, binding.value, now, p2).0
  {
  }

  lemma PersistKeeps(t: Tables, owner: Id, session: Id, turn: Id, accepted: bool, binding: Option<Binding>,
                     now: Time, ttl: Time, p1: PurgeChoice, p2: PurgeChoice)
    requires Inv(t) && PersistChoices(t, owner, session, turn, now, ttl, p1, p2)
    ensures var s := Persist(t, owner, session, turn, accepted, binding, now, ttl, p1, p2).0; Inv(s) && KeepsBound(t, s)
  {
    PersistShape(t, owner, session, turn, accepted, binding, now, ttl, p1, p2);
    if Persist(t, owner, session, turn, accepted, binding, now, ttl, p1, p2).1.Ok? {
      WithTurnKeeps(t, owner, session, turn, now, ttl, p1);
      if binding.Some? {
        var t2 := WithTurn(t, owner, session, turn, now, ttl, p1);
        BindAloneKeeps(t2, owner, session, turn, binding.value, now, p2);
        KeepsBoundTrans(t, t2, BindAlone(t2, owner, session, turn, binding.value, now, p2).0);
      }
    }
  }

  ghost predicate PersistChoices(t: Tables, owner: Id, session: Id, turn: Id, now: Time, ttl: Time, p1: PurgeChoice,
                                 p2: PurgeChoice) {
    var t1 := Purge(t, p1);
    && PurgeAllowed(t, now, p1)
    && (session in t1.sessions ==> PurgeAllowed(AddTurn(t1, session, turn, owner, now, ttl), now, p2))
  }

  // ---------------------------------------------------------------- runs

  datatype Event =
    | Upload(id: Id, owner: Id, media: Media, now: Time, ttl: Time)
    | Extract(id: Id, owner: Id, x: ValidExtraction, now: Time)
    | Fail(id: Id, owner: Id, code: string, now: Time)
    | ConfirmText(id: Id, owner: Id, body: string, now: Time)
    | TakeHold(ids: seq<Id>, owner: Id, rid: Id, now: Time)
    | DropHold(owner: Id, rid: Id, now: Time)
    | Discard(id: Id, owner: Id)
    | Expire(owner: Id, victims: set<Id>, limit: nat, now: Time)
    | GiveUp(owner: Id, victims: set<Id>, limit: nat, now: Time)
    | Sweep(p: PurgeChoice, now: Time)
    | OpenSession(session: Id, owner: Id, expiresAt: Time)
    | CommitTurn(owner: Id, session: Id, turn: Id, accepted: bool, binding: Option<Binding>, now: Time, ttl: Time,
                 p1: PurgeChoice, p2: PurgeChoice)
    | BindRows(owner: Id, session: Id, turn: Id, b: Binding, now: Time, p: PurgeChoice)
    | EraseSession(session: Id, owner: Id, now: Time, p: PurgeChoice)

  /** Creation instants order the rows that go stale first. */
  function CreationOrder(t: Tables): Id -> Time {
    id => if id in t.atts then t.atts[id].createdAt else 0
  }

  /** The rows a SELECT with ORDER BY and LIMIT hands to its statement. */
  ghost predicate Allowed(t: Tables, e: Event) {
    match e
    case Expire(owner, victims, limit, now) =>
      FirstDue((set id | id in DueDrafts(t, now) && Owned(t, id, owner)), DraftExpiry(t), limit, victims)
    case GiveUp(owner, victims, limit, now) => FirstDue(Stale(t, owner), CreationOrder(t), limit, victims)
    case Sweep(p, now) => PurgeAllowed(t, now, p)
    case CommitTurn(owner, session, turn, _, _, now, ttl, p1, p2) =>
      PersistChoices(t, owner, session, turn, now, ttl, p1, p2)
    case BindRows(_, _, _, _, now, p) => PurgeAllowed(t, now, p)
    case EraseSession(_, _, now, p) => PurgeAllowed(t, now, p)
    case _ => true
  }

  function Next(t: Tables, e: Event): Tables {
    match e
    case Upload(id, owner, media, now, ttl) => CreateProcessing(t, id, owner, media, now, ttl).0
    case Extract(id, owner, x, now) => SaveExtraction(t, id, owner, x, now).0
    case Fail(id, owner, code, now) => SaveFailure(t, id, owner, code, now).0
    case ConfirmText(id, owner, body, now) => Confirm(t, id, owner, body, now).0
    case TakeHold(ids, owner, rid, now) => Reserve(t, ids, owner, rid, now).0
    case DropHold(owner, rid, now) => Release(t, owner, rid, now)
    case Discard(id, owner) => Delete(t, id, owner).0
    case Expire(_, victims, _, _) => DropDrafts(t, victims)
    case GiveUp(_, victims, _, now) => FailStale(t, victims, now)
    case Sweep(p, _) => Purge(t, p)
    case OpenSession(session, owner, expiresAt) => CreateSession(t, session, owner, expiresAt).0
    case CommitTurn(owner, session, turn, accepted, binding, now, ttl, p1, p2) =>
      Persist(t, owner, session, turn, accepted, binding, now, ttl, p1, p2).0
    case BindRows(owner, session, turn, b, now, p) => BindAlone(t, owner, session, turn, b, now, p).0
    case EraseSession(session, owner, _, p) => DeleteSession(t, session, owner, p)
  }

  /** `ws` are the tables before, between and after the events. */
  ghost predicate Run(ws: seq<Tables>, es: seq<Event>) {
    && |ws| == |es| + 1
    && forall i :: 0 <= i < |es| ==> Allowed(ws[i], es[i]) && ws[i + 1] == Next(ws[i], es[i])
  }

  const EMPTY := Tables(map[], map[], map[])

  lemma OpenKeeps(t: Tables, session: Id, owner: Id, expiresAt: Time)
    requires Inv(t)
    ensures var s := CreateSession(t, session, owner, expiresAt).0; Inv(s) && SameBound(t, s)
  {
    var s := CreateSession(t, session, owner, expiresAt).0;
    forall id | id in s.atts && s.atts[id].status.Bound? ensures Attached(s, s.atts[id]) {
      assert Attached(t, t.atts[id]);
    }
    assert SameBound(t, s);
    assert HoldsFrom(t, s);
    PlacesFrame(t, s);
  }

  lemma ExpireKeeps(t: Tables, owner: Id, victims: set<Id>, limit: nat, now: Time)
    requires Inv(t) && Allowed(t, Expire(owner, victims, limit, now))
    ensures Inv(DropDrafts(t, victims)) && SameBound(t, DropDrafts(t, victims))
  {
    forall id | id in victims ensures !IsBound(t, id) {
      assert id in DueDrafts(t, now);
      assert RowOk(t.atts[id]);
    }
    DropDraftsKeeps(t, victims);
  }

  lemma EraseKeeps(t: Tables, session: Id, owner: Id, now: Time, p: PurgeChoice)
    requires Inv(t) && PurgeAllowed(t, now, p)
    ensures Inv(DeleteSession(t, session, owner, p)) && KeepsBound(t, DeleteSession(t, session, owner, p))
  {
    PurgeKeeps(t, now, p);
    CascadeKeeps(Purge(t, p), {session});
    KeepsBoundTrans(t, Purge(t, p), DeleteSession(t, session, owner, p));
  }

  predicate OnDrafts(e: Event) {
    !(e.Sweep? || e.CommitTurn? || e.BindRows? || e.EraseSession?)
  }

  lemma DraftStepKeeps(t: Tables, e: Event)
    requires Inv(t) && Allowed(t, e) && OnDrafts(e)
    ensures Inv(Next(t, e)) && SameBound(t, Next(t, e))
  {
    match e
    case Upload(id, owner, media, now, ttl) => UploadKeeps(t, id, owner, media, now, ttl);
    case Extract(id, owner, x, now) => ExtractionKeeps(t, id, owner, x, now);
    case Fail(id, owner, code, now) => FailureKeeps(t, id, owner, code, now);
    case ConfirmText(id, owner, body, now) => ConfirmKeeps(t, id, owner, body, now);
    case TakeHold(ids, owner, rid, now) => ReserveKeeps(t, ids, owner, rid, now);
    case DropHold(owner, rid, now) => ReleaseKeeps(t, owner, rid, now);
    case Discard(id, owner) => DeleteKeeps(t, id, owner);
    case Expire(owner, victims, limit, now) => ExpireKeeps(t, owner, victims, limit, now);
    case GiveUp(owner, victims, _, now) => FailStaleKeeps(t, owner, victims, now);
    case OpenSession(session, owner, expiresAt) => OpenKeeps(t, session, owner, expiresAt);
  }

  lemma SessionStepKeeps(t: Tables, e: Event)
    requires Inv(t) && Allowed(t, e) && !OnDrafts(e)
    ensures Inv(Next(t, e)) && KeepsBound(t, Next(t, e))
  {
    match e
    case Sweep(p, now) => PurgeKeeps(t, now, p);
    case CommitTurn(owner, session, turn, accepted, binding, now, ttl, p1, p2) =>
      PersistKeeps(t, owner, session, turn, accepted, binding, now, ttl, p1, p2);
    case BindRows(owner, session, turn, b, now, p) => BindAloneKeeps(t, owner, session, turn, b, now, p);
    case EraseSession(session, owner, now, p) => EraseKeeps(t, session, owner, now, p);
  }

  lemma StepKeeps(t: Tables, e: Event)
    requires Inv(t) && Allowed(t, e)
    ensures Inv(Next(t, e)) && BoundStays(t, Next(t, e))
  {
    if OnDrafts(e) { DraftStepKeeps(t, e); } else { SessionStepKeeps(t, e); }
  }

  /** Every state reachable from the empty tables satisfies the invariant. */
  lemma {:induction false} RunKeepsInv(ws: seq<Tables>, es: seq<Event>)
    requires Run(ws, es) && Inv(ws[0])
    ensures forall i :: 0 <= i < |ws| ==> Inv(ws[i])
  {
    if |es| > 0 {
      var n := |es| - 1;
      assert Run(ws[..n + 1], es[..n]);
      RunKeepsInv(ws[..n + 1], es[..n]);
      assert Inv(ws[..n + 1][n]);
      StepKeeps(ws[n], es[n]);
    }
  }
}
