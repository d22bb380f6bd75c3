/**
 One consultation's reserved attachments, from the reservation in app/agent/pipeline.py to
 the release in its `finally`, while other requests and the purges run in between.
 */
module AttachmentConsults {
  import opened Common
  import opened Attachments
  import opened AttachmentRuns

  /** The reservation a consultation made and the turn it may bind it to. */
  datatype Consult = Consult(ids: seq<Id>, owner: Id, rid: Id, turn: Id)

  /** A step that does not use this consultation's fresh reservation id or re-create its rows. */
  predicate Foreign(c: Consult, e: Event) {
    match e
    case Upload(id, _, _, _, _) => id !in c.ids
    case TakeHold(_, _, rid, _) => rid != c.rid
    case DropHold(_, rid, _) => rid != c.rid
    case CommitTurn(_, _, _, _, binding, _, _, _, _) => binding.Some? ==> binding.value.rid != c.rid
    case BindRows(_, _, _, b, _, _) => b.rid != c.rid
    case _ => true
  }

  /** The consultation's own commit. */
  predicate OwnCommit(c: Consult, e: Event) {
    e.CommitTurn? && e.owner == c.owner && e.turn == c.turn && e.binding == Some(Binding(c.rid, c.ids))
  }

  predicate Waits(c: Consult, t: Tables, id: Id) {
    OwnedBy(t, c.owner, c.rid, id)
  }

  predicate Done(c: Consult, t: Tables, id: Id) {
    IsBound(t, id) && t.atts[id].turn == Some(c.turn) && t.atts[id].owner == c.owner
  }

  /** Rows still in the table are all waiting or all bound to the turn, and nothing else is held. */
  predicate Tracked(c: Consult, t: Tables) {
    && (forall id :: id in t.atts && Waits(c, t, id) ==> id in c.ids)
    && (forall id :: id in c.ids && id in t.atts ==> Waits(c, t, id) || Done(c, t, id))
    && (forall x, y :: x in c.ids && y in c.ids && Done(c, t, x) ==> !Waits(c, t, y))
  }

  /** What a foreign step may do to the consultation's rows: remove them. */
  ghost predicate Spares(c: Consult, t: Tables, s: Tables) {
    && BoundStays(t, s)
    && (forall id :: id in c.ids && id in s.atts ==> id in t.atts)
    && (forall id :: Waits(c, s, id) ==> Waits(c, t, id))
    && (forall id :: Waits(c, t, id) && id in s.atts ==> s.atts[id] == t.atts[id])
  }

  lemma SparedStaysTracked(c: Consult, t: Tables, s: Tables)
    requires Inv(t) && Tracked(c, t) && Spares(c, t, s)
    ensures Tracked(c, s)
  {
    forall id | id in c.ids && id in s.atts ensures Waits(c, s, id) || Done(c, s, id) {
      if Done(c, t, id) { assert RowOk(t.atts[id]); }
    }
    forall x, y | x in c.ids && y in c.ids && Done(c, s, x) ensures !Waits(c, s, y) {
      assert x in t.atts && RowOk(t.atts[x]);
    }
  }

  lemma SparesTrans(c: Consult, t: Tables, s: Tables, w: Tables)
    requires Inv(t) && Spares(c, t, s) && Spares(c, s, w) && KeepsBound(t, s) && KeepsBound(s, w)
    ensures Spares(c, t, w)
  {
    KeepsBoundTrans(t, s, w);
    forall id | Waits(c, t, id) && id in w.atts ensures w.atts[id] == t.atts[id] { assert id in s.atts; }
  }

  /** A step that only removes rows, or leaves waiting rows as they are and makes none. */
  lemma ThinningSpares(c: Consult, t: Tables, s: Tables)
    requires BoundStays(t, s) && s.atts.Keys <= t.atts.Keys
    requires forall id :: id in s.atts ==> s.atts[id] == t.atts[id]
    ensures Spares(c, t, s)
  {
  }

  lemma PurgeSpares(c: Consult, t: Tables, now: Time, p: PurgeChoice)
    requires Inv(t) && PurgeAllowed(t, now, p)
    ensures Spares(c, t, Purge(t, p))
  {
    PurgeKeeps(t, now, p);
    ThinningSpares(c, t, Purge(t, p));
  }

  lemma BindSpares(c: Consult, t: Tables, owner: Id, session: Id, turn: Id, b: Binding, now: Time)
    requires Inv(t) && b.rid != c.rid
    ensures Spares(c, t, Bind(t, owner, session, turn, b, now).0)
  {
    BindKeeps(t, owner, session, turn, b, now);
    if Bind(t, owner, session, turn, b, now).1.Ok? {
      BindTakes(t, owner, session, turn, b, now);
      OtherHoldSpares(c, t, b, session, turn, now);
    }
  }

  lemma OtherHoldSpares(c: Consult, t: Tables, b: Binding, session: Id, turn: Id, now: Time)
    requires b.rid != c.rid && BoundStays(t, WithBound(t, b.ids, session, turn, now))
    requires forall i :: 0 <= i < |b.ids| ==> b.ids[i] in t.atts && t.atts[b.ids[i]].reservation == Some(b.rid)
    ensures Spares(c, t, WithBound(t, b.ids, session, turn, now))
  {
    forall id | id in b.ids ensures t.atts[id].reservation == Some(b.rid) {
      var i :| 0 <= i < |b.ids| && b.ids[i] == id;
    }
  }

  lemma BindAloneSpares(c: Consult, t: Tables, owner: Id, session: Id, turn: Id, b: Binding, now: Time, p: PurgeChoice)
    requires Inv(t) && PurgeAllowed(t, now, p) && b.rid != c.rid
    ensures Spares(c, t, BindAlone(t, owner, session, turn, b, now, p).0)
  {
    PurgeKeeps(t, now, p);
    PurgeSpares(c, t, now, p);
    BindKeeps(Purge(t, p), owner, session, turn, b, now);
    BindSpares(c, Purge(t, p), owner, session, turn, b, now);
    SparesTrans(c, t, Purge(t, p), Bind(Purge(t, p), owner, session, turn, b, now).0);
  }

  lemma WithTurnSpares(c: Consult, t: Tables, owner: Id, session: Id, turn: Id, now: Time, ttl: Time, p1: PurgeChoice)
    requires Inv(t) && PurgeAllowed(t, now, p1)
    requires session in Purge(t, p1).sessions && Purge(t, p1).sessions[session].owner == owner
             && turn !in Purge(t, p1).turns
    ensures Spares(c, t, WithTurn(t, owner, session, turn, now, ttl, p1))
  {
    WithTurnKeeps(t, owner, session, turn, now, ttl, p1);
    ThinningSpares(c, t, WithTurn(t, owner, session, turn, now, ttl, p1));
  }

  lemma CommitSpares(c: Consult, t: Tables, owner: Id, session: Id, turn: Id, accepted: bool, binding: Option<Binding>,
                     now: Time, ttl: Time, p1: PurgeChoice, p2: PurgeChoice)
    requires Inv(t) && PersistChoices(t, owner, session, turn, now, ttl, p1, p2)
    requires binding.Some? ==> binding.value.rid != c.rid
    ensures Spares(c, t, Persist(t, owner, session, turn, accepted, binding, now, ttl, p1, p2).0)
  {
    PersistShape(t, owner, session, turn, accepted, binding, now, ttl, p1, p2);
    if Persist(t, owner, session, turn, accepted, binding, now, ttl, p1, p2).1.Ok? {
      var t2 := WithTurn(t, owner, session, turn, now, ttl, p1);
      WithTurnKeeps(t, owner, session, turn, now, ttl, p1);
      WithTurnSpares(c, t, owner, session, turn, now, ttl, p1);
      if binding.Some? {
        BindAloneKeeps(t2, owner, session, turn, binding.value, now, p2);
        BindAloneSpares(c, t2, owner, session, turn, binding.value, now, p2);
        SparesTrans(c, t, t2, BindAlone(t2, owner, session, turn, binding.value, now, p2).0);
      }
    }
  }

  lemma TakeHoldSpares(c: Consult, t: Tables, ids: seq<Id>, owner: Id, rid: Id, now: Time)
    requires Inv(t) && rid != c.rid
    ensures Spares(c, t, Reserve(t, ids, owner, rid, now).0)
  {
    ReserveKeeps(t, ids, owner, rid, now);
    ReserveAllOrNothing(t, ids, owner, rid, now);
    var (s, ok) := Reserve(t, ids, owner, rid, now);
    if ok.Ok? {
      forall id | id in t.atts && id in ids ensures t.atts[id].reservation.None?
        && s.atts[id].reservation == Some(rid) {
        var i :| 0 <= i < |ids| && ids[i] == id;
      }
    }
  }

  lemma GiveUpSpares(c: Consult, t: Tables, owner: Id, victims: set<Id>, now: Time)
    requires Inv(t) && victims <= Stale(t, owner)
    ensures Spares(c, t, FailStale(t, victims, now))
  {
    FailStaleKeeps(t, owner, victims, now);
    forall id | id in victims ensures t.atts[id].reservation.None? { assert RowOk(t.atts[id]); }
  }

  lemma PutSpares(c: Consult, t: Tables, id: Id, a: Att)
    requires BoundStays(t, Put(t, id, a)) && a.reservation.None?
    requires if id in t.atts then t.atts[id].reservation.None? else id !in c.ids
    ensures Spares(c, t, Put(t, id, a))
  {
  }

  lemma RowStepSpares(c: Consult, t: Tables, e: Event)
    requires Inv(t) && Foreign(c, e)
    requires e.Upload? || e.Extract? || e.Fail? || e.ConfirmText?
    ensures Spares(c, t, Next(t, e))
  {
    DraftStepKeeps(t, e);
    var s := Next(t, e);
    if s != t {
      if e.id in t.atts { assert RowOk(t.atts[e.id]); }
      assert s == Put(t, e.id, s.atts[e.id]);
      PutSpares(c, t, e.id, s.atts[e.id]);
    }
  }

  lemma DraftSpares(c: Consult, t: Tables, e: Event)
    requires Inv(t) && Allowed(t, e) && Foreign(c, e) && OnDrafts(e)
    ensures Spares(c, t, Next(t, e))
  {
    if e.Upload? || e.Extract? || e.Fail? || e.ConfirmText? {
      RowStepSpares(c, t, e);
    } else {
      HoldStepSpares(c, t, e);
    }
  }

  lemma HoldStepSpares(c: Consult, t: Tables, e: Event)
    requires Inv(t) && Allowed(t, e) && Foreign(c, e) && OnDrafts(e)
    requires !e.Upload? && !e.Extract? && !e.Fail? && !e.ConfirmText?
    ensures Spares(c, t, Next(t, e))
  {
    match e
    case TakeHold(ids, owner, rid, now) => TakeHoldSpares(c, t, ids, owner, rid, now);
    case DropHold(owner, rid, now) => DropHoldSpares(c, t, owner, rid, now);
    case Discard(id, owner) => DeleteKeeps(t, id, owner); ThinningSpares(c, t, Next(t, e));
    case Expire(owner, victims, limit, now) => ExpireKeeps(t, owner, victims, limit, now);
        ThinningSpares(c, t, Next(t, e));
    case GiveUp(owner, victims, _, now) => GiveUpSpares(c, t, owner, victims, now);
    case OpenSession(session, owner, expiresAt) => OpenKeeps(t, session, owner, expiresAt);
        ThinningSpares(c, t, Next(t, e));
  }

  lemma DropHoldSpares(c: Consult, t: Tables, owner: Id, rid: Id, now: Time)
    requires Inv(t) && rid != c.rid
    ensures Spares(c, t, Release(t, owner, rid, now))
  {
    ReleaseKeeps(t, owner, rid, now);
  }

  lemma ForeignSpares(c: Consult, t: Tables, e: Event)
    requires Inv(t) && Allowed(t, e) && Foreign(c, e)
    ensures Spares(c, t, Next(t, e))
  {
    if OnDrafts(e) {
      DraftSpares(c, t, e);
    } else {
      match e
      case Sweep(p, now) => PurgeSpares(c, t, now, p);
      case CommitTurn(owner, session, turn, accepted, binding, now, ttl, p1, p2) =>
        CommitSpares(c, t, owner, session, turn, accepted, binding, now, ttl, p1, p2);
      case BindRows(owner, session, turn, b, now, p) => BindAloneSpares(c, t, owner, session, turn, b, now, p);
      case EraseSession(session, owner, now, p) => EraseKeeps(t, session, owner, now, p);
          ThinningSpares(c, t, Next(t, e));
    }
  }

  /** A binding of the consultation's own reservation leaves nothing waiting. */
  lemma OwnBindTracked(c: Consult, t: Tables, session: Id, now: Time)
    requires Inv(t) && Tracked(c, t)
    ensures Tracked(c, Bind(t, c.owner, session, c.turn, Binding(c.rid, c.ids), now).0)
  {
    var b := Binding(c.rid, c.ids);
    var (s, ok) := Bind(t, c.owner, session, c.turn, b, now);
    if ok.Ok? {
      BindTakes(t, c.owner, session, c.turn, b, now);
      AllDone(c, t, s, session, now);
    }
  }

  lemma AllDone(c: Consult, t: Tables, s: Tables, session: Id, now: Time)
    requires Tracked(c, t) && s == WithBound(t, c.ids, session, c.turn, now)
    requires forall i :: 0 <= i < |c.ids| ==>
             Waits(c, t, c.ids[i]) && s.atts[c.ids[i]] == BoundTo(t.atts[c.ids[i]], session, c.turn, now)
    ensures Tracked(c, s)
  {
    forall id | id in c.ids ensures Done(c, s, id) && !Waits(c, s, id) {
      var i :| 0 <= i < |c.ids| && c.ids[i] == id;
    }
  }

  lemma OwnCommitTracked(c: Consult, t: Tables, e: Event)
    requires Inv(t) && Tracked(c, t) && Allowed(t, e) && OwnCommit(c, e)
    ensures Tracked(c, Next(t, e))
  {
    PersistShape(t, e.owner, e.session, e.turn, e.accepted, e.binding, e.now, e.ttl, e.p1, e.p2);
    if Persist(t, e.owner, e.session, e.turn, e.accepted, e.binding, e.now, e.ttl, e.p1, e.p2).1.Ok? {
      var t2 := WithTurn(t, e.owner, e.session, e.turn, e.now, e.ttl, e.p1);
      WithTurnKeeps(t, e.owner, e.session, e.turn, e.now, e.ttl, e.p1);
      WithTurnSpares(c, t, e.owner, e.session, e.turn, e.now, e.ttl, e.p1);
      SparedStaysTracked(c, t, t2);
      PurgeKeeps(t2, e.now, e.p2);
      PurgeSpares(c, t2, e.now, e.p2);
      SparedStaysTracked(c, t2, Purge(t2, e.p2));
      OwnBindTracked(c, Purge(t2, e.p2), e.session, e.now);
    }
  }

  /** The steps between the reservation and the release. */
  ghost predicate ConsultRun(c: Consult, ws: seq<Tables>, es: seq<Event>) {
    Run(ws, es) && forall i :: 0 <= i < |es| ==> Foreign(c, es[i]) || OwnCommit(c, es[i])
  }

  lemma {:induction false} RunStaysTracked(c: Consult, ws: seq<Tables>, es: seq<Event>)
    requires ConsultRun(c, ws, es) && Inv(ws[0]) && Tracked(c, ws[0])
    ensures Inv(ws[|es|]) && Tracked(c, ws[|es|])
  {
    if |es| > 0 {
      var n := |es| - 1;
      assert ConsultRun(c, ws[..n + 1], es[..n]);
      RunStaysTracked(c, ws[..n + 1], es[..n]);
      var t, e := ws[n], es[n];
      assert t == ws[..n + 1][n];
      StepKeeps(t, e);
      if Foreign(c, e) {
        ForeignSpares(c, t, e);
        SparedStaysTracked(c, t, Next(t, e));
      } else {
        OwnCommitTracked(c, t, e);
      }
    }
  }

  predicate FreeAgain(c: Consult, t: Tables, id: Id) {
    Owned(t, id, c.owner) && t.atts[id].status.Confirmed? && t.atts[id].reservation.None?
  }

  /** How a consultation may leave its attachments. */
  predicate Settled(c: Consult, t: Tables) {
    && (forall id :: id in t.atts ==> !Waits(c, t, id))
    && ((forall id :: id in c.ids && id in t.atts ==> Done(c, t, id))
        || (forall id :: id in c.ids && id in t.atts ==> FreeAgain(c, t, id)))
  }

  lemma ReleaseSettles(c: Consult, t: Tables, now: Time)
    requires Inv(t) && Tracked(c, t)
    ensures Settled(c, Release(t, c.owner, c.rid, now))
    ensures (exists id :: id in c.ids && Done(c, t, id)) ==> Release(t, c.owner, c.rid, now) == t
  {
    var s := Release(t, c.owner, c.rid, now);
    forall id | id in t.atts && Waits(c, t, id) ensures Releasable(t.atts[id], c.owner, c.rid) && FreeAgain(c, s, id) {
      assert RowOk(t.atts[id]);
    }
    forall id | id in t.atts && IsBound(t, id) ensures s.atts[id] == t.atts[id] {}
    if id :| id in c.ids && Done(c, t, id) {
      assert forall x :: x in t.atts ==> !Waits(c, t, x);
      assert s.atts == t.atts;
    } else {
      forall id | id in c.ids && id in s.atts ensures FreeAgain(c, s, id) {}
    }
  }

  lemma ReservationTracked(c: Consult, t: Tables, now: Time)
    requires Inv(t) && Reserve(t, c.ids, c.owner, c.rid, now).1.Ok?
    ensures Inv(Reserve(t, c.ids, c.owner, c.rid, now).0)
    ensures Tracked(c, Reserve(t, c.ids, c.owner, c.rid, now).0)
  {
    ReserveKeeps(t, c.ids, c.owner, c.rid, now);
    ReserveAllOrNothing(t, c.ids, c.owner, c.rid, now);
    var s := Reserve(t, c.ids, c.owner, c.rid, now).0;
    forall id | id in c.ids ensures Waits(c, s, id) && !Done(c, s, id) {
      var i :| 0 <= i < |c.ids| && c.ids[i] == id;
    }
  }

  /**
   Whatever the consultation and everyone else did, after its release no row carries its
   reservation, and its attachments still in the table are all bound to its turn or all
   confirmed and free; when they were bound the release changes nothing.
   */
  lemma ConsultExit(c: Consult, t: Tables, reservedAt: Time, ws: seq<Tables>, es: seq<Event>, releasedAt: Time)
    requires Inv(t) && Reserve(t, c.ids, c.owner, c.rid, reservedAt).1.Ok?
    requires ConsultRun(c, ws, es) && ws[0] == Reserve(t, c.ids, c.owner, c.rid, reservedAt).0
    ensures Settled(c, Release(ws[|es|], c.owner, c.rid, releasedAt))
    ensures (exists id :: id in c.ids && Done(c, ws[|es|], id)) ==>
            Release(ws[|es|], c.owner, c.rid, releasedAt) == ws[|es|]
  {
    ReservationTracked(c, t, reservedAt);
    RunStaysTracked(c, ws, es);
    ReleaseSettles(c, ws[|es|], releasedAt);
  }

  // ---------------------------------------------------------------- one turn only

  lemma NoneReappears(t: Tables, e: Event, id: Id)
    requires Inv(t) && Allowed(t, e) && id !in t.atts && !(e.Upload? && e.id == id)
    ensures id !in Next(t, e).atts
  {
    if !OnDrafts(e) { SessionStepKeeps(t, e); }
  }

  /** A bound attachment never changes again, least of all its turn: it stays or is deleted for good. */
  lemma {:induction false} BoundForGood(ws: seq<Tables>, es: seq<Event>, id: Id)
    requires Run(ws, es) && Inv(ws[0]) && IsBound(ws[0], id)
    requires forall i :: 0 <= i < |es| ==> !(es[i].Upload? && es[i].id == id)
    ensures id in ws[|es|].atts ==> ws[|es|].atts[id] == ws[0].atts[id]
  {
    if |es| > 0 {
      var n := |es| - 1;
      assert Run(ws[..n + 1], es[..n]);
      BoundForGood(ws[..n + 1], es[..n], id);
      RunKeepsInv(ws, es);
      assert ws[..n + 1][n] == ws[n];
      StepKeeps(ws[n], es[n]);
      if id in ws[n].atts { assert RowOk(ws[n].atts[id]); } else { NoneReappears(ws[n], es[n], id); }
    }
  }
}
