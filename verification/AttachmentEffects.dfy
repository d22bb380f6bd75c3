/**
 What may happen to an attachment row: for each column the events that write it, which rows go,
 and where the text and the extraction of a row come from in whole runs.
 */
module AttachmentEffects {
  import opened Common
  import opened Attachments
  import opened AttachmentRuns

  // ---------------------------------------------------------------- the text that is stored

  predicate AllSpace(s: string) {
    forall i :: 0 <= i < |s| ==> Space(s[i])
  }

  /** `t` is what is left of `s` between the space around it. */
  ghost predicate Trimmed(s: string, t: string) {
    exists pre, post :: AllSpace(pre) && AllSpace(post) && s == pre + t + post
  }

  lemma {:induction false} LeftSplit(s: string) returns (pre: string)
    ensures AllSpace(pre) && s == pre + StripLeft(s)
  {
    pre := "";
    if s != "" && Space(s[0]) {
      pre := LeftSplit(s[1..]);
      pre := [s[0]] + pre;
    }
  }

  lemma {:induction false} RightSplit(s: string) returns (post: string)
    ensures AllSpace(post) && s == StripRight(s) + post
  {
    post := "";
    if s != "" && Space(s[|s| - 1]) {
      post := RightSplit(s[..|s| - 1]);
      assert s == StripRight(s) + (post + [s[|s| - 1]]);
      post := post + [s[|s| - 1]];
    }
  }

  lemma {:induction false} LeftOfSpace(pre: string, t: string)
    requires AllSpace(pre) && t != "" && !Space(t[0])
    ensures StripLeft(pre + t) == t
  {
    if pre == "" {
      assert pre + t == t;
    } else {
      assert (pre + t)[1..] == pre[1..] + t;
      LeftOfSpace(pre[1..], t);
    }
  }

  lemma {:induction false} RightOfSpace(t: string, post: string)
    requires AllSpace(post) && t != "" && !Space(t[|t| - 1])
    ensures StripRight(t + post) == t
  {
    if post == "" {
      assert t + post == t;
    } else {
      assert (t + post)[..|t + post| - 1] == t + post[..|post| - 1];
      RightOfSpace(t, post[..|post| - 1]);
    }
  }

  /** The normal form of a text is the text without the space around it, where that is of an allowed length. */
  lemma NormalFormIff(s: string, t: string)
    ensures NormalizeText(s) == Some(t) <==> Trimmed(s, t) && GoodText(t)
  {
    if NormalizeText(s) == Some(t) { NormalIsTrimmed(s, t); }
    if Trimmed(s, t) && GoodText(t) { TrimmedIsNormal(s, t); }
  }

  lemma NormalIsTrimmed(s: string, t: string)
    requires NormalizeText(s) == Some(t)
    ensures Trimmed(s, t) && GoodText(t)
  {
    NormalizedTextIsGood(s);
    var pre := LeftSplit(s);
    var post := RightSplit(StripLeft(s));
    TrimmedBy(s, pre, t, post);
  }

  lemma TrimmedBy(s: string, pre: string, t: string, post: string)
    requires AllSpace(pre) && AllSpace(post) && s == pre + (t + post)
    ensures Trimmed(s, t)
  {
    assert pre + (t + post) == pre + t + post;
  }

  lemma TrimmedIsNormal(s: string, t: string)
    requires Trimmed(s, t) && GoodText(t)
    ensures NormalizeText(s) == Some(t)
  {
    var pre, post :| AllSpace(pre) && AllSpace(post) && s == pre + t + post;
    assert s == pre + (t + post);
    LeftOfSpace(pre, t + post);
    RightOfSpace(t, post);
  }

  // ---------------------------------------------------------------- the causes

  predicate InTime(a: Att, now: Time) {
    a.expiresAt.Some? ==> a.expiresAt.value > now
  }

  predicate Free(a: Att) {
    a.reservation.None? && (a.status.ReviewRequired? || a.status.Confirmed?)
  }

  ghost predicate Confirms(t: Tables, e: Event, id: Id) {
    && e.ConfirmText? && e.id == id && id in t.atts && t.atts[id].owner == e.owner
    && InTime(t.atts[id], e.now) && Free(t.atts[id])
    && exists text :: NormalFormOf(e.body, text) && NonBlank(text)
  }

  ghost predicate NormalFormOf(s: string, t: string) {
    Trimmed(s, t) && GoodText(t)
  }

  predicate Extracts(t: Tables, e: Event, id: Id) {
    && e.Extract? && e.id == id && id in t.atts && t.atts[id].owner == e.owner
    && InTime(t.atts[id], e.now) && t.atts[id].status.Processing? && t.atts[id].media == e.x.media
  }

  /** The extraction failed, or was never finished. */
  predicate Fails(t: Tables, e: Event, id: Id) {
    id in t.atts
    && ((e.Fail? && e.id == id && t.atts[id].owner == e.owner && InTime(t.atts[id], e.now)
         && t.atts[id].status.Processing? && e.code in FAILURE_CODES)
        || (e.GiveUp? && id in e.victims))
  }

  /** The rows can be reserved together: three at most, the owner's own, confirmed, in time and free. */
  predicate Reservables(t: Tables, e: Event)
    requires e.TakeHold?
  {
    && 1 <= |e.ids| <= 3 && (forall i, j :: 0 <= i < j < |e.ids| ==> e.ids[i] != e.ids[j])
    && (forall id :: id in e.ids ==>
          && id in t.atts && t.atts[id].owner == e.owner && InTime(t.atts[id], e.now)
          && t.atts[id].status.Confirmed? && t.atts[id].reservation.None?)
  }

  /** No row has this reservation already at one of the places wanted, and none of the owner's at any. */
  predicate Unused(t: Tables, e: Event)
    requires e.TakeHold?
  {
    forall x :: x in t.atts && t.atts[x].reservation == Some(e.rid) ==>
      t.atts[x].owner != e.owner && !(t.atts[x].position.Some? && 0 <= t.atts[x].position.value < |e.ids|)
  }

  predicate Reserves(t: Tables, e: Event, id: Id) {
    e.TakeHold? && id in e.ids && Reservables(t, e) && Unused(t, e)
  }

  predicate Releases(t: Tables, e: Event, id: Id) {
    && e.DropHold? && id in t.atts && t.atts[id].owner == e.owner && t.atts[id].reservation == Some(e.rid)
  }

  function BindingOf(e: Event): Option<Id> {
    if e.BindRows? then Some(e.b.rid)
    else if e.CommitTurn? && e.accepted && e.binding.Some? then Some(e.binding.value.rid) else None
  }

  /** A commit or a binding of the owner carries the row's reservation. */
  predicate MayBind(t: Tables, e: Event, id: Id) {
    && id in t.atts && BindingOf(e).Some? && t.atts[id].reservation == BindingOf(e)
    && (e.BindRows? || e.CommitTurn?) && t.atts[id].owner == e.owner
    && t.atts[id].status.Confirmed? && InTime(t.atts[id], e.now)
  }

  /** The row became bound in this step. */
  predicate Binds(t: Tables, e: Event, id: Id) {
    id in t.atts && id in Next(t, e).atts && !t.atts[id].status.Bound? && Next(t, e).atts[id].status.Bound?
  }

  // ---------------------------------------------------------------- one row in one step

  /** What the step leaves of a row, cause by cause. */
  ghost predicate RowStep(t: Tables, e: Event, id: Id)
    requires id in t.atts && id in Next(t, e).atts
  {
    var (a, b) := (t.atts[id], Next(t, e).atts[id]);
    && (Extracts(t, e, id) ==> b == a.(status := ReviewRequired, pages := Some(e.x.pages), error := None, text := None,
                                       extraction := Some(e.x.extraction), blocks := e.x.blocks,
                                       warnings := e.x.warnings, updatedAt := e.now))
    && (Fails(t, e, id) ==> b == a.(status := Failed, pages := None, extraction := None, blocks := [], text := None,
                                    warnings := [], updatedAt := e.now, error := Some(
                                      if e.Fail? then e.code else "attachment_service_unavailable")))
    && (Confirms(t, e, id) ==>
          b.text.Some? && NormalFormOf(e.body, b.text.value)
          && b == a.(status := Confirmed, text := b.text, updatedAt := e.now))
    && (Reserves(t, e, id) ==>
          b.position.Some? && 0 <= b.position.value < |e.ids| && e.ids[b.position.value] == id
          && b == a.(reservation := Some(e.rid), reservedAt := Some(e.now), position := b.position, updatedAt := e.now))
    && (Releases(t, e, id) ==>
          b == a.(reservation := None, reservedAt := None, position := None, updatedAt := e.now))
    && (Binds(t, e, id) ==>
          MayBind(t, e, id)
          && b == a.(status := Bound, session := Some(e.session), turn := Some(e.turn), reservation := None,
                     reservedAt := None, expiresAt := None, updatedAt := e.now))
    && (!Written(t, e, id) ==> b == a)
  }

  ghost predicate Written(t: Tables, e: Event, id: Id) {
    || Extracts(t, e, id) || Fails(t, e, id) || Confirms(t, e, id) || Reserves(t, e, id) || Releases(t, e, id)
    || Binds(t, e, id)
  }

  lemma ConfirmStep(t: Tables, e: Event, id: Id)
    requires e.ConfirmText? && id in t.atts
    ensures id in Next(t, e).atts && RowStep(t, e, id)
  {
    StorableIff(e.body);
    ConfirmsIff(t, e, id);
    if NormalizeText(e.body).Some? { NormalFormIff(e.body, NormalizeText(e.body).value); }
    if Confirms(t, e, id) { ConfirmedStep(t, e, id); } else { UnconfirmedStep(t, e, id); }
  }

  lemma StorableIff(body: string)
    ensures (exists text :: NormalFormOf(body, text) && NonBlank(text))
            <==> NormalizeText(body).Some? && NonBlank(NormalizeText(body).value)
  {
    if NormalizeText(body).Some? {
      NormalFormIff(body, NormalizeText(body).value);
      assert NormalFormOf(body, NormalizeText(body).value);
    }
    if text :| NormalFormOf(body, text) && NonBlank(text) { NormalFormIff(body, text); }
  }

  lemma ConfirmsIff(t: Tables, e: Event, id: Id)
    requires e.ConfirmText? && id in t.atts
    requires (exists text :: NormalFormOf(e.body, text) && NonBlank(text))
             <==> NormalizeText(e.body).Some? && NonBlank(NormalizeText(e.body).value)
    ensures Confirms(t, e, id) <==> e.id == id && Confirm(t, id, e.owner, e.body, e.now).1.Ok?
  {
  }

  lemma ConfirmedStep(t: Tables, e: Event, id: Id)
    requires e.ConfirmText? && id in t.atts && e.id == id && Confirms(t, e, id)
    requires Confirm(t, id, e.owner, e.body, e.now).1.Ok? && NormalizeText(e.body).Some?
    requires NormalFormOf(e.body, NormalizeText(e.body).value)
    ensures id in Next(t, e).atts && RowStep(t, e, id)
  {
  }

  lemma UnconfirmedStep(t: Tables, e: Event, id: Id)
    requires e.ConfirmText? && id in t.atts && !Confirms(t, e, id)
    requires !(e.id == id && Confirm(t, id, e.owner, e.body, e.now).1.Ok?)
    ensures id in Next(t, e).atts && RowStep(t, e, id)
  {
    assert Next(t, e).atts[id] == t.atts[id];
  }

  lemma HoldStep(t: Tables, e: Event, id: Id)
    requires e.TakeHold? && id in t.atts
    ensures id in Next(t, e).atts && RowStep(t, e, id)
  {
    ReserveOkIff(t, e);
    ReserveAllOrNothing(t, e.ids, e.owner, e.rid, e.now);
    if Reserves(t, e, id) { var i :| 0 <= i < |e.ids| && e.ids[i] == id; }
  }

  /** A reservation is taken exactly when all its rows can be, and it is not in use. */
  lemma ReserveOkIff(t: Tables, e: Event)
    requires e.TakeHold?
    ensures Reserve(t, e.ids, e.owner, e.rid, e.now).1.Ok? <==> Reservables(t, e) && Unused(t, e)
  {
    if Reserve(t, e.ids, e.owner, e.rid, e.now).1.Ok? {
      ReserveAllOrNothing(t, e.ids, e.owner, e.rid, e.now);
      forall id | id in e.ids
        ensures id in t.atts && t.atts[id].owner == e.owner && InTime(t.atts[id], e.now)
                && t.atts[id].status.Confirmed? && t.atts[id].reservation.None?
      {
        var i :| 0 <= i < |e.ids| && e.ids[i] == id;
      }
    }
  }

  lemma ReleaseStep(t: Tables, e: Event, id: Id)
    requires RowsOk(t) && e.DropHold? && id in t.atts
    ensures id in Next(t, e).atts && RowStep(t, e, id)
  {
    assert RowOk(t.atts[id]);
  }

  lemma PlainStep(t: Tables, e: Event, id: Id)
    requires e.Upload? || e.Extract? || e.Fail? || e.Discard? || e.Expire? || e.GiveUp? || e.Sweep? || e.OpenSession?
             || e.EraseSession?
    requires id in t.atts && id in Next(t, e).atts
    ensures RowStep(t, e, id)
  {
    if e.Extract? {
      ExtractStep(t, e, id);
    } else if e.Fail? || e.GiveUp? {
      FailStep(t, e, id);
    } else {
      UntouchedStep(t, e, id);
    }
  }

  lemma ExtractStep(t: Tables, e: Event, id: Id)
    requires e.Extract? && id in t.atts && id in Next(t, e).atts
    ensures RowStep(t, e, id)
  {
  }

  lemma FailStep(t: Tables, e: Event, id: Id)
    requires (e.Fail? || e.GiveUp?) && id in t.atts && id in Next(t, e).atts
    ensures RowStep(t, e, id)
  {
  }

  lemma UntouchedStep(t: Tables, e: Event, id: Id)
    requires e.Upload? || e.Discard? || e.Expire? || e.Sweep? || e.OpenSession? || e.EraseSession?
    requires id in t.atts && id in Next(t, e).atts
    ensures RowStep(t, e, id)
  {
    assert Next(t, e).atts[id] == t.atts[id];
  }

  /** The row is as it was, or bound to the turn on the strength of its reservation. */
  predicate KeptOrBound(a: Att, b: Att, owner: Id, session: Id, turn: Id, rid: Id, now: Time) {
    b == a
    || (a.owner == owner && a.reservation == Some(rid) && a.status.Confirmed? && InTime(a, now)
        && b == a.(status := Bound, session := Some(session), turn := Some(turn), reservation := None,
                   reservedAt := None, expiresAt := None, updatedAt := now))
  }

  /** A binding writes the rows of its own reservation alone. */
  lemma BindingWrites(t: Tables, owner: Id, session: Id, turn: Id, b: Binding, now: Time, id: Id)
    requires Inv(t) && id in t.atts
    ensures var s := Bind(t, owner, session, turn, b, now).0;
      id in s.atts && KeptOrBound(t.atts[id], s.atts[id], owner, session, turn, b.rid, now)
  {
    if Bind(t, owner, session, turn, b, now).1.Ok? {
      BindTakes(t, owner, session, turn, b, now);
      if id in b.ids {
        var i :| 0 <= i < |b.ids| && b.ids[i] == id;
        assert Bindable(t.atts[id], i, now);
      }
    } else {
      BindRefuses(t, owner, session, turn, b, now);
    }
  }

  /** A purge removes rows and writes none. */
  lemma PurgeWritesNothing(t: Tables, p: PurgeChoice)
    ensures forall id :: id in Purge(t, p).atts ==> id in t.atts && Purge(t, p).atts[id] == t.atts[id]
  {
  }

  lemma BindAloneCases(t: Tables, owner: Id, session: Id, turn: Id, b: Binding, now: Time, p: PurgeChoice)
    ensures var s := BindAlone(t, owner, session, turn, b, now, p).0;
      s == t || s == Bind(Purge(t, p), owner, session, turn, b, now).0
  {
  }

  lemma BindAloneWrites(t: Tables, owner: Id, session: Id, turn: Id, b: Binding, now: Time, p: PurgeChoice, id: Id)
    requires Inv(t) && PurgeAllowed(t, now, p)
    ensures var s := BindAlone(t, owner, session, turn, b, now, p).0;
      id in s.atts ==> id in t.atts && KeptOrBound(t.atts[id], s.atts[id], owner, session, turn, b.rid, now)
  {
    PurgeKeeps(t, now, p);
    PurgeWritesNothing(t, p);
    BindAloneCases(t, owner, session, turn, b, now, p);
    SameRows(Purge(t, p), owner, session, turn, b, now);
    if id in Purge(t, p).atts { BindingWrites(Purge(t, p), owner, session, turn, b, now, id); }
  }

  lemma SameRows(t: Tables, owner: Id, session: Id, turn: Id, b: Binding, now: Time)
    ensures Bind(t, owner, session, turn, b, now).0.atts.Keys == t.atts.Keys
  {
  }

  lemma KeptOrBoundStep(t: Tables, e: Event, id: Id)
    requires RowsOk(t) && BindingOf(e).Some? && (e.BindRows? || e.CommitTurn?) && id in t.atts && id in Next(t, e).atts
    requires KeptOrBound(t.atts[id], Next(t, e).atts[id], e.owner, e.session, e.turn, BindingOf(e).value, e.now)
    ensures RowStep(t, e, id)
  {
  }

  lemma BindStep(t: Tables, e: Event, id: Id)
    requires Inv(t) && Allowed(t, e) && e.BindRows? && id in t.atts && id in Next(t, e).atts
    ensures RowStep(t, e, id)
  {
    BindAloneWrites(t, e.owner, e.session, e.turn, e.b, e.now, e.p, id);
    KeptOrBoundStep(t, e, id);
  }

  lemma TurnWritesNothing(t: Tables, owner: Id, session: Id, turn: Id, now: Time, ttl: Time, p1: PurgeChoice)
    requires session in Purge(t, p1).sessions
    ensures forall id :: id in WithTurn(t, owner, session, turn, now, ttl, p1).atts ==>
              id in t.atts && WithTurn(t, owner, session, turn, now, ttl, p1).atts[id] == t.atts[id]
  {
  }

  /** A commit leaves the tables alone, adds its turn, or adds it and binds. */
  lemma CommitWrites(t: Tables, e: Event, id: Id)
    requires Inv(t) && Allowed(t, e) && e.CommitTurn? && id in Next(t, e).atts
    ensures id in t.atts
    ensures Next(t, e).atts[id] == t.atts[id]
            || (BindingOf(e).Some? && KeptOrBound(t.atts[id], Next(t, e).atts[id], e.owner, e.session, e.turn,
                                                  BindingOf(e).value, e.now))
  {
    PersistShape(t, e.owner, e.session, e.turn, e.accepted, e.binding, e.now, e.ttl, e.p1, e.p2);
    if Persist(t, e.owner, e.session, e.turn, e.accepted, e.binding, e.now, e.ttl, e.p1, e.p2).1.Ok? {
      OnlyAccepted(t, e);
      TurnWritesNothing(t, e.owner, e.session, e.turn, e.now, e.ttl, e.p1);
      if e.binding.Some? {
        WithTurnKeeps(t, e.owner, e.session, e.turn, e.now, e.ttl, e.p1);
        var t2 := WithTurn(t, e.owner, e.session, e.turn, e.now, e.ttl, e.p1);
        BindAloneWrites(t2, e.owner, e.session, e.turn, e.binding.value, e.now, e.p2, id);
        CommitEnds(t, e);
      } else {
        CommitEnds(t, e);
      }
    }
  }

  /** What a commit that went through leaves: the tables with its turn, or what the binding made of them. */
  lemma CommitEnds(t: Tables, e: Event)
    requires e.CommitTurn?
    requires Persist(t, e.owner, e.session, e.turn, e.accepted, e.binding, e.now, e.ttl, e.p1, e.p2).1.Ok?
    ensures e.session in Purge(t, e.p1).sessions
    ensures var t2 := WithTurn(t, e.owner, e.session, e.turn, e.now, e.ttl, e.p1);
      Next(t, e) == if e.binding.None? then t2
                    else BindAlone(t2, e.owner, e.session, e.turn, e.binding.value, e.now, e.p2).0
  {
  }

  lemma OnlyAccepted(t: Tables, e: Event)
    requires e.CommitTurn?
    requires Persist(t, e.owner, e.session, e.turn, e.accepted, e.binding, e.now, e.ttl, e.p1, e.p2).1.Ok?
    ensures e.accepted
  {
  }

  lemma CommitStep(t: Tables, e: Event, id: Id)
    requires Inv(t) && Allowed(t, e) && e.CommitTurn? && id in t.atts && id in Next(t, e).atts
    ensures RowStep(t, e, id)
  {
    CommitWrites(t, e, id);
    if Next(t, e).atts[id] != t.atts[id] { KeptOrBoundStep(t, e, id); } else { UnwrittenStep(t, e, id); }
  }

  lemma UnwrittenStep(t: Tables, e: Event, id: Id)
    requires e.CommitTurn? && id in t.atts && id in Next(t, e).atts && Next(t, e).atts[id] == t.atts[id]
    ensures RowStep(t, e, id)
  {
  }

  /** Every row that is there before and after a step is written by one of its causes, or not at all. */
  lemma RowChanges(t: Tables, e: Event, id: Id)
    requires Inv(t) && Allowed(t, e) && id in t.atts && id in Next(t, e).atts
    ensures RowStep(t, e, id)
  {
    if e.ConfirmText? {
      ConfirmStep(t, e, id);
    } else if e.TakeHold? {
      HoldStep(t, e, id);
    } else if e.DropHold? {
      ReleaseStep(t, e, id);
    } else if e.BindRows? {
      BindStep(t, e, id);
    } else if e.CommitTurn? {
      CommitStep(t, e, id);
    } else {
      PlainStep(t, e, id);
    }
  }

  // ---------------------------------------------------------------- rows that come and go

  lemma RowArisesIff(t: Tables, e: Event, id: Id)
    requires Inv(t) && Allowed(t, e) && id !in t.atts
    ensures id in Next(t, e).atts <==> e.Upload? && e.id == id
    ensures e.Upload? && e.id == id ==>
      Next(t, e).atts[id] == Att(e.owner, None, None, None, Processing, e.media, None, None, [], None, [], None, None,
                                 None, e.now, e.now, Some(e.now + e.ttl))
  {
    if e.CommitTurn? {
      if id in Next(t, e).atts { CommitWrites(t, e, id); }
    } else if e.BindRows? {
      BindAloneWrites(t, e.owner, e.session, e.turn, e.b, e.now, e.p, id);
    } else if e.TakeHold? {
      ReserveAllOrNothing(t, e.ids, e.owner, e.rid, e.now);
    }
  }

  /** A second upload under the id of a row leaves the row alone. */
  lemma UploadNeverOverwrites(t: Tables, e: Event)
    requires e.Upload? && e.id in t.atts
    ensures Next(t, e) == t
  {
  }

  /** The owner throws the row away. */
  predicate Discards(t: Tables, e: Event, id: Id) {
    && e.Discard? && e.id == id && id in t.atts && t.atts[id].owner == e.owner
    && !t.atts[id].status.Bound? && t.atts[id].reservation.None?
  }

  /** The owner of the row's session deletes it. */
  predicate GoesWithSession(t: Tables, e: Event, id: Id) {
    && e.EraseSession? && e.session in t.sessions && t.sessions[e.session].owner == e.owner
    && id in t.atts && t.atts[id].session == Some(e.session)
  }

  /** An unbound row past its time, or a bound one of a session past its time. */
  predicate Due(t: Tables, id: Id, now: Time) {
    && id in t.atts
    && (if t.atts[id].session.None? then t.atts[id].expiresAt.Some? && t.atts[id].expiresAt.value <= now
        else t.atts[id].session.value in t.sessions && t.sessions[t.atts[id].session.value].expiresAt <= now)
  }

  predicate HasClock(e: Event) {
    e.Expire? || e.Sweep? || e.CommitTurn? || e.BindRows? || e.EraseSession?
  }

  /** A purge removes rows that are due, and no others. */
  lemma PurgeTakesDue(t: Tables, now: Time, p: PurgeChoice, id: Id)
    requires Inv(t) && PurgeAllowed(t, now, p) && id in t.atts && id !in Purge(t, p).atts
    ensures Due(t, id, now)
  {
    if id in DropSessions(t, p.sessions).atts {
      assert id in DueDrafts(DropSessions(t, p.sessions), now);
    } else {
      assert RowOk(t.atts[id]);
      if t.atts[id].status.Bound? { assert Attached(t, t.atts[id]); }
      assert forall x :: x in p.sessions ==> x in DueSessions(t, now);
    }
  }

  /** A row goes when its owner discards it or deletes its session, or when it is due; in no other way. */
  lemma RowGoes(t: Tables, e: Event, id: Id)
    requires Inv(t) && Allowed(t, e) && id in t.atts && id !in Next(t, e).atts && (e.CommitTurn? ==> e.ttl > 0)
    ensures Discards(t, e, id) || GoesWithSession(t, e, id) || (HasClock(e) && Due(t, id, e.now))
  {
    if e.Expire? {
      assert id in DueDrafts(t, e.now);
    } else if e.Sweep? {
      PurgeTakesDue(t, e.now, e.p, id);
    } else if e.EraseSession? {
      if id !in Purge(t, e.p).atts { PurgeTakesDue(t, e.now, e.p, id); } else { EraseTakesOwn(t, e, id); }
    } else if e.BindRows? {
      BindAloneCases(t, e.owner, e.session, e.turn, e.b, e.now, e.p);
      SameRows(Purge(t, e.p), e.owner, e.session, e.turn, e.b, e.now);
      PurgeTakesDue(t, e.now, e.p, id);
    } else if e.CommitTurn? {
      CommitTakesDue(t, e, id);
    } else if e.TakeHold? {
      ReserveAllOrNothing(t, e.ids, e.owner, e.rid, e.now);
    }
  }

  lemma EraseTakesOwn(t: Tables, e: Event, id: Id)
    requires Inv(t) && Allowed(t, e) && e.EraseSession? && id in Purge(t, e.p).atts && id !in Next(t, e).atts
    ensures GoesWithSession(t, e, id)
  {
    PurgeKeeps(t, e.now, e.p);
    var t1 := Purge(t, e.p);
    assert RowOk(t1.atts[id]);
    if t1.atts[id].turn.Some? { assert Attached(t1, t1.atts[id]); }
  }

  lemma CommitTakesDue(t: Tables, e: Event, id: Id)
    requires Inv(t) && Allowed(t, e) && e.CommitTurn? && e.ttl > 0 && id in t.atts && id !in Next(t, e).atts
    ensures Due(t, id, e.now)
  {
    PersistShape(t, e.owner, e.session, e.turn, e.accepted, e.binding, e.now, e.ttl, e.p1, e.p2);
    var t1 := Purge(t, e.p1);
    if id !in t1.atts {
      PurgeTakesDue(t, e.now, e.p1, id);
    } else {
      WithTurnKeeps(t, e.owner, e.session, e.turn, e.now, e.ttl, e.p1);
      var t2 := WithTurn(t, e.owner, e.session, e.turn, e.now, e.ttl, e.p1);
      BindAloneCases(t2, e.owner, e.session, e.turn, e.binding.value, e.now, e.p2);
      SameRows(Purge(t2, e.p2), e.owner, e.session, e.turn, e.binding.value, e.now);
      PurgeTakesDue(t2, e.now, e.p2, id);
      DueBefore(t, e, id);
    }
  }

  lemma DueBefore(t: Tables, e: Event, id: Id)
    requires e.CommitTurn? && e.ttl > 0 && e.session in Purge(t, e.p1).sessions
    requires Due(WithTurn(t, e.owner, e.session, e.turn, e.now, e.ttl, e.p1), id, e.now)
    ensures Due(t, id, e.now)
  {
  }

  /** The owner's delete of a free row removes it, and nothing but it. */
  lemma DiscardRemoves(t: Tables, e: Event, id: Id)
    requires Discards(t, e, id)
    ensures Next(t, e) == t.(atts := t.atts - {id})
  {
  }

  /** With no more than a hundred of each, a sweep leaves nothing that is due. */
  lemma SweepTakesAllDue(t: Tables, e: Event, id: Id)
    requires Inv(t) && Allowed(t, e) && e.Sweep? && Due(t, id, e.now)
    requires |DueSessions(t, e.now)| <= 100 && |DueDrafts(t, e.now)| <= 100
    ensures id !in Next(t, e).atts
  {
    AllTaken(DueSessions(t, e.now), e.p.sessions);
    var t1 := DropSessions(t, e.p.sessions);
    if t.atts[id].session.None? {
      assert DueDrafts(t1, e.now) <= DueDrafts(t, e.now);
      Smaller(DueDrafts(t1, e.now), DueDrafts(t, e.now));
      AllTaken(DueDrafts(t1, e.now), e.p.drafts);
    } else {
      assert t.atts[id].session.value in DueSessions(t, e.now);
    }
  }

  lemma Smaller(a: set<Id>, b: set<Id>)
    requires a <= b
    ensures |a| <= |b|
  {
    assert |b| == |a| + |b - a| by { assert b == a + (b - a); }
  }

  lemma AllTaken(due: set<Id>, taken: set<Id>)
    requires taken <= due && |taken| == |due|
    ensures taken == due
  {
    assert due == taken + (due - taken);
    assert |due| == |taken| + |due - taken|;
  }

  /** What is given up as stale is the owner's own, and was not yet confirmed. */
  lemma GivenUpWasUnfinished(t: Tables, e: Event, id: Id)
    requires Allowed(t, e) && e.GiveUp? && Fails(t, e, id)
    ensures t.atts[id].owner == e.owner && (t.atts[id].status.Processing? || t.atts[id].status.ReviewRequired?)
  {
    assert id in Stale(t, e.owner);
  }

  /** With no more of them than the limit, all unfinished rows of the owner are given up. */
  lemma AllUnfinishedGivenUp(t: Tables, e: Event, id: Id)
    requires Allowed(t, e) && e.GiveUp? && id in t.atts && t.atts[id].owner == e.owner
    requires t.atts[id].status.Processing? || t.atts[id].status.ReviewRequired?
    requires |Stale(t, e.owner)| <= e.limit
    ensures Fails(t, e, id)
  {
    AllTaken(Stale(t, e.owner), e.victims);
    assert id in Stale(t, e.owner);
  }

  // ---------------------------------------------------------------- what the operations answer

  /** The owner's row, and still in time. */
  predicate Found(t: Tables, id: Id, owner: Id, now: Time) {
    id in t.atts && t.atts[id].owner == owner && InTime(t.atts[id], now)
  }

  lemma ExtractionAnswers(t: Tables, id: Id, owner: Id, x: ValidExtraction, now: Time)
    ensures var r := SaveExtraction(t, id, owner, x, now).1;
      && (r.Ok? <==> Extracts(t, Extract(id, owner, x, now), id))
      && (r == Err(NotFound) <==> !Found(t, id, owner, now))
      && (r == Err(AlreadyBound) <==> Found(t, id, owner, now) && t.atts[id].status.Bound?)
      && (r == Err(TypeMismatch) <==>
            Found(t, id, owner, now) && t.atts[id].status.Processing? && t.atts[id].media != x.media)
      && (r.Err? ==> r.error in {NotFound, AlreadyBound, NotReviewable, TypeMismatch})
  {
  }

  lemma FailureAnswers(t: Tables, id: Id, owner: Id, code: string, now: Time)
    ensures var r := SaveFailure(t, id, owner, code, now).1;
      && (r.Ok? <==> Fails(t, Fail(id, owner, code, now), id))
      && (r == Err(CodeInvalid) <==> code !in FAILURE_CODES)
      && (r == Err(NotFound) <==> code in FAILURE_CODES && !Found(t, id, owner, now))
      && (r == Err(AlreadyBound) <==>
            code in FAILURE_CODES && Found(t, id, owner, now) && t.atts[id].status.Bound?)
      && (r.Err? ==> r.error in {CodeInvalid, NotFound, AlreadyBound, NotReviewable})
  {
  }

  lemma ConfirmAnswers(t: Tables, id: Id, owner: Id, body: string, now: Time)
    ensures var r := Confirm(t, id, owner, body, now).1;
      && (r == Err(TextInvalid) <==> !exists text :: NormalFormOf(body, text))
      && (r != Err(TextInvalid) ==>
            && (r == Err(NotFound) <==> !Found(t, id, owner, now))
            && (r == Err(AlreadyBound) <==>
                  Found(t, id, owner, now) && (t.atts[id].status.Bound? || t.atts[id].reservation.Some?))
            && (r == Err(NotReviewable) <==>
                  Found(t, id, owner, now) && t.atts[id].reservation.None?
                  && (t.atts[id].status.Processing? || t.atts[id].status.Failed?)))
      && (r.Err? ==> r.error in {TextInvalid, NotFound, AlreadyBound, NotReviewable, Integrity})
  {
    if NormalizeText(body).Some? {
      NormalFormIff(body, NormalizeText(body).value);
      assert NormalFormOf(body, NormalizeText(body).value);
    } else {
      forall text ensures !NormalFormOf(body, text) { NormalFormIff(body, text); }
    }
  }

  lemma DiscardAnswers(t: Tables, id: Id, owner: Id)
    ensures var r := Delete(t, id, owner).1;
      && (r.Ok? <==> Discards(t, Discard(id, owner), id))
      && (r == Err(NotFound) <==> !(id in t.atts && t.atts[id].owner == owner))
      && (r.Err? ==> r.error in {NotFound, AlreadyBound})
  {
  }

  /** What is wrong with one row that was asked for. */
  function Trouble(a: Att, now: Time): Option<Error> {
    if !InTime(a, now) then Some(NotFound)
    else if a.status.Confirmed? && a.reservation.None? then None
    else if a.status.Bound? || a.reservation.Some? then Some(AlreadyBound)
    else Some(NotConfirmed)
  }

  predicate TroubleAt(t: Tables, ids: seq<Id>, now: Time, i: nat)
    requires forall id :: id in ids ==> id in t.atts
  {
    && i < |ids| && Trouble(t.atts[ids[i]], now).Some?
    && forall j :: 0 <= j < i ==> Trouble(t.atts[ids[j]], now).None?
  }

  /** Of the rows that were asked for, the first in trouble is complained of, with its own trouble. */
  lemma {:induction false} FirstTrouble(t: Tables, ids: seq<Id>, now: Time)
    requires forall id :: id in ids ==> id in t.atts
    ensures var r := FirstComplaint(t, ids, now);
      && (r.None? ==> forall i :: 0 <= i < |ids| ==> Trouble(t.atts[ids[i]], now).None?)
      && (r.Some? ==> exists i: nat :: TroubleAt(t, ids, now, i) && Trouble(t.atts[ids[i]], now) == r)
  {
    if ids != [] {
      assert ids[0] in ids && Reservable(t.atts[ids[0]], now) == Trouble(t.atts[ids[0]], now);
      if Trouble(t.atts[ids[0]], now).Some? {
        assert TroubleAt(t, ids, now, 0);
      } else {
        FirstTrouble(t, ids[1..], now);
        assert forall i :: 0 < i < |ids| ==> ids[1..][i - 1] == ids[i];
        if i: nat :| TroubleAt(t, ids[1..], now, i)
                     && Trouble(t.atts[ids[1..][i]], now) == FirstComplaint(t, ids, now) {
          TroubleBehind(t, ids, now, i);
        }
      }
    }
  }

  lemma TroubleBehind(t: Tables, ids: seq<Id>, now: Time, i: nat)
    requires ids != [] && (forall id :: id in ids ==> id in t.atts) && Trouble(t.atts[ids[0]], now).None?
    requires TroubleAt(t, ids[1..], now, i)
    ensures TroubleAt(t, ids, now, i + 1) && ids[i + 1] == ids[1..][i]
  {
    forall j | 0 <= j < i + 1 ensures Trouble(t.atts[ids[j]], now).None? {
      if j > 0 { assert ids[1..][j - 1] == ids[j]; }
    }
  }

  /** The errors of a reservation in the order in which they are looked for. */
  lemma ReserveAnswers(t: Tables, ids: seq<Id>, owner: Id, rid: Id, now: Time)
    ensures var r := Reserve(t, ids, owner, rid, now).1;
      var fine := 1 <= |ids| <= 3 && forall i, j :: 0 <= i < j < |ids| ==> ids[i] != ids[j];
      var used := exists x :: x in t.atts && t.atts[x].owner == owner && t.atts[x].reservation == Some(rid);
      var foreign := exists id :: id in ids && (id !in t.atts || t.atts[id].owner != owner);
      && (r == Err(BadIds) <==> !fine)
      && (fine && used ==> r == Err(AlreadyBound))
      && (fine && !used && foreign ==> r == Err(NotFound))
      && (fine && !used && !foreign && FirstComplaint(t, ids, now).Some? ==>
            r == Err(FirstComplaint(t, ids, now).value))
      && (r == Err(Integrity) <==>
            fine && !used && !foreign && FirstComplaint(t, ids, now).None?
            && !Unused(t, TakeHold(ids, owner, rid, now)))
  {
    if forall id :: id in ids ==> id in t.atts { ComplaintKinds(t, ids, now); }
  }

  lemma {:induction false} ComplaintKinds(t: Tables, ids: seq<Id>, now: Time)
    requires forall id :: id in ids ==> id in t.atts
    ensures FirstComplaint(t, ids, now).Some? ==>
              FirstComplaint(t, ids, now).value in {NotFound, AlreadyBound, NotConfirmed}
  {
    if ids != [] {
      assert ids[0] in ids;
      ComplaintKinds(t, ids[1..], now);
    }
  }

  // ---------------------------------------------------------------- sessions, turns and bindings

  /** The rows of the reservation, place by place: confirmed, in time, and none besides them. */
  predicate HeldTogether(t: Tables, owner: Id, b: Binding, now: Time) {
    && 1 <= |b.ids| <= 3
    && (forall i :: 0 <= i < |b.ids| ==>
          && b.ids[i] in t.atts && t.atts[b.ids[i]].owner == owner && t.atts[b.ids[i]].reservation == Some(b.rid)
          && t.atts[b.ids[i]].position == Some(i) && t.atts[b.ids[i]].status.Confirmed?
          && InTime(t.atts[b.ids[i]], now))
    && (forall x :: x in t.atts && t.atts[x].owner == owner && t.atts[x].reservation == Some(b.rid) ==> x in b.ids)
  }

  predicate TurnFree(t: Tables, owner: Id, session: Id, turn: Id) {
    && session in t.sessions && t.sessions[session].owner == owner
    && turn in t.turns && t.turns[turn].owner == owner && t.turns[turn].session == session
    && forall x :: x in t.atts && t.atts[x].owner == owner ==> t.atts[x].turn != Some(turn)
  }

  /** A binding succeeds exactly for a whole reservation and an owned turn that has no attachment yet. */
  lemma BindOkIff(t: Tables, owner: Id, session: Id, turn: Id, b: Binding, now: Time)
    ensures Bind(t, owner, session, turn, b, now).1.Ok?
            <==> HeldTogether(t, owner, b, now) && TurnFree(t, owner, session, turn)
  {
    if Bind(t, owner, session, turn, b, now).1.Ok? {
      forall i | 0 <= i < |b.ids|
        ensures t.atts[b.ids[i]].position == Some(i) && t.atts[b.ids[i]].status.Confirmed?
                && InTime(t.atts[b.ids[i]], now)
      {
        assert Bindable(t.atts[b.ids[i]], i, now);
      }
    }
    if HeldTogether(t, owner, b, now) && TurnFree(t, owner, session, turn) {
      forall i, j | 0 <= i < j < |b.ids| ensures b.ids[i] != b.ids[j] {}
      assert ListedAs(t, owner, b);
    }
  }

  /** The session is there and the owner's after the purge, the recheck accepts, and the turn is a new one. */
  predicate MayCommit(t: Tables, e: Event)
    requires e.CommitTurn?
  {
    && e.accepted && e.session in t.sessions && e.session !in e.p1.sessions
    && t.sessions[e.session].owner == e.owner
    && (e.turn in t.turns ==> t.turns[e.turn].session in e.p1.sessions)
  }

  /** The tables a commit has built when it comes to its attachments. */
  function BeforeBinding(t: Tables, e: Event): Tables
    requires e.CommitTurn? && e.session in t.sessions && e.session !in e.p1.sessions
  {
    var t1 := Purge(t, e.p1);
    Purge(t1.(sessions := t1.sessions[e.session := SessionRow(t.sessions[e.session].owner, e.now + e.ttl)],
              turns := t1.turns[e.turn := TurnRow(e.session, e.owner, e.now)]), e.p2)
  }

  predicate BindsAll(t: Tables, e: Event)
    requires e.CommitTurn? && e.session in t.sessions && e.session !in e.p1.sessions
  {
    e.binding.Some? ==>
      HeldTogether(BeforeBinding(t, e), e.owner, e.binding.value, e.now)
      && TurnFree(BeforeBinding(t, e), e.owner, e.session, e.turn)
  }

  /**
   A commit goes through exactly when it may and its attachments, if it has any, can all be
   bound; it then leaves its turn and an extended session, and otherwise nothing at all.
   */
  lemma CommitIff(t: Tables, e: Event)
    requires e.CommitTurn?
    ensures var (s, r) := Persist(t, e.owner, e.session, e.turn, e.accepted, e.binding, e.now, e.ttl, e.p1, e.p2);
      && s == Next(t, e) && (r.Ok? <==> MayCommit(t, e) && BindsAll(t, e)) && (r.Err? ==> s == t)
      && (r.Ok? && (e.binding.Some? ==> e.session !in e.p2.sessions) ==>
            && e.turn in s.turns && s.turns[e.turn] == TurnRow(e.session, e.owner, e.now)
            && e.session in s.sessions && s.sessions[e.session] == SessionRow(e.owner, e.now + e.ttl))
  {
    if MayCommit(t, e) && e.binding.Some? {
      var b := e.binding.value;
      BindOkIff(BeforeBinding(t, e), e.owner, e.session, e.turn, b, e.now);
      SameSessions(BeforeBinding(t, e), e.owner, e.session, e.turn, b, e.now);
      assert Purge(WithTurn(t, e.owner, e.session, e.turn, e.now, e.ttl, e.p1), e.p2) == BeforeBinding(t, e);
    }
  }

  lemma SameSessions(t: Tables, owner: Id, session: Id, turn: Id, b: Binding, now: Time)
    ensures var s := Bind(t, owner, session, turn, b, now).0; s.sessions == t.sessions && s.turns == t.turns
  {
  }

  /** A binding of its own goes through exactly when it can after the purge; refused, it leaves not even that. */
  lemma BindRowsIff(t: Tables, e: Event)
    requires e.BindRows?
    ensures var (s, r) := BindAlone(t, e.owner, e.session, e.turn, e.b, e.now, e.p);
      && s == Next(t, e)
      && (r.Ok? <==> HeldTogether(Purge(t, e.p), e.owner, e.b, e.now)
                     && TurnFree(Purge(t, e.p), e.owner, e.session, e.turn))
      && (r.Err? ==> s == t)
      && (r.Ok? ==> forall id :: id in e.b.ids ==>
            id in s.atts && s.atts[id].status.Bound? && s.atts[id].turn == Some(e.turn))
  {
    BindOkIff(Purge(t, e.p), e.owner, e.session, e.turn, e.b, e.now);
  }

  /** A turn comes into being by a commit alone, which also extends its session. */
  lemma TurnArises(t: Tables, e: Event, turn: Id)
    requires turn !in t.turns && turn in Next(t, e).turns
    ensures e.CommitTurn? && e.accepted && e.turn == turn && e.session in t.sessions
    ensures t.sessions[e.session].owner == e.owner
    ensures Next(t, e).turns[turn] == TurnRow(e.session, e.owner, e.now)
    ensures e.session in Next(t, e).sessions ==> Next(t, e).sessions[e.session] == SessionRow(e.owner, e.now + e.ttl)
  {
    if e.CommitTurn? { CommittedTurn(t, e, turn); } else { OnlyCommitsAddTurns(t, e, turn); }
  }

  lemma OnlyCommitsAddTurns(t: Tables, e: Event, turn: Id)
    requires !e.CommitTurn? && turn in Next(t, e).turns
    ensures turn in t.turns
  {
    if e.BindRows? {
      BindAloneSessions(t, e.owner, e.session, e.turn, e.b, e.now, e.p);
      BindAloneTurns(t, e.owner, e.session, e.turn, e.b, e.now, e.p);
    } else if e.TakeHold? {
      ReserveAllOrNothing(t, e.ids, e.owner, e.rid, e.now);
    }
  }

  lemma BindAloneTurns(t: Tables, owner: Id, session: Id, turn: Id, b: Binding, now: Time, p: PurgeChoice)
    ensures var s := BindAlone(t, owner, session, turn, b, now, p).0;
      s.turns == t.turns || s.turns == Purge(t, p).turns
  {
  }

  lemma CommittedTurn(t: Tables, e: Event, turn: Id)
    requires e.CommitTurn? && turn !in t.turns && turn in Next(t, e).turns
    ensures e.accepted && e.turn == turn && e.session in t.sessions && t.sessions[e.session].owner == e.owner
    ensures Next(t, e).turns[turn] == TurnRow(e.session, e.owner, e.now)
    ensures e.session in Next(t, e).sessions ==> Next(t, e).sessions[e.session] == SessionRow(e.owner, e.now + e.ttl)
  {
    CommitIff(t, e);
    PersistShape(t, e.owner, e.session, e.turn, e.accepted, e.binding, e.now, e.ttl, e.p1, e.p2);
    var t2 := WithTurn(t, e.owner, e.session, e.turn, e.now, e.ttl, e.p1);
    if e.binding.Some? {
      BindAloneTurns(t2, e.owner, e.session, e.turn, e.binding.value, e.now, e.p2);
      BindAloneSessions(t2, e.owner, e.session, e.turn, e.binding.value, e.now, e.p2);
    }
  }

  /** A commit that is refused changes nothing at all. */
  lemma RefusedCommit(t: Tables, e: Event)
    requires e.CommitTurn? && !(e.accepted && e.session in t.sessions && t.sessions[e.session].owner == e.owner
                                && e.turn !in t.turns)
    requires e.turn in t.turns ==> t.turns[e.turn].session !in e.p1.sessions
    ensures Next(t, e) == t
  {
  }

  lemma SessionArisesIff(t: Tables, e: Event, session: Id)
    requires Inv(t) && Allowed(t, e) && session !in t.sessions
    ensures session in Next(t, e).sessions <==> e.OpenSession? && e.session == session
    ensures e.OpenSession? && e.session == session ==>
              Next(t, e).sessions[session] == SessionRow(e.owner, e.expiresAt)
  {
    if !OnDrafts(e) { SessionStepKeeps(t, e); } else if e.TakeHold? {
      ReserveAllOrNothing(t, e.ids, e.owner, e.rid, e.now);
    }
  }

  /** A session goes by its owner's delete, or when its time is over. */
  lemma SessionGoes(t: Tables, e: Event, session: Id)
    requires Inv(t) && Allowed(t, e) && session in t.sessions && session !in Next(t, e).sessions
    requires e.CommitTurn? ==> e.ttl > 0
    ensures (e.EraseSession? && e.session == session && t.sessions[session].owner == e.owner)
            || (HasClock(e) && t.sessions[session].expiresAt <= e.now)
  {
    if e.Sweep? || e.EraseSession? {
      if session !in Purge(t, e.p).sessions { PurgeDropsDue(t, e.now, e.p, session); }
    } else if e.BindRows? {
      BindAloneSessions(t, e.owner, e.session, e.turn, e.b, e.now, e.p);
      PurgeDropsDue(t, e.now, e.p, session);
    } else if e.CommitTurn? {
      CommitDropsDue(t, e, session);
    } else {
      DraftsKeepSessions(t, e, session);
    }
  }

  lemma DraftsKeepSessions(t: Tables, e: Event, session: Id)
    requires OnDrafts(e) && session in t.sessions
    ensures session in Next(t, e).sessions
  {
    if e.TakeHold? { ReserveAllOrNothing(t, e.ids, e.owner, e.rid, e.now); }
  }

  lemma PurgeDropsDue(t: Tables, now: Time, p: PurgeChoice, session: Id)
    requires PurgeAllowed(t, now, p) && session in t.sessions && session !in Purge(t, p).sessions
    ensures t.sessions[session].expiresAt <= now
  {
    assert session in DueSessions(t, now);
  }

  lemma BindAloneSessions(t: Tables, owner: Id, session: Id, turn: Id, b: Binding, now: Time, p: PurgeChoice)
    ensures var s := BindAlone(t, owner, session, turn, b, now, p).0;
      s.sessions == t.sessions || s.sessions == Purge(t, p).sessions
  {
  }

  lemma CommitDropsDue(t: Tables, e: Event, session: Id)
    requires Allowed(t, e) && e.CommitTurn? && e.ttl > 0 && session in t.sessions && session !in Next(t, e).sessions
    ensures t.sessions[session].expiresAt <= e.now
  {
    PersistShape(t, e.owner, e.session, e.turn, e.accepted, e.binding, e.now, e.ttl, e.p1, e.p2);
    if session !in Purge(t, e.p1).sessions {
      PurgeDropsDue(t, e.now, e.p1, session);
    } else {
      var t2 := WithTurn(t, e.owner, e.session, e.turn, e.now, e.ttl, e.p1);
      BindAloneSessions(t2, e.owner, e.session, e.turn, e.binding.value, e.now, e.p2);
      PurgeDropsDue(t2, e.now, e.p2, session);
    }
  }

  /** The owner's delete of a session that is not due removes it. */
  lemma EraseRemoves(t: Tables, e: Event)
    requires e.EraseSession? && e.session in t.sessions && t.sessions[e.session].owner == e.owner
    ensures e.session !in Next(t, e).sessions
  {
  }

  // ---------------------------------------------------------------- where text and extraction come from

  /** The last text confirmed for this id before state `n`. */
  ghost predicate LastConfirm(ws: seq<Tables>, es: seq<Event>, id: Id, k: nat, n: nat)
    requires |ws| == |es| + 1
  {
    k < n <= |es| && Confirms(ws[k], es[k], id) && forall j :: k < j < n ==> !Confirms(ws[j], es[j], id)
  }

  ghost predicate CarriesText(ws: seq<Tables>, es: seq<Event>, id: Id, n: nat)
    requires |ws| == |es| + 1 && n <= |es|
  {
    id in ws[n].atts && (ws[n].atts[id].status.Confirmed? || ws[n].atts[id].status.Bound?) ==>
      && ws[n].atts[id].text.Some?
      && exists k: nat :: LastConfirm(ws, es, id, k, n) && NormalFormOf(es[k].body, ws[n].atts[id].text.value)
  }

  lemma TextStep(ws: seq<Tables>, es: seq<Event>, id: Id, n: nat)
    requires Run(ws, es) && n < |es| && Inv(ws[n]) && CarriesText(ws, es, id, n)
    ensures CarriesText(ws, es, id, n + 1)
  {
    var (t, e) := (ws[n], es[n]);
    if id in Next(t, e).atts && (Next(t, e).atts[id].status.Confirmed? || Next(t, e).atts[id].status.Bound?) {
      if id !in t.atts { RowArisesIff(t, e, id); }
      RowChanges(t, e, id);
      TextColumn(t, e, id);
      if Confirms(t, e, id) { assert LastConfirm(ws, es, id, n, n + 1); } else { TextStays(ws, es, id, n); }
    }
  }

  lemma TextStays(ws: seq<Tables>, es: seq<Event>, id: Id, n: nat)
    requires |ws| == |es| + 1 && n < |es| && !Confirms(ws[n], es[n], id) && CarriesText(ws, es, id, n)
    requires id in ws[n].atts && (ws[n].atts[id].status.Confirmed? || ws[n].atts[id].status.Bound?)
    requires id in ws[n + 1].atts && ws[n + 1].atts[id].text == ws[n].atts[id].text
    ensures CarriesText(ws, es, id, n + 1)
  {
    var k: nat :| LastConfirm(ws, es, id, k, n) && NormalFormOf(es[k].body, ws[n].atts[id].text.value);
    assert LastConfirm(ws, es, id, k, n + 1);
  }

  /** A row that carries text after a step was confirmed in it, or carried the same text before. */
  lemma TextColumn(t: Tables, e: Event, id: Id)
    requires id in t.atts && id in Next(t, e).atts && RowStep(t, e, id)
    requires Next(t, e).atts[id].status.Confirmed? || Next(t, e).atts[id].status.Bound?
    ensures var (a, b) := (t.atts[id], Next(t, e).atts[id]);
      if Confirms(t, e, id) then b.text.Some? && NormalFormOf(e.body, b.text.value)
      else b.text == a.text && (a.status.Confirmed? || a.status.Bound?)
  {
  }

  /**
   In every run a confirmed, reserved or bound attachment carries the normal form of the text
   last confirmed for it: a correction is never lost and nothing else ever writes the text.
   */
  lemma TextOrigin(ws: seq<Tables>, es: seq<Event>, id: Id, n: nat)
    requires Run(ws, es) && ws[0] == EMPTY && n <= |es|
    ensures CarriesText(ws, es, id, n)
  {
    assert Inv(EMPTY);
    RunKeepsInv(ws, es);
    forall m: nat | m < n && m <= |es| && CarriesText(ws, es, id, m) ensures CarriesText(ws, es, id, m + 1) {
      TextStep(ws, es, id, m);
    }
    Chain((m: nat) => m <= |es| && CarriesText(ws, es, id, m), 0, n);
  }
}
