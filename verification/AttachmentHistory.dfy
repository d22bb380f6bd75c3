/**
 `get_session_history` of app/db/session.py over the attachment tables: when the reader
 accepts what it finds, and that it accepts every state the writers can produce.
 */
module AttachmentHistory {
  import opened Common
  import opened Attachments
  import opened AttachmentRuns

  /** The rows the join selects for a session. */
  predicate Related(t: Tables, session: Id, owner: Id, id: Id) {
    && Owned(t, id, owner)
    && (t.atts[id].session == Some(session)
        || (t.atts[id].turn.Some? && t.atts[id].turn.value in t.turns
            && t.turns[t.atts[id].turn.value].owner == owner && t.turns[t.atts[id].turn.value].session == session))
  }

  function NullFirst(x: Option<int>): int {
    if x.Some? then x.value else -1
  }

  /** ORDER BY turn_id, turn_position, id. */
  predicate RowBefore(t: Tables, x: Id, y: Id) {
    x in t.atts && y in t.atts &&
    var (u, v) := (NullFirst(t.atts[x].turn), NullFirst(t.atts[y].turn));
    var (p, q) := (NullFirst(t.atts[x].position), NullFirst(t.atts[y].position));
    u < v || (u == v && (p < q || (p == q && x < y)))
  }

  predicate RowListing(t: Tables, session: Id, owner: Id, rows: seq<Id>) {
    && (forall id :: id in t.atts && Related(t, session, owner, id) ==> id in rows)
    && (forall i :: 0 <= i < |rows| ==> Related(t, session, owner, rows[i]))
    && Ordered(t, rows)
  }

  /** The turns of a session, each once. */
  predicate TurnListing(t: Tables, session: Id, owner: Id, turns: seq<Id>) {
    && (forall u :: u in t.turns ==> (u in turns <==> t.turns[u].session == session && t.turns[u].owner == owner))
    && (forall i :: 0 <= i < |turns| ==> turns[i] in t.turns)
    && DistinctIds(turns)
  }

  /** The rows of one turn, in the order listed. */
  function OfTurn(t: Tables, rows: seq<Id>, turn: Id): seq<Id> {
    if rows == [] then []
    else
      var last := rows[|rows| - 1];
      OfTurn(t, rows[..|rows| - 1], turn) + (if last in t.atts && t.atts[last].turn == Some(turn) then [last] else [])
  }

  lemma {:induction false} OfTurnMeaning(t: Tables, rows: seq<Id>, turn: Id)
    ensures forall id :: id in OfTurn(t, rows, turn) <==> id in rows && id in t.atts && t.atts[id].turn == Some(turn)
  {
    if rows != [] {
      OfTurnMeaning(t, rows[..|rows| - 1], turn);
      assert rows == rows[..|rows| - 1] + [rows[|rows| - 1]];
    }
  }

  predicate RowFits(t: Tables, session: Id, turns: seq<Id>, id: Id)
    requires id in t.atts
  {
    var a := t.atts[id];
    RecordConsistent(a) && a.status.Bound? && a.session == Some(session) && a.turn.Some? && a.turn.value in turns
  }

  /** `positions == tuple(range(len(...)))`, and at most three. */
  predicate InPlace(t: Tables, ids: seq<Id>) {
    |ids| <= 3 && forall k :: 0 <= k < |ids| ==> ids[k] in t.atts && t.atts[ids[k]].position == Some(k)
  }

  predicate AllFit(t: Tables, session: Id, turns: seq<Id>, rows: seq<Id>) {
    forall id :: id in rows ==> id in t.atts && RowFits(t, session, turns, id)
  }

  predicate Readable(t: Tables, session: Id, turns: seq<Id>, rows: seq<Id>) {
    && AllFit(t, session, turns, rows)
    && (forall u :: u in turns ==> InPlace(t, OfTurn(t, rows, u)))
  }

  predicate Ordered(t: Tables, g: seq<Id>) {
    forall i, j :: 0 <= i < j < |g| ==> RowBefore(t, g[i], g[j])
  }

  lemma OrderedAppend(t: Tables, g: seq<Id>, x: Id)
    requires Ordered(t, g) && forall y :: y in g ==> RowBefore(t, y, x)
    ensures Ordered(t, g + [x])
  {
    forall i, j | 0 <= i < j < |g + [x]| ensures RowBefore(t, (g + [x])[i], (g + [x])[j]) {
      if j == |g| { assert g[i] in g; }
    }
  }

  lemma {:induction false} OfTurnOrdered(t: Tables, rows: seq<Id>, turn: Id)
    requires Ordered(t, rows)
    ensures Ordered(t, OfTurn(t, rows, turn))
  {
    if rows != [] {
      var n := |rows| - 1;
      OfTurnOrdered(t, rows[..n], turn);
      var front := OfTurn(t, rows[..n], turn);
      OfTurnMeaning(t, rows[..n], turn);
      forall y | y in front ensures RowBefore(t, y, rows[n]) {
        var k :| 0 <= k < n && rows[k] == y;
      }
      OrderedAppend(t, front, rows[n]);
    }
  }

  /** The listed rows are exactly the bound rows of the turn. */
  ghost predicate RowsOf(t: Tables, turn: Id, g: seq<Id>) {
    && (forall i :: 0 <= i < |g| ==> IsBound(t, g[i]) && t.atts[g[i]].turn == Some(turn))
    && (forall id :: IsBound(t, id) && t.atts[id].turn == Some(turn) ==> id in g)
  }

  function Seat(t: Tables, id: Id): int {
    if id in t.atts then NullFirst(t.atts[id].position) else -1
  }

  lemma PlacesIncrease(t: Tables, turn: Id, g: seq<Id>, i: nat, j: nat)
    requires RowsOk(t) && OnePerPlace(t) && RowsOf(t, turn, g) && Ordered(t, g) && i < j < |g|
    ensures Seat(t, g[i]) < Seat(t, g[j])
  {
    assert RowBefore(t, g[i], g[j]);
    assert RowOk(t.atts[g[i]]) && RowOk(t.atts[g[j]]);
    assert BoundAt(t, turn, Seat(t, g[i]), g[i]) && BoundAt(t, turn, Seat(t, g[j]), g[j]);
  }

  lemma PlaceBelow(t: Tables, turn: Id, g: seq<Id>, k: nat, p: nat) returns (j: nat)
    requires RowsOk(t) && NoGaps(t) && RowsOf(t, turn, g) && k < |g| && p < Seat(t, g[k])
    ensures j < |g| && Seat(t, g[j]) == p
  {
    assert RowOk(t.atts[g[k]]);
    assert BoundAt(t, turn, Seat(t, g[k]), g[k]);
    assert Filled(t, turn, p);
    var y :| y in t.atts && BoundAt(t, turn, p, y);
    assert IsBound(t, y);
    j :| 0 <= j < |g| && g[j] == y;
  }

  /** The rows of one turn in order of place, when no place is shared or skipped: places 0, 1, 2. */
  lemma {:induction false} PlaceOf(t: Tables, turn: Id, g: seq<Id>, k: nat)
    requires RowsOk(t) && OnePerPlace(t) && NoGaps(t) && RowsOf(t, turn, g) && Ordered(t, g) && k < |g|
    ensures Seat(t, g[k]) == k
  {
    if k > 0 {
      PlaceOf(t, turn, g, k - 1);
      PlacesIncrease(t, turn, g, k - 1, k);
    } else {
      assert RowOk(t.atts[g[k]]);
    }
    if Seat(t, g[k]) > k {
      var j := PlaceBelow(t, turn, g, k, k);
      if j < k { PlaceOf(t, turn, g, j); } else if j > k { PlacesIncrease(t, turn, g, k, j); }
    }
  }

  lemma GroupInPlace(t: Tables, session: Id, owner: Id, turns: seq<Id>, rows: seq<Id>, u: Id)
    requires Inv(t) && RowListing(t, session, owner, rows) && TurnListing(t, session, owner, turns) && u in turns
    ensures InPlace(t, OfTurn(t, rows, u))
    ensures forall id :: id in OfTurn(t, rows, u) <==> IsBound(t, id) && t.atts[id].turn == Some(u)
  {
    var g := OfTurn(t, rows, u);
    OfTurnMeaning(t, rows, u);
    OfTurnOrdered(t, rows, u);
    forall id | IsBound(t, id) && t.atts[id].turn == Some(u) ensures id in g {
      assert Attached(t, t.atts[id]);
      assert Related(t, session, owner, id);
    }
    forall id | id in g ensures IsBound(t, id) { assert RowOk(t.atts[id]); }
    forall i | 0 <= i < |g| ensures IsBound(t, g[i]) && t.atts[g[i]].turn == Some(u) { assert g[i] in g; }
    forall k | 0 <= k < |g| ensures t.atts[g[k]].position == Some(k) {
      PlaceOf(t, u, g, k);
      assert RowOk(t.atts[g[k]]);
    }
    if g != [] { assert RowOk(t.atts[g[|g| - 1]]); }
  }

  /**
   In every state the writers keep, the reader accepts the session, and each turn is given
   exactly its bound attachments at places 0 to n-1, n at most 3.
   */
  lemma HistoryReadable(t: Tables, session: Id, owner: Id, turns: seq<Id>, rows: seq<Id>)
    requires Inv(t) && RowListing(t, session, owner, rows) && TurnListing(t, session, owner, turns)
    ensures Readable(t, session, turns, rows)
    ensures forall u, id :: u in turns ==> (id in OfTurn(t, rows, u) <==> IsBound(t, id) && t.atts[id].turn == Some(u))
  {
    forall id | id in rows ensures id in t.atts && RowFits(t, session, turns, id) {
      var i :| 0 <= i < |rows| && rows[i] == id;
      assert Related(t, session, owner, id);
      assert RowOk(t.atts[id]);
      RowReadsBack(t.atts[id]);
      assert Attached(t, t.atts[id]);
    }
    forall u | u in turns
      ensures InPlace(t, OfTurn(t, rows, u))
      ensures forall id :: id in OfTurn(t, rows, u) <==> IsBound(t, id) && t.atts[id].turn == Some(u)
    {
      GroupInPlace(t, session, owner, turns, rows, u);
    }
  }

  /** No run of the writers ends in a state the history reader refuses. */
  lemma HistoryNeverRaises(ws: seq<Tables>, es: seq<Event>, session: Id, owner: Id, turns: seq<Id>, rows: seq<Id>)
    requires Run(ws, es) && ws[0] == EMPTY
    requires RowListing(ws[|es|], session, owner, rows) && TurnListing(ws[|es|], session, owner, turns)
    ensures Readable(ws[|es|], session, turns, rows)
  {
    assert Inv(EMPTY);
    RunKeepsInv(ws, es);
    HistoryReadable(ws[|es|], session, owner, turns, rows);
  }

  // ---------------------------------------------------------------- the listings exist

  lemma RowBeforeTotal(t: Tables, x: Id, y: Id)
    requires x in t.atts && y in t.atts && x != y
    ensures RowBefore(t, x, y) || RowBefore(t, y, x)
  {
  }

  lemma RowBeforeTrans(t: Tables, x: Id, y: Id, z: Id)
    requires RowBefore(t, x, y) && RowBefore(t, y, z)
    ensures RowBefore(t, x, z)
  {
  }

  lemma {:induction false} LastRow(t: Tables, ids: set<Id>) returns (m: Id)
    requires ids != {} && ids <= t.atts.Keys
    ensures m in ids && forall x :: x in ids && x != m ==> RowBefore(t, x, m)
    decreases |ids|
  {
    m :| m in ids;
    if ids != {m} {
      var y := LastRow(t, ids - {m});
      RowBeforeTotal(t, m, y);
      if RowBefore(t, m, y) {
        m := y;
      } else {
        forall x | x in ids && x != m ensures RowBefore(t, x, m) {
          if x != y { RowBeforeTrans(t, x, y, m); }
        }
      }
    }
  }

  /** Any rows can be put in the order of the query. */
  lemma {:induction false} InOrder(t: Tables, ids: set<Id>) returns (rows: seq<Id>)
    requires ids <= t.atts.Keys
    ensures Ordered(t, rows) && forall id :: id in rows <==> id in ids
    decreases |ids|
  {
    rows := [];
    if ids != {} {
      var m := LastRow(t, ids);
      rows := InOrder(t, ids - {m});
      OrderedAppend(t, rows, m);
      rows := rows + [m];
    }
  }

  lemma {:induction false} EachOnce(ids: set<Id>) returns (list: seq<Id>)
    ensures DistinctIds(list) && forall id :: id in list <==> id in ids
    decreases |ids|
  {
    list := [];
    if ids != {} {
      var m :| m in ids;
      list := EachOnce(ids - {m});
      list := list + [m];
    }
  }

  /** Every state has the two listings that the reader works on. */
  lemma ListingsExist(t: Tables, session: Id, owner: Id) returns (turns: seq<Id>, rows: seq<Id>)
    ensures TurnListing(t, session, owner, turns) && RowListing(t, session, owner, rows)
  {
    rows := InOrder(t, set id | id in t.atts && Related(t, session, owner, id));
    turns := EachOnce(set u | u in t.turns && t.turns[u].session == session && t.turns[u].owner == owner);
    forall i | 0 <= i < |rows| ensures Related(t, session, owner, rows[i]) { assert rows[i] in rows; }
    forall i | 0 <= i < |turns| ensures turns[i] in t.turns { assert turns[i] in turns; }
  }

  /** The reader accepts every state that the writers reach, for every session and owner. */
  lemma EveryHistoryReads(ws: seq<Tables>, es: seq<Event>, session: Id, owner: Id)
    returns (turns: seq<Id>, rows: seq<Id>)
    requires Run(ws, es) && ws[0] == EMPTY
    ensures TurnListing(ws[|es|], session, owner, turns) && RowListing(ws[|es|], session, owner, rows)
    ensures Readable(ws[|es|], session, turns, rows)
  {
    turns, rows := ListingsExist(ws[|es|], session, owner);
    HistoryNeverRaises(ws, es, session, owner, turns, rows);
  }

  // ---------------------------------------------------------------- what the reader refuses

  /** The row names the session, or a turn of the session that is the owner's. */
  predicate Concerns(t: Tables, session: Id, owner: Id, id: Id) {
    && id in t.atts && t.atts[id].owner == owner
    && (t.atts[id].session == Some(session)
        || exists u :: u in t.turns && t.atts[id].turn == Some(u)
                       && t.turns[u].owner == owner && t.turns[u].session == session)
  }

  /** A well-formed bound row of the session and of one of its turns. */
  predicate InOrderOf(t: Tables, session: Id, owner: Id, id: Id) {
    && id in t.atts && RecordConsistent(t.atts[id]) && t.atts[id].status.Bound? && t.atts[id].session == Some(session)
    && t.atts[id].turn.Some? && t.atts[id].turn.value in t.turns
    && t.turns[t.atts[id].turn.value].session == session && t.turns[t.atts[id].turn.value].owner == owner
  }

  lemma ConcernsMeaning(t: Tables, session: Id, owner: Id, id: Id)
    ensures Related(t, session, owner, id) <==> Concerns(t, session, owner, id)
  {
    if id in t.atts && t.atts[id].turn.Some? && t.atts[id].turn.value in t.turns {
      assert t.atts[id].turn == Some(t.atts[id].turn.value);
    }
  }

  /** The rows of a turn stand at places 0 to n-1 in the order listed, three at most. */
  predicate Seated(t: Tables, ids: seq<Id>) {
    |ids| <= 3 && (forall k :: 0 <= k < |ids| ==> ids[k] in t.atts)
    && forall k :: 0 <= k < |ids| ==> t.atts[ids[k]].position == Some(k)
  }

  /**
   In any tables, valid or not, the reader accepts exactly when every row that concerns the
   session is a well-formed bound row of it and of one of its turns, and each turn's rows stand
   at their places; the rows it concerns are those that name the session or one of its turns.
   */
  lemma ReaderAcceptsIff(t: Tables, session: Id, owner: Id, turns: seq<Id>, rows: seq<Id>)
    requires RowListing(t, session, owner, rows) && TurnListing(t, session, owner, turns)
    ensures Readable(t, session, turns, rows)
            <==> (forall id :: Concerns(t, session, owner, id) ==> InOrderOf(t, session, owner, id))
                 && (forall u :: u in turns ==> Seated(t, OfTurn(t, rows, u)))
  {
    forall id ensures id in rows <==> Concerns(t, session, owner, id) {
      ConcernsMeaning(t, session, owner, id);
      if id in rows { var i :| 0 <= i < |rows| && rows[i] == id; }
    }
    FitsMeaning(t, session, owner, turns, rows);
  }

  lemma FitsMeaning(t: Tables, session: Id, owner: Id, turns: seq<Id>, rows: seq<Id>)
    requires TurnListing(t, session, owner, turns)
    requires forall id :: id in rows <==> Concerns(t, session, owner, id)
    ensures AllFit(t, session, turns, rows)
            <==> forall id :: Concerns(t, session, owner, id) ==> InOrderOf(t, session, owner, id)
  {
    forall id | id in t.atts
      ensures RowFits(t, session, turns, id) <==> InOrderOf(t, session, owner, id)
    {
      if t.atts[id].turn.Some? && t.atts[id].turn.value in turns {
        var i :| 0 <= i < |turns| && turns[i] == t.atts[id].turn.value;
      }
    }
  }
}
