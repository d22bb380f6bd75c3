/**
 Runs of concurrent consultations on one session: the duplicate pre-check and the
 follow-up rounds of app/agent/pipeline.py over the guarded commit of the stores.
 */
module Conversation {
  import opened Common
  import opened Progression
  import opened ComparisonUnits
  import opened CommitGuard

  // ---------------------------------------------------------------- follow-up rounds

  datatype Slot = Slot(question: string, slotType: string)

  const LIMITATION := "已达到两轮追问上限，现有事实不足以形成确定性判断。"

  function StripEnd(s: string): (r: string)
    ensures r <= s
  {
    if s != "" && s[|s| - 1] in ['？', '?', '。', ' '] then StripEnd(s[..|s| - 1]) else s
  }

  function Suffix(slotType: string): string {
    if slotType == "date" then "请直接提供具体日期；若无法确认，请回答“无法确认”。"
    else if slotType == "number" then "请直接提供具体金额或数字；若无法确认，请回答“无法确认”。"
    else if slotType == "integer" then "请直接提供具体整数；若无法确认，请回答“无法确认”。"
    else if slotType == "boolean" then "请直接回答“是”“否”或“无法确认”。"
    else if slotType == "enum" then "请从问题列出的情况中选择最符合的一项。"
    else if slotType == "string" then "请说明对应文件、记录或具体事实；若没有，请回答“没有”。"
    else "请给出一个具体事实；若无法确认，请回答“无法确认”。"
  }

  /** `more_precise_question`. */
  function MorePrecise(slot: Slot): string {
    StripEnd(slot.question) + "？" + Suffix(slot.slotType)
  }

  /** The first question, or failing that the first sharpened one, whose normal form was not asked. */
  function FirstUnasked(normalize: string -> string, slots: seq<Slot>, precise: bool,
                        asked: seq<string>): (r: Option<string>)
    ensures r.Some? ==> normalize(r.value) !in asked
    ensures r.Some? ==> exists s :: s in slots && r.value == if precise then MorePrecise(s) else s.question
    ensures r.None? ==> forall s :: s in slots ==> normalize(if precise then MorePrecise(s) else s.question) in asked
  {
    if slots == [] then None else
    var q := if precise then MorePrecise(slots[0]) else slots[0].question;
    if normalize(q) !in asked then Some(q) else FirstUnasked(normalize, slots[1..], precise, asked)
  }

  datatype FollowUp = Ask(question: string) | Limit

  /** The choice of `_followup_result`; None where it raises CaseNoProgressError. */
  function ChooseFollowUp(normalize: string -> string, round: int, history: seq<Content>,
                          slots: seq<Slot>): Option<FollowUp> {
    if round < 2 then
      var asked := Prior(history, Questions);
      var plain := FirstUnasked(normalize, slots, false, asked);
      if plain.Some? then Some(Ask(plain.value)) else
      var sharp := FirstUnasked(normalize, slots, true, asked);
      if sharp.Some? then Some(Ask(sharp.value)) else None
    else if normalize(LIMITATION) in UnitsOf(history, Notices) then None
    else Some(Limit)
  }

  function NextRound(round: int): int {
    if round < 2 then round + 1 else 2
  }

  function NonEmpty(s: string): seq<string> {
    if s == "" then [] else [s]
  }

  /** The visible content of a follow-up turn; `body` brings the composed reply and its actions. */
  function FollowUpContent(normalize: string -> string, choice: FollowUp, body: Content): Content {
    match choice
    case Ask(q) => Content(body.replies, body.actions, [], [], NonEmpty(normalize(q)), [], [])
    case Limit => Content(body.replies, body.actions, [], [], [], NonEmpty(normalize("fact_collection_exhausted")),
                          NonEmpty(normalize(LIMITATION)))
  }

  // ---------------------------------------------------------------- concurrent consultations on one session

  /** A committed turn. `strict`, `saw` and `choice` record how it was made. */
  datatype Turn = Turn(id: Id, at: Time, content: Content, strict: bool, saw: nat, choice: Option<FollowUp>)

  /** The session row's round and the turns in the order of (created_at, id). */
  datatype Session = Session(round: int, log: seq<Turn>)

  function Contents(log: seq<Turn>): (r: seq<Content>)
    ensures |r| == |log| && forall i :: 0 <= i < |r| ==> r[i] == log[i].content
  {
    seq(|log|, i requires 0 <= i < |log| => log[i].content)
  }

  /** A turn takes its place by (created_at, id). */
  function Insert(log: seq<Turn>, t: Turn): (r: seq<Turn>)
    ensures |r| == |log| + 1
  {
    if log == [] then [t] else
    var last := log[|log| - 1];
    if last.at < t.at || (last.at == t.at && last.id < t.id) then log + [t]
    else Insert(log[..|log| - 1], t) + [last]
  }

  function LatestOf(log: seq<Turn>): Option<Latest> {
    if log == [] then None else Some(Latest(log[|log| - 1].id, Mapping(log[|log| - 1].content)))
  }

  /** What one consultation has read: the session row, at a time when the log had `rowAt` turns, and then the turns. */
  datatype Reader = Reader(round: int, rowAt: nat, seen: Option<seq<Turn>>)

  /** The result a consultation wants to commit. */
  datatype Draft =
    | FactCollection(slots: seq<Slot>, body: Content)
    | Other(content: Content, allowDuplicate: bool)

  /**
   What a consultation runs with: text measures, wire form and normalisation, and the two
   guards as decisions, the pre-check on a history and the recheck of a store.
   */
  datatype Env = Env(m: Measures, w: Wire, normalize: string -> string,
                     duplicate: (Content, seq<Content>) -> bool, recheck: (Command, Option<Latest>) -> Decision)

  /** The guards of the program, with the recheck of either store. */
  function EnvOf(m: Measures, w: Wire, normalize: string -> string, postgres: bool): Env {
    Env(m, w, normalize, (c, history) => FindDuplicate(m, c, history).duplicate,
        (cmd, latest) => if postgres then RecheckPostgres(m, w, cmd, latest) else RecheckSqlite(m, w, cmd, latest))
  }

  /** What keeps bad commits out: the pre-check demands novelty, the recheck an unchanged latest turn. */
  ghost predicate Guarding(env: Env) {
    && (forall c, history :: env.duplicate(c, history) <==> !HasNovelUnit(env.m, c, history))
    && (forall cmd, latest :: Guarded(cmd) && IdChanged(cmd, latest) ==> env.recheck(cmd, latest) != Accept)
  }

  /** The decoded units of a command say something new beside the latest turn. */
  ghost predicate NewBeside(m: Measures, w: Wire, cmd: Command, latest: Option<Latest>) {
    latest.Some? && latest.value.response.Mapping?
      && HasNovelUnit(m, Decode(w, cmd.units), [latest.value.response.content])
  }

  /** What lets good commits in. */
  ghost predicate Admitting(env: Env) {
    && (forall cmd, latest :: !Guarded(cmd) ==> env.recheck(cmd, latest) == Accept)
    && (forall cmd, latest ::
          !IdChanged(cmd, latest) && (cmd.units == [] || latest.None? || NewBeside(env.m, env.w, cmd, latest)) ==>
            env.recheck(cmd, latest) == Accept)
  }

  lemma RechecksGuard(m: Measures, w: Wire, cmd: Command, latest: Option<Latest>)
    ensures Guarded(cmd) && IdChanged(cmd, latest) ==>
              RecheckSqlite(m, w, cmd, latest) != Accept && RecheckPostgres(m, w, cmd, latest) != Accept
    ensures !Guarded(cmd) || (!IdChanged(cmd, latest)
                              && (cmd.units == [] || latest.None? || NewBeside(m, w, cmd, latest))) ==>
              RecheckSqlite(m, w, cmd, latest) == Accept && RecheckPostgres(m, w, cmd, latest) == Accept
  {
    if Guarded(cmd) && !IdChanged(cmd, latest) && (cmd.units == [] || latest.None? || NewBeside(m, w, cmd, latest)) {
      if cmd.units == [] { DecodeNothing(w); }
      if NewBeside(m, w, cmd, latest) { NovelIsNotEquivalent(m, w, cmd.units, latest.value.response.content); }
      AcceptedUnless(m, w, cmd, latest);
    }
  }

  /** The program's own guards, with either store, do both. */
  lemma ProgramGuards(m: Measures, w: Wire, normalize: string -> string, postgres: bool)
    ensures Guarding(EnvOf(m, w, normalize, postgres)) && Admitting(EnvOf(m, w, normalize, postgres))
  {
    forall c, history ensures FindDuplicate(m, c, history).duplicate <==> !HasNovelUnit(m, c, history) {
      VerdictIsNovelty(m, c, history);
    }
    forall cmd, latest
      ensures Guarded(cmd) && IdChanged(cmd, latest) ==>
                RecheckSqlite(m, w, cmd, latest) != Accept && RecheckPostgres(m, w, cmd, latest) != Accept
      ensures !Guarded(cmd) || (!IdChanged(cmd, latest)
                                && (cmd.units == [] || latest.None? || NewBeside(m, w, cmd, latest))) ==>
                RecheckSqlite(m, w, cmd, latest) == Accept && RecheckPostgres(m, w, cmd, latest) == Accept
    {
      RechecksGuard(m, w, cmd, latest);
    }
  }

  /** `persist_session_turn`, as far as the guard, the round and the log go. */
  function Persist(env: Env, s: Session, cmd: Command, t: Turn, round: int): (Session, Decision) {
    if !(0 <= round <= 2) then (s, InvalidRound)
    else
      var decision := env.recheck(cmd, LatestOf(s.log));
      if decision != Accept then (s, decision)
      else if exists other :: other in s.log && other.id == t.id then (s, DuplicateId)
      else (Session(round, Insert(s.log, t)), Accept)
  }


  datatype System = System(session: Session, readers: map<nat, Reader>)

  datatype Event =
    | ReadRow(r: nat)
    | ReadTurns(r: nat)
    | Commit(r: nat, draft: Draft, id: Id, at: Time)

  /** The commit a reader attempts, or None where the pipeline raises before reaching the store. */
  datatype Attempt = Attempt(cmd: Command, turn: Turn, round: int)

  function Prepare(env: Env, reader: Reader, draft: Draft, id: Id, at: Time): Option<Attempt> {
    if reader.seen.None? then None else
    var seen := reader.seen.value;
    var choice := if !draft.FactCollection? then None
                  else ChooseFollowUp(env.normalize, reader.round, Contents(seen), draft.slots);
    if draft.FactCollection? && choice.None? then None else
    var content := if draft.FactCollection? then FollowUpContent(env.normalize, choice.value, draft.body)
                   else draft.content;
    var strict := draft.FactCollection? || !draft.allowDuplicate;
    if strict && env.duplicate(content, Contents(seen)) then None else
    Some(Attempt(Command(if seen == [] then None else Some(seen[|seen| - 1].id),
                         if strict then Encode(env.w, content) else []),
                 Turn(id, at, content, strict, |seen|, choice),
                 if draft.FactCollection? then NextRound(reader.round) else reader.round))
  }

  /** The rest of `_persist_success` once round and content are chosen; no decision where the content is a duplicate. */
  function CheckedPersist(env: Env, row: Session, seen: seq<Turn>, content: Content, strict: bool,
                          choice: Option<FollowUp>, newRound: int, id: Id, at: Time): (Session, Option<Decision>)
  {
    if strict && env.duplicate(content, Contents(seen)) then (row, None)
    else
      var cmd := Command(if seen == [] then None else Some(seen[|seen| - 1].id),
                         if strict then Encode(env.w, content) else []);
      var (after, decision) := Persist(env, row, cmd, Turn(id, at, content, strict, |seen|, choice), newRound);
      (after, Some(decision))
  }

  /** What `_persist_success` does to the row, and its decision. */
  function PersistDraft(env: Env, row: Session, reader: Reader, draft: Draft, id: Id, at: Time):
    (Session, Option<Decision>)
  {
    var a := Prepare(env, reader, draft, id, at);
    if a.None? then (row, None)
    else
      var (after, decision) := Persist(env, row, a.value.cmd, a.value.turn, a.value.round);
      (after, Some(decision))
  }

  lemma FollowUpIsChecked(env: Env, row: Session, reader: Reader, draft: Draft, id: Id, at: Time)
    requires reader.seen.Some? && draft.FactCollection?
    ensures var choice := ChooseFollowUp(env.normalize, reader.round, Contents(reader.seen.value), draft.slots);
      PersistDraft(env, row, reader, draft, id, at) ==
      if choice.None? then (row, None)
      else CheckedPersist(env, row, reader.seen.value, FollowUpContent(env.normalize, choice.value, draft.body), true,
                          choice, NextRound(reader.round), id, at)
  {
  }

  lemma OtherIsChecked(env: Env, row: Session, reader: Reader, draft: Draft, id: Id, at: Time)
    requires reader.seen.Some? && !draft.FactCollection?
    ensures PersistDraft(env, row, reader, draft, id, at) ==
            CheckedPersist(env, row, reader.seen.value, draft.content, !draft.allowDuplicate, None, reader.round,
                           id, at)
  {
  }

  function Next(env: Env, s: System, e: Event): System {
    match e
    case ReadRow(r) => s.(readers := s.readers[r := Reader(s.session.round, |s.session.log|, None)])
    case ReadTurns(r) =>
      if r in s.readers then s.(readers := s.readers[r := s.readers[r].(seen := Some(s.session.log))]) else s
    case Commit(r, draft, id, at) =>
      if r !in s.readers then s else
      var a := Prepare(env, s.readers[r], draft, id, at);
      if a.None? then s
      else s.(session := Persist(env, s.session, a.value.cmd, a.value.turn, a.value.round).0)
  }

  function Run(env: Env, es: seq<Event>): System {
    if es == [] then System(Session(0, []), map[]) else Next(env, Run(env, es[..|es| - 1]), es[|es| - 1])
  }

  /** Commit times increase: each commit is later than the latest stored turn. */
  predicate Timely(s: System, e: Event) {
    e.Commit? && s.session.log != [] ==> e.at > s.session.log[|s.session.log| - 1].at
  }

  ghost predicate AllTimely(env: Env, es: seq<Event>) {
    forall k :: 0 <= k < |es| ==> Timely(Run(env, es[..k]), es[k])
  }

  // ---------------------------------------------------------------- progress

  predicate DistinctIds(log: seq<Turn>) {
    forall i, j :: 0 <= i < j < |log| ==> log[i].id != log[j].id
  }

  /** A turn committed without `allow_duplicate` saw exactly the turns before it and says something new. */
  ghost predicate Progressive(env: Env, log: seq<Turn>) {
    forall i :: 0 <= i < |log| && log[i].strict ==>
      log[i].saw == i && HasNovelUnit(env.m, log[i].content, Contents(log[..i]))
  }

  ghost predicate Orderly(env: Env, s: System) {
    && DistinctIds(s.session.log)
    && Progressive(env, s.session.log)
    && (forall r :: r in s.readers && s.readers[r].seen.Some? ==> s.readers[r].seen.value <= s.session.log)
  }

  lemma EncodeNonEmpty(w: Wire, c: Content, i: nat)
    requires i < 7 && Rows(c)[i] != []
    ensures Encode(w, c) != []
  {
    RowsArePrefixes(w, Rows(c), i + 1, |Rows(c)|);
  }

  lemma NovelMeansUnits(m: Measures, w: Wire, c: Content, history: seq<Content>)
    requires HasNovelUnit(m, c, history)
    ensures Encode(w, c) != []
  {
    var f, u :| IsNovel(m, c, history, f, u);
    var i := Index(f);
    assert Rows(c)[i] == Get(c, f);
    EncodeNonEmpty(w, c, i);
  }

  lemma SameLastSameLog(seen: seq<Turn>, log: seq<Turn>)
    requires DistinctIds(log) && seen <= log
    requires seen == [] <==> log == []
    requires seen != [] ==> seen[|seen| - 1].id == log[|log| - 1].id
    ensures seen == log
  {
    if seen != [] { assert seen[|seen| - 1] == log[|seen| - 1]; }
  }

  lemma AcceptedIsUnchanged(env: Env, session: Session, cmd: Command, t: Turn, round: int)
    requires Persist(env, session, cmd, t, round).1 == Accept && Guarded(cmd) && Guarding(env)
    ensures !IdChanged(cmd, LatestOf(session.log))
  {
  }

  lemma ExpectsLastSeen(env: Env, reader: Reader, draft: Draft, id: Id, at: Time, a: Attempt)
    requires Prepare(env, reader, draft, id, at) == Some(a)
    ensures reader.seen.Some?
    ensures a.cmd.expected == var seen := reader.seen.value; if seen == [] then None else Some(seen[|seen| - 1].id)
  {
  }

  /** An accepted, guarded commit saw the whole log. */
  lemma AcceptedSawAll(env: Env, s: System, e: Event, a: Attempt)
    requires Guarding(env)
    requires Orderly(env, s) && e.Commit? && e.r in s.readers
    requires Prepare(env, s.readers[e.r], e.draft, e.id, e.at) == Some(a)
    requires Persist(env, s.session, a.cmd, a.turn, a.round).1 == Accept
    requires Guarded(a.cmd)
    ensures s.readers[e.r].seen == Some(s.session.log)
  {
    ExpectsLastSeen(env, s.readers[e.r], e.draft, e.id, e.at, a);
    AcceptedIsUnchanged(env, s.session, a.cmd, a.turn, a.round);
    SameLastSameLog(s.readers[e.r].seen.value, s.session.log);
  }

  lemma StrictIsGuarded(env: Env, reader: Reader, draft: Draft, id: Id, at: Time, a: Attempt)
    requires Guarding(env)
    requires Prepare(env, reader, draft, id, at) == Some(a) && a.turn.strict
    ensures Guarded(a.cmd) && HasNovelUnit(env.m, a.turn.content, Contents(reader.seen.value))
  {
    NovelMeansUnits(env.m, env.w, a.turn.content, Contents(reader.seen.value));
  }

  lemma AppendKeepsProgressive(env: Env, log: seq<Turn>, t: Turn)
    requires Progressive(env, log)
    requires t.strict ==> t.saw == |log| && HasNovelUnit(env.m, t.content, Contents(log))
    ensures Progressive(env, log + [t])
  {
    forall i | 0 <= i <= |log| && (log + [t])[i].strict
      ensures (log + [t])[i].saw == i && HasNovelUnit(env.m, (log + [t])[i].content, Contents((log + [t])[..i]))
    {
      assert (log + [t])[..i] == log[..i];
      assert log[..|log|] == log;
    }
  }

  lemma TimelyPrefix(env: Env, es: seq<Event>, n: nat)
    requires n <= |es| && AllTimely(env, es)
    ensures AllTimely(env, es[..n])
  {
    forall k | 0 <= k < n ensures Timely(Run(env, es[..n][..k]), es[..n][k]) { assert es[..n][..k] == es[..k]; }
  }

  lemma AcceptedAppends(env: Env, session: Session, a: Attempt)
    requires Persist(env, session, a.cmd, a.turn, a.round).1 == Accept
    requires session.log != [] ==> session.log[|session.log| - 1].at < a.turn.at
    ensures Persist(env, session, a.cmd, a.turn, a.round).0.log == session.log + [a.turn]
    ensures forall other :: other in session.log ==> other.id != a.turn.id
  {
  }

  lemma PreparedTurn(env: Env, reader: Reader, draft: Draft, id: Id, at: Time, a: Attempt)
    requires Prepare(env, reader, draft, id, at) == Some(a)
    ensures a.turn.id == id && a.turn.at == at && reader.seen.Some? && a.turn.saw == |reader.seen.value|
  {
  }

  lemma AcceptedKeepsOrderly(env: Env, s: System, e: Event, a: Attempt)
    requires Guarding(env)
    requires Orderly(env, s) && Timely(s, e) && e.Commit? && e.r in s.readers
    requires Prepare(env, s.readers[e.r], e.draft, e.id, e.at) == Some(a)
    requires Persist(env, s.session, a.cmd, a.turn, a.round).1 == Accept
    ensures var log := Persist(env, s.session, a.cmd, a.turn, a.round).0.log;
      s.session.log <= log && DistinctIds(log) && Progressive(env, log)
  {
    PreparedTurn(env, s.readers[e.r], e.draft, e.id, e.at, a);
    AcceptedAppends(env, s.session, a);
    if a.turn.strict {
      StrictIsGuarded(env, s.readers[e.r], e.draft, e.id, e.at, a);
      AcceptedSawAll(env, s, e, a);
    }
    AppendKeepsProgressive(env, s.session.log, a.turn);
  }

  lemma RefusedChangesNothing(env: Env, session: Session, a: Attempt)
    requires Persist(env, session, a.cmd, a.turn, a.round).1 != Accept
    ensures Persist(env, session, a.cmd, a.turn, a.round).0 == session
  {
  }

  lemma CommitKeepsOrderly(env: Env, s: System, e: Event)
    requires Guarding(env)
    requires Orderly(env, s) && e.Commit? && Timely(s, e)
    ensures Orderly(env, Next(env, s, e))
  {
    if e.r in s.readers && Prepare(env, s.readers[e.r], e.draft, e.id, e.at).Some? {
      var a := Prepare(env, s.readers[e.r], e.draft, e.id, e.at).value;
      if Persist(env, s.session, a.cmd, a.turn, a.round).1 == Accept {
        AcceptedKeepsOrderly(env, s, e, a);
      } else {
        RefusedChangesNothing(env, s.session, a);
      }
    }
  }

  lemma {:induction false} RunOrderly(env: Env, es: seq<Event>)
    requires Guarding(env)
    requires AllTimely(env, es)
    ensures Orderly(env, Run(env, es))
  {
    if es != [] {
      var n := |es| - 1;
      var init := es[..n];
      TimelyPrefix(env, es, n);
      RunOrderly(env, init);
      if es[n].Commit? { CommitKeepsOrderly(env, Run(env, init), es[n]); }
    }
  }

  /**
   Over every run with increasing commit times, each strict turn saw exactly the turns before it and adds a
   unit equivalent to none of theirs.
  */
  lemma EveryStrictTurnProgresses(env: Env, es: seq<Event>, i: nat)
    requires Guarding(env)
    requires AllTimely(env, es)
    requires i < |Run(env, es).session.log| && Run(env, es).session.log[i].strict
    ensures var log := Run(env, es).session.log;
            log[i].saw == i && HasNovelUnit(env.m, log[i].content, Contents(log[..i]))
  {
    RunOrderly(env, es);
  }

  /**
   Commit times: a reader that saw the log before turn `t` arrived is refused exactly when
   `t` is filed last, that is, when it carries the later (created_at, id).
   */
  lemma GuardSeesTurnIff(m: Measures, w: Wire, log: seq<Turn>, t: Turn, units: seq<string>)
    requires log != [] && t.id != log[|log| - 1].id
    ensures var last := log[|log| - 1];
            var cmd := Command(Some(last.id), units);
            var filedLast := last.at < t.at || (last.at == t.at && last.id < t.id);
            if filedLast then RecheckSqlite(m, w, cmd, LatestOf(Insert(log, t))) != Accept
            else LatestOf(Insert(log, t)) == LatestOf(log)
  {
    var last := log[|log| - 1];
    if last.at < t.at || (last.at == t.at && last.id < t.id) {
      ChangedIsRefused(m, w, Command(Some(last.id), units), LatestOf(Insert(log, t)));
    }
  }

  // ---------------------------------------------------------------- the store and the pipeline step

  class ConversationStore {
    var round: int
    var log: seq<Turn>
    const env: Env

    function Row(): Session
      reads this
    {
      Session(round, log)
    }

    /** The guards are the program's own. */
    ghost predicate Valid() {
      exists postgres :: env == EnvOf(env.m, env.w, env.normalize, postgres)
    }

    constructor (m: Measures, w: Wire, normalize: string -> string, postgres: bool)
      ensures Row() == Session(0, []) && env == EnvOf(m, w, normalize, postgres) && Valid()
    {
      env, round, log := EnvOf(m, w, normalize, postgres), 0, [];
    }

    /** `persist_session_turn`. */
    method PersistSessionTurn(cmd: Command, t: Turn, newRound: int) returns (d: Decision)
      modifies this
      ensures (Row(), d) == Persist(env, old(Row()), cmd, t, newRound)
    {
      if newRound < 0 || newRound > 2 { return InvalidRound; }
      d := env.recheck(cmd, LatestOf(log));
      if d != Accept { return; }
      if exists other :: other in log && other.id == t.id { return DuplicateId; }
      round := newRound;
      log := FileTurn(t);
    }

    /** The turn's place in ORDER BY created_at, id. */
    method FileTurn(t: Turn) returns (r: seq<Turn>)
      ensures r == Insert(log, t)
    {
      var k := |log|;
      assert log[..k] == log && log[k..] == [];
      while k > 0 && !(log[k - 1].at < t.at || (log[k - 1].at == t.at && log[k - 1].id < t.id))
        invariant 0 <= k <= |log|
        invariant Insert(log, t) == Insert(log[..k], t) + log[k..]
      {
        assert log[..k][..k - 1] == log[..k - 1];
        k := k - 1;
      }
      r := log[..k] + [t] + log[k..];
    }

    /**
     `_persist_success` for a draft prepared from what the reader saw; None where it raises CaseNoProgressError
     first.
    */
    method PersistSuccess(reader: Reader, draft: Draft, id: Id, at: Time) returns (d: Option<Decision>)
      requires reader.seen.Some? && Valid()
      modifies this
      ensures (Row(), d) == PersistDraft(env, old(Row()), reader, draft, id, at)
    {
      var seen := reader.seen.value;
      if draft.FactCollection? {
        FollowUpIsChecked(env, Row(), reader, draft, id, at);
        var choice := ChooseFollowUp(env.normalize, reader.round, Contents(seen), draft.slots);
        if choice.None? { return None; }
        var content := FollowUpContent(env.normalize, choice.value, draft.body);
        d := CheckAndPersist(seen, content, true, choice, NextRound(reader.round), id, at);
      } else {
        OtherIsChecked(env, Row(), reader, draft, id, at);
        d := CheckAndPersist(seen, draft.content, !draft.allowDuplicate, None, reader.round, id, at);
      }
    }

    method CheckAndPersist(seen: seq<Turn>, content: Content, strict: bool, choice: Option<FollowUp>, newRound: int,
                           id: Id, at: Time)
      returns (d: Option<Decision>)
      requires Valid()
      modifies this
      ensures (Row(), d) == CheckedPersist(env, old(Row()), seen, content, strict, choice, newRound, id, at)
    {
      var units := [];
      if strict {
        var check := CheckDuplicate(env.m, content, Contents(seen));
        if check.duplicate { return None; }
        units := EncodeUnits(env.w, content);
      }
      var expected := if seen == [] then None else Some(seen[|seen| - 1].id);
      var decision :=
        PersistSessionTurn(Command(expected, units), Turn(id, at, content, strict, |seen|, choice), newRound);
      return Some(decision);
    }
  }
}
