/**
 The two-round follow-up discipline of app/agent/pipeline.py over runs of concurrent
 consultations: what holds in every run, and what the stored round and the number of
 questions depend on.
 */
module FollowUps {
  import opened Common
  import opened Progression
  import opened ComparisonUnits
  import opened CommitGuard
  import opened Conversation

  // ---------------------------------------------------------------- accepted commits

  /** The event is a commit that the pipeline attempts and the store accepts. */
  predicate Accepted(env: Env, s: System, e: Event) {
    && e.Commit? && e.r in s.readers
    && var a := Prepare(env, s.readers[e.r], e.draft, e.id, e.at);
       a.Some? && Persist(env, s.session, a.value.cmd, a.value.turn, a.value.round).1 == Accept
  }

  /** The round a reader's commit stores. */
  function StoredRound(reader: Reader, draft: Draft): int {
    if draft.FactCollection? then NextRound(reader.round) else reader.round
  }

  function Asks(t: Turn): nat {
    if t.choice.Some? && t.choice.value.Ask? then 1 else 0
  }

  function Limits(t: Turn): nat {
    if t.choice == Some(Limit) then 1 else 0
  }

  function AskCount(log: seq<Turn>): nat {
    if log == [] then 0 else AskCount(log[..|log| - 1]) + Asks(log[|log| - 1])
  }

  function LimitCount(log: seq<Turn>): nat {
    if log == [] then 0 else LimitCount(log[..|log| - 1]) + Limits(log[|log| - 1])
  }

  /** What an accepted commit does to the session. */
  lemma AcceptedEffect(env: Env, s: System, e: Event) returns (t: Turn)
    requires Accepted(env, s, e)
    ensures Next(env, s, e) == s.(session := Session(StoredRound(s.readers[e.r], e.draft), Insert(s.session.log, t)))
    ensures Prepare(env, s.readers[e.r], e.draft, e.id, e.at).value.turn == t && t.at == e.at
    ensures if e.draft.FactCollection? then t.choice.Some? && (t.choice.value.Ask? <==> s.readers[e.r].round < 2)
            else t.choice.None?
    ensures 0 <= StoredRound(s.readers[e.r], e.draft) <= 2
  {
    t := Prepare(env, s.readers[e.r], e.draft, e.id, e.at).value.turn;
  }

  lemma OthersKeepSession(env: Env, s: System, e: Event)
    requires !Accepted(env, s, e)
    ensures Next(env, s, e).session == s.session
  {
  }

  lemma {:induction false} AskCountInsert(log: seq<Turn>, t: Turn)
    ensures AskCount(Insert(log, t)) == AskCount(log) + Asks(t)
  {
    if log != [] {
      var n := |log| - 1;
      var placed := Insert(log[..n], t);
      AskCountInsert(log[..n], t);
      assert (log + [t])[..|log|] == log && (placed + [log[n]])[..|placed|] == placed;
    }
  }

  // ---------------------------------------------------------------- the counting law

  predicate RoundsInRange(s: System) {
    0 <= s.session.round <= 2 && forall r :: r in s.readers ==> 0 <= s.readers[r].round <= 2
  }

  /** How far the stored round has moved on since the committing reader read it. */
  function Lag(env: Env, s: System, e: Event): int {
    if Accepted(env, s, e) then s.session.round - s.readers[e.r].round else 0
  }

  function Drift(env: Env, es: seq<Event>): int {
    if es == [] then 0 else Drift(env, es[..|es| - 1]) + Lag(env, Run(env, es[..|es| - 1]), es[|es| - 1])
  }

  /** One event moves the number of questions away from the round by exactly the reader's lag. */
  lemma CountingStep(env: Env, s: System, e: Event)
    requires RoundsInRange(s)
    ensures var t := Next(env, s, e);
      RoundsInRange(t) && AskCount(t.session.log) - t.session.round == AskCount(s.session.log) - s.session.round
        + Lag(env, s, e)
  {
    if Accepted(env, s, e) {
      var t := AcceptedEffect(env, s, e);
      AskCountInsert(s.session.log, t);
    } else {
      OthersKeepSession(env, s, e);
    }
  }

  /** In every run, whatever the clocks: questions asked = stored round + the lags of all accepted commits. */
  lemma {:induction false} CountingLaw(env: Env, es: seq<Event>)
    ensures var s := Run(env, es); RoundsInRange(s) && AskCount(s.session.log) == s.session.round + Drift(env, es)
  {
    if es != [] {
      CountingLaw(env, es[..|es| - 1]);
      CountingStep(env, Run(env, es[..|es| - 1]), es[|es| - 1]);
    }
  }

  /** An accepted commit carries the round that the row still has. */
  predicate Current(env: Env, s: System, e: Event) {
    Accepted(env, s, e) ==> s.readers[e.r].round == s.session.round
  }

  ghost predicate AllCurrent(env: Env, es: seq<Event>) {
    forall k :: 0 <= k < |es| ==> Current(env, Run(env, es[..k]), es[k])
  }

  ghost predicate CountsAgree(env: Env, es: seq<Event>) {
    forall n :: 0 <= n <= |es| ==> AskCount(Run(env, es[..n]).session.log) == Run(env, es[..n]).session.round
  }

  lemma DriftStep(env: Env, es: seq<Event>, k: nat)
    requires k < |es|
    ensures Drift(env, es[..k + 1]) == Drift(env, es[..k]) + Lag(env, Run(env, es[..k]), es[k])
    ensures Run(env, es[..k + 1]) == Next(env, Run(env, es[..k]), es[k])
  {
    assert es[..k + 1][..k] == es[..k];
  }

  lemma {:induction false} CurrentHasNoDrift(env: Env, es: seq<Event>, n: nat)
    requires AllCurrent(env, es) && n <= |es|
    ensures Drift(env, es[..n]) == 0
  {
    if n > 0 {
      CurrentHasNoDrift(env, es, n - 1);
      DriftStep(env, es, n - 1);
    }
  }

  /**
   The stored round counts the questions throughout a run if and only if every accepted commit carried the
   row's current round.
  */
  lemma CountsAgreeIff(env: Env, es: seq<Event>)
    ensures CountsAgree(env, es) <==> AllCurrent(env, es)
  {
    if AllCurrent(env, es) {
      forall n | 0 <= n <= |es| ensures AskCount(Run(env, es[..n]).session.log) == Run(env, es[..n]).session.round {
        CurrentHasNoDrift(env, es, n);
        CountingLaw(env, es[..n]);
      }
    }
    if CountsAgree(env, es) {
      forall k | 0 <= k < |es| ensures Current(env, Run(env, es[..k]), es[k]) {
        CountingLaw(env, es[..k]);
        CountingLaw(env, es[..k + 1]);
        DriftStep(env, es, k);
        assert AskCount(Run(env, es[..k]).session.log) == Run(env, es[..k]).session.round;
        assert AskCount(Run(env, es[..k + 1]).session.log) == Run(env, es[..k + 1]).session.round;
      }
    }
  }

  /** An accepted commit whose stored round does not fall behind the row's. */
  predicate NotBehind(env: Env, s: System, e: Event) {
    Accepted(env, s, e) ==>
      s.readers[e.r].round + (if e.draft.FactCollection? && s.readers[e.r].round < 2 then 1 else 0) >= s.session.round
  }

  lemma RoundStepIff(env: Env, s: System, e: Event)
    requires RoundsInRange(s)
    ensures Next(env, s, e).session.round >= s.session.round <==> NotBehind(env, s, e)
  {
    if Accepted(env, s, e) {
      var t := AcceptedEffect(env, s, e);
    } else {
      OthersKeepSession(env, s, e);
    }
  }

  lemma RoundPrefixIff(env: Env, es: seq<Event>, k: nat)
    requires k < |es|
    ensures Run(env, es[..k + 1]).session.round >= Run(env, es[..k]).session.round
            <==> NotBehind(env, Run(env, es[..k]), es[k])
  {
    CountingLaw(env, es[..k]);
    DriftStep(env, es, k);
    RoundStepIff(env, Run(env, es[..k]), es[k]);
  }

  ghost predicate NeverFalls(env: Env, es: seq<Event>) {
    forall k :: 0 <= k < |es| ==> Run(env, es[..k + 1]).session.round >= Run(env, es[..k]).session.round
  }

  ghost predicate NoneBehind(env: Env, es: seq<Event>) {
    forall k :: 0 <= k < |es| ==> NotBehind(env, Run(env, es[..k]), es[k])
  }

  /** The round never decreases in a run if and only if no accepted commit was behind. */
  lemma RoundNeverFallsIff(env: Env, es: seq<Event>)
    ensures NeverFalls(env, es) <==> NoneBehind(env, es)
  {
    if NoneBehind(env, es) {
      forall k | 0 <= k < |es| ensures Run(env, es[..k + 1]).session.round >= Run(env, es[..k]).session.round {
        RoundPrefixIff(env, es, k);
      }
    }
    if NeverFalls(env, es) {
      forall k | 0 <= k < |es| ensures NotBehind(env, Run(env, es[..k]), es[k]) { RoundPrefixIff(env, es, k); }
    }
  }

  /** More than two questions are asked exactly when the lags outweigh the rounds that are left. */
  lemma AtMostTwoQuestionsIff(env: Env, es: seq<Event>)
    ensures AskCount(Run(env, es).session.log) <= 2 <==> Drift(env, es) <= 2 - Run(env, es).session.round
    ensures AllCurrent(env, es) ==> AskCount(Run(env, es).session.log) == Run(env, es).session.round <= 2
  {
    CountingLaw(env, es);
    assert es[..|es|] == es;
    if AllCurrent(env, es) { CurrentHasNoDrift(env, es, |es|); }
  }

  // ---------------------------------------------------------------- no repetition, one limitation

  /** No follow-up question repeats an earlier question of any turn, up to normalisation. */
  ghost predicate FreshQuestions(normalize: string -> string, log: seq<Turn>) {
    forall i ::
      (&& 0 <= i < |log| && log[i].choice.Some? && log[i].choice.value.Ask?
       && normalize(log[i].choice.value.question) != "") ==>
      && log[i].content.questions == [normalize(log[i].choice.value.question)]
      && normalize(log[i].choice.value.question) !in UnitsOf(Contents(log[..i]), Questions)
  }

  /** The limitation was served at most once, and a served one is visible. */
  ghost predicate LimitedOnce(normalize: string -> string, log: seq<Turn>) {
    LimitCount(log) <= 1 && (LimitCount(log) == 1 ==> normalize(LIMITATION) in UnitsOf(Contents(log), Notices))
  }

  lemma ContentsSnoc(log: seq<Turn>, t: Turn)
    ensures Contents(log + [t]) == Contents(log) + [t.content]
    ensures (log + [t])[..|log|] == log
  {
  }

  /** The chosen question was asked in no earlier turn. */
  lemma ChosenIsFresh(normalize: string -> string, round: int, history: seq<Content>, slots: seq<Slot>, q: string)
    requires ChooseFollowUp(normalize, round, history, slots) == Some(Ask(q)) && normalize(q) != ""
    ensures normalize(q) !in UnitsOf(history, Questions)
  {
    UniqueMeaning(UnitsOf(history, Questions));
  }

  lemma AskKeepsFresh(env: Env, log: seq<Turn>, t: Turn, slots: seq<Slot>, body: Content, round: int)
    requires FreshQuestions(env.normalize, log)
    requires t.choice.Some? && t.choice == ChooseFollowUp(env.normalize, round, Contents(log), slots)
    requires t.content == FollowUpContent(env.normalize, t.choice.value, body)
    ensures FreshQuestions(env.normalize, log + [t])
  {
    if t.choice.value.Ask? && env.normalize(t.choice.value.question) != "" {
      ChosenIsFresh(env.normalize, round, Contents(log), slots, t.choice.value.question);
    }
    AppendKeepsFresh(env.normalize, log, t);
  }

  lemma AppendKeepsFresh(normalize: string -> string, log: seq<Turn>, t: Turn)
    requires FreshQuestions(normalize, log)
    requires t.choice.Some? && t.choice.value.Ask? && normalize(t.choice.value.question) != "" ==>
      t.content.questions == [normalize(t.choice.value.question)]
      && normalize(t.choice.value.question) !in UnitsOf(Contents(log), Questions)
    ensures FreshQuestions(normalize, log + [t])
  {
    var all := log + [t];
    forall i | 0 <= i < |all| && all[i].choice.Some? && all[i].choice.value.Ask?
      && normalize(all[i].choice.value.question) != ""
      ensures all[i].content.questions == [normalize(all[i].choice.value.question)]
      ensures normalize(all[i].choice.value.question) !in UnitsOf(Contents(all[..i]), Questions)
    {
      assert all[..i] == log[..i];
      assert log[..|log|] == log;
    }
  }

  lemma NoticesGrow(log: seq<Turn>, t: Turn, u: string)
    ensures u in UnitsOf(Contents(log + [t]), Notices)
            <==> u in UnitsOf(Contents(log), Notices) || u in t.content.notices
  {
    ContentsSnoc(log, t);
    assert (Contents(log) + [t.content])[..|log|] == Contents(log);
  }

  lemma AppendKeepsLimitedOnce(env: Env, log: seq<Turn>, t: Turn)
    requires LimitedOnce(env.normalize, log)
    requires t.choice == Some(Limit) ==>
      env.normalize(LIMITATION) in t.content.notices && env.normalize(LIMITATION) !in UnitsOf(Contents(log), Notices)
    ensures LimitedOnce(env.normalize, log + [t])
  {
    ContentsSnoc(log, t);
    NoticesGrow(log, t, env.normalize(LIMITATION));
  }

  /** A follow-up that is accepted was chosen from the whole log. */
  lemma AcceptedFollowUp(env: Env, s: System, e: Event)
    requires Guarding(env)
    requires Orderly(env, s) && Accepted(env, s, e) && e.draft.FactCollection?
    ensures s.readers[e.r].seen == Some(s.session.log)
  {
    var a := Prepare(env, s.readers[e.r], e.draft, e.id, e.at).value;
    StrictIsGuarded(env, s.readers[e.r], e.draft, e.id, e.at, a);
    AcceptedSawAll(env, s, e, a);
  }

  lemma LimitMeaning(normalize: string -> string, round: int, history: seq<Content>, slots: seq<Slot>, body: Content)
    requires ChooseFollowUp(normalize, round, history, slots) == Some(Limit) && normalize(LIMITATION) != ""
    ensures normalize(LIMITATION) !in UnitsOf(history, Notices)
    ensures normalize(LIMITATION) in FollowUpContent(normalize, Limit, body).notices
  {
  }

  lemma FollowUpTurn(env: Env, s: System, e: Event, t: Turn)
    requires Accepted(env, s, e) && e.draft.FactCollection? && s.readers[e.r].seen == Some(s.session.log)
    requires Prepare(env, s.readers[e.r], e.draft, e.id, e.at).value.turn == t
    ensures t.choice.Some? && t.choice ==
      ChooseFollowUp(env.normalize, s.readers[e.r].round, Contents(s.session.log), e.draft.slots)
    ensures t.content == FollowUpContent(env.normalize, t.choice.value, e.draft.body)
  {
  }

  lemma AcceptedKeepsDiscipline(env: Env, s: System, e: Event)
    requires Guarding(env)
    requires Orderly(env, s) && Timely(s, e) && Accepted(env, s, e) && env.normalize(LIMITATION) != ""
    requires FreshQuestions(env.normalize, s.session.log) && LimitedOnce(env.normalize, s.session.log)
    ensures FreshQuestions(env.normalize, Next(env, s, e).session.log)
            && LimitedOnce(env.normalize, Next(env, s, e).session.log)
  {
    var t := AcceptedEffect(env, s, e);
    assert Insert(s.session.log, t) == s.session.log + [t];
    if e.draft.FactCollection? {
      AcceptedFollowUp(env, s, e);
      FollowUpTurn(env, s, e, t);
      if t.choice == Some(Limit) {
        LimitMeaning(env.normalize, s.readers[e.r].round, Contents(s.session.log), e.draft.slots, e.draft.body);
      }
      AskKeepsFresh(env, s.session.log, t, e.draft.slots, e.draft.body, s.readers[e.r].round);
    } else {
      AppendKeepsFresh(env.normalize, s.session.log, t);
    }
    AppendKeepsLimitedOnce(env, s.session.log, t);
  }

  /**
   In every run with increasing commit times, whatever its readers have read: no follow-up
   question repeats an earlier one, and the limitation is served at most once.
   */
  lemma {:induction false} QuestionsAndLimitation(env: Env, es: seq<Event>)
    requires Guarding(env)
    requires AllTimely(env, es) && env.normalize(LIMITATION) != ""
    ensures FreshQuestions(env.normalize, Run(env, es).session.log)
            && LimitedOnce(env.normalize, Run(env, es).session.log)
  {
    if es != [] {
      var n := |es| - 1;
      TimelyPrefix(env, es, n);
      QuestionsAndLimitation(env, es[..n]);
      RunOrderly(env, es[..n]);
      if Accepted(env, Run(env, es[..n]), es[n]) {
        AcceptedKeepsDiscipline(env, Run(env, es[..n]), es[n]);
      } else {
        OthersKeepSession(env, Run(env, es[..n]), es[n]);
      }
    }
  }

  // ---------------------------------------------------------------- when commits are current

  /**
   The committing reader saw the row and the turns with no commit in between, and the
   guard is on unless there is nothing to guard.
   */
  predicate Careful(env: Env, s: System, e: Event) {
    e.Commit? && e.r in s.readers && s.readers[e.r].seen.Some? ==>
      && s.readers[e.r].rowAt == |s.readers[e.r].seen.value|
      && (s.session.log == [] || s.readers[e.r].seen.value != [] || e.draft.FactCollection? || !e.draft.allowDuplicate)
  }

  ghost predicate AllCareful(env: Env, es: seq<Event>) {
    forall k :: 0 <= k < |es| ==> Careful(env, Run(env, es[..k]), es[k])
  }

  /** Readers know of no turn that is not stored, and know the round that went with the log they read. */
  ghost predicate ReadersFaithful(s: System) {
    && (forall r :: r in s.readers ==> s.readers[r].rowAt <= |s.session.log|)
    && (forall r :: r in s.readers && s.readers[r].rowAt == |s.session.log| ==> s.readers[r].round == s.session.round)
  }

  lemma CarefulStep(env: Env, s: System, e: Event)
    requires Guarding(env)
    requires Orderly(env, s) && ReadersFaithful(s) && Careful(env, s, e)
    ensures Current(env, s, e) && ReadersFaithful(Next(env, s, e))
  {
    if Accepted(env, s, e) {
      var t := AcceptedEffect(env, s, e);
      var a := Prepare(env, s.readers[e.r], e.draft, e.id, e.at).value;
      if a.turn.strict { StrictIsGuarded(env, s.readers[e.r], e.draft, e.id, e.at, a); }
      if Guarded(a.cmd) { AcceptedSawAll(env, s, e, a); }
    } else {
      OthersKeepSession(env, s, e);
    }
  }

  lemma CarefulPrefix(env: Env, es: seq<Event>, n: nat)
    requires n <= |es| && AllCareful(env, es)
    ensures AllCareful(env, es[..n])
  {
    forall k | 0 <= k < n ensures Careful(env, Run(env, es[..n][..k]), es[..n][k]) { assert es[..n][..k] == es[..k]; }
  }

  lemma CurrentExtends(env: Env, es: seq<Event>)
    requires es != [] && AllCurrent(env, es[..|es| - 1]) && Current(env, Run(env, es[..|es| - 1]), es[|es| - 1])
    ensures AllCurrent(env, es)
  {
    var n := |es| - 1;
    forall k | 0 <= k < |es| ensures Current(env, Run(env, es[..k]), es[k]) {
      if k < n { assert es[..n][..k] == es[..k] && es[..n][k] == es[k]; }
    }
  }

  /** Readers that see row and turns with no commit in between commit the current round. */
  lemma {:induction false} CarefulIsCurrent(env: Env, es: seq<Event>)
    requires Guarding(env)
    requires AllTimely(env, es) && AllCareful(env, es)
    ensures AllCurrent(env, es) && ReadersFaithful(Run(env, es))
  {
    if es != [] {
      var n := |es| - 1;
      TimelyPrefix(env, es, n);
      CarefulPrefix(env, es, n);
      CarefulIsCurrent(env, es[..n]);
      RunOrderly(env, es[..n]);
      LastIsCareful(env, es);
      CarefulStep(env, Run(env, es[..n]), es[n]);
      CurrentExtends(env, es);
    }
  }

  lemma LastIsCareful(env: Env, es: seq<Event>)
    requires es != [] && AllCareful(env, es)
    ensures Careful(env, Run(env, es[..|es| - 1]), es[|es| - 1])
  {
  }

  // ---------------------------------------------------------------- what a follow-up needs to be committed

  /** The turn a reader makes of a follow-up draft, None where no question is left or the limitation was served. */
  function TurnContent(env: Env, reader: Reader, draft: Draft): Option<Content> {
    if reader.seen.None? || !draft.FactCollection? then None else
    var choice := ChooseFollowUp(env.normalize, reader.round, Contents(reader.seen.value), draft.slots);
    if choice.None? then None else Some(FollowUpContent(env.normalize, choice.value, draft.body))
  }

  lemma PreparedIff(env: Env, reader: Reader, draft: Draft, id: Id, at: Time, c: Content)
    requires Guarding(env)
    requires TurnContent(env, reader, draft) == Some(c)
    ensures Prepare(env, reader, draft, id, at).Some? <==> HasNovelUnit(env.m, c, Contents(reader.seen.value))
  {
  }

  lemma PreparedParts(env: Env, reader: Reader, draft: Draft, id: Id, at: Time, c: Content)
    requires TurnContent(env, reader, draft) == Some(c)
    ensures var a := Prepare(env, reader, draft, id, at);
      a.Some? ==> a.value.turn.id == id && a.value.round == NextRound(reader.round)
                  && a.value.cmd.units == Encode(env.w, c)
                  && a.value.cmd.expected == var seen := reader.seen.value;
                     if seen == [] then None else Some(seen[|seen| - 1].id)
  {
  }

  lemma PersistAccepts(env: Env, session: Session, cmd: Command, t: Turn, round: int)
    requires 0 <= round <= 2 && env.recheck(cmd, LatestOf(session.log)) == Accept
    requires forall other :: other in session.log ==> other.id != t.id
    ensures Persist(env, session, cmd, t, round).1 == Accept
  {
  }

  lemma NewBesideLast(env: Env, log: seq<Turn>, c: Content, cmd: Command)
    requires Lawful(env.w) && NormalRows(Rows(c)) && Fits(env.w, c) && HasNovelUnit(env.m, c, Contents(log))
    requires cmd.units == Encode(env.w, c) && log != []
    ensures NewBeside(env.m, env.w, cmd, LatestOf(log))
  {
    FittingRoundTrip(env.w, c);
    NovelDecodes(env, log, c, cmd);
  }

  lemma NovelDecodes(env: Env, log: seq<Turn>, c: Content, cmd: Command)
    requires HasNovelUnit(env.m, c, Contents(log)) && Decode(env.w, cmd.units) == c && log != []
    ensures NewBeside(env.m, env.w, cmd, LatestOf(log))
  {
    NovelBesideLast(env.m, c, Contents(log));
    LatestIsLast(log);
    DecodesNew(env, cmd, c, LatestOf(log));
  }

  lemma LatestIsLast(log: seq<Turn>)
    requires log != []
    ensures LatestOf(log).Some? && LatestOf(log).value.response == Mapping(Contents(log)[|Contents(log)| - 1])
  {
  }

  lemma DecodesNew(env: Env, cmd: Command, c: Content, latest: Option<Latest>)
    requires Decode(env.w, cmd.units) == c && latest.Some? && latest.value.response.Mapping?
    requires HasNovelUnit(env.m, c, [latest.value.response.content])
    ensures NewBeside(env.m, env.w, cmd, latest)
  {
  }

  lemma AdmitsUnchanged(env: Env, cmd: Command, log: seq<Turn>)
    requires Admitting(env) && cmd.expected == if log == [] then None else Some(log[|log| - 1].id)
    requires log == [] || NewBeside(env.m, env.w, cmd, LatestOf(log))
    ensures env.recheck(cmd, LatestOf(log)) == Accept
  {
  }

  lemma NewPassesRecheck(env: Env, log: seq<Turn>, c: Content, cmd: Command)
    requires Admitting(env) && Lawful(env.w) && NormalRows(Rows(c)) && Fits(env.w, c)
    requires HasNovelUnit(env.m, c, Contents(log)) && cmd.units == Encode(env.w, c)
    requires cmd.expected == if log == [] then None else Some(log[|log| - 1].id)
    ensures env.recheck(cmd, LatestOf(log)) == Accept
  {
    if log != [] { NewBesideLast(env, log, c, cmd); }
    AdmitsUnchanged(env, cmd, log);
  }

  /** An attempt whose turn says something new is accepted. */
  lemma NewIsAccepted(env: Env, session: Session, a: Attempt, c: Content)
    requires Admitting(env) && Lawful(env.w) && NormalRows(Rows(c)) && Fits(env.w, c)
             && HasNovelUnit(env.m, c, Contents(session.log))
    requires a.cmd.units == Encode(env.w, c) && 0 <= a.round <= 2
    requires a.cmd.expected == if session.log == [] then None else Some(session.log[|session.log| - 1].id)
    requires forall t :: t in session.log ==> t.id != a.turn.id
    ensures Persist(env, session, a.cmd, a.turn, a.round).1 == Accept
  {
    NewPassesRecheck(env, session.log, c, a.cmd);
    PersistAccepts(env, session, a.cmd, a.turn, a.round);
  }

  lemma AttemptIff(env: Env, session: Session, a: Option<Attempt>, c: Content, id: Id, round: int)
    requires Admitting(env) && Lawful(env.w) && NormalRows(Rows(c)) && Fits(env.w, c) && 0 <= round <= 2
    requires a.Some? <==> HasNovelUnit(env.m, c, Contents(session.log))
    requires a.Some? ==> a.value.turn.id == id && a.value.round == round && a.value.cmd.units == Encode(env.w, c)
                         && a.value.cmd.expected ==
                            if session.log == [] then None else Some(session.log[|session.log| - 1].id)
    requires forall t :: t in session.log ==> t.id != id
    ensures (a.Some? && Persist(env, session, a.value.cmd, a.value.turn, a.value.round).1 == Accept)
            <==> HasNovelUnit(env.m, c, Contents(session.log))
  {
    if a.Some? { NewIsAccepted(env, session, a.value, c); }
  }

  lemma AcceptedIff(env: Env, s: System, r: nat, draft: Draft, id: Id, at: Time)
    requires r in s.readers
    ensures var a := Prepare(env, s.readers[r], draft, id, at);
      Accepted(env, s, Commit(r, draft, id, at)) <==>
      a.Some? && Persist(env, s.session, a.value.cmd, a.value.turn, a.value.round).1 == Accept
  {
  }

  /**
   A follow-up draft of a reader that saw the whole log is committed exactly when its turn
   says something new, provided its units fit into the command.
   */
  lemma FollowUpCommitsIff(env: Env, s: System, r: nat, draft: Draft, id: Id, at: Time, c: Content)
    requires Guarding(env) && Admitting(env)
    requires Lawful(env.w) && r in s.readers && s.readers[r].seen == Some(s.session.log) && 0 <= s.readers[r].round <= 2
    requires TurnContent(env, s.readers[r], draft) == Some(c) && NormalRows(Rows(c)) && Fits(env.w, c)
    requires forall t :: t in s.session.log ==> t.id != id
    ensures Accepted(env, s, Commit(r, draft, id, at)) <==> HasNovelUnit(env.m, c, Contents(s.session.log))
  {
    PreparedIff(env, s.readers[r], draft, id, at, c);
    PreparedParts(env, s.readers[r], draft, id, at, c);
    AcceptedIff(env, s, r, draft, id, at);
    AttemptIff(env, s.session, Prepare(env, s.readers[r], draft, id, at), c, id, NextRound(s.readers[r].round));
  }

  // ---------------------------------------------------------------- runs in which rounds and questions part

  /** The first question asked in a session is committed exactly when its turn has a core unit. */
  lemma FirstQuestionIff(env: Env, s: System, r: nat, slots: seq<Slot>, body: Content, id: Id, at: Time)
    requires Guarding(env) && Admitting(env)
    requires s.session.log == [] && r in s.readers && s.readers[r].seen == Some([]) && 0 <= s.readers[r].round < 2
             && slots != []
    ensures var c := FollowUpContent(env.normalize, Ask(slots[0].question), body);
      Accepted(env, s, Commit(r, FactCollection(slots, body), id, at)) <==> CoreUnits(c) != []
  {
    var draft := FactCollection(slots, body);
    var c := FollowUpContent(env.normalize, Ask(slots[0].question), body);
    FirstUnaskedOfNone(env, s.readers[r], slots, body);
    PreparedIff(env, s.readers[r], draft, id, at, c);
    PreparedParts(env, s.readers[r], draft, id, at, c);
    EmptyHistory(env.m, c);
    if CoreUnits(c) != [] {
      var a := Prepare(env, s.readers[r], draft, id, at).value;
      assert a.cmd.expected == None;
      PersistAccepts(env, s.session, a.cmd, a.turn, a.round);
    }
  }

  lemma FirstUnaskedOfNone(env: Env, reader: Reader, slots: seq<Slot>, body: Content)
    requires reader.seen == Some([]) && reader.round < 2 && slots != []
    ensures TurnContent(env, reader, FactCollection(slots, body))
            == Some(FollowUpContent(env.normalize, Ask(slots[0].question), body))
  {
    assert Contents([]) == [];
    assert Prior([], Questions) == [];
  }

  lemma EmptyHistory(m: Measures, c: Content)
    ensures HasNovelUnit(m, c, Contents([])) <==> CoreUnits(c) != []
  {
    if CoreUnits(c) != [] {
      var u := CoreUnits(c)[0];
      CoreUnitsMeaning(c, u);
      var f :| f != Notices && u in Get(c, f);
      assert IsNovel(m, c, Contents([]), f, u);
    } else {
      NoCoreNoNovel(m, c, Contents([]));
    }
  }

  /** A commit with `allow_duplicate` passes when its reader knows the latest turn, or knows no turn at all. */
  lemma AllowedCommit(env: Env, s: System, r: nat, c: Content, id: Id, at: Time)
    requires Admitting(env)
    requires r in s.readers && s.readers[r].seen.Some? && 0 <= s.readers[r].round <= 2
    requires s.readers[r].seen.value == [] || s.readers[r].seen.value == s.session.log
    requires forall t :: t in s.session.log ==> t.id != id
    ensures Accepted(env, s, Commit(r, Other(c, true), id, at))
  {
  }

  lemma RunSnoc(env: Env, es: seq<Event>, e: Event)
    ensures Run(env, es + [e]) == Next(env, Run(env, es), e)
  {
    assert (es + [e])[..|es|] == es;
  }

  lemma ReadRowEffect(env: Env, es: seq<Event>, r: nat)
    ensures var s := Run(env, es);
      Run(env, es + [ReadRow(r)]) == s.(readers := s.readers[r := Reader(s.session.round, |s.session.log|, None)])
  {
    RunSnoc(env, es, ReadRow(r));
  }

  lemma ReadTurnsEffect(env: Env, es: seq<Event>, r: nat)
    requires r in Run(env, es).readers
    ensures var s := Run(env, es);
      Run(env, es + [ReadTurns(r)]) == s.(readers := s.readers[r := s.readers[r].(seen := Some(s.session.log))])
  {
    RunSnoc(env, es, ReadTurns(r));
  }

  /** Two readers read the row of a new session; the first reads its turns too, the second perhaps. */
  lemma TwoReaders(env: Env, rowEarly: bool) returns (es: seq<Event>)
    ensures Run(env, es) == System(Session(0, []),
                                   map[0 := Reader(0, 0, Some([])),
                                       1 := Reader(0, 0, if rowEarly then None else Some([]))])
  {
    ReadRowEffect(env, [], 1);
    es := [] + [ReadRow(1)];
    if !rowEarly {
      ReadTurnsEffect(env, es, 1);
      es := es + [ReadTurns(1)];
    }
    ReadRowEffect(env, es, 0);
    es := es + [ReadRow(0)];
    ReadTurnsEffect(env, es, 0);
    es := es + [ReadTurns(0)];
    assert Run(env, es).readers == map[0 := Reader(0, 0, Some([])),
                                       1 := Reader(0, 0, if rowEarly then None else Some([]))];
  }

  /** The second reader's commit, after the first one asked a question. */
  lemma StaleCommit(env: Env, s: System, c: Content, last: Event)
    requires Admitting(env)
    requires s.session.round == 1 && |s.session.log| == 1 && s.session.log[0].id != 6
    requires 1 in s.readers && s.readers[1].round == 0
             && (s.readers[1].seen == Some([]) || s.readers[1].seen == Some(s.session.log))
    requires last == Commit(1, Other(c, true), 6, 11)
    ensures Next(env, s, last).session.round == 0 && !NotBehind(env, s, last)
  {
    AllowedCommit(env, s, 1, c, 6, 11);
    var t := AcceptedEffect(env, s, last);
  }

  lemma FirstAsked(env: Env, s: System, q: string, u: string, ask: Event) returns (t: Turn)
    requires Guarding(env) && Admitting(env)
    requires s.session == Session(0, []) && 0 in s.readers && s.readers[0] == Reader(0, 0, Some([])) && u != ""
    requires ask == Commit(0, FactCollection([Slot(q, "string")], NOTHING.(replies := [u])), 5, 10)
    ensures Next(env, s, ask) == s.(session := Session(1, [t])) && t.id == 5 && t.at == 10
  {
    var c := FollowUpContent(env.normalize, Ask(q), NOTHING.(replies := [u]));
    assert u in Get(c, Replies);
    CoreUnitsMeaning(c, u);
    FirstQuestionIff(env, s, 0, [Slot(q, "string")], NOTHING.(replies := [u]), 5, 10);
    t := AcceptedEffect(env, s, ask);
  }

  /**
   The round does fall when the row was read before another consultation's commit: with
   `rowEarly` the turns are read after that commit, otherwise the guard is off because the
   reader knew no turn and allows duplicates.
   */
  lemma RoundCanFall(env: Env, q: string, u: string, c: Content, rowEarly: bool) returns (es: seq<Event>, last: Event)
    requires Guarding(env) && Admitting(env)
    requires u != ""
    ensures Run(env, es).session.round == 1 && Run(env, es + [last]).session.round == 0
    ensures Timely(Run(env, es), last) && !NotBehind(env, Run(env, es), last)
  {
    var ask := Commit(0, FactCollection([Slot(q, "string")], NOTHING.(replies := [u])), 5, 10);
    last := Commit(1, Other(c, true), 6, 11);
    es := TwoReaders(env, rowEarly);
    var t := FirstAsked(env, Run(env, es), q, u, ask);
    RunSnoc(env, es, ask);
    es := es + [ask];
    if rowEarly {
      ReadTurnsEffect(env, es, 1);
      es := es + [ReadTurns(1)];
    }
    StaleCommit(env, Run(env, es), c, last);
    RunSnoc(env, es, last);
  }

  // ---------------------------------------------------------------- three questions

  /** A bare question with a visible normal form, short enough for the command. */
  predicate Askable(env: Env, d: Draft, u: string) {
    && d.FactCollection? && d.slots != [] && d.body == NOTHING && env.normalize(d.slots[0].question) == u
    && u != "" && Visible(u) && |u| <= env.w.room(4)
  }

  function Asked(u: string): Content {
    NOTHING.(questions := [u])
  }

  /** The log holds turns that ask these questions and nothing else. */
  predicate LogAsks(log: seq<Turn>, us: seq<string>) {
    |log| == |us| && forall i :: 0 <= i < |log| ==> log[i].content == Asked(us[i])
  }

  lemma AskedFits(env: Env, d: Draft, u: string)
    requires Askable(env, d, u)
    ensures NormalRows(Rows(Asked(u))) && Fits(env.w, Asked(u))
  {
    var rows := Rows(Asked(u));
    forall i | 0 <= i < 7 ensures rows[i] == if i == 4 then [u] else [] {}
    OneUnit(env.w, rows, u, 7);
  }

  lemma {:induction false} OneUnit(w: Wire, rows: seq<seq<string>>, u: string, k: nat)
    requires k <= |rows| == 7 && forall i :: 0 <= i < 7 ==> rows[i] == if i == 4 then [u] else []
    ensures |TagRows(w, rows, k)| <= 1 && (k <= 4 ==> TagRows(w, rows, k) == [])
  {
    if k > 0 { OneUnit(w, rows, u, k - 1); }
  }

  lemma EarlierQuestion(log: seq<Turn>, us: seq<string>, h: Content, past: string)
    requires LogAsks(log, us) && h in Contents(log) && past in h.questions
    ensures past in us
  {
    var i :| 0 <= i < |log| && Contents(log)[i] == h;
    assert past == us[i];
  }

  lemma AskedIsNew(m: Measures, log: seq<Turn>, us: seq<string>, u: string)
    requires LogAsks(log, us) && u != "" && forall past :: past in us ==> !Equivalent(m, u, past)
    ensures HasNovelUnit(m, Asked(u), Contents(log)) && u !in Prior(Contents(log), Questions)
  {
    forall h, past | h in Contents(log) && past in Get(h, Questions) ensures !Equivalent(m, u, past) {
      EarlierQuestion(log, us, h, past);
    }
    assert IsNovel(m, Asked(u), Contents(log), Questions, u);
    UnitsOfMeaning(Contents(log), Questions);
    UniqueMeaning(UnitsOf(Contents(log), Questions));
    if u in UnitsOf(Contents(log), Questions) {
      var h :| h in Contents(log) && u in Get(h, Questions);
      EarlierQuestion(log, us, h, u);
    }
  }

  lemma PreparedContent(env: Env, reader: Reader, draft: Draft, id: Id, at: Time, c: Content)
    requires TurnContent(env, reader, draft) == Some(c) && Prepare(env, reader, draft, id, at).Some?
    ensures var t := Prepare(env, reader, draft, id, at).value.turn;
      t.content == c && t.id == id && t.at == at && (reader.round < 2 ==> Asks(t) == 1)
  {
  }

  lemma AskAccepted(env: Env, s: System, r: nat, d: Draft, u: string, us: seq<string>, id: Id, at: Time)
    requires Guarding(env) && Admitting(env)
    requires Lawful(env.w) && Askable(env, d, u) && LogAsks(s.session.log, us) && forall past :: past in us ==>
             !Equivalent(env.m, u, past)
    requires r in s.readers && s.readers[r].seen == Some(s.session.log) && 0 <= s.readers[r].round < 2
    requires forall other :: other in s.session.log ==> other.id != id
    ensures Accepted(env, s, Commit(r, d, id, at))
    ensures var t := Prepare(env, s.readers[r], d, id, at).value.turn;
      t.content == Asked(u) && t.id == id && t.at == at && Asks(t) == 1
  {
    AskedIsNew(env.m, s.session.log, us, u);
    AskedFits(env, d, u);
    QuestionContent(env, s.readers[r], d, u);
    FollowUpCommitsIff(env, s, r, d, id, at, Asked(u));
    PreparedContent(env, s.readers[r], d, id, at, Asked(u));
  }

  lemma InsertLast(log: seq<Turn>, t: Turn)
    requires log != [] ==> log[|log| - 1].at < t.at
    ensures Insert(log, t) == log + [t]
  {
  }

  lemma LogAsksSnoc(log: seq<Turn>, us: seq<string>, t: Turn, u: string)
    requires LogAsks(log, us) && t.content == Asked(u)
    ensures LogAsks(log + [t], us + [u])
  {
  }

  /** A new question of a reader that saw the log is committed with the reader's next round. */
  lemma AskCommits(env: Env, s: System, e: Event, u: string) returns (t: Turn)
    requires Accepted(env, s, e) && e.draft.FactCollection?
    requires Prepare(env, s.readers[e.r], e.draft, e.id, e.at).value.turn.content == Asked(u)
    ensures Next(env, s, e) == s.(session := Session(NextRound(s.readers[e.r].round), Insert(s.session.log, t)))
    ensures t.id == e.id && t.at == e.at && t.content == Asked(u) && (s.readers[e.r].round < 2 ==> Asks(t) == 1)
  {
    t := AcceptedEffect(env, s, e);
    PreparedTurn(env, s.readers[e.r], e.draft, e.id, e.at, Prepare(env, s.readers[e.r], e.draft, e.id, e.at).value);
  }

  /** The same as a step of a run. */
  lemma AsksNext(env: Env, es: seq<Event>, s: System, r: nat, d: Draft, u: string, us: seq<string>, id: Id, at: Time)
    returns (next: seq<Event>, t: Turn)
    requires Guarding(env) && Admitting(env)
    requires Reaches(env, es, s) && LogAsks(s.session.log, us) && r in s.readers
             && s.readers[r].seen == Some(s.session.log)
    requires 0 <= s.readers[r].round < 2 && s.session.round <= s.readers[r].round + 1
    requires forall other :: other in s.session.log ==> other.id != id && other.at < at
    requires Lawful(env.w) && Askable(env, d, u) && forall past :: past in us ==> !Equivalent(env.m, u, past)
    ensures Reaches(env, next, s.(session := Session(s.readers[r].round + 1, s.session.log + [t])))
    ensures t.id == id && t.at == at && Asks(t) == 1 && LogAsks(s.session.log + [t], us + [u])
  {
    var e := Commit(r, d, id, at);
    AskAccepted(env, s, r, d, u, us, id, at);
    t := AskCommits(env, s, e, u);
    InsertLast(s.session.log, t);
    LogAsksSnoc(s.session.log, us, t, u);
    next := es + [e];
    StepReaches(env, es, s, e, s.(session := Session(s.readers[r].round + 1, s.session.log + [t])));
  }

  lemma StepReaches(env: Env, es: seq<Event>, s: System, e: Event, n: System)
    requires Reaches(env, es, s) && Timely(s, e) && Next(env, s, e) == n && n.session.round >= s.session.round
    ensures Reaches(env, es + [e], n)
  {
    RunSnoc(env, es, e);
    TimelySnoc(env, es, e);
    NeverFallsSnoc(env, es, e);
  }

  lemma QuestionContent(env: Env, reader: Reader, d: Draft, u: string)
    requires Askable(env, d, u) && reader.seen.Some? && reader.round < 2
             && u !in Prior(Contents(reader.seen.value), Questions)
    ensures TurnContent(env, reader, d) == Some(Asked(u))
  {
  }

  lemma TimelySnoc(env: Env, es: seq<Event>, e: Event)
    requires AllTimely(env, es) && Timely(Run(env, es), e)
    ensures AllTimely(env, es + [e])
  {
    var r := es + [e];
    forall k | 0 <= k < |r| ensures Timely(Run(env, r[..k]), r[k]) {
      assert r[..k] == es[..k];
      assert es[..|es|] == es;
    }
  }

  lemma NeverFallsSnoc(env: Env, es: seq<Event>, e: Event)
    requires NeverFalls(env, es) && Run(env, es + [e]).session.round >= Run(env, es).session.round
    ensures NeverFalls(env, es + [e])
  {
    var r := es + [e];
    assert r[..|es|] == es && r[..|r|] == r;
    forall k | 0 <= k < |r| ensures Run(env, r[..k + 1]).session.round >= Run(env, r[..k]).session.round {
      if k < |es| { assert r[..k] == es[..k] && r[..k + 1] == es[..k + 1]; }
    }
  }

  /** A run whose clocks and rounds never go back, and the system it reaches. */
  ghost predicate Reaches(env: Env, es: seq<Event>, s: System) {
    AllTimely(env, es) && NeverFalls(env, es) && Run(env, es) == s
  }

  lemma ReadsRow(env: Env, es: seq<Event>, s: System, r: nat) returns (next: seq<Event>)
    requires Reaches(env, es, s)
    ensures Reaches(env, next, s.(readers := s.readers[r := Reader(s.session.round, |s.session.log|, None)]))
  {
    next := es + [ReadRow(r)];
    ReadRowEffect(env, es, r);
    TimelySnoc(env, es, ReadRow(r));
    NeverFallsSnoc(env, es, ReadRow(r));
  }

  lemma ReadsTurns(env: Env, es: seq<Event>, s: System, r: nat) returns (next: seq<Event>)
    requires Reaches(env, es, s) && r in s.readers
    ensures Reaches(env, next, s.(readers := s.readers[r := s.readers[r].(seen := Some(s.session.log))]))
  {
    next := es + [ReadTurns(r)];
    ReadTurnsEffect(env, es, r);
    TimelySnoc(env, es, ReadTurns(r));
    NeverFallsSnoc(env, es, ReadTurns(r));
  }

  lemma AskSnoc(log: seq<Turn>, t: Turn)
    ensures AskCount(log + [t]) == AskCount(log) + Asks(t)
  {
    assert (log + [t])[..|log|] == log;
  }

  /** The first reader asks, after the second one read the row. */
  lemma FirstOfThree(env: Env, d: Draft, u: string) returns (es: seq<Event>, t: Turn)
    requires Guarding(env) && Admitting(env)
    requires Lawful(env.w) && Askable(env, d, u)
    ensures Reaches(env, es, System(Session(1, [t]), map[0 := Reader(0, 0, Some([])), 1 := Reader(0, 0, None)]))
    ensures t.id == 5 && t.at == 10 && Asks(t) == 1 && LogAsks([t], [u])
  {
    var s0, r0, r1 := Session(0, []), Reader(0, 0, Some([])), Reader(0, 0, None);
    es := ReadsRow(env, [], System(s0, map[]), 1);
    es := ReadsRow(env, es, System(s0, map[1 := r1]), 0);
    assert map[1 := r1][0 := r1] == map[0 := r1, 1 := r1];
    es := ReadsTurns(env, es, System(s0, map[0 := r1, 1 := r1]), 0);
    assert map[0 := r1, 1 := r1][0 := r0] == map[0 := r0, 1 := r1];
    es, t := AsksNext(env, es, System(s0, map[0 := r0, 1 := r1]), 0, d, u, [], 5, 10);
    assert [] + [t] == [t] && [] + [u] == [u];
  }

  /** The second reader reads the turns and asks with the round of the row it read before. */
  lemma SecondOfThree(env: Env, es: seq<Event>, t: Turn, d: seq<Draft>, u: seq<string>)
    returns (next: seq<Event>, v: Turn, s: System)
    requires Guarding(env) && Admitting(env)
    requires Reaches(env, es, System(Session(1, [t]), map[0 := Reader(0, 0, Some([])), 1 := Reader(0, 0, None)]))
    requires |d| == |u| == 3 && t.id == 5 && t.at == 10 && LogAsks([t], [u[0]])
    requires Lawful(env.w) && Askable(env, d[1], u[1]) && !Equivalent(env.m, u[1], u[0])
    ensures Reaches(env, next, s) && s.session == Session(1, [t, v])
    ensures v.id == 6 && v.at == 11 && Asks(v) == 1 && LogAsks([t, v], [u[0], u[1]])
  {
    var s0 := System(Session(1, [t]), map[0 := Reader(0, 0, Some([])), 1 := Reader(0, 0, None)]);
    next := ReadsTurns(env, es, s0, 1);
    s := s0.(readers := s0.readers[1 := Reader(0, 0, Some([t]))]);
    next, v := AsksNext(env, next, s, 1, d[1], u[1], [u[0]], 6, 11);
    s := s.(session := Session(1, [t] + [v]));
    assert [t] + [v] == [t, v] && [u[0]] + [u[1]] == [u[0], u[1]];
  }

  /**
   Three questions in one session, with clocks and rounds that never go back: the second
   reader read the row before the first question was committed and the turns after it.
   */
  lemma ThreeQuestions(env: Env, d: seq<Draft>, u: seq<string>) returns (es: seq<Event>)
    requires Guarding(env) && Admitting(env)
    requires Lawful(env.w) && |d| == |u| == 3 && forall i :: 0 <= i < 3 ==> Askable(env, d[i], u[i])
    requires forall i, j :: 0 <= i < j < 3 ==> !Equivalent(env.m, u[j], u[i])
    ensures AllTimely(env, es) && NeverFalls(env, es)
    ensures AskCount(Run(env, es).session.log) == 3 && Run(env, es).session.round == 2
  {
    var t0, t1, t2, s;
    es, t0 := FirstOfThree(env, d[0], u[0]);
    es, t1, s := SecondOfThree(env, es, t0, d, u);
    es := ReadsRow(env, es, s, 2);
    s := s.(readers := s.readers[2 := Reader(1, 2, None)]);
    es := ReadsTurns(env, es, s, 2);
    s := s.(readers := s.readers[2 := Reader(1, 2, Some([t0, t1]))]);
    es, t2 := AsksNext(env, es, s, 2, d[2], u[2], [u[0], u[1]], 7, 12);
    ThreeAsks(t0, t1, t2);
  }

  lemma TwoAsk(t0: Turn, t1: Turn)
    requires Asks(t0) == Asks(t1) == 1
    ensures AskCount([t0, t1]) == 2
  {
    OneAsks(t0);
    AskSnoc([t0], t1);
    assert [t0] + [t1] == [t0, t1];
  }

  lemma OneAsks(t: Turn)
    requires Asks(t) == 1
    ensures AskCount([t]) == 1
  {
    AskSnoc([], t);
    assert [] + [t] == [t];
  }

  lemma ThreeAsks(t0: Turn, t1: Turn, t2: Turn)
    requires Asks(t0) == Asks(t1) == Asks(t2) == 1
    ensures AskCount([t0, t1] + [t2]) == 3
  {
    TwoAsk(t0, t1);
    AskSnoc([t0, t1], t2);
  }

  /** A question whose normal form is empty leaves no trace, so it can be asked again. */
  lemma EmptyQuestionRepeats(env: Env, round: int, history: seq<Content>, slot: Slot, body: Content)
    requires round < 2 && env.normalize(slot.question) == ""
    ensures ChooseFollowUp(env.normalize, round, history, [slot]) == Some(Ask(slot.question))
    ensures FollowUpContent(env.normalize, Ask(slot.question), body).questions == []
  {
    UniqueMeaning(UnitsOf(history, Questions));
    FirstIsUnasked(env.normalize, slot, Prior(history, Questions));
  }

  lemma FirstIsUnasked(normalize: string -> string, slot: Slot, asked: seq<string>)
    requires normalize(slot.question) !in asked
    ensures FirstUnasked(normalize, [slot], false, asked) == Some(slot.question)
  {
  }
}
