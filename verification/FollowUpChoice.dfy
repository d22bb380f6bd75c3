/**
 What a follow-up asks: `_followup_result` of app/agent/pipeline.py, in terms of the questions
 and notices of the earlier turns, and what becomes of a draft at the commit.
 */
module FollowUpChoice {
  import opened Common
  import opened Progression
  import opened ComparisonUnits
  import opened CommitGuard
  import opened Conversation

  // ---------------------------------------------------------------- what was asked before

  /** An earlier turn asks the same thing, up to normalisation; an empty normal form is never recorded. */
  predicate WasAsked(normalize: string -> string, history: seq<Content>, text: string) {
    normalize(text) != "" && exists i :: 0 <= i < |history| && normalize(text) in history[i].questions
  }

  predicate WasServed(normalize: string -> string, history: seq<Content>) {
    exists i :: 0 <= i < |history| && normalize(LIMITATION) in history[i].notices
  }

  lemma AskedMeaning(normalize: string -> string, history: seq<Content>, text: string)
    ensures normalize(text) in Prior(history, Questions) <==> WasAsked(normalize, history, text)
  {
    UniqueMeaning(UnitsOf(history, Questions));
    UnitsOfMeaning(history, Questions);
    if h :| h in history && normalize(text) in Get(h, Questions) {
      var i :| 0 <= i < |history| && history[i] == h;
    }
    if i :| 0 <= i < |history| && normalize(text) in history[i].questions { assert history[i] in history; }
  }

  lemma ServedMeaning(normalize: string -> string, history: seq<Content>)
    ensures normalize(LIMITATION) in UnitsOf(history, Notices) <==> WasServed(normalize, history)
  {
    UnitsOfMeaning(history, Notices);
    if h :| h in history && normalize(LIMITATION) in Get(h, Notices) {
      var i :| 0 <= i < |history| && history[i] == h;
    }
    if i :| 0 <= i < |history| && normalize(LIMITATION) in history[i].notices { assert history[i] in history; }
  }

  /** Slot `k` is the first whose question, as it is or sharpened, was not asked. */
  predicate FirstOpen(normalize: string -> string, history: seq<Content>, slots: seq<Slot>, precise: bool, k: nat) {
    && k < |slots| && !WasAsked(normalize, history, Wording(slots[k], precise))
    && forall j :: 0 <= j < k ==> WasAsked(normalize, history, Wording(slots[j], precise))
  }

  function Wording(slot: Slot, precise: bool): string {
    if precise then MorePrecise(slot) else slot.question
  }

  predicate AllAsked(normalize: string -> string, history: seq<Content>, slots: seq<Slot>, precise: bool) {
    forall k :: 0 <= k < |slots| ==> WasAsked(normalize, history, Wording(slots[k], precise))
  }

  /** The search finds the first open slot, or there is none. */
  lemma {:induction false} SearchMeaning(normalize: string -> string, history: seq<Content>, slots: seq<Slot>,
                                         precise: bool)
    ensures var r := FirstUnasked(normalize, slots, precise, Prior(history, Questions));
      && (r.None? <==> AllAsked(normalize, history, slots, precise))
      && (r.Some? ==> exists k: nat ::
            FirstOpen(normalize, history, slots, precise, k) && r.value == Wording(slots[k], precise))
  {
    if slots != [] {
      AskedMeaning(normalize, history, Wording(slots[0], precise));
      SearchMeaning(normalize, history, slots[1..], precise);
      SearchStep(normalize, history, slots, precise);
    }
  }

  lemma SearchStep(normalize: string -> string, history: seq<Content>, slots: seq<Slot>, precise: bool)
    requires slots != []
    ensures !WasAsked(normalize, history, Wording(slots[0], precise)) ==>
              FirstOpen(normalize, history, slots, precise, 0)
    ensures WasAsked(normalize, history, Wording(slots[0], precise)) ==>
              (AllAsked(normalize, history, slots, precise) <==> AllAsked(normalize, history, slots[1..], precise))
    ensures WasAsked(normalize, history, Wording(slots[0], precise)) ==>
              forall k: nat :: FirstOpen(normalize, history, slots[1..], precise, k) ==>
                FirstOpen(normalize, history, slots, precise, k + 1) && slots[1..][k] == slots[k + 1]
  {
    if AllAsked(normalize, history, slots, precise) {
      forall k | 0 <= k < |slots[1..]| ensures WasAsked(normalize, history, Wording(slots[1..][k], precise)) {
        assert slots[1..][k] == slots[k + 1];
      }
    }
    if WasAsked(normalize, history, Wording(slots[0], precise)) && AllAsked(normalize, history, slots[1..], precise) {
      forall k | 0 <= k < |slots| ensures WasAsked(normalize, history, Wording(slots[k], precise)) {
        if k > 0 { assert slots[1..][k - 1] == slots[k]; }
      }
    }
    forall k: nat | WasAsked(normalize, history, Wording(slots[0], precise))
      && FirstOpen(normalize, history, slots[1..], precise, k)
      ensures FirstOpen(normalize, history, slots, precise, k + 1)
    {
      forall j | 0 <= j < k + 1 ensures WasAsked(normalize, history, Wording(slots[j], precise)) {
        if j > 0 { assert slots[1..][j - 1] == slots[j]; }
      }
    }
  }

  // ---------------------------------------------------------------- the choice

  /** No follow-up is left exactly when every wording of every slot was asked, or the limitation was served. */
  lemma NoChoiceIff(normalize: string -> string, round: int, history: seq<Content>, slots: seq<Slot>)
    ensures ChooseFollowUp(normalize, round, history, slots).None?
            <==> if round < 2
                 then AllAsked(normalize, history, slots, false) && AllAsked(normalize, history, slots, true)
                 else WasServed(normalize, history)
  {
    SearchMeaning(normalize, history, slots, false);
    SearchMeaning(normalize, history, slots, true);
    ServedMeaning(normalize, history);
  }

  /** The limitation is served exactly after two rounds, and once. */
  lemma LimitIff(normalize: string -> string, round: int, history: seq<Content>, slots: seq<Slot>)
    ensures ChooseFollowUp(normalize, round, history, slots) == Some(Limit)
            <==> round >= 2 && !WasServed(normalize, history)
  {
    ServedMeaning(normalize, history);
  }

  /** The first open question as it stands, or else the first open one sharpened. */
  ghost predicate Asks(normalize: string -> string, history: seq<Content>, slots: seq<Slot>, q: string) {
    (exists k: nat :: FirstOpen(normalize, history, slots, false, k) && q == slots[k].question)
    || (AllAsked(normalize, history, slots, false)
        && exists k: nat :: FirstOpen(normalize, history, slots, true, k) && q == MorePrecise(slots[k]))
  }

  lemma FirstOpenUnique(normalize: string -> string, history: seq<Content>, slots: seq<Slot>, precise: bool, j: nat,
                        k: nat)
    requires FirstOpen(normalize, history, slots, precise, j) && FirstOpen(normalize, history, slots, precise, k)
    ensures j == k && !AllAsked(normalize, history, slots, precise)
  {
  }

  /** A question is asked exactly in the first two rounds, and then it is the first open one. */
  lemma AskIff(normalize: string -> string, round: int, history: seq<Content>, slots: seq<Slot>, q: string)
    ensures ChooseFollowUp(normalize, round, history, slots) == Some(Ask(q))
            <==> round < 2 && Asks(normalize, history, slots, q)
  {
    SearchMeaning(normalize, history, slots, false);
    SearchMeaning(normalize, history, slots, true);
    if Asks(normalize, history, slots, q) { OnlyQuestion(normalize, history, slots, q); }
  }

  lemma OnlyQuestion(normalize: string -> string, history: seq<Content>, slots: seq<Slot>, q: string)
    requires Asks(normalize, history, slots, q)
    ensures var asked := Prior(history, Questions);
      var (plain, sharp) := (FirstUnasked(normalize, slots, false, asked), FirstUnasked(normalize, slots, true, asked));
      plain == Some(q) || (plain.None? && sharp == Some(q))
  {
    SearchMeaning(normalize, history, slots, false);
    SearchMeaning(normalize, history, slots, true);
    if j: nat :| FirstOpen(normalize, history, slots, false, j) && q == slots[j].question {
      SameFirst(normalize, history, slots, false, j);
    } else {
      var j: nat :| FirstOpen(normalize, history, slots, true, j) && q == MorePrecise(slots[j]);
      SameFirst(normalize, history, slots, true, j);
    }
  }

  lemma SameFirst(normalize: string -> string, history: seq<Content>, slots: seq<Slot>, precise: bool, j: nat)
    requires FirstOpen(normalize, history, slots, precise, j)
    ensures FirstUnasked(normalize, slots, precise, Prior(history, Questions)) == Some(Wording(slots[j], precise))
  {
    SearchMeaning(normalize, history, slots, precise);
    var k: nat :| FirstOpen(normalize, history, slots, precise, k)
        && FirstUnasked(normalize, slots, precise, Prior(history, Questions)).value == Wording(slots[k], precise);
    FirstOpenUnique(normalize, history, slots, precise, j, k);
  }

  // ---------------------------------------------------------------- the sharpened question

  const MARKS: seq<char> := ['？', '?', '。', ' ']

  predicate Marks(s: string) {
    forall i :: 0 <= i < |s| ==> s[i] in MARKS
  }

  lemma {:induction false} StripEndMeaning(s: string) returns (tail: string)
    ensures s == StripEnd(s) + tail && Marks(tail)
    ensures StripEnd(s) != "" ==> StripEnd(s)[|StripEnd(s)| - 1] !in MARKS
  {
    tail := "";
    if s != "" && s[|s| - 1] in MARKS {
      tail := StripEndMeaning(s[..|s| - 1]);
      assert s == StripEnd(s) + (tail + [s[|s| - 1]]);
      tail := tail + [s[|s| - 1]];
    }
  }

  /** The sharpened question is the question without its closing marks, a question mark, and a request. */
  lemma SharpenedMeaning(slot: Slot) returns (stem: string, tail: string)
    ensures slot.question == stem + tail && Marks(tail) && (stem != "" ==> stem[|stem| - 1] !in MARKS)
    ensures MorePrecise(slot) == stem + "？" + Suffix(slot.slotType)
    ensures |MorePrecise(slot)| >= |stem| + 11
  {
    stem := StripEnd(slot.question);
    tail := StripEndMeaning(slot.question);
    SuffixLong(slot.slotType);
  }

  lemma SuffixLong(slotType: string)
    ensures |Suffix(slotType)| >= 10
  {
  }

  // ---------------------------------------------------------------- a draft on its way to the store

  /** The units a follow-up turn shows: the body's replies and actions, and the question or the limitation. */
  ghost predicate Shows(normalize: string -> string, choice: FollowUp, body: Content, c: Content) {
    && c.replies == body.replies && c.actions == body.actions && c.evidence == [] && c.communications == []
    && (choice.Ask? ==> c.notices == [] && c.stages == []
                        && forall u :: u in c.questions <==> u == normalize(choice.question) && u != "")
    && (choice.Limit? ==> c.questions == []
                          && forall u :: u in c.notices <==> u == normalize(LIMITATION) && u != "")
  }

  lemma ContentShows(normalize: string -> string, choice: FollowUp, body: Content)
    ensures Shows(normalize, choice, body, FollowUpContent(normalize, choice, body))
  {
  }

  /** A follow-up turn carries the next round, and the first open question or the limitation, and shows just that. */
  lemma PreparedFollowUp(env: Env, reader: Reader, slots: seq<Slot>, body: Content, id: Id, at: Time)
    requires reader.seen.Some? && Prepare(env, reader, FactCollection(slots, body), id, at).Some?
    ensures var (a, history) := (Prepare(env, reader, FactCollection(slots, body), id, at).value,
                                 Contents(reader.seen.value));
      && a.turn.strict && a.turn.choice.Some? && a.turn.id == id && a.turn.at == at && a.turn.saw == |reader.seen.value|
      && Shows(env.normalize, a.turn.choice.value, body, a.turn.content)
      && (if reader.round < 2
          then a.round == reader.round + 1 && a.turn.choice.value.Ask?
               && Asks(env.normalize, history, slots, a.turn.choice.value.question)
          else a.round == 2 && a.turn.choice.value.Limit? && !WasServed(env.normalize, history))
  {
    var history := Contents(reader.seen.value);
    var choice := PreparedParts(env, reader, slots, body, id, at);
    ContentShows(env.normalize, choice, body);
    if choice.Ask? {
      AskIff(env.normalize, reader.round, history, slots, choice.question);
    } else {
      LimitIff(env.normalize, reader.round, history, slots);
    }
  }

  lemma PreparedParts(env: Env, reader: Reader, slots: seq<Slot>, body: Content, id: Id, at: Time)
    returns (choice: FollowUp)
    requires reader.seen.Some? && Prepare(env, reader, FactCollection(slots, body), id, at).Some?
    ensures var a := Prepare(env, reader, FactCollection(slots, body), id, at).value;
      && ChooseFollowUp(env.normalize, reader.round, Contents(reader.seen.value), slots) == Some(choice)
      && a.turn == Turn(id, at, FollowUpContent(env.normalize, choice, body), true, |reader.seen.value|, Some(choice))
      && a.round == if reader.round < 2 then reader.round + 1 else 2
  {
    choice := ChooseFollowUp(env.normalize, reader.round, Contents(reader.seen.value), slots).value;
  }

  /** Everything a follow-up could say was said before. */
  predicate Exhausted(normalize: string -> string, round: int, history: seq<Content>, slots: seq<Slot>) {
    if round < 2 then AllAsked(normalize, history, slots, false) && AllAsked(normalize, history, slots, true)
    else WasServed(normalize, history)
  }

  /** A follow-up reaches the store exactly when something is left to say and its turn repeats none before it. */
  lemma FollowUpGoesIff(env: Env, reader: Reader, slots: seq<Slot>, body: Content, id: Id, at: Time)
    requires reader.seen.Some?
    ensures var a := Prepare(env, reader, FactCollection(slots, body), id, at);
      var history := Contents(reader.seen.value);
      if Exhausted(env.normalize, reader.round, history, slots) then a.None?
      else var choice := ChooseFollowUp(env.normalize, reader.round, history, slots);
           choice.Some? && (a.Some? <==> !env.duplicate(FollowUpContent(env.normalize, choice.value, body), history))
           && (a.Some? ==> a.value.turn.content == FollowUpContent(env.normalize, choice.value, body)
                           && a.value.turn.choice == choice)
  {
    NoChoiceIff(env.normalize, reader.round, Contents(reader.seen.value), slots);
  }

  /** Any other draft is committed as it is, with the round of the row that was read. */
  lemma PreparedOther(env: Env, reader: Reader, content: Content, allow: bool, id: Id, at: Time)
    requires reader.seen.Some?
    ensures var a := Prepare(env, reader, Other(content, allow), id, at);
      && (a.None? <==> !allow && env.duplicate(content, Contents(reader.seen.value)))
      && (a.Some? ==> a.value.turn == Turn(id, at, content, !allow, |reader.seen.value|, None)
                      && a.value.round == reader.round)
  {
  }

  /** What the commit carries for the recheck: the last turn that was seen, and the units of a strict turn. */
  lemma PreparedCommand(env: Env, reader: Reader, draft: Draft, id: Id, at: Time)
    requires Prepare(env, reader, draft, id, at).Some?
    ensures var (cmd, t, seen) := (Prepare(env, reader, draft, id, at).value.cmd,
                                   Prepare(env, reader, draft, id, at).value.turn, reader.seen.value);
      && reader.seen.Some? && cmd.units == (if t.strict then Encode(env.w, t.content) else [])
      && (cmd.expected.None? <==> seen == [])
      && (seen != [] ==> cmd.expected == Some(seen[|seen| - 1].id))
      && (t.strict ==> !env.duplicate(t.content, Contents(seen)))
  {
  }

  /** The store takes a commit exactly when its round is one, the recheck accepts and its id is new. */
  lemma StoreTakesIff(env: Env, s: Session, cmd: Command, t: Turn, round: int)
    ensures var (s', d) := Persist(env, s, cmd, t, round);
      && (d == Accept <==> 0 <= round <= 2 && env.recheck(cmd, LatestOf(s.log)) == Accept
                           && forall other :: other in s.log ==> other.id != t.id)
      && (d != Accept ==> s' == s)
      && (d == InvalidRound ==> !(0 <= round <= 2) || env.recheck(cmd, LatestOf(s.log)) == d)
      && (d == Accept ==> s'.round == round)
  {
  }

  /** A stored turn stands behind every turn that came before it, by time and then by id. */
  lemma {:induction false} FiledInOrder(log: seq<Turn>, t: Turn) returns (k: nat)
    ensures k <= |log| && Insert(log, t) == log[..k] + [t] + log[k..]
    ensures forall i :: k <= i < |log| ==> t.at < log[i].at || (t.at == log[i].at && t.id <= log[i].id)
    ensures k > 0 ==> log[k - 1].at < t.at || (log[k - 1].at == t.at && log[k - 1].id < t.id)
  {
    k := |log|;
    if log != [] {
      var n := |log| - 1;
      if log[n].at < t.at || (log[n].at == t.at && log[n].id < t.id) {
        assert log[..n + 1] == log && log[n + 1..] == [];
      } else {
        k := FiledInOrder(log[..n], t);
        assert log[..n][..k] == log[..k] && log[..n][k..] + [log[n]] == log[k..];
      }
    }
  }
}
