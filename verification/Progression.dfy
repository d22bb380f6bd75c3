/** The duplicate guard and the comparison units of app/agent/progression.py. */
module Progression {
  import opened Common

  datatype Field = Replies | Actions | Evidence | Communications | Questions | Stages | Notices

  /** The visible units of one turn, field by field. */
  datatype Content = Content(replies: seq<string>, actions: seq<string>, evidence: seq<string>,
                             communications: seq<string>, questions: seq<string>, stages: seq<string>,
                             notices: seq<string>)

  const NOTHING := Content([], [], [], [], [], [], [])

  function Get(c: Content, f: Field): seq<string> {
    match f
    case Replies => c.replies
    case Actions => c.actions
    case Evidence => c.evidence
    case Communications => c.communications
    case Questions => c.questions
    case Stages => c.stages
    case Notices => c.notices
  }

  /**
   The text measures: `close` is the ratio or trigram test on texts that differ,
   `nearJoined` the same on whole turns, `moreSpecific` is `is_more_specific_question`.
   None of them is assumed symmetric, transitive or related to the others.
   */
  datatype Measures = Measures(close: (string, string) -> bool,
                               nearJoined: (seq<string>, seq<string>) -> bool,
                               moreSpecific: (string, string) -> bool)

  /** `_units_equivalent`: reflexive, otherwise arbitrary. */
  predicate Equivalent(m: Measures, left: string, right: string) {
    left == right || m.close(left, right)
  }

  /** `_unique`: non-empty values, first occurrences, in order. */
  function Unique(values: seq<string>): seq<string> {
    if values == [] then [] else
    var r := Unique(values[..|values| - 1]);
    var u := values[|values| - 1];
    if u == "" || u in r then r else r + [u]
  }

  lemma {:induction false} UniqueMeaning(values: seq<string>)
    ensures forall u :: u in Unique(values) <==> u in values && u != ""
    ensures |Unique(values)| <= |values|
  {
    if values != [] {
      UniqueMeaning(values[..|values| - 1]);
      assert values == values[..|values| - 1] + [values[|values| - 1]];
    }
  }

  /** Each unit once, in the order of its first mention: more values only add to the end. */
  lemma {:induction false} UniqueInOrder(values: seq<string>, n: nat)
    requires n <= |values|
    ensures Unique(values[..n]) <= Unique(values)
    ensures forall i, j :: 0 <= i < j < |Unique(values)| ==> Unique(values)[i] != Unique(values)[j]
  {
    if n < |values| {
      UniqueInOrder(values[..|values| - 1], n);
      assert values[..|values| - 1][..n] == values[..n];
    } else {
      assert values[..n] == values;
      if values != [] { UniqueInOrder(values[..|values| - 1], |values| - 1); }
    }
  }

  /** Several lists one after the other. */
  function Flatten(rows: seq<seq<string>>): seq<string> {
    if rows == [] then [] else Flatten(rows[..|rows| - 1]) + rows[|rows| - 1]
  }

  lemma {:induction false} FlattenMeaning(rows: seq<seq<string>>)
    ensures forall u :: u in Flatten(rows) <==> exists i :: 0 <= i < |rows| && u in rows[i]
  {
    if rows != [] {
      var n := |rows| - 1;
      FlattenMeaning(rows[..n]);
      forall u ensures u in Flatten(rows) <==> exists i :: 0 <= i < |rows| && u in rows[i] {
        if u in Flatten(rows[..n]) { var i :| 0 <= i < n && u in rows[..n][i]; assert u in rows[i]; }
        if i :| 0 <= i < |rows| && u in rows[i] { if i < n { assert u in rows[..n][i]; } }
      }
    }
  }

  function CoreRows(c: Content): seq<string> {
    Flatten([c.replies, c.actions, c.evidence, c.communications, c.questions, c.stages])
  }

  lemma CoreRowsMeaning(c: Content, u: string)
    ensures u in CoreRows(c) <==> exists f :: f != Notices && u in Get(c, f)
  {
    var rows := [c.replies, c.actions, c.evidence, c.communications, c.questions, c.stages];
    FlattenMeaning(rows);
    forall i: nat | i < 6 ensures rows[i] == Get(c, CoreField(i)) && CoreField(i) != Notices {}
    if u in CoreRows(c) {
      var i :| 0 <= i < |rows| && u in rows[i];
      assert u in Get(c, CoreField(i));
    }
    if f :| f != Notices && u in Get(c, f) {
      var i := CoreFieldNumber(f);
      assert u in rows[i];
    }
  }

  function CoreUnits(c: Content): seq<string> {
    Unique(CoreRows(c))
  }

  function AllUnits(c: Content): seq<string> {
    Unique(CoreUnits(c) + c.notices)
  }

  function UnitsOf(history: seq<Content>, f: Field): seq<string> {
    if history == [] then [] else UnitsOf(history[..|history| - 1], f) + Get(history[|history| - 1], f)
  }

  lemma {:induction false} UnitsOfMeaning(history: seq<Content>, f: Field)
    ensures forall u :: u in UnitsOf(history, f) <==> exists h :: h in history && u in Get(h, f)
  {
    if history != [] {
      UnitsOfMeaning(history[..|history| - 1], f);
      assert history == history[..|history| - 1] + [history[|history| - 1]];
    }
  }

  function Prior(history: seq<Content>, f: Field): seq<string> {
    Unique(UnitsOf(history, f))
  }

  /** The units with nothing equivalent in `prior`. */
  function Unmatched(m: Measures, units: seq<string>, prior: seq<string>): seq<string> {
    if units == [] then [] else
    var u := units[0];
    (if exists past :: past in prior && Equivalent(m, u, past) then [] else [u]) + Unmatched(m, units[1..], prior)
  }

  lemma {:induction false} UnmatchedMeaning(m: Measures, units: seq<string>, prior: seq<string>)
    ensures forall u ::
      u in Unmatched(m, units, prior) <==> u in units && (forall past :: past in prior ==> !Equivalent(m, u, past))
  {
    if units != [] {
      UnmatchedMeaning(m, units[1..], prior);
      assert units == [units[0]] + units[1..];
    }
  }

  function NovelIn(m: Measures, c: Content, history: seq<Content>, f: Field): seq<string> {
    Unmatched(m, Get(c, f), Prior(history, f))
  }

  function AllNovel(m: Measures, c: Content, history: seq<Content>): seq<string> {
    Flatten([NovelIn(m, c, history, Replies), NovelIn(m, c, history, Actions), NovelIn(m, c, history, Evidence),
             NovelIn(m, c, history, Communications), NovelIn(m, c, history, Questions), NovelIn(m, c, history, Stages)])
  }

  function Novel(m: Measures, c: Content, history: seq<Content>): seq<string> {
    Unique(AllNovel(m, c, history))
  }

  predicate RepeatedQuestion(m: Measures, candidate: seq<string>, previous: seq<string>) {
    exists asked, past :: asked in candidate && past in previous
      && (asked == past || (Equivalent(m, asked, past) && !m.moreSpecific(asked, past)))
  }

  predicate SameSet(left: seq<string>, right: seq<string>) {
    (forall u :: u in left ==> u in right) && (forall u :: u in right ==> u in left)
  }

  predicate SameStructure(m: Measures, c: Content, p: Content) {
    && SameSet(c.actions, p.actions) && SameSet(c.evidence, p.evidence)
    && SameSet(c.communications, p.communications) && SameSet(c.questions, p.questions) && SameSet(c.stages, p.stages)
    && (c.actions != [] || p.actions != [] || c.evidence != [] || p.evidence != [] || c.communications != []
        || p.communications != []
        || c.questions != [] || p.questions != [] || c.stages != [] || p.stages != [])
    && ((c.replies == [] && p.replies == [])
        || forall u :: u in c.replies ==> exists past :: past in p.replies && Equivalent(m, u, past))
  }

  datatype Reason = Exact | NearText | SameShape | RepeatedAsk

  datatype DuplicateCheck = DuplicateCheck(duplicate: bool, reason: Option<Reason>, matched: Option<nat>,
                                           novel: seq<string>)

  /** The four tests of the loop, in order, on one earlier turn. */
  function TestTurn(m: Measures, c: Content, p: Content, novel: seq<string>): Option<Reason> {
    if RepeatedQuestion(m, c.questions, p.questions) && novel == [] then Some(RepeatedAsk)
    else if AllUnits(c) != [] && c == p then Some(Exact)
    else if CoreUnits(c) != [] && CoreUnits(p) != [] && novel == [] && m.nearJoined(CoreUnits(c), CoreUnits(p))
      then Some(NearText)
    else if SameStructure(m, c, p) && novel == [] then Some(SameShape)
    else None
  }

  function AnyPrior(history: seq<Content>): bool {
    Prior(history, Replies) != [] || Prior(history, Actions) != [] || Prior(history, Evidence) != []
    || Prior(history, Communications) != [] || Prior(history, Questions) != [] || Prior(history, Stages) != []
  }

  /** What happens from turn `k` of the history on. */
  function ScanFrom(m: Measures, c: Content, history: seq<Content>, novel: seq<string>, k: nat): DuplicateCheck
    requires k <= |history|
    decreases |history| - k
  {
    if k == |history| then
      if CoreUnits(c) != [] && novel == [] && AnyPrior(history) then DuplicateCheck(true, Some(NearText), None, novel)
      else if CoreUnits(c) == [] then DuplicateCheck(true, Some(SameShape), None, [])
      else DuplicateCheck(false, None, None, novel)
    else
      var hit := TestTurn(m, c, history[k], novel);
      if hit.Some? then DuplicateCheck(true, hit, Some(k), novel)
      else ScanFrom(m, c, history, novel, k + 1)
  }

  function FindDuplicate(m: Measures, c: Content, history: seq<Content>): DuplicateCheck {
    ScanFrom(m, c, history, Novel(m, c, history), 0)
  }

  /** `find_duplicate` with its loop and early returns. */
  method CheckDuplicate(m: Measures, c: Content, history: seq<Content>) returns (r: DuplicateCheck)
    ensures r == FindDuplicate(m, c, history)
  {
    var novel := Novel(m, c, history);
    for k := 0 to |history|
      invariant ScanFrom(m, c, history, novel, k) == FindDuplicate(m, c, history)
    {
      var previous := history[k];
      if RepeatedQuestion(m, c.questions, previous.questions) && novel == [] {
        return DuplicateCheck(true, Some(RepeatedAsk), Some(k), novel);
      }
      if AllUnits(c) != [] && c == previous {
        return DuplicateCheck(true, Some(Exact), Some(k), novel);
      }
      if CoreUnits(c) != [] && CoreUnits(previous) != [] && novel == []
          && m.nearJoined(CoreUnits(c), CoreUnits(previous)) {
        return DuplicateCheck(true, Some(NearText), Some(k), novel);
      }
      if SameStructure(m, c, previous) && novel == [] {
        return DuplicateCheck(true, Some(SameShape), Some(k), novel);
      }
    }
    if CoreUnits(c) != [] && novel == [] && AnyPrior(history) {
      return DuplicateCheck(true, Some(NearText), None, novel);
    }
    if CoreUnits(c) == [] {
      return DuplicateCheck(true, Some(SameShape), None, []);
    }
    return DuplicateCheck(false, None, None, novel);
  }

  // ---------------------------------------------------------------- the verdict is novelty

  /** A core unit of the candidate that no earlier turn says in the same field. */
  ghost predicate IsNovel(m: Measures, c: Content, history: seq<Content>, f: Field, u: string) {
    && f != Notices && u != "" && u in Get(c, f)
    && forall h, past :: h in history && past in Get(h, f) && past != "" ==> !Equivalent(m, u, past)
  }

  ghost predicate HasNovelUnit(m: Measures, c: Content, history: seq<Content>) {
    exists f, u :: IsNovel(m, c, history, f, u)
  }

  lemma NovelInMeaning(m: Measures, c: Content, history: seq<Content>, f: Field, u: string)
    requires f != Notices && u != ""
    ensures u in NovelIn(m, c, history, f) <==> IsNovel(m, c, history, f, u)
  {
    UnitsOfMeaning(history, f);
    UniqueMeaning(UnitsOf(history, f));
    UnmatchedMeaning(m, Get(c, f), Prior(history, f));
    if u in Get(c, f) && IsNovel(m, c, history, f, u) {
      forall past | past in Prior(history, f) ensures !Equivalent(m, u, past) {
        var h :| h in history && past in Get(h, f);
      }
    }
    if u in NovelIn(m, c, history, f) {
      forall h, past | h in history && past in Get(h, f) && past != "" ensures !Equivalent(m, u, past) {
        assert past in UnitsOf(history, f);
        assert past in Prior(history, f);
      }
    }
  }

  /** The fields the guard compares, in order. */
  function CoreField(i: nat): Field
    requires i < 6
  {
    if i == 0 then Replies else if i == 1 then Actions else if i == 2 then Evidence
    else if i == 3 then Communications else if i == 4 then Questions else Stages
  }

  lemma CoreFieldNumber(f: Field) returns (i: nat)
    requires f != Notices
    ensures i < 6 && CoreField(i) == f
  {
    if f.Replies? { i := 0; } else if f.Actions? { i := 1; } else if f.Evidence? { i := 2; }
    else if f.Communications? { i := 3; } else if f.Questions? { i := 4; } else { i := 5; }
  }

  lemma AllNovelMeaning(m: Measures, c: Content, history: seq<Content>, u: string)
    ensures u in AllNovel(m, c, history) <==> exists i: nat :: i < 6 && u in NovelIn(m, c, history, CoreField(i))
  {
    var rows := [NovelIn(m, c, history, Replies), NovelIn(m, c, history, Actions), NovelIn(m, c, history, Evidence),
                 NovelIn(m, c, history, Communications), NovelIn(m, c, history, Questions),
                   NovelIn(m, c, history, Stages)];
    FlattenMeaning(rows);
    forall i: nat | i < 6 ensures rows[i] == NovelIn(m, c, history, CoreField(i)) {}
    if i: nat :| i < 6 && u in NovelIn(m, c, history, CoreField(i)) { assert u in rows[i]; }
  }

  /** `novel_units` lists exactly the novel units. */
  lemma NovelMeaning(m: Measures, c: Content, history: seq<Content>, u: string)
    ensures u in Novel(m, c, history) <==> exists f :: IsNovel(m, c, history, f, u)
  {
    UniqueMeaning(AllNovel(m, c, history));
    AllNovelMeaning(m, c, history, u);
    if u != "" {
      if i: nat :| i < 6 && u in NovelIn(m, c, history, CoreField(i)) {
        NovelInMeaning(m, c, history, CoreField(i), u);
      }
      if f :| IsNovel(m, c, history, f, u) {
        var i := CoreFieldNumber(f);
        NovelInMeaning(m, c, history, f, u);
      }
    }
  }

  lemma NovelEmptyMeaning(m: Measures, c: Content, history: seq<Content>)
    ensures Novel(m, c, history) != [] <==> HasNovelUnit(m, c, history)
  {
    if Novel(m, c, history) != [] {
      NovelMeaning(m, c, history, Novel(m, c, history)[0]);
      assert Novel(m, c, history)[0] in Novel(m, c, history);
    }
    if HasNovelUnit(m, c, history) {
      var f, u :| IsNovel(m, c, history, f, u);
      NovelMeaning(m, c, history, u);
    }
  }

  lemma CoreUnitsMeaning(c: Content, u: string)
    ensures u in CoreUnits(c) <==> u != "" && exists f :: f != Notices && u in Get(c, f)
  {
    UniqueMeaning(CoreRows(c));
    CoreRowsMeaning(c, u);
  }

  /** An equal earlier turn leaves nothing novel: this is where reflexivity is used. */
  lemma EqualTurnNotNovel(m: Measures, c: Content, history: seq<Content>)
    requires c in history
    ensures !HasNovelUnit(m, c, history)
  {
    forall f, u ensures !IsNovel(m, c, history, f, u) {
      if f != Notices && u != "" && u in Get(c, f) { assert Equivalent(m, u, u); }
    }
  }

  /** What the tests of the loop may rely on about the novel units. */
  ghost predicate NoveltyFits(c: Content, history: seq<Content>, novel: seq<string>) {
    && (c in history ==> novel == [])
    && (CoreUnits(c) == [] ==> novel == [])
    && (CoreUnits(c) != [] && novel == [] ==> AnyPrior(history))
  }

  lemma TestNeedsNovelty(m: Measures, c: Content, p: Content, novel: seq<string>)
    ensures TestTurn(m, c, p, novel).Some? ==> novel == [] || c == p
  {
  }

  lemma {:induction false} ScanByNovelty(m: Measures, c: Content, history: seq<Content>, novel: seq<string>, k: nat)
    requires k <= |history| && NoveltyFits(c, history, novel)
    ensures ScanFrom(m, c, history, novel, k).duplicate <==> novel == []
    decreases |history| - k
  {
    if k < |history| {
      TestNeedsNovelty(m, c, history[k], novel);
      ScanByNovelty(m, c, history, novel, k + 1);
    }
  }

  /** From any turn of the history on, the branches of the loop decide nothing but novelty. */
  lemma ScanVerdict(m: Measures, c: Content, history: seq<Content>, k: nat)
    requires k <= |history|
    ensures ScanFrom(m, c, history, Novel(m, c, history), k).duplicate <==> !HasNovelUnit(m, c, history)
  {
    NovelEmptyMeaning(m, c, history);
    NoCoreNoNovel(m, c, history);
    if c in history { EqualTurnNotNovel(m, c, history); }
    ScanByNovelty(m, c, history, Novel(m, c, history), k);
  }

  lemma NoCoreNoNovel(m: Measures, c: Content, history: seq<Content>)
    ensures CoreUnits(c) == [] ==> !HasNovelUnit(m, c, history)
    ensures CoreUnits(c) != [] && !HasNovelUnit(m, c, history) ==> AnyPrior(history)
  {
    if HasNovelUnit(m, c, history) {
      var f, u :| IsNovel(m, c, history, f, u);
      CoreUnitsMeaning(c, u);
    } else if CoreUnits(c) != [] {
      var u := CoreUnits(c)[0];
      CoreUnitsMeaning(c, u);
      var f :| f != Notices && u in Get(c, f);
      assert !IsNovel(m, c, history, f, u);
      var h, past :| h in history && past in Get(h, f) && past != "" && Equivalent(m, u, past);
      UnitsOfMeaning(history, f);
      UniqueMeaning(UnitsOf(history, f));
      assert past in UnitsOf(history, f);
      assert past in Prior(history, f);
    }
  }

  /**
   The verdict of the whole search: a candidate is a duplicate exactly when it has no
   novel core unit. The repeated-question, exact, near-text and same-structure branches
   only choose the reported reason.
   */
  lemma VerdictIsNovelty(m: Measures, c: Content, history: seq<Content>)
    ensures FindDuplicate(m, c, history).duplicate <==> !HasNovelUnit(m, c, history)
  {
    ScanVerdict(m, c, history, 0);
  }

  /** More history never makes a duplicate acceptable. */
  lemma HistoryOnlyRejects(m: Measures, c: Content, history: seq<Content>, more: seq<Content>)
    requires forall h :: h in history ==> h in more
    ensures FindDuplicate(m, c, history).duplicate ==> FindDuplicate(m, c, more).duplicate
  {
    VerdictIsNovelty(m, c, history);
    VerdictIsNovelty(m, c, more);
    if HasNovelUnit(m, c, more) {
      var f, u :| IsNovel(m, c, more, f, u);
      assert IsNovel(m, c, history, f, u);
    }
  }

  /** The reported turn is the first one a test fires on; an `exact` report means an equal turn. */
  lemma {:induction false} FirstHit(m: Measures, c: Content, history: seq<Content>, novel: seq<string>, k: nat)
    requires k <= |history|
    ensures var r := ScanFrom(m, c, history, novel, k);
            r.matched.Some? ==>
              && k <= r.matched.value < |history|
              && TestTurn(m, c, history[r.matched.value], novel) == r.reason
              && r.reason.Some? && (r.reason == Some(Exact) ==> c == history[r.matched.value])
              && (forall j :: k <= j < r.matched.value ==> TestTurn(m, c, history[j], novel).None?)
    decreases |history| - k
  {
    if k < |history| && TestTurn(m, c, history[k], novel).None? {
      FirstHit(m, c, history, novel, k + 1);
    }
  }
}
