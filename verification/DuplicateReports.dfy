/**
 What `find_duplicate` of app/agent/progression.py reports besides its verdict: the turn it
 points at, the reason it gives and the new units it names.
 */
module DuplicateReports {
  import opened Common
  import opened Progression

  /** The candidate asks what the turn asked: the same words, or an equivalent that is no sharper. */
  predicate AsksAgain(m: Measures, c: Content, p: Content) {
    exists q, past :: q in c.questions && past in p.questions
      && (q == past || (Equivalent(m, q, past) && !m.moreSpecific(q, past)))
  }

  const SHAPE: seq<Field> := [Actions, Evidence, Communications, Questions, Stages]

  function Units(us: seq<string>): set<string> {
    set u | u in us
  }

  /** Actions, evidence, contacts, questions and stages agree as sets, not all empty, and no reply is new. */
  predicate SameOutline(m: Measures, c: Content, p: Content) {
    && (forall i :: 0 <= i < |SHAPE| ==> Units(Get(c, SHAPE[i])) == Units(Get(p, SHAPE[i])))
    && (exists i :: 0 <= i < |SHAPE| && Get(c, SHAPE[i]) != [])
    && (forall u :: u in c.replies ==> exists past :: past in p.replies && Equivalent(m, u, past))
  }

  predicate NearAsAWhole(m: Measures, c: Content, p: Content) {
    CoreUnits(c) != [] && CoreUnits(p) != [] && m.nearJoined(CoreUnits(c), CoreUnits(p))
  }

  predicate EqualTurn(c: Content, p: Content) {
    AllUnits(c) != [] && c == p
  }

  /** The turn is reason enough: it is equal, or says all of a candidate without news in one of three ways. */
  predicate Fires(m: Measures, c: Content, p: Content, stale: bool) {
    EqualTurn(c, p) || (stale && (AsksAgain(m, c, p) || NearAsAWhole(m, c, p) || SameOutline(m, c, p)))
  }

  lemma OutlineMeaning(m: Measures, c: Content, p: Content)
    ensures SameStructure(m, c, p) <==> SameOutline(m, c, p)
  {
    var (a, b) := (c, p);
    assert SHAPE[0] == Actions && SHAPE[1] == Evidence && SHAPE[2] == Communications && SHAPE[3] == Questions
           && SHAPE[4] == Stages;
    SameSetMeaning(c.actions, p.actions);
    SameSetMeaning(c.evidence, p.evidence);
    SameSetMeaning(c.communications, p.communications);
    SameSetMeaning(c.questions, p.questions);
    SameSetMeaning(c.stages, p.stages);
    assert SameStructure(m, c, p) ==> exists i :: 0 <= i < 5 && Get(c, SHAPE[i]) != [];
  }

  lemma SameSetMeaning(left: seq<string>, right: seq<string>)
    ensures SameSet(left, right) <==> Units(left) == Units(right)
    ensures SameSet(left, right) ==> (left == [] <==> right == [])
  {
    if left != [] { assert left[0] in left; }
    if right != [] { assert right[0] in right; }
    if Units(left) == Units(right) {
      forall u | u in left ensures u in right { assert u in Units(left); }
      forall u | u in right ensures u in left { assert u in Units(right); }
    }
  }

  /** The four tests on one turn, and which of them is reported. */
  lemma TestMeaning(m: Measures, c: Content, p: Content, novel: seq<string>)
    ensures var (r, stale) := (TestTurn(m, c, p, novel), novel == []);
      && (r.Some? <==> Fires(m, c, p, stale))
      && (r == Some(RepeatedAsk) <==> stale && AsksAgain(m, c, p))
      && (r == Some(Exact) <==> EqualTurn(c, p) && !(stale && AsksAgain(m, c, p)))
      && (r == Some(NearText) <==>
            stale && NearAsAWhole(m, c, p) && !EqualTurn(c, p) && !AsksAgain(m, c, p))
      && (r == Some(SameShape) <==>
            stale && SameOutline(m, c, p) && !NearAsAWhole(m, c, p) && !EqualTurn(c, p) && !AsksAgain(m, c, p))
  {
    OutlineMeaning(m, c, p);
  }

  /** The loop from turn `k` on: the first turn on which a test fires, or what follows the loop. */
  lemma {:induction false} ScanMeaning(m: Measures, c: Content, history: seq<Content>, novel: seq<string>, k: nat)
    requires k <= |history|
    ensures var r := ScanFrom(m, c, history, novel, k);
      && (r.matched.None? ==> r == ScanFrom(m, c, history, novel, |history|)
                              && forall j :: k <= j < |history| ==> TestTurn(m, c, history[j], novel).None?)
      && (r.matched.Some? ==>
            && k <= r.matched.value < |history| && r.duplicate && r.novel == novel && r.reason.Some?
            && r.reason == TestTurn(m, c, history[r.matched.value], novel)
            && forall j :: k <= j < r.matched.value ==> TestTurn(m, c, history[j], novel).None?)
    decreases |history| - k
  {
    if k < |history| {
      ScanUnfold(m, c, history, novel, k);
      if TestTurn(m, c, history[k], novel).None? { ScanMeaning(m, c, history, novel, k + 1); }
    }
  }

  lemma TestFires(m: Measures, c: Content, p: Content, novel: seq<string>)
    ensures TestTurn(m, c, p, novel).Some? <==> Fires(m, c, p, novel == [])
  {
    TestMeaning(m, c, p, novel);
  }

  lemma ScanUnfold(m: Measures, c: Content, history: seq<Content>, novel: seq<string>, k: nat)
    requires k < |history|
    ensures var hit := TestTurn(m, c, history[k], novel);
      ScanFrom(m, c, history, novel, k) ==
      if hit.Some? then DuplicateCheck(true, hit, Some(k), novel) else ScanFrom(m, c, history, novel, k + 1)
  {
  }

  /**
   The report in full. It points at the first turn that fires and gives the strongest reason
   for it; a candidate without news that no single turn accounts for is near text where it has
   core units and of the same shape where it has none; one with news gets no reason.
   */
  lemma ReportMeaning(m: Measures, c: Content, history: seq<Content>)
    ensures var r, stale := FindDuplicate(m, c, history), !HasNovelUnit(m, c, history);
      && FirstToFire(m, c, history, stale, r.matched)
      && (r.matched.Some? ==>
            r.matched.value < |history| && ReasonFor(m, c, history[r.matched.value], r.reason))
      && (r.matched.None? ==>
            r.reason == if !stale then None else if CoreUnits(c) != [] then Some(NearText) else Some(SameShape))
  {
    NovelEmptyMeaning(m, c, history);
    MatchMeaning(m, c, history, Novel(m, c, history));
    ReportedReason(m, c, history);
  }

  /** `matched` is the first turn that fires. */
  predicate FirstToFire(m: Measures, c: Content, history: seq<Content>, stale: bool, matched: Option<nat>) {
    && (matched.None? <==> forall j :: 0 <= j < |history| ==> !Fires(m, c, history[j], stale))
    && (matched.Some? ==>
          matched.value < |history| && Fires(m, c, history[matched.value], stale)
          && forall j :: 0 <= j < matched.value ==> !Fires(m, c, history[j], stale))
  }

  /** `matched` is the first turn on which a test fires. */
  predicate FirstTested(m: Measures, c: Content, history: seq<Content>, novel: seq<string>, matched: Option<nat>) {
    && (matched.None? <==> forall j :: 0 <= j < |history| ==> TestTurn(m, c, history[j], novel).None?)
    && (matched.Some? ==>
          matched.value < |history| && TestTurn(m, c, history[matched.value], novel).Some?
          && forall j :: 0 <= j < matched.value ==> TestTurn(m, c, history[j], novel).None?)
  }

  lemma SameFirst(m: Measures, c: Content, history: seq<Content>, novel: seq<string>, stale: bool, matched: Option<nat>)
    requires forall j :: 0 <= j < |history| ==>
               (TestTurn(m, c, history[j], novel).Some? <==> Fires(m, c, history[j], stale))
    requires FirstTested(m, c, history, novel, matched)
    ensures FirstToFire(m, c, history, stale, matched)
  {
  }

  lemma MatchMeaning(m: Measures, c: Content, history: seq<Content>, novel: seq<string>)
    ensures FirstToFire(m, c, history, novel == [], ScanFrom(m, c, history, novel, 0).matched)
  {
    forall j | 0 <= j < |history|
      ensures TestTurn(m, c, history[j], novel).Some? <==> Fires(m, c, history[j], novel == [])
    {
      TestFires(m, c, history[j], novel);
    }
    ScansFirst(m, c, history, novel);
    SameFirst(m, c, history, novel, novel == [], ScanFrom(m, c, history, novel, 0).matched);
  }

  lemma ScansFirst(m: Measures, c: Content, history: seq<Content>, novel: seq<string>)
    ensures FirstTested(m, c, history, novel, ScanFrom(m, c, history, novel, 0).matched)
  {
    ScanMeaning(m, c, history, novel, 0);
  }

  lemma ReportedReason(m: Measures, c: Content, history: seq<Content>)
    ensures var (r, stale) := (FindDuplicate(m, c, history), !HasNovelUnit(m, c, history));
      && (r.matched.Some? ==>
            r.matched.value < |history| && ReasonFor(m, c, history[r.matched.value], r.reason))
      && (r.matched.None? ==>
            r.reason == if !stale then None else if CoreUnits(c) != [] then Some(NearText) else Some(SameShape))
  {
    var novel := Novel(m, c, history);
    ScanMeaning(m, c, history, novel, 0);
    var r := FindDuplicate(m, c, history);
    if r.matched.Some? {
      MatchedReason(m, c, history, r.matched.value);
    } else {
      AfterTheLoop(m, c, history);
    }
  }

  lemma MatchedReason(m: Measures, c: Content, history: seq<Content>, k: nat)
    requires k < |history| && TestTurn(m, c, history[k], Novel(m, c, history)).Some?
    ensures ReasonFor(m, c, history[k], TestTurn(m, c, history[k], Novel(m, c, history)))
  {
    NovelEmptyMeaning(m, c, history);
    TestMeaning(m, c, history[k], Novel(m, c, history));
    if EqualTurn(c, history[k]) { EqualIsStale(m, c, history, k); }
  }

  /** The reason given for a turn, in order of precedence; a candidate that equals it has no news. */
  predicate ReasonFor(m: Measures, c: Content, p: Content, reason: Option<Reason>) {
    reason == if AsksAgain(m, c, p) then Some(RepeatedAsk)
              else if EqualTurn(c, p) then Some(Exact)
              else if NearAsAWhole(m, c, p) then Some(NearText)
              else Some(SameShape)
  }

  lemma EqualIsStale(m: Measures, c: Content, history: seq<Content>, k: nat)
    requires k < |history| && history[k] == c
    ensures !HasNovelUnit(m, c, history)
  {
    assert history[k] in history;
    EqualTurnNotNovel(m, c, history);
  }

  lemma AfterTheLoop(m: Measures, c: Content, history: seq<Content>)
    ensures var (r, stale) := (ScanFrom(m, c, history, Novel(m, c, history), |history|), !HasNovelUnit(m, c, history));
      r.reason == if !stale then None else if CoreUnits(c) != [] then Some(NearText) else Some(SameShape)
  {
    NovelEmptyMeaning(m, c, history);
    ScanVerdict(m, c, history, |history|);
  }

  /** An equal turn that asked something is reported as a repeated question, not as exact. */
  lemma EqualReport(m: Measures, c: Content, history: seq<Content>)
    requires history != [] && history[0] == c && AllUnits(c) != []
    ensures var r := FindDuplicate(m, c, history);
      r.duplicate && r.matched == Some(0) && r.reason == Some(if c.questions == [] then Exact else RepeatedAsk)
  {
    EqualIsStale(m, c, history, 0);
    VerdictIsNovelty(m, c, history);
    FirstFires(m, c, history);
    EqualReason(m, c, FindDuplicate(m, c, history).reason);
  }

  lemma EqualReason(m: Measures, c: Content, reason: Option<Reason>)
    requires AllUnits(c) != [] && ReasonFor(m, c, c, reason)
    ensures reason == Some(if c.questions == [] then Exact else RepeatedAsk)
  {
    if c.questions != [] { assert c.questions[0] in c.questions && AsksAgain(m, c, c); }
  }

  lemma FirstFires(m: Measures, c: Content, history: seq<Content>)
    requires history != [] && EqualTurn(c, history[0])
    ensures var r := FindDuplicate(m, c, history); r.matched == Some(0) && ReasonFor(m, c, history[0], r.reason)
  {
    var novel := Novel(m, c, history);
    NovelEmptyMeaning(m, c, history);
    EqualIsStale(m, c, history, 0);
    EqualTest(m, c, history[0], novel);
    TestedFirst(m, c, history, novel);
  }

  lemma EqualTest(m: Measures, c: Content, p: Content, novel: seq<string>)
    requires EqualTurn(c, p) && novel == []
    ensures ReasonFor(m, c, p, TestTurn(m, c, p, novel)) && TestTurn(m, c, p, novel).Some?
  {
    TestMeaning(m, c, p, novel);
  }

  lemma TestedFirst(m: Measures, c: Content, history: seq<Content>, novel: seq<string>)
    requires history != [] && TestTurn(m, c, history[0], novel).Some?
    ensures var r := ScanFrom(m, c, history, novel, 0);
      r.matched == Some(0) && r.reason == TestTurn(m, c, history[0], novel)
  {
  }

  /** The units named as new are the candidate's own that no earlier turn says in the same field. */
  lemma NewUnitsReported(m: Measures, c: Content, history: seq<Content>, u: string)
    ensures u in FindDuplicate(m, c, history).novel ==> exists f :: IsNovel(m, c, history, f, u)
    ensures !FindDuplicate(m, c, history).duplicate ==>
              (u in FindDuplicate(m, c, history).novel <==> exists f :: IsNovel(m, c, history, f, u))
  {
    NovelMeaning(m, c, history, u);
    ScanMeaning(m, c, history, Novel(m, c, history), 0);
    VerdictIsNovelty(m, c, history);
  }
}
