/**
 Scores and the choice of a topic: `match_score`, `_infer_from_text` and the part of
 `ScenarioRouter.route` that settles the topic, in app/agent/routing.py.
 */
module TopicChoice {
  import opened Common
  import opened Routing

  datatype Topic = Topic(id: string, signals: seq<seq<string>>, formal: bool)

  // ---------------------------------------------------------------- scores

  /** The normalised phrases of a signal group that are not empty. */
  function Phrases(normalize: string -> string, group: seq<string>): (r: seq<string>)
    ensures forall p :: p in r ==> p != ""
  {
    if group == [] then []
    else (if normalize(group[0]) != "" then [normalize(group[0])] else []) + Phrases(normalize, group[1..])
  }

  function Length(phrases: seq<string>): (r: nat)
    ensures phrases != [] && phrases[0] != "" ==> r > 0
  {
    if phrases == [] then 0 else |phrases[0]| + Length(phrases[1..])
  }

  /** Every phrase of the group is asserted in the text. */
  predicate Hits(normalize: string -> string, text: string, group: seq<string>) {
    var phrases := Phrases(normalize, group);
    phrases != [] && forall p :: p in phrases ==> ScanFrom(text, p, 0)
  }

  function Weight(normalize: string -> string, text: string, group: seq<string>): nat {
    if Hits(normalize, text, group) then Length(Phrases(normalize, group)) else 0
  }

  function BestWeight(normalize: string -> string, text: string, groups: seq<seq<string>>): nat {
    if groups == [] then 0
    else
      var (rest, last) := (BestWeight(normalize, text, groups[..|groups| - 1]),
                           Weight(normalize, text, groups[|groups| - 1]));
      if last > rest then last else rest
  }

  function Score(normalize: string -> string, t: Topic, message: string): nat {
    BestWeight(normalize, normalize(message), t.signals)
  }

  /**
   The weight of a group that hits is positive, so a score tells whether some group hits, and the heaviest that
   does.
  */
  lemma {:induction false} BestWeightMeaning(normalize: string -> string, text: string, groups: seq<seq<string>>)
    ensures var best := BestWeight(normalize, text, groups);
      && (forall g :: g in groups && Hits(normalize, text, g) ==> 0 < Length(Phrases(normalize, g)) <= best)
      && (best > 0 ==> exists g :: g in groups && Hits(normalize, text, g) && Length(Phrases(normalize, g)) == best)
  {
    if groups != [] {
      var n := |groups| - 1;
      BestWeightMeaning(normalize, text, groups[..n]);
      forall g | g in groups && Hits(normalize, text, g)
        ensures 0 < Length(Phrases(normalize, g)) <= BestWeight(normalize, text, groups)
      {
        var k :| 0 <= k < |groups| && groups[k] == g;
        if k < n { assert g in groups[..n]; }
        assert Phrases(normalize, g)[0] in Phrases(normalize, g);
      }
      if Weight(normalize, text, groups[n]) > 0 { assert groups[n] in groups && Hits(normalize, text, groups[n]); }
    }
  }

  // For phrases that the scan reads exactly, the scores speak of what the text asserts.

  /** Every phrase of the group is said in the text without a negation right before it. */
  predicate GroupAsserted(normalize: string -> string, text: string, group: seq<string>) {
    var phrases := Phrases(normalize, group);
    phrases != [] && forall p :: p in phrases ==> Asserted(text, p)
  }

  predicate SafeTopic(normalize: string -> string, t: Topic) {
    forall g, p :: g in t.signals && p in Phrases(normalize, g) ==> Safe(p)
  }

  lemma HitsAsserted(normalize: string -> string, t: Topic, text: string, g: seq<string>)
    requires SafeTopic(normalize, t) && g in t.signals
    ensures Hits(normalize, text, g) <==> GroupAsserted(normalize, text, g)
  {
    forall p | p in Phrases(normalize, g) ensures ScanFrom(text, p, 0) <==> Asserted(text, p) {
      ScanFromMeaning(text, p, 0);
    }
  }

  /** The text asserts some signal group of the topic. */
  ghost predicate Named(normalize: string -> string, t: Topic, message: string) {
    exists g :: g in t.signals && GroupAsserted(normalize, normalize(message), g)
  }

  /** No asserted group of the topic is longer than `bound`. */
  ghost predicate NoLonger(normalize: string -> string, t: Topic, message: string, bound: nat) {
    forall g :: g in t.signals && GroupAsserted(normalize, normalize(message), g) ==>
      Length(Phrases(normalize, g)) <= bound
  }

  /** The score is the length of the longest asserted group, and positive exactly when there is one. */
  lemma ScoreMeaning(normalize: string -> string, t: Topic, message: string, bound: nat)
    requires SafeTopic(normalize, t)
    ensures Score(normalize, t, message) > 0 <==> Named(normalize, t, message)
    ensures Score(normalize, t, message) <= bound <==> NoLonger(normalize, t, message, bound)
  {
    var text := normalize(message);
    BestWeightMeaning(normalize, text, t.signals);
    forall g | g in t.signals ensures Hits(normalize, text, g) <==> GroupAsserted(normalize, text, g) {
      HitsAsserted(normalize, t, text, g);
    }
    if Score(normalize, t, message) > 0 {
      var g :| g in t.signals && Hits(normalize, text, g)
          && Length(Phrases(normalize, g)) == BestWeight(normalize, text, t.signals);
      assert GroupAsserted(normalize, text, g);
    }
  }

  method AllAsserted(text: string, phrases: seq<string>) returns (r: bool)
    requires forall p :: p in phrases ==> p != ""
    ensures r <==> forall p :: p in phrases ==> ScanFrom(text, p, 0)
  {
    for i := 0 to |phrases|
      invariant forall p :: p in phrases[..i] ==> p != "" && ScanFrom(text, p, 0)
    {
      assert phrases[i] in phrases;
      var said := ContainsAssertedPhrase(text, phrases[i]);
      if !said { return false; }
      assert phrases[..i + 1] == phrases[..i] + [phrases[i]];
    }
    assert phrases[..|phrases|] == phrases;
    return true;
  }

  /** `TopicDefinition.match_score`. */
  method MatchScore(normalize: string -> string, t: Topic, message: string) returns (best: nat)
    ensures best == Score(normalize, t, message)
  {
    var text := normalize(message);
    best := 0;
    for i := 0 to |t.signals|
      invariant best == BestWeight(normalize, text, t.signals[..i])
    {
      var phrases := Phrases(normalize, t.signals[i]);
      var all := AllAsserted(text, phrases);
      if phrases != [] && all && Length(phrases) > best { best := Length(phrases); }
      assert t.signals[..i + 1][..i] == t.signals[..i];
    }
    assert t.signals[..|t.signals|] == t.signals;
  }

  // ---------------------------------------------------------------- the topic a text names

  predicate Considered(t: Topic, onlyUnverified: bool) {
    onlyUnverified ==> !t.formal
  }

  /** Later topics replace earlier ones only with a higher score. */
  function Inferred(normalize: string -> string, topics: seq<Topic>, text: string,
                    onlyUnverified: bool): (r: Option<nat>)
    ensures r.Some? ==> r.value < |topics|
  {
    if topics == [] then None
    else
      var n := |topics| - 1;
      var best := Inferred(normalize, topics[..n], text, onlyUnverified);
      var bar := if best.Some? then Score(normalize, topics[best.value], text) else 0;
      if Considered(topics[n], onlyUnverified) && Score(normalize, topics[n], text) > bar then Some(n) else best
  }

  /** The first of the considered topics with the highest positive score. */
  predicate FirstBest(score: Topic -> nat, topics: seq<Topic>, onlyUnverified: bool, r: Option<nat>) {
    match r
    case None => forall k :: 0 <= k < |topics| && Considered(topics[k], onlyUnverified) ==> score(topics[k]) == 0
    case Some(b) =>
      && b < |topics| && Considered(topics[b], onlyUnverified) && score(topics[b]) > 0
      && forall k :: 0 <= k < |topics| && Considered(topics[k], onlyUnverified) ==>
           if k < b then score(topics[k]) < score(topics[b]) else score(topics[k]) <= score(topics[b])
  }

  lemma FirstBestNext(score: Topic -> nat, topics: seq<Topic>, onlyUnverified: bool, best: Option<nat>)
    requires topics != [] && FirstBest(score, topics[..|topics| - 1], onlyUnverified, best)
    ensures var n := |topics| - 1;
      var bar := if best.Some? then score(topics[best.value]) else 0;
      FirstBest(score, topics, onlyUnverified,
                if Considered(topics[n], onlyUnverified) && score(topics[n]) > bar then Some(n) else best)
  {
    var n := |topics| - 1;
    forall k | 0 <= k < n ensures topics[..n][k] == topics[k] {}
  }

  function ScoreIn(normalize: string -> string, text: string): Topic -> nat {
    t => Score(normalize, t, text)
  }

  lemma {:induction false} InferredMeaning(normalize: string -> string, topics: seq<Topic>, text: string,
                                           onlyUnverified: bool)
    ensures FirstBest(ScoreIn(normalize, text), topics, onlyUnverified,
                      Inferred(normalize, topics, text, onlyUnverified))
  {
    if topics != [] {
      var n := |topics| - 1;
      InferredMeaning(normalize, topics[..n], text, onlyUnverified);
      FirstBestNext(ScoreIn(normalize, text), topics, onlyUnverified,
                    Inferred(normalize, topics[..n], text, onlyUnverified));
    }
  }

  /** `_infer_from_text`; the scores normalise the text once more. */
  method InferFromText(normalize: string -> string, topics: seq<Topic>, message: string, onlyUnverified: bool)
    returns (best: Option<nat>)
    ensures best == Inferred(normalize, topics, normalize(message), onlyUnverified)
  {
    var text := normalize(message);
    best := None;
    var bestScore := 0;
    for i := 0 to |topics|
      invariant best == Inferred(normalize, topics[..i], text, onlyUnverified)
      invariant bestScore == if best.Some? then Score(normalize, topics[best.value], text) else 0
    {
      assert topics[..i + 1][..i] == topics[..i];
      if Considered(topics[i], onlyUnverified) {
        var score := MatchScore(normalize, topics[i], text);
        if score > bestScore { best, bestScore := Some(i), score; }
      }
    }
    assert topics[..|topics|] == topics;
  }

  // ---------------------------------------------------------------- the topic a message is given

  const SEMANTIC_FLOOR: real := 0.55

  datatype Request = Request(candidateId: string, confidence: Option<real>, message: string,
                             previousId: Option<string>, contextualId: Option<string>, minConfidence: real)

  function Lookup(topics: seq<Topic>, id: string): (r: Option<nat>)
    ensures r.Some? ==> r.value < |topics| && topics[r.value].id == id
    ensures r.None? ==> forall k :: 0 <= k < |topics| ==> topics[k].id != id
  {
    if topics == [] then None
    else if topics[|topics| - 1].id == id then Some(|topics| - 1)
    else Lookup(topics[..|topics| - 1], id)
  }

  predicate DistinctTopics(topics: seq<Topic>) {
    forall i, j :: 0 <= i < j < |topics| ==> topics[i].id != topics[j].id
  }

  /** The model's candidate, unless its confidence is too low. */
  function Candidate(topics: seq<Topic>, q: Request): (r: Option<nat>)
    ensures r.Some? ==> r.value < |topics|
  {
    if q.candidateId == "unknown" || q.candidateId == "unsupported" then None
    else if q.confidence.Some? && q.confidence.value < q.minConfidence then None
    else Lookup(topics, q.candidateId)
  }

  function Previous(topics: seq<Topic>, q: Request): (r: Option<nat>)
    ensures r.Some? ==> r.value < |topics| && !topics[r.value].formal
  {
    if q.previousId.None? || q.previousId.value == "unknown" then None
    else
      var p := Lookup(topics, q.previousId.value);
      if p.Some? && !topics[p.value].formal then p else None
  }

  /** A candidate the text does not name may stay: the session's own formal topic, or a confident guess outside any. */
  predicate Trusted(t: Topic, q: Request) {
    q.confidence.Some?
    && ((t.formal && Some(t.id) == q.contextualId && q.confidence.value >= q.minConfidence)
        || (q.contextualId.None? && q.confidence.value >= q.minConfidence && q.confidence.value >= SEMANTIC_FLOOR))
  }

  /**
   The topic `route` settles on. Where the text names topics the best of them decides, and the
   candidate stands only as one of the best; where it names none, the session's unverified topic
   goes first and a trusted candidate second.
   */
  function Settle(normalize: string -> string, topics: seq<Topic>, q: Request): (r: Option<nat>)
    ensures r.Some? ==> r.value < |topics|
  {
    var named := Inferred(normalize, topics, normalize(q.message), false);
    var candidate := Candidate(topics, q);
    if named.Some? then
      if candidate.Some? && Score(normalize, topics[candidate.value], q.message)
                              >= Score(normalize, topics[named.value], q.message)
      then candidate
      else if topics[named.value].formal then None else named
    else if Previous(topics, q).Some? then Previous(topics, q)
    else if candidate.Some? && Trusted(topics[candidate.value], q) then candidate
    else None
  }

  /** `ScenarioRouter.route` up to the coverage: the candidate reassigned branch by branch. */
  method RouteTopic(normalize: string -> string, topics: seq<Topic>, q: Request) returns (candidate: Option<nat>)
    requires DistinctTopics(topics) && normalize(normalize(q.message)) == normalize(q.message)
    ensures candidate == Settle(normalize, topics, q)
  {
    InferredMeaning(normalize, topics, normalize(q.message), false);
    candidate := if q.candidateId == "unknown" || q.candidateId == "unsupported" then None
      else Lookup(topics, q.candidateId);
    var explicit := InferFromText(normalize, topics, q.message, false);
    if q.confidence.Some? && q.confidence.value < q.minConfidence { candidate := None; }
    var previous := Previous(topics, q);
    var candidateScore := 0;
    if candidate.Some? { candidateScore := MatchScore(normalize, topics[candidate.value], q.message); }
    var explicitScore := 0;
    if explicit.Some? { explicitScore := MatchScore(normalize, topics[explicit.value], q.message); }
    var floor := if q.minConfidence >= SEMANTIC_FLOOR then q.minConfidence else SEMANTIC_FLOOR;
    var semanticConfident := q.confidence.Some? && q.confidence.value >= floor;
    var contextualMatch := candidate.Some? && topics[candidate.value].formal
        && Some(topics[candidate.value].id) == q.contextualId
                           && q.confidence.Some? && q.confidence.value >= q.minConfidence;
    if candidate.Some? && explicit.Some? && topics[explicit.value].id != topics[candidate.value].id
        && explicitScore > candidateScore {
      candidate := if topics[explicit.value].formal then None else explicit;
    } else if candidate.Some? && candidateScore == 0 {
      if previous.Some? && explicit.None? && topics[previous.value].id != topics[candidate.value].id {
        candidate := previous;
      } else if contextualMatch {
      } else if semanticConfident && q.contextualId.None? {
      } else {
        candidate := None;
      }
    }
    if candidate.None? {
      if explicit.Some? && !topics[explicit.value].formal {
        candidate := explicit;
      } else if explicit.None? {
        candidate := previous;
      }
    }
  }

  /**
   A message enters the formal flow exactly when the model proposed a formal topic with enough
   confidence and either the text names topics and none scores higher, or it names none, no
   unverified topic is under way and the proposal is trusted.
   */
  lemma FormalIff(normalize: string -> string, topics: seq<Topic>, q: Request)
    requires normalize(normalize(q.message)) == normalize(q.message)
    ensures (Settle(normalize, topics, q).Some? && topics[Settle(normalize, topics, q).value].formal)
      <==> var c := Candidate(topics, q);
           && c.Some? && topics[c.value].formal
           && if exists k :: 0 <= k < |topics| && Score(normalize, topics[k], q.message) > 0
              then forall k :: 0 <= k < |topics| ==>
                Score(normalize, topics[k], q.message) <= Score(normalize, topics[c.value], q.message)
              else Previous(topics, q).None? && Trusted(topics[c.value], q)
  {
    InferredMeaning(normalize, topics, normalize(q.message), false);
    forall t: Topic ensures Score(normalize, t, normalize(q.message)) == Score(normalize, t, q.message) {}
  }

  ghost predicate SomeNamed(normalize: string -> string, topics: seq<Topic>, message: string) {
    exists k :: 0 <= k < |topics| && Named(normalize, topics[k], message)
  }

  ghost predicate NoneLonger(normalize: string -> string, topics: seq<Topic>, message: string, bound: nat) {
    forall k :: 0 <= k < |topics| ==> NoLonger(normalize, topics[k], message, bound)
  }

  lemma ScoresMeaning(normalize: string -> string, topics: seq<Topic>, message: string, bound: nat)
    requires forall k :: 0 <= k < |topics| ==> SafeTopic(normalize, topics[k])
    ensures (exists k :: 0 <= k < |topics| && Score(normalize, topics[k], message) > 0)
            <==> SomeNamed(normalize, topics, message)
    ensures (forall k :: 0 <= k < |topics| ==> Score(normalize, topics[k], message) <= bound)
            <==> NoneLonger(normalize, topics, message, bound)
  {
    forall k | 0 <= k < |topics|
      ensures Score(normalize, topics[k], message) > 0 <==> Named(normalize, topics[k], message)
      ensures Score(normalize, topics[k], message) <= bound <==> NoLonger(normalize, topics[k], message, bound)
    {
      ScoreMeaning(normalize, topics[k], message, bound);
    }
  }

  /** The same in terms of what the text asserts, for topics whose phrases the scan reads exactly. */
  lemma FormalIffAsserted(normalize: string -> string, topics: seq<Topic>, q: Request)
    requires normalize(normalize(q.message)) == normalize(q.message)
    requires forall k :: 0 <= k < |topics| ==> SafeTopic(normalize, topics[k])
    ensures (Settle(normalize, topics, q).Some? && topics[Settle(normalize, topics, q).value].formal)
      <==> var c := Candidate(topics, q);
           && c.Some? && topics[c.value].formal
           && if SomeNamed(normalize, topics, q.message)
              then NoneLonger(normalize, topics, q.message, Score(normalize, topics[c.value], q.message))
              else Previous(topics, q).None? && Trusted(topics[c.value], q)
  {
    FormalIff(normalize, topics, q);
    var c := Candidate(topics, q);
    ScoresMeaning(normalize, topics, q.message, if c.Some? then Score(normalize, topics[c.value], q.message) else 0);
  }

  /** A topic no text names and no session carries is never chosen on a confidence below the minimum. */
  lemma LowConfidenceNeverDecides(normalize: string -> string, topics: seq<Topic>, q: Request)
    requires q.confidence.Some? && q.confidence.value < q.minConfidence
    ensures Settle(normalize, topics, q) == Settle(normalize, topics, q.(candidateId := "unknown", confidence := None))
  {
  }

  // ---------------------------------------------------------------- the settled topic, without the search

  /** The model proposes this topic, and does not give it too little confidence. */
  predicate Proposed(topics: seq<Topic>, q: Request, k: nat) {
    && k < |topics| && topics[k].id == q.candidateId && q.candidateId != "unknown" && q.candidateId != "unsupported"
    && (q.confidence.Some? ==> q.confidence.value >= q.minConfidence)
  }

  /** The session is under way with this unverified topic. */
  predicate UnderWay(topics: seq<Topic>, q: Request, k: nat) {
    k < |topics| && q.previousId == Some(topics[k].id) && topics[k].id != "unknown" && !topics[k].formal
  }

  /** No topic scores higher. */
  predicate Top(normalize: string -> string, topics: seq<Topic>, message: string, k: nat) {
    && k < |topics| && Score(normalize, topics[k], message) > 0
    && forall j :: 0 <= j < |topics| ==> Score(normalize, topics[j], message) <= Score(normalize, topics[k], message)
  }

  predicate FirstTop(normalize: string -> string, topics: seq<Topic>, message: string, k: nat) {
    && Top(normalize, topics, message, k)
    && forall j :: 0 <= j < k ==> Score(normalize, topics[j], message) < Score(normalize, topics[k], message)
  }

  /** What the text does not name is kept in a session of its own formal topic, or as a confident guess outside any. */
  predicate Believed(t: Topic, q: Request) {
    && q.confidence.Some? && q.confidence.value >= q.minConfidence
    && if q.contextualId.Some? then t.formal && q.contextualId.value == t.id else q.confidence.value >= 0.55
  }

  predicate SomeTop(normalize: string -> string, topics: seq<Topic>, message: string) {
    exists k :: 0 <= k < |topics| && Score(normalize, topics[k], message) > 0
  }

  /** Where the text names topics: a proposal among the best, or else the first best if it is unverified. */
  predicate SettledByText(normalize: string -> string, topics: seq<Topic>, q: Request, k: nat) {
    (Proposed(topics, q, k) && Top(normalize, topics, q.message, k))
    || ((forall j :: 0 <= j < |topics| ==> !(Proposed(topics, q, j) && Top(normalize, topics, q.message, j)))
        && FirstTop(normalize, topics, q.message, k) && !topics[k].formal)
  }

  /** And when it names none: the unverified topic under way, or else a proposal that is believed. */
  predicate SettledByContext(topics: seq<Topic>, q: Request, k: nat) {
    UnderWay(topics, q, k)
    || ((forall j :: 0 <= j < |topics| ==> !UnderWay(topics, q, j)) && Proposed(topics, q, k) && Believed(topics[k], q))
  }

  lemma {:induction false} LookupMeaning(topics: seq<Topic>, id: string, k: nat)
    requires DistinctTopics(topics) && k < |topics|
    ensures Lookup(topics, id) == Some(k) <==> topics[k].id == id
  {
  }

  lemma CandidateMeaning(topics: seq<Topic>, q: Request)
    requires DistinctTopics(topics)
    ensures forall k: nat :: k < |topics| ==> (Candidate(topics, q) == Some(k) <==> Proposed(topics, q, k))
    ensures forall k: nat :: k < |topics| ==> (Previous(topics, q) == Some(k) <==> UnderWay(topics, q, k))
  {
    forall k: nat | k < |topics|
      ensures Candidate(topics, q) == Some(k) <==> Proposed(topics, q, k)
      ensures Previous(topics, q) == Some(k) <==> UnderWay(topics, q, k)
    {
      LookupMeaning(topics, q.candidateId, k);
      if q.previousId.Some? { LookupMeaning(topics, q.previousId.value, k); }
    }
  }

  lemma NamedMeaning(normalize: string -> string, topics: seq<Topic>, message: string, k: nat)
    requires normalize(normalize(message)) == normalize(message) && k < |topics|
    ensures var named := Inferred(normalize, topics, normalize(message), false);
      && (named.Some? <==> SomeTop(normalize, topics, message))
      && (named == Some(k) <==> FirstTop(normalize, topics, message, k))
      && (named.Some? ==> FirstTop(normalize, topics, message, named.value))
  {
    InferredMeaning(normalize, topics, normalize(message), false);
    forall t: Topic ensures Score(normalize, t, normalize(message)) == Score(normalize, t, message) {}
    BestIsFirstTop(normalize, topics, message, Inferred(normalize, topics, normalize(message), false));
  }

  lemma BestIsFirstTop(normalize: string -> string, topics: seq<Topic>, message: string, r: Option<nat>)
    requires forall t: Topic :: Score(normalize, t, normalize(message)) == Score(normalize, t, message)
    requires FirstBest(ScoreIn(normalize, normalize(message)), topics, false, r)
    ensures r.None? ==> !SomeTop(normalize, topics, message)
    ensures r.Some? ==> SomeTop(normalize, topics, message) && FirstTop(normalize, topics, message, r.value)
    ensures forall k: nat :: FirstTop(normalize, topics, message, k) ==> r == Some(k)
  {
  }

  lemma TopByFirst(normalize: string -> string, topics: seq<Topic>, message: string, first: nat, k: nat)
    requires FirstTop(normalize, topics, message, first) && k < |topics|
    ensures Top(normalize, topics, message, k)
            <==> Score(normalize, topics[k], message) >= Score(normalize, topics[first], message)
  {
  }

  /**
   Every topic a message may settle on, verified or not: what the text names decides, the
   proposal among equals; where it names nothing, the session's topic goes before the proposal.
   */
  lemma SettleIff(normalize: string -> string, topics: seq<Topic>, q: Request, k: nat)
    requires DistinctTopics(topics) && normalize(normalize(q.message)) == normalize(q.message) && k < |topics|
    ensures Settle(normalize, topics, q) == Some(k)
            <==> if SomeTop(normalize, topics, q.message) then SettledByText(normalize, topics, q, k)
                 else SettledByContext(topics, q, k)
  {
    CandidateMeaning(topics, q);
    NamedMeaning(normalize, topics, q.message, k);
    if SomeTop(normalize, topics, q.message) {
      var first := Inferred(normalize, topics, normalize(q.message), false).value;
      forall j: nat | j < |topics|
        ensures Top(normalize, topics, q.message, j)
                <==> Score(normalize, topics[j], q.message) >= Score(normalize, topics[first], q.message)
      {
        TopByFirst(normalize, topics, q.message, first, j);
      }
      TextDecides(normalize, topics, q, first, k);
    } else {
      ContextDecides(normalize, topics, q, k);
    }
  }

  lemma TextDecides(normalize: string -> string, topics: seq<Topic>, q: Request, first: nat, k: nat)
    requires Inferred(normalize, topics, normalize(q.message), false) == Some(first) && first < |topics| && k < |topics|
    requires FirstTop(normalize, topics, q.message, first)
    requires FirstTop(normalize, topics, q.message, k) <==> k == first
    requires forall j: nat :: j < |topics| ==> (Candidate(topics, q) == Some(j) <==> Proposed(topics, q, j))
    requires forall j: nat :: j < |topics| ==>
      (Top(normalize, topics, q.message, j)
       <==> Score(normalize, topics[j], q.message) >= Score(normalize, topics[first], q.message))
    ensures Settle(normalize, topics, q) == Some(k) <==> SettledByText(normalize, topics, q, k)
  {
  }

  lemma BelievedIsTrusted(t: Topic, q: Request)
    ensures Trusted(t, q) <==> Believed(t, q)
  {
  }

  lemma ContextDecides(normalize: string -> string, topics: seq<Topic>, q: Request, k: nat)
    requires Inferred(normalize, topics, normalize(q.message), false).None? && k < |topics|
    requires forall j: nat :: j < |topics| ==> (Candidate(topics, q) == Some(j) <==> Proposed(topics, q, j))
    requires forall j: nat :: j < |topics| ==> (Previous(topics, q) == Some(j) <==> UnderWay(topics, q, j))
    ensures Settle(normalize, topics, q) == Some(k) <==> SettledByContext(topics, q, k)
  {
    UnnamedSettles(normalize, topics, q);
    BelievedIsTrusted(topics[k], q);
    if Previous(topics, q).Some? { assert UnderWay(topics, q, Previous(topics, q).value); }
  }

  lemma UnnamedSettles(normalize: string -> string, topics: seq<Topic>, q: Request)
    requires Inferred(normalize, topics, normalize(q.message), false).None?
    ensures var (previous, candidate) := (Previous(topics, q), Candidate(topics, q));
      Settle(normalize, topics, q) == if previous.Some? then previous
                                      else if candidate.Some? && Trusted(topics[candidate.value], q) then candidate
                                      else None
  {
  }

  // ---------------------------------------------------------------- the length of a group

  function Joined(phrases: seq<string>): string {
    if phrases == [] then "" else phrases[0] + Joined(phrases[1..])
  }

  lemma {:induction false} LengthMeaning(phrases: seq<string>)
    ensures Length(phrases) == |Joined(phrases)|
  {
    if phrases != [] { LengthMeaning(phrases[1..]); }
  }

  /** The phrases of a group are the normal forms of its members, without the empty ones. */
  lemma {:induction false} PhrasesMeaning(normalize: string -> string, group: seq<string>)
    ensures forall p :: p in Phrases(normalize, group) <==> p != "" && exists g :: g in group && p == normalize(g)
    ensures (forall g :: g in group ==> normalize(g) != "") ==> |Phrases(normalize, group)| == |group|
  {
    if group != [] {
      PhrasesMeaning(normalize, group[1..]);
      assert group == [group[0]] + group[1..];
    }
  }
}
