/**
 Topic recognition of app/agent/routing.py: the scan for asserted phrases, the scores of
 topics, and the choice of a topic for a message.
 */
module Routing {
  import opened Common

  // ---------------------------------------------------------------- asserted phrases

  const NEGATIONS: seq<string> := ["不是", "并非", "不属于", "不涉及", "不是什么"]

  predicate OccursAt(text: string, phrase: string, i: nat) {
    i + |phrase| <= |text| && text[i..i + |phrase|] == phrase
  }

  predicate EndsWith(s: string, suffix: string) {
    |suffix| <= |s| && s[|s| - |suffix|..] == suffix
  }

  predicate EndsNegated(s: string) {
    exists k :: 0 <= k < |NEGATIONS| && EndsWith(s, NEGATIONS[k])
  }

  /** The phrase is said, and no listed negation stands right before it. */
  predicate AssertedAt(text: string, phrase: string, i: nat) {
    OccursAt(text, phrase, i) && !EndsNegated(text[..i])
  }

  predicate AssertedFrom(text: string, phrase: string, start: nat) {
    exists j :: start <= j <= |text| && AssertedAt(text, phrase, j)
  }

  predicate Asserted(text: string, phrase: string) {
    AssertedFrom(text, phrase, 0)
  }

  /** `text.find(phrase, start)`. */
  function Find(text: string, phrase: string, start: nat): (r: Option<nat>)
    ensures r.Some? ==> start <= r.value <= |text| && OccursAt(text, phrase, r.value)
    decreases |text| - start
  {
    if start > |text| then None
    else if OccursAt(text, phrase, start) then Some(start)
    else if start == |text| then None
    else Find(text, phrase, start + 1)
  }

  /** No occurrence from `start` on comes before the one found. */
  lemma {:induction false} FindIsFirst(text: string, phrase: string, start: nat, j: nat)
    requires start <= j && OccursAt(text, phrase, j)
    ensures Find(text, phrase, start).Some? && Find(text, phrase, start).value <= j
    decreases |text| - start
  {
    if start < j { FindIsFirst(text, phrase, start + 1, j); }
  }

  /** The scan with its next hit: the hit decides, unless it is negated; then go on behind it. */
  function ScanHit(text: string, phrase: string, hit: Option<nat>): bool
    requires phrase != "" && (hit.Some? ==> hit.value + |phrase| <= |text|)
    decreases if hit.Some? then |text| + 1 - hit.value else 0
  {
    hit.Some? && (!EndsNegated(text[..hit.value]) || ScanHit(text, phrase, Find(text, phrase, hit.value + |phrase|)))
  }

  function ScanFrom(text: string, phrase: string, start: nat): bool
    requires phrase != ""
  {
    ScanHit(text, phrase, Find(text, phrase, start))
  }

  function WindowBefore(text: string, i: nat): string
    requires i <= |text|
  {
    text[(if i >= 6 then i - 6 else 0)..i]
  }

  /** No negation is longer than the six characters looked at. */
  lemma WindowSuffices(text: string, i: nat)
    requires i <= |text|
    ensures EndsNegated(WindowBefore(text, i)) == EndsNegated(text[..i])
  {
    var w, p := WindowBefore(text, i), text[..i];
    forall k | 0 <= k < |NEGATIONS| ensures EndsWith(w, NEGATIONS[k]) == EndsWith(p, NEGATIONS[k]) {
      var n := NEGATIONS[k];
      assert |n| <= 4;
      if |n| <= |w| { assert w[|w| - |n|..] == p[|p| - |n|..]; }
    }
  }

  /** `_contains_asserted_phrase`. */
  method ContainsAssertedPhrase(text: string, phrase: string) returns (r: bool)
    requires phrase != ""
    ensures r == ScanFrom(text, phrase, 0)
  {
    var start := Find(text, phrase, 0);
    while start.Some?
      invariant start.Some? ==> start.value + |phrase| <= |text|
      invariant ScanFrom(text, phrase, 0) == ScanHit(text, phrase, start)
      decreases if start.Some? then |text| + 1 - start.value else 0
    {
      var prefix := WindowBefore(text, start.value);
      WindowSuffices(text, start.value);
      if !EndsNegated(prefix) { return true; }
      start := Find(text, phrase, start.value + |phrase|);
    }
    return false;
  }

  /** The phrase can overlap itself at this distance. */
  predicate Overlaps(phrase: string, d: nat) {
    0 < d < |phrase| && phrase[d..] <= phrase
  }

  /** Wherever the phrase overlaps itself, what stands before the later copy is itself a negation. */
  predicate Safe(phrase: string) {
    forall d :: 0 < d < |phrase| && Overlaps(phrase, d) ==> EndsNegated(phrase[..d])
  }

  lemma SkippedIsNegated(text: string, phrase: string, i: nat, j: nat)
    requires Safe(phrase) && OccursAt(text, phrase, i) && OccursAt(text, phrase, j) && i < j < i + |phrase|
    ensures EndsNegated(text[..j])
  {
    var d := j - i;
    assert phrase[d..] == text[j..i + |phrase|];
    assert phrase[d..] == text[j..j + |phrase|][..|phrase| - d];
    assert Overlaps(phrase, d);
    var k :| 0 <= k < |NEGATIONS| && EndsWith(phrase[..d], NEGATIONS[k]);
    assert text[..j][i..] == phrase[..d];
    assert EndsWith(text[..j], NEGATIONS[k]);
  }

  lemma BehindNegatedHit(text: string, phrase: string, start: nat, i: nat)
    requires phrase != "" && Safe(phrase) && Find(text, phrase, start) == Some(i) && EndsNegated(text[..i])
    ensures AssertedFrom(text, phrase, start) ==> AssertedFrom(text, phrase, i + |phrase|)
  {
    if AssertedFrom(text, phrase, start) {
      var j :| start <= j <= |text| && AssertedAt(text, phrase, j);
      FindIsFirst(text, phrase, start, j);
      if i < j < i + |phrase| { SkippedIsNegated(text, phrase, i, j); }
    }
  }

  /** From this place on, the scan finds something exactly when something is asserted. */
  predicate ScanExact(text: string, phrase: string, start: nat)
    requires phrase != ""
  {
    ScanFrom(text, phrase, start) <==> AssertedFrom(text, phrase, start)
  }

  lemma NoHit(text: string, phrase: string, start: nat)
    requires phrase != "" && Find(text, phrase, start).None?
    ensures !ScanFrom(text, phrase, start) && !AssertedFrom(text, phrase, start)
  {
    if j :| start <= j <= |text| && AssertedAt(text, phrase, j) { FindIsFirst(text, phrase, start, j); }
  }

  /** A hit that is not negated decides. */
  lemma PlainHit(text: string, phrase: string, start: nat, i: nat)
    requires phrase != "" && Find(text, phrase, start) == Some(i) && !EndsNegated(text[..i])
    ensures ScanFrom(text, phrase, start) && AssertedFrom(text, phrase, start)
  {
    assert AssertedAt(text, phrase, i);
  }

  /** A negated hit leaves the question to what stands behind it. */
  lemma NegatedHit(text: string, phrase: string, start: nat, i: nat)
    requires phrase != "" && Safe(phrase) && Find(text, phrase, start) == Some(i) && EndsNegated(text[..i])
    ensures ScanFrom(text, phrase, start) == ScanFrom(text, phrase, i + |phrase|)
    ensures AssertedFrom(text, phrase, start) <==> AssertedFrom(text, phrase, i + |phrase|)
  {
    BehindNegatedHit(text, phrase, start, i);
    ScanPasses(text, phrase, start, i);
  }

  lemma ScanPasses(text: string, phrase: string, start: nat, i: nat)
    requires phrase != "" && Find(text, phrase, start) == Some(i) && EndsNegated(text[..i])
    ensures ScanFrom(text, phrase, start) == ScanFrom(text, phrase, i + |phrase|)
  {
  }

  lemma ExactBefore(text: string, phrase: string, start: nat, i: nat)
    requires phrase != "" && Safe(phrase) && Find(text, phrase, start) == Some(i)
    requires ScanExact(text, phrase, i + |phrase|)
    ensures ScanExact(text, phrase, start)
  {
    if EndsNegated(text[..i]) { NegatedHit(text, phrase, start, i); } else { PlainHit(text, phrase, start, i); }
  }

  lemma {:induction false} ScanFromMeaning(text: string, phrase: string, start: nat)
    requires phrase != "" && Safe(phrase)
    ensures ScanExact(text, phrase, start)
    decreases |text| + 1 - start
  {
    var hit := Find(text, phrase, start);
    if hit.None? {
      NoHit(text, phrase, start);
    } else {
      ScanFromMeaning(text, phrase, hit.value + |phrase|);
      ExactBefore(text, phrase, start, hit.value);
    }
  }

  /** What the scan finds is asserted, whatever the phrase. */
  lemma {:induction false} ScanFromSound(text: string, phrase: string, start: nat)
    requires phrase != "" && ScanFrom(text, phrase, start)
    ensures Asserted(text, phrase)
    decreases |text| + 1 - start
  {
    var i := Find(text, phrase, start).value;
    if EndsNegated(text[..i]) { ScanFromSound(text, phrase, i + |phrase|); }
    else { assert AssertedAt(text, phrase, i); }
  }

  /** A text on which an unsafe phrase is missed: a negated copy, and an asserted one inside it. */
  function Missed(phrase: string, d: nat): string
    requires d <= |phrase|
  {
    Lead(phrase) + phrase[..d] + phrase
  }

  function Lead(phrase: string): string {
    if phrase != "" && phrase[0] in "并非" then "不是" else "并非"
  }

  lemma LeadNegates(phrase: string, d: nat)
    requires 0 < d < |phrase| && !EndsNegated(phrase[..d])
    ensures EndsNegated(Lead(phrase)) && !EndsNegated(Lead(phrase) + phrase[..d])
  {
    var n, s := Lead(phrase), Lead(phrase) + phrase[..d];
    assert EndsWith(n, NEGATIONS[if n == "不是" then 0 else 1]);
    forall k | 0 <= k < |NEGATIONS| ensures !EndsWith(s, NEGATIONS[k]) {
      assert !EndsWith(phrase[..d], NEGATIONS[k]);
      NoNegationEnds(phrase, phrase[..d], NEGATIONS[k]);
    }
  }

  lemma NoNegationEnds(phrase: string, part: string, m: string)
    requires part != "" && part <= phrase && m in NEGATIONS && !EndsWith(part, m)
    ensures !EndsWith(Lead(phrase) + part, m)
  {
    if |m| <= |part| {
      SameEnd(Lead(phrase), part, m);
    } else if EndsWith(Lead(phrase) + part, m) {
      // The negation would begin inside the lead: at its second or first character.
      LeadIsKnown(phrase);
      Straddle(Lead(phrase), part, m);
      assert part[0] == phrase[0];
      OtherLead(phrase);
    }
  }

  lemma SameEnd(lead: string, part: string, m: string)
    requires |m| <= |part|
    ensures EndsWith(lead + part, m) <==> EndsWith(part, m)
  {
    var s := lead + part;
    assert s[|s| - |m|..] == part[|part| - |m|..];
  }

  lemma LeadIsKnown(phrase: string)
    ensures Lead(phrase) in ["不是", "并非"]
  {
  }

  lemma OtherLead(phrase: string)
    requires phrase != "" && phrase[0] == "什么"[0]
    ensures Lead(phrase)[0] != "不是"[0]
  {
  }

  /** No suffix of a lead begins a listed negation, but for one that the lead's choice rules out. */
  lemma Straddle(lead: string, rest: string, m: string)
    requires lead in ["不是", "并非"] && rest != "" && |m| > |rest| && m in NEGATIONS
    requires EndsWith(lead + rest, m)
    ensures lead == "不是" && rest == "什么"
  {
    var s := lead + rest;
    assert m == s[|s| - |m|..];
    assert m[0] == s[|s| - |m|];
    assert m[|m| - 1] == rest[|rest| - 1];
    if |m| == |rest| + 2 { assert m[0] == lead[0] && m[1] == lead[1] && m[2] == rest[0]; }
  }

  lemma OneNegatedHit(text: string, phrase: string, i: nat)
    requires phrase != "" && i + |phrase| <= |text| < i + |phrase| + |phrase| && EndsNegated(text[..i])
    ensures !ScanHit(text, phrase, Some(i))
  {
    NoneBehind(text, phrase, i + |phrase|);
  }

  lemma NoneBehind(text: string, phrase: string, start: nat)
    requires |text| < start + |phrase|
    ensures Find(text, phrase, start) == None
  {
    var hit := Find(text, phrase, start);
    assert hit.Some? ==> OccursAt(text, phrase, hit.value);
  }

  lemma MissedHits(phrase: string, d: nat)
    requires Overlaps(phrase, d)
    ensures var text := Missed(phrase, d);
      |text| == 2 + d + |phrase| && text[..2] == Lead(phrase) && text[..2 + d] == Lead(phrase) + phrase[..d]
      && OccursAt(text, phrase, 2 + d) && Find(text, phrase, 0) == Some(2)
  {
    var text := Missed(phrase, d);
    LeadIsOther(phrase);
    assert text[..2] == Lead(phrase) && text[..2 + d] == Lead(phrase) + phrase[..d];
    assert text[2 + d..2 + d + |phrase|] == phrase;
    MissedCopy(phrase, d);
    FoundAtTwo(text, phrase);
  }

  lemma LeadIsOther(phrase: string)
    requires phrase != ""
    ensures |Lead(phrase)| == 2 && phrase[0] != Lead(phrase)[0] && phrase[0] != Lead(phrase)[1]
  {
  }

  lemma MissedCopy(phrase: string, d: nat)
    requires Overlaps(phrase, d)
    ensures OccursAt(Missed(phrase, d), phrase, 2)
  {
    var text := Missed(phrase, d);
    assert text[2..] == phrase[..d] + phrase;
    assert phrase[d..] == phrase[..|phrase| - d];
    assert (phrase[..d] + phrase)[..|phrase|] == phrase[..d] + phrase[..|phrase| - d];
    assert phrase == phrase[..d] + phrase[d..];
    assert text[2..2 + |phrase|] == text[2..][..|phrase|];
  }

  lemma FoundAtTwo(text: string, phrase: string)
    requires phrase != "" && OccursAt(text, phrase, 2) && phrase[0] != text[0] && phrase[0] != text[1]
    ensures Find(text, phrase, 0) == Some(2)
  {
    NotAt(text, phrase, 0);
    NotAt(text, phrase, 1);
    FindIsFirst(text, phrase, 0, 2);
  }

  lemma NotAt(text: string, phrase: string, i: nat)
    requires phrase != "" && i < |text| && phrase[0] != text[i]
    ensures !OccursAt(text, phrase, i)
  {
    assert i + |phrase| <= |text| ==> text[i..i + |phrase|][0] == text[i];
  }

  lemma UnsafeIsMissed(phrase: string, d: nat)
    requires Overlaps(phrase, d) && !EndsNegated(phrase[..d])
    ensures Asserted(Missed(phrase, d), phrase) && !ScanFrom(Missed(phrase, d), phrase, 0)
  {
    var text := Missed(phrase, d);
    LeadNegates(phrase, d);
    MissedHits(phrase, d);
    assert AssertedAt(text, phrase, 2 + d);
    OneNegatedHit(text, phrase, 2);
  }

  /**
   The scan finds exactly the asserted phrases on every text, precisely for the phrases that
   can overlap themselves only behind a negation of their own.
   */
  lemma ScanIsExactIff(phrase: string)
    requires phrase != ""
    ensures (forall text :: ScanFrom(text, phrase, 0) == Asserted(text, phrase)) <==> Safe(phrase)
  {
    if Safe(phrase) {
      forall text ensures ScanFrom(text, phrase, 0) == Asserted(text, phrase) { ScanFromMeaning(text, phrase, 0); }
    } else {
      var d :| 0 < d < |phrase| && Overlaps(phrase, d) && !EndsNegated(phrase[..d]);
      UnsafeIsMissed(phrase, d);
    }
  }

  /** Phrases that cannot overlap themselves are scanned exactly. */
  lemma PlainPhrases(text: string, phrase: string)
    requires phrase != "" && forall d :: 0 < d < |phrase| ==> !Overlaps(phrase, d)
    ensures ScanFrom(text, phrase, 0) == Asserted(text, phrase)
  {
    ScanFromMeaning(text, phrase, 0);
  }
}
