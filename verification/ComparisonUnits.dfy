/** Encoding a turn's units into the commit command and back (app/agent/progression.py). */
module ComparisonUnits {
  import opened Common
  import opened Progression

  const MAX_UNITS := 48
  const MAX_LENGTH := 2000

  function Cut(s: string, n: nat): string {
    if |s| <= n then s else s[..n]
  }

  /** The fields in the order of `_COMPARISON_FIELDS`. */
  function Rows(c: Content): (r: seq<seq<string>>)
    ensures |r| == 7
  {
    [c.replies, c.actions, c.evidence, c.communications, c.questions, c.stages, c.notices]
  }

  /** The characters `_VISIBLE_CHARS` keeps. */
  predicate VisibleChar(ch: char) {
    '0' <= ch <= '9' || 'a' <= ch <= 'z' || '\U{3400}' <= ch <= '\U{9fff}'
  }

  predicate Visible(s: string) {
    forall i :: 0 <= i < |s| ==> VisibleChar(s[i])
  }

  predicate DistinctUnits(us: seq<string>) {
    forall i, j :: 0 <= i < j < |us| ==> us[i] != us[j]
  }

  predicate Clean(us: seq<string>) {
    forall u :: u in us ==> u != "" && Visible(u)
  }

  /** Units as `project_response` leaves them: normalised, non-empty, distinct within a field. */
  predicate NormalRows(rows: seq<seq<string>>) {
    forall i :: 0 <= i < |rows| ==> DistinctUnits(rows[i]) && Clean(rows[i])
  }

  /**
   One unit on the wire: `tag` writes a unit of field number `i`, `parse` reads a raw unit
   back, `room` is the longest unit of a field that is not cut.
   */
  datatype Wire = Wire(tag: (nat, string) -> string, parse: string -> (nat, string), room: nat -> nat)

  ghost predicate Lawful(w: Wire) {
    && (forall i: nat, u :: i < 7 && Visible(u) ==> w.parse(w.tag(i, u)) == (i, Cut(u, w.room(i))))
    && (forall i :: w.room(i) > 0)
  }

  // ---------------------------------------------------------------- encoding

  function TagAll(w: Wire, i: nat, us: seq<string>): (r: seq<string>)
    ensures |r| == |us|
  {
    if us == [] then [] else TagAll(w, i, us[..|us| - 1]) + [w.tag(i, us[|us| - 1])]
  }

  /** Every unit of the first `k` fields, tagged, in order. */
  function TagRows(w: Wire, rows: seq<seq<string>>, k: nat): seq<string>
    requires k <= |rows|
  {
    if k == 0 then [] else TagRows(w, rows, k - 1) + TagAll(w, k - 1, rows[k - 1])
  }

  function FirstUnits(units: seq<string>): seq<string> {
    if |units| <= MAX_UNITS then units else units[..MAX_UNITS]
  }

  function Encode(w: Wire, c: Content): seq<string> {
    FirstUnits(TagRows(w, Rows(c), |Rows(c)|))
  }

  lemma {:induction false} RowsArePrefixes(w: Wire, rows: seq<seq<string>>, j: nat, k: nat)
    requires j <= k <= |rows|
    ensures TagRows(w, rows, j) <= TagRows(w, rows, k)
  {
    if j < k { RowsArePrefixes(w, rows, j, k - 1); }
  }

  lemma {:induction false} TagsArePrefixes(w: Wire, i: nat, us: seq<string>, j: nat)
    requires j <= |us|
    ensures TagAll(w, i, us[..j]) == TagAll(w, i, us)[..j]
    decreases |us|
  {
    if j == |us| {
      assert us[..j] == us;
    } else {
      assert us[..|us| - 1][..j] == us[..j];
      TagsArePrefixes(w, i, us[..|us| - 1], j);
    }
  }

  /** The inner loop of `comparison_units`: it stops when the 48th unit has been added. */
  method TagInto(w: Wire, units: seq<string>, i: nat, source: seq<string>) returns (r: seq<string>)
    requires |units| < MAX_UNITS
    ensures |r| <= MAX_UNITS && r <= units + TagAll(w, i, source)
    ensures |r| < MAX_UNITS ==> r == units + TagAll(w, i, source)
  {
    r := units;
    for j := 0 to |source|
      invariant |r| < MAX_UNITS && r == units + TagAll(w, i, source[..j])
    {
      assert source[..j + 1][..j] == source[..j];
      r := r + [w.tag(i, source[j])];
      if |r| == MAX_UNITS {
        TagsArePrefixes(w, i, source, j + 1);
        return;
      }
    }
    assert source[..|source|] == source;
  }

  /** `comparison_units`. */
  method EncodeUnits(w: Wire, c: Content) returns (units: seq<string>)
    ensures units == Encode(w, c)
  {
    var rows := Rows(c);
    units := [];
    for k := 0 to |rows|
      invariant units == TagRows(w, rows, k) && |units| < MAX_UNITS
    {
      units := TagInto(w, units, k, rows[k]);
      if |units| == MAX_UNITS {
        RowsArePrefixes(w, rows, k + 1, |rows|);
        return;
      }
    }
  }

  // ---------------------------------------------------------------- decoding

  /** The non-empty texts of field number `i`, in order. */
  function Collect(w: Wire, raws: seq<string>, i: nat): seq<string> {
    if raws == [] then [] else
    var rest := Collect(w, raws[..|raws| - 1], i);
    var (field, text) := w.parse(raws[|raws| - 1]);
    if field == i && text != "" then rest + [text] else rest
  }

  function DecodeRow(w: Wire, units: seq<string>, i: nat): seq<string> {
    Unique(Collect(w, FirstUnits(units), i))
  }

  function Decode(w: Wire, units: seq<string>): Content {
    Content(DecodeRow(w, units, 0), DecodeRow(w, units, 1), DecodeRow(w, units, 2), DecodeRow(w, units, 3),
            DecodeRow(w, units, 4), DecodeRow(w, units, 5), DecodeRow(w, units, 6))
  }

  /** `_content_from_comparison_units`: one list per field, filled in one pass. */
  method DecodeUnits(w: Wire, units: seq<string>) returns (c: Content)
    requires forall raw :: w.parse(raw).0 < 7
    ensures c == Decode(w, units)
  {
    var raws := FirstUnits(units);
    var values := seq(7, i => []);
    for k := 0 to |raws|
      invariant |values| == 7
      invariant forall i :: 0 <= i < 7 ==> values[i] == Collect(w, raws[..k], i)
    {
      assert raws[..k + 1][..k] == raws[..k];
      var (field, text) := w.parse(raws[k]);
      if text != "" {
        values := values[field := values[field] + [text]];
      }
    }
    assert raws[..|raws|] == raws;
    c := Content(Unique(values[0]), Unique(values[1]), Unique(values[2]), Unique(values[3]),
                 Unique(values[4]), Unique(values[5]), Unique(values[6]));
  }

  // ---------------------------------------------------------------- the round trip

  function CutAll(us: seq<string>, n: nat): (r: seq<string>)
    ensures |r| == |us|
  {
    if us == [] then [] else CutAll(us[..|us| - 1], n) + [Cut(us[|us| - 1], n)]
  }

  lemma {:induction false} CutAllIsShort(us: seq<string>, n: nat)
    ensures forall u :: u in CutAll(us, n) ==> |u| <= n
  {
    if us != [] { CutAllIsShort(us[..|us| - 1], n); }
  }

  lemma {:induction false} CollectConcat(w: Wire, a: seq<string>, b: seq<string>, i: nat)
    ensures Collect(w, a + b, i) == Collect(w, a, i) + Collect(w, b, i)
  {
    if b == [] {
      assert a + b == a;
    } else {
      assert (a + b)[..|a + b| - 1] == a + b[..|b| - 1];
      CollectConcat(w, a, b[..|b| - 1], i);
    }
  }

  lemma {:induction false} CollectTags(w: Wire, g: nat, us: seq<string>, i: nat)
    requires Lawful(w) && Clean(us) && g < 7
    ensures Collect(w, TagAll(w, g, us), i) == if i == g then CutAll(us, w.room(i)) else []
  {
    if us != [] {
      var init, u := us[..|us| - 1], us[|us| - 1];
      assert us == init + [u];
      assert u in us;
      CollectTags(w, g, init, i);
      assert w.parse(w.tag(g, u)) == (g, Cut(u, w.room(g))) && |Cut(u, w.room(g))| > 0;
      assert TagAll(w, g, us)[..|us| - 1] == TagAll(w, g, init);
    }
  }

  /** How many units of field number `i` are among the first `n` of all. */
  function Kept(w: Wire, rows: seq<seq<string>>, i: nat, n: nat): nat
    requires i < |rows|
  {
    var start := |TagRows(w, rows, i)|;
    if n <= start then 0 else if n - start <= |rows[i]| then n - start else |rows[i]|
  }

  /** The first `n` units end inside field number `k - 1`. */
  lemma FirstEndsInside(w: Wire, rows: seq<seq<string>>, k: nat, n: nat)
    requires 0 < k <= |rows| && |TagRows(w, rows, k - 1)| <= n <= |TagRows(w, rows, k)|
    ensures var kept := Kept(w, rows, k - 1, n);
            kept <= |rows[k - 1]| && TagRows(w, rows, k)[..n] == TagRows(w, rows, k - 1)
              + TagAll(w, k - 1, rows[k - 1][..kept])
  {
    var us, before := rows[k - 1], TagRows(w, rows, k - 1);
    TagsArePrefixes(w, k - 1, us, n - |before|);
    assert TagRows(w, rows, k)[..n] == before + TagAll(w, k - 1, us)[..n - |before|];
  }

  lemma CollectInside(w: Wire, rows: seq<seq<string>>, k: nat, n: nat, i: nat)
    requires Lawful(w) && NormalRows(rows) && 0 < k <= |rows| <= 7
    requires |TagRows(w, rows, k - 1)| <= n <= |TagRows(w, rows, k)|
    ensures Collect(w, TagRows(w, rows, k)[..n], i) ==
            Collect(w, TagRows(w, rows, k - 1), i)
            + (if i == k - 1 then CutAll(rows[k - 1][..Kept(w, rows, k - 1, n)], w.room(i)) else [])
  {
    FirstEndsInside(w, rows, k, n);
    var part := rows[k - 1][..Kept(w, rows, k - 1, n)];
    assert forall u :: u in part ==> u in rows[k - 1];
    CollectConcat(w, TagRows(w, rows, k - 1), TagAll(w, k - 1, part), i);
    CollectTags(w, k - 1, part, i);
  }

  lemma CollectStep(w: Wire, rows: seq<seq<string>>, k: nat, i: nat)
    requires Lawful(w) && NormalRows(rows) && 0 < k <= |rows| <= 7
    ensures Collect(w, TagRows(w, rows, k), i) ==
            Collect(w, TagRows(w, rows, k - 1), i) + (if i == k - 1 then CutAll(rows[i], w.room(i)) else [])
  {
    CollectConcat(w, TagRows(w, rows, k - 1), TagAll(w, k - 1, rows[k - 1]), i);
    CollectTags(w, k - 1, rows[k - 1], i);
  }

  /** From the units of the first `k` fields, field number `i` collects its own. */
  predicate CollectsOwn(w: Wire, rows: seq<seq<string>>, i: nat, k: nat) {
    k <= |rows| && Collect(w, TagRows(w, rows, k), i) == if i < k then CutAll(rows[i], w.room(i)) else []
  }

  lemma CollectsOwnNext(w: Wire, rows: seq<seq<string>>, i: nat, k: nat)
    requires Lawful(w) && NormalRows(rows) && k < |rows| <= 7 && CollectsOwn(w, rows, i, k)
    ensures CollectsOwn(w, rows, i, k + 1)
  {
    CollectStep(w, rows, k + 1, i);
  }

  lemma CollectWhole(w: Wire, rows: seq<seq<string>>, k: nat, i: nat)
    requires Lawful(w) && NormalRows(rows) && k <= |rows| <= 7
    ensures CollectsOwn(w, rows, i, k)
  {
    assert CollectsOwn(w, rows, i, 0);
    forall m: nat | m < k && CollectsOwn(w, rows, i, m) ensures CollectsOwn(w, rows, i, m + 1) {
      CollectsOwnNext(w, rows, i, m);
    }
    Chain((m: nat) => CollectsOwn(w, rows, i, m), 0, k);
  }

  /** The field in which the `n`-th unit lies. */
  lemma {:induction false} EndsIn(w: Wire, rows: seq<seq<string>>, m: nat, n: nat) returns (k: nat)
    requires 0 < m <= |rows| && n <= |TagRows(w, rows, m)|
    ensures 0 < k <= m && |TagRows(w, rows, k - 1)| <= n <= |TagRows(w, rows, k)|
    ensures k < m ==> n < |TagRows(w, rows, k)|
  {
    if n < |TagRows(w, rows, m - 1)| {
      k := EndsIn(w, rows, m - 1, n);
    } else {
      k := m;
    }
  }

  lemma KeptByPosition(w: Wire, rows: seq<seq<string>>, k: nat, n: nat, i: nat)
    requires 0 < k <= |rows| && i < |rows| && |TagRows(w, rows, k - 1)| <= n <= |TagRows(w, rows, k)|
    ensures i < k - 1 ==> Kept(w, rows, i, n) == |rows[i]|
    ensures i > k - 1 ==> Kept(w, rows, i, n) == 0
    ensures Kept(w, rows, i, n) <= |rows[i]|
  {
    if i < k - 1 {
      RowsArePrefixes(w, rows, i + 1, k - 1);
    } else if i > k - 1 {
      RowsArePrefixes(w, rows, k, i);
    }
  }

  /** The units of field number `i` among the first `n` of all. */
  function KeptRow(w: Wire, rows: seq<seq<string>>, i: nat, n: nat): seq<string>
    requires i < |rows|
  {
    rows[i][..Kept(w, rows, i, n)]
  }

  lemma CollectEnding(w: Wire, rows: seq<seq<string>>, k: nat, n: nat, i: nat)
    requires Lawful(w) && 0 < k <= |rows| <= 7 && NormalRows(rows) && i < |rows|
    requires |TagRows(w, rows, k - 1)| <= n <= |TagRows(w, rows, k)|
    ensures Collect(w, TagRows(w, rows, k)[..n], i) == CutAll(KeptRow(w, rows, i, n), w.room(i))
  {
    CollectInside(w, rows, k, n, i);
    CollectWhole(w, rows, k - 1, i);
    KeptRowByPosition(w, rows, k, n, i);
  }

  lemma KeptRowByPosition(w: Wire, rows: seq<seq<string>>, k: nat, n: nat, i: nat)
    requires 0 < k <= |rows| && i < |rows| && |TagRows(w, rows, k - 1)| <= n <= |TagRows(w, rows, k)|
    ensures i < k - 1 ==> KeptRow(w, rows, i, n) == rows[i]
    ensures i > k - 1 ==> KeptRow(w, rows, i, n) == []
    ensures i == k - 1 ==> KeptRow(w, rows, i, n) == rows[k - 1][..Kept(w, rows, k - 1, n)]
  {
    KeptByPosition(w, rows, k, n, i);
  }

  lemma CollectFirst(w: Wire, rows: seq<seq<string>>, n: nat, i: nat)
    requires Lawful(w) && 0 < |rows| <= 7 && NormalRows(rows) && i < |rows| && n <= |TagRows(w, rows, |rows|)|
    ensures Collect(w, TagRows(w, rows, |rows|)[..n], i) == CutAll(KeptRow(w, rows, i, n), w.room(i))
  {
    var k := EndsIn(w, rows, |rows|, n);
    RowsArePrefixes(w, rows, k, |rows|);
    assert TagRows(w, rows, |rows|)[..n] == TagRows(w, rows, k)[..n];
    CollectEnding(w, rows, k, n, i);
  }

  lemma DecodedRow(w: Wire, raw: seq<string>, i: nat)
    requires i < 7
    ensures Rows(Decode(w, raw))[i] == Unique(Collect(w, FirstUnits(raw), i))
  {
  }

  lemma FirstOfEncoded(w: Wire, c: Content)
    ensures FirstUnits(Encode(w, c)) == TagRows(w, Rows(c), |Rows(c)|)[..|Encode(w, c)|]
    ensures |Encode(w, c)| <= |TagRows(w, Rows(c), |Rows(c)|)|
  {
  }

  /**
   What the store's recheck sees of any candidate: the first 48 units in field order,
   each cut at the bound.
   */
  lemma DecodeEncode(w: Wire, c: Content, i: nat)
    requires Lawful(w) && NormalRows(Rows(c)) && i < 7
    ensures Rows(Decode(w, Encode(w, c)))[i] == Unique(CutAll(KeptRow(w, Rows(c), i, |Encode(w, c)|), w.room(i)))
  {
    FirstOfEncoded(w, c);
    CollectFirst(w, Rows(c), |Encode(w, c)|, i);
    DecodedRow(w, Encode(w, c), i);
  }

  /** No unit is dropped and none is cut. */
  predicate Fits(w: Wire, c: Content) {
    && |TagRows(w, Rows(c), |Rows(c)|)| <= MAX_UNITS
    && forall i, u :: 0 <= i < 7 && u in Rows(c)[i] ==> |u| <= w.room(i)
  }

  lemma {:induction false} UniqueOfDistinct(us: seq<string>)
    requires DistinctUnits(us) && "" !in us
    ensures Unique(us) == us
  {
    if us != [] {
      UniqueOfDistinct(us[..|us| - 1]);
      assert us == us[..|us| - 1] + [us[|us| - 1]];
    }
  }

  lemma {:induction false} CutAllShort(us: seq<string>, n: nat)
    requires forall u :: u in us ==> |u| <= n
    ensures CutAll(us, n) == us
  {
    if us != [] { CutAllShort(us[..|us| - 1], n); }
  }

  lemma FittingRowBack(w: Wire, c: Content, i: nat)
    requires Lawful(w) && NormalRows(Rows(c)) && Fits(w, c) && i < 7
    ensures Rows(Decode(w, Encode(w, c)))[i] == Rows(c)[i]
  {
    var row := Rows(c)[i];
    DecodeEncode(w, c, i);
    RowsArePrefixes(w, Rows(c), i + 1, |Rows(c)|);
    assert KeptRow(w, Rows(c), i, |Encode(w, c)|) == row;
    CutAllShort(row, w.room(i));
    UniqueOfDistinct(row);
  }

  lemma FittingRoundTrip(w: Wire, c: Content)
    requires Lawful(w) && NormalRows(Rows(c)) && Fits(w, c)
    ensures Decode(w, Encode(w, c)) == c
  {
    forall i | 0 <= i < 7 ensures Rows(Decode(w, Encode(w, c)))[i] == Rows(c)[i] { FittingRowBack(w, c, i); }
    var a, b := Rows(Decode(w, Encode(w, c))), Rows(c);
    assert a[0] == b[0] && a[1] == b[1] && a[2] == b[2] && a[3] == b[3] && a[4] == b[4] && a[5] == b[5] && a[6] == b[6];
  }

  lemma {:induction false} SomeRowLoses(w: Wire, rows: seq<seq<string>>, k: nat, n: nat) returns (i: nat)
    requires k <= |rows| && n < |TagRows(w, rows, k)|
    ensures i < k && Kept(w, rows, i, n) < |rows[i]|
  {
    if n < |TagRows(w, rows, k - 1)| {
      i := SomeRowLoses(w, rows, k - 1, n);
    } else {
      i := k - 1;
    }
  }

  lemma ShortenedRow(w: Wire, c: Content, i: nat)
    requires Lawful(w) && NormalRows(Rows(c)) && i < 7 && Kept(w, Rows(c), i, |Encode(w, c)|) < |Rows(c)[i]|
    ensures |Rows(Decode(w, Encode(w, c)))[i]| < |Rows(c)[i]|
  {
    DecodeEncode(w, c, i);
    UniqueMeaning(CutAll(KeptRow(w, Rows(c), i, |Encode(w, c)|), w.room(i)));
  }

  lemma CutRow(w: Wire, c: Content, i: nat, u: string)
    requires Lawful(w) && NormalRows(Rows(c)) && i < 7 && |u| > w.room(i)
    ensures u !in Rows(Decode(w, Encode(w, c)))[i]
  {
    DecodeEncode(w, c, i);
    CutAllIsShort(KeptRow(w, Rows(c), i, |Encode(w, c)|), w.room(i));
    UniqueMeaning(CutAll(KeptRow(w, Rows(c), i, |Encode(w, c)|), w.room(i)));
  }

  /** The command carries all seven fields back exactly when no unit is dropped and none is cut. */
  lemma RoundTripIff(w: Wire, c: Content)
    requires Lawful(w) && NormalRows(Rows(c))
    ensures Decode(w, Encode(w, c)) == c <==> Fits(w, c)
  {
    if Fits(w, c) {
      FittingRoundTrip(w, c);
    } else if |TagRows(w, Rows(c), |Rows(c)|)| > MAX_UNITS {
      var i := SomeRowLoses(w, Rows(c), |Rows(c)|, MAX_UNITS);
      ShortenedRow(w, c, i);
    } else {
      var i, u :| 0 <= i < 7 && u in Rows(c)[i] && |u| > w.room(i);
      CutRow(w, c, i, u);
    }
  }

  // ---------------------------------------------------------------- the text form

  function Prefix(f: Field): string {
    match f
    case Replies => "reply"
    case Actions => "action"
    case Evidence => "evidence"
    case Communications => "communication"
    case Questions => "question"
    case Stages => "stage"
    case Notices => "notice"
  }

  function Tagged(f: Field, u: string): string {
    Cut(Prefix(f) + ":" + u, MAX_LENGTH)
  }

  /** Offset of the first ':' of `s`, or its length. */
  function Colon(s: string): (i: nat)
    ensures i <= |s|
    ensures ':' !in s[..i]
    ensures i < |s| ==> s[i] == ':'
  {
    if s == "" || s[0] == ':' then 0 else
    var i := Colon(s[1..]);
    assert s[..i + 1] == [s[0]] + s[1..][..i];
    i + 1
  }

  function FieldOf(prefix: string): Option<Field> {
    if prefix == "reply" then Some(Replies)
    else if prefix == "action" then Some(Actions)
    else if prefix == "evidence" then Some(Evidence)
    else if prefix == "communication" then Some(Communications)
    else if prefix == "question" then Some(Questions)
    else if prefix == "stage" then Some(Stages)
    else if prefix == "notice" then Some(Notices)
    else None
  }

  /** Field and normalised text of one raw unit; untagged units are replies, as in old commands. */
  function Parse(normalize: string -> string, raw: string): (Field, string) {
    var i := Colon(raw);
    var field := if i < |raw| then FieldOf(raw[..i]) else None;
    if field.Some? then (field.value, normalize(Cut(raw[i + 1..], MAX_LENGTH)))
    else (Replies, normalize(Cut(raw, MAX_LENGTH)))
  }

  /** A unit without one of the seven tags counts as a reply as it stands, whatever colons it has. */
  lemma OldUnitsAreReplies(normalize: string -> string, raw: string)
    requires forall f: Field :: !(|Prefix(f)| < |raw| && raw[..|Prefix(f)|] == Prefix(f) && raw[|Prefix(f)|] == ':')
    ensures Parse(normalize, raw) == (Replies, normalize(Cut(raw, MAX_LENGTH)))
  {
    var i := Colon(raw);
    KnownPrefix(raw[..i]);
  }

  lemma KnownPrefix(prefix: string)
    ensures FieldOf(prefix).Some? ==> Prefix(FieldOf(prefix).value) == prefix
  {
  }

  /** What the guard needs of `normalize_visible_text`. */
  ghost predicate Normalizer(normalize: string -> string) {
    && (forall s :: Visible(normalize(s)))
    && (forall s :: Visible(s) ==> normalize(s) == s)
  }

  /** Longest unit of field `f` that survives the bound on tagged units. */
  function Room(f: Field): nat {
    MAX_LENGTH - |Prefix(f)| - 1
  }

  lemma ColonAfterPrefix(p: string, u: string)
    requires ':' !in p
    ensures Colon(p + ":" + u) == |p|
  {
    var s := p + ":" + u;
    assert s[..|p|] == p && s[|p|] == ':';
  }

  lemma TaggedSplits(f: Field, u: string)
    ensures Tagged(f, u) == Prefix(f) + ":" + Cut(u, Room(f))
  {
  }

  lemma ColonFree(f: Field)
    ensures ':' !in Prefix(f) && FieldOf(Prefix(f)) == Some(f)
  {
  }

  lemma ParsePrefixed(normalize: string -> string, f: Field, t: string)
    requires Normalizer(normalize) && Visible(t) && |t| <= MAX_LENGTH
    ensures Parse(normalize, Prefix(f) + ":" + t) == (f, t)
  {
    var raw := Prefix(f) + ":" + t;
    ColonFree(f);
    ColonAfterPrefix(Prefix(f), t);
    assert raw[..|Prefix(f)|] == Prefix(f);
    assert raw[|Prefix(f)| + 1..] == t;
  }

  /** A tagged unit parses back to its field and its text, cut at the bound. */
  lemma ParseTagged(normalize: string -> string, f: Field, u: string)
    requires Normalizer(normalize) && Visible(u)
    ensures Parse(normalize, Tagged(f, u)) == (f, Cut(u, Room(f)))
  {
    TaggedSplits(f, u);
    ParsePrefixed(normalize, f, Cut(u, Room(f)));
  }

  function FieldAt(i: nat): Field {
    if i == 0 then Replies else if i == 1 then Actions else if i == 2 then Evidence else if i == 3 then Communications
    else if i == 4 then Questions else if i == 5 then Stages else Notices
  }

  function Index(f: Field): (i: nat)
    ensures i < 7 && FieldAt(i) == f
  {
    match f
    case Replies => 0
    case Actions => 1
    case Evidence => 2
    case Communications => 3
    case Questions => 4
    case Stages => 5
    case Notices => 6
  }

  function TextWire(normalize: string -> string): Wire {
    Wire((i: nat, u: string) => Tagged(FieldAt(i), u),
         raw => var (f, text) := Parse(normalize, raw); (Index(f), text),
         (i: nat) => Room(FieldAt(i)))
  }

  lemma TextWireParses(normalize: string -> string, i: nat, u: string)
    requires Normalizer(normalize) && i < 7 && Visible(u)
    ensures var w := TextWire(normalize); w.parse(w.tag(i, u)) == (i, Cut(u, w.room(i)))
  {
    ParseTagged(normalize, FieldAt(i), u);
    FieldIndex(i);
    TextWireReads(normalize, i, u, Cut(u, Room(FieldAt(i))));
  }

  lemma FieldIndex(i: nat)
    requires i < 7
    ensures Index(FieldAt(i)) == i
  {
  }

  lemma TextWireReads(normalize: string -> string, i: nat, u: string, text: string)
    requires Parse(normalize, Tagged(FieldAt(i), u)) == (FieldAt(i), text) && Index(FieldAt(i)) == i
    ensures var w := TextWire(normalize); w.parse(w.tag(i, u)) == (i, text)
  {
  }

  lemma RoomPositive(f: Field)
    ensures Room(f) > 0
  {
  }

  lemma TextWireLawful(normalize: string -> string)
    requires Normalizer(normalize)
    ensures Lawful(TextWire(normalize))
  {
    var w := TextWire(normalize);
    forall i: nat, u | i < 7 && Visible(u) ensures w.parse(w.tag(i, u)) == (i, Cut(u, w.room(i))) {
      TextWireParses(normalize, i, u);
    }
    forall i: nat ensures w.room(i) > 0 {
      RoomPositive(FieldAt(i));
    }
  }
}
