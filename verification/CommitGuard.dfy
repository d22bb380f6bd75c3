/** The recheck that both stores run inside the commit transaction. */
module CommitGuard {
  import opened Common
  import opened Progression
  import opened ComparisonUnits

  // ---------------------------------------------------------------- the recheck at commit

  /** What the stored response of a turn reads back as. `Corrupt` is JSON text that does not parse. */
  datatype StoredResponse = Mapping(content: Content) | NotMapping | Corrupt

  datatype Latest = Latest(id: Id, response: StoredResponse)

  datatype Command = Command(expected: Option<Id>, units: seq<string>)

  datatype Decision = Accept | NoProgress | Conflict | InvalidRound | DuplicateId

  predicate Guarded(cmd: Command) {
    cmd.units != [] || cmd.expected.Some?
  }

  /** `comparison_is_equivalent`. */
  predicate ComparisonEquivalent(m: Measures, w: Wire, units: seq<string>, previous: Content) {
    var c := Decode(w, units);
    AllUnits(c) != [] && FindDuplicate(m, c, [previous]).duplicate
  }

  predicate IdChanged(cmd: Command, latest: Option<Latest>) {
    cmd.expected != if latest.Some? then Some(latest.value.id) else None
  }

  /** `_recheck_consultation_commit` of app/db/session.py; `same` compares the candidate with a response. */
  function SqliteDecision(same: Content -> bool, cmd: Command, latest: Option<Latest>): Decision {
    if !Guarded(cmd) then Accept
    else if IdChanged(cmd, latest) then
      if latest.None? || latest.value.response.NotMapping? then Conflict
      else
        var previous := if latest.value.response.Corrupt? then NOTHING else latest.value.response.content;
        if same(previous) then NoProgress else Conflict
    else if latest.None? || cmd.units == [] then Accept
    else if latest.value.response.Mapping? && same(latest.value.response.content) then NoProgress
    else Accept
  }

  /** `_recheck_consultation_commit` of app/db/postgres.py; JSONB never reads back as corrupt text. */
  function PostgresDecision(same: Content -> bool, cmd: Command, latest: Option<Latest>): Decision {
    if !Guarded(cmd) then Accept
    else
      var equivalent := cmd.units != [] && latest.Some? && latest.value.response.Mapping?
                        && same(latest.value.response.content);
      if IdChanged(cmd, latest) then (if equivalent then NoProgress else Conflict)
      else if equivalent then NoProgress
      else Accept
  }

  function RecheckSqlite(m: Measures, w: Wire, cmd: Command, latest: Option<Latest>): Decision {
    SqliteDecision(c => ComparisonEquivalent(m, w, cmd.units, c), cmd, latest)
  }

  function RecheckPostgres(m: Measures, w: Wire, cmd: Command, latest: Option<Latest>): Decision {
    PostgresDecision(c => ComparisonEquivalent(m, w, cmd.units, c), cmd, latest)
  }

  lemma DecodeNothing(w: Wire)
    ensures AllUnits(Decode(w, [])) == []
  {
    assert forall i :: Collect(w, [], i) == [];
    assert Decode(w, []) == NOTHING;
    NothingHasNoUnits(NOTHING);
  }

  lemma NothingHasNoUnits(c: Content)
    requires c == NOTHING
    ensures CoreUnits(c) == [] && AllUnits(c) == []
  {
    NoCoreUnits(c);
    assert CoreUnits(c) + c.notices == [];
  }

  lemma NoCoreUnits(c: Content)
    requires forall f :: f != Notices ==> Get(c, f) == []
    ensures CoreUnits(c) == []
  {
    if CoreUnits(c) != [] { CoreUnitsMeaning(c, CoreUnits(c)[0]); }
  }

  lemma VerdictAgainstNothing(m: Measures, c: Content)
    ensures FindDuplicate(m, c, [NOTHING]).duplicate <==> CoreUnits(c) == []
  {
    VerdictIsNovelty(m, c, [NOTHING]);
    if CoreUnits(c) != [] {
      var u := CoreUnits(c)[0];
      CoreUnitsMeaning(c, u);
      var f :| f != Notices && u in Get(c, f);
      assert IsNovel(m, c, [NOTHING], f, u);
    } else {
      NoCoreNoNovel(m, c, [NOTHING]);
    }
  }

  lemma ReadableAgrees(m: Measures, w: Wire, cmd: Command, latest: Option<Latest>)
    requires latest.Some? ==> !latest.value.response.Corrupt?
    ensures RecheckSqlite(m, w, cmd, latest) == RecheckPostgres(m, w, cmd, latest)
  {
    if latest.Some? && latest.value.response.Mapping? {
      if cmd.units == [] { DecodeNothing(w); }
      MappingAgrees(m, w, cmd, latest.value.id, latest.value.response.content);
    }
  }

  lemma MappingAgrees(m: Measures, w: Wire, cmd: Command, id: Id, previous: Content)
    requires cmd.units == [] ==> !ComparisonEquivalent(m, w, cmd.units, previous)
    ensures var latest := Some(Latest(id, Mapping(previous)));
      RecheckSqlite(m, w, cmd, latest) == RecheckPostgres(m, w, cmd, latest)
  {
    DecisionsAgree(c => ComparisonEquivalent(m, w, cmd.units, c), cmd, id, previous);
  }

  lemma DecisionsAgree(same: Content -> bool, cmd: Command, id: Id, previous: Content)
    requires cmd.units == [] ==> !same(previous)
    ensures var latest := Some(Latest(id, Mapping(previous)));
      SqliteDecision(same, cmd, latest) == PostgresDecision(same, cmd, latest)
  {
  }

  lemma EquivalentToNothing(m: Measures, w: Wire, units: seq<string>)
    ensures ComparisonEquivalent(m, w, units, NOTHING)
            <==> AllUnits(Decode(w, units)) != [] && CoreUnits(Decode(w, units)) == []
  {
    VerdictAgainstNothing(m, Decode(w, units));
  }

  lemma CorruptDiffers(m: Measures, w: Wire, cmd: Command, id: Id)
    ensures var latest := Some(Latest(id, Corrupt));
      RecheckSqlite(m, w, cmd, latest) == RecheckPostgres(m, w, cmd, latest) <==>
      !(Guarded(cmd) && IdChanged(cmd, latest) && ComparisonEquivalent(m, w, cmd.units, NOTHING))
  {
  }

  /**
   The two stores decide alike on every command and latest turn, except that SQLite reads
   unparseable text as an empty response: then they differ exactly when the latest turn
   changed and the candidate consists of notices only.
   */
  lemma RechecksAgreeIff(m: Measures, w: Wire, cmd: Command, latest: Option<Latest>)
    ensures RecheckSqlite(m, w, cmd, latest) == RecheckPostgres(m, w, cmd, latest) <==>
            !(latest.Some? && latest.value.response.Corrupt? && Guarded(cmd) && IdChanged(cmd, latest)
              && AllUnits(Decode(w, cmd.units)) != [] && CoreUnits(Decode(w, cmd.units)) == [])
  {
    if latest.Some? && latest.value.response.Corrupt? {
      CorruptDiffers(m, w, cmd, latest.value.id);
      EquivalentToNothing(m, w, cmd.units);
    } else {
      ReadableAgrees(m, w, cmd, latest);
    }
  }

  lemma {:induction false} NoTags(w: Wire, rows: seq<seq<string>>, k: nat)
    requires k <= |rows| && forall i :: 0 <= i < k ==> rows[i] == []
    ensures TagRows(w, rows, k) == []
  {
    if k > 0 { NoTags(w, rows, k - 1); }
  }

  lemma OneTag(w: Wire, rows: seq<seq<string>>)
    requires |rows| == 7 && rows[6] == ["a"] && forall i :: 0 <= i < 6 ==> rows[i] == []
    ensures TagRows(w, rows, 7) == [w.tag(6, "a")]
  {
    NoTags(w, rows, 6);
    assert ["a"][..0] == [];
    assert TagAll(w, 6, ["a"]) == [w.tag(6, "a")];
  }

  lemma OneNotice(w: Wire, c: Content)
    requires c == NOTHING.(notices := ["a"]) && w.room(6) >= 1
    ensures NormalRows(Rows(c)) && Fits(w, c) && Encode(w, c) == [w.tag(6, "a")]
  {
    NoticeRows(c);
    OneTag(w, Rows(c));
    OneUnitFits(w, c);
  }

  lemma NoticeRows(c: Content)
    requires c == NOTHING.(notices := ["a"])
    ensures Rows(c)[6] == ["a"] && forall i :: 0 <= i < 6 ==> Rows(c)[i] == []
    ensures NormalRows(Rows(c))
  {
    assert Rows(c) == [[], [], [], [], [], [], ["a"]];
  }

  lemma OneUnitFits(w: Wire, c: Content)
    requires Rows(c)[6] == ["a"] && (forall i :: 0 <= i < 6 ==> Rows(c)[i] == []) && w.room(6) >= 1
    requires |TagRows(w, Rows(c), 7)| == 1
    ensures Fits(w, c) && Encode(w, c) == TagRows(w, Rows(c), 7)
  {
  }

  lemma NoticeCommand(w: Wire, units: seq<string>)
    requires Lawful(w) && units == [w.tag(6, "a")]
    ensures AllUnits(Decode(w, units)) != [] && CoreUnits(Decode(w, units)) == []
  {
    var c := NOTHING.(notices := ["a"]);
    OneNotice(w, c);
    FittingRoundTrip(w, c);
    CoreOfNotice(c);
  }

  lemma NoticeTag(normalize: string -> string)
    ensures TextWire(normalize).tag(6, "a") == "notice:a"
  {
    NoticeText("a");
    assert FieldAt(6) == Notices;
  }

  lemma NoticeText(u: string)
    requires |u| == 1
    ensures Tagged(Notices, u) == "notice:" + u
  {
    assert Prefix(Notices) + ":" == "notice:";
  }

  /** The two stores do part: a command of one notice, another latest turn, and stored text that does not parse. */
  lemma RechecksDiffer(m: Measures, normalize: string -> string, units: seq<string>, id: Id)
    requires Normalizer(normalize) && units == ["notice:a"]
    ensures var (w, cmd, latest) := (TextWire(normalize), Command(None, units), Some(Latest(id, Corrupt)));
      RecheckSqlite(m, w, cmd, latest) != RecheckPostgres(m, w, cmd, latest)
  {
    TextWireLawful(normalize);
    NoticeTag(normalize);
    NoticeDiffers(m, TextWire(normalize), units, id);
  }

  lemma NoticeDiffers(m: Measures, w: Wire, units: seq<string>, id: Id)
    requires Lawful(w) && units == [w.tag(6, "a")]
    ensures var (cmd, latest) := (Command(None, units), Some(Latest(id, Corrupt)));
      RecheckSqlite(m, w, cmd, latest) != RecheckPostgres(m, w, cmd, latest)
  {
    NoticeCommand(w, units);
    NoticesDiffer(m, w, units, id);
  }

  lemma NoticesDiffer(m: Measures, w: Wire, units: seq<string>, id: Id)
    requires units != [] && AllUnits(Decode(w, units)) != [] && CoreUnits(Decode(w, units)) == []
    ensures var (cmd, latest) := (Command(None, units), Some(Latest(id, Corrupt)));
      RecheckSqlite(m, w, cmd, latest) != RecheckPostgres(m, w, cmd, latest)
  {
    EquivalentToNothing(m, w, units);
    CorruptDiffers(m, w, Command(None, units), id);
  }

  lemma CoreOfNotice(c: Content)
    requires c == NOTHING.(notices := ["a"])
    ensures CoreUnits(c) == [] && AllUnits(c) != []
  {
    NoCoreUnits(c);
    UniqueMeaning(CoreUnits(c) + c.notices);
    assert c.notices[0] in AllUnits(c);
  }

  lemma FirstRowSent(w: Wire, c: Content, i: nat)
    requires i < 7 && Rows(c)[i] != [] && TagRows(w, Rows(c), i) == []
    ensures Encode(w, c) != []
    ensures var kept := KeptRow(w, Rows(c), i, |Encode(w, c)|); kept != [] && kept[0] == Rows(c)[i][0]
  {
    RowsArePrefixes(w, Rows(c), i + 1, |Rows(c)|);
    assert |TagRows(w, Rows(c), i + 1)| >= 1;
  }

  lemma UniqueKeepsFirst(us: seq<string>)
    requires us != [] && us[0] != ""
    ensures Unique(us) != []
  {
    UniqueMeaning(us);
    assert us[0] in us;
  }

  lemma FirstRowKept(w: Wire, c: Content, i: nat)
    requires Lawful(w) && NormalRows(Rows(c)) && i < 6 && Rows(c)[i] != [] && TagRows(w, Rows(c), i) == []
    ensures Rows(Decode(w, Encode(w, c)))[i] != []
  {
    FirstRowSent(w, c, i);
    var kept := KeptRow(w, Rows(c), i, |Encode(w, c)|);
    assert Rows(c)[i][0] in Rows(c)[i];
    CutAllKeeps(kept, w.room(i));
    UniqueKeepsFirst(CutAll(kept, w.room(i)));
    DecodeEncode(w, c, i);
  }

  lemma {:induction false} CutAllKeeps(us: seq<string>, n: nat)
    requires us != [] && us[0] != "" && n > 0
    ensures CutAll(us, n) != [] && CutAll(us, n)[0] != ""
  {
    if |us| > 1 { CutAllKeeps(us[..|us| - 1], n); } else { assert us[..0] == []; }
  }

  lemma {:induction false} FirstNonEmptyRow(w: Wire, rows: seq<seq<string>>, k: nat) returns (i: nat)
    requires k < |rows| && rows[k] != []
    ensures i <= k && rows[i] != [] && TagRows(w, rows, i) == []
  {
    if TagRows(w, rows, k) == [] {
      i := k;
    } else {
      var j := FilledBefore(w, rows, k);
      i := FirstNonEmptyRow(w, rows, j);
    }
  }

  lemma {:induction false} FilledBefore(w: Wire, rows: seq<seq<string>>, k: nat) returns (j: nat)
    requires k <= |rows| && TagRows(w, rows, k) != []
    ensures j < k && rows[j] != []
  {
    if rows[k - 1] != [] { j := k - 1; } else { j := FilledBefore(w, rows, k - 1); }
  }

  lemma CoreRow(c: Content) returns (k: nat)
    requires CoreUnits(c) != []
    ensures k < 6 && Rows(c)[k] != []
  {
    var u := CoreUnits(c)[0];
    CoreUnitsMeaning(c, u);
    var f :| f != Notices && u in Get(c, f);
    k := Index(f);
    assert Rows(c)[k] == Get(c, f);
  }

  lemma RowIsCore(c: Content, i: nat, v: string)
    requires i < 6 && v in Rows(c)[i] && v != ""
    ensures CoreUnits(c) != []
  {
    assert Rows(c)[i] == Get(c, FieldAt(i)) && FieldAt(i) != Notices;
    CoreUnitsMeaning(c, v);
  }

  /** The first unit of the command is a core unit whenever there is one, and is not lost on the way. */
  lemma CoreSurvives(w: Wire, c: Content)
    requires Lawful(w) && NormalRows(Rows(c)) && CoreUnits(c) != []
    ensures CoreUnits(Decode(w, Encode(w, c))) != []
  {
    var k := CoreRow(c);
    var i := FirstNonEmptyRow(w, Rows(c), k);
    FirstRowKept(w, c, i);
    var d := Decode(w, Encode(w, c));
    var v := Rows(d)[i][0];
    DecodedUnits(w, Encode(w, c), i, v);
    RowIsCore(d, i, v);
  }

  lemma DecodedUnits(w: Wire, raw: seq<string>, i: nat, v: string)
    requires i < 7 && v in Rows(Decode(w, raw))[i]
    ensures v != ""
  {
    DecodedRow(w, raw, i);
    UniqueMeaning(Collect(w, FirstUnits(raw), i));
  }

  /** The two stores decide alike on every command that the pipeline sends, whatever the latest turn is. */
  lemma RechecksAgreeOnCommits(m: Measures, w: Wire, c: Content, history: seq<Content>, strict: bool,
                               expected: Option<Id>, latest: Option<Latest>)
    requires Lawful(w) && NormalRows(Rows(c)) && (strict ==> !FindDuplicate(m, c, history).duplicate)
    ensures var cmd := Command(expected, if strict then Encode(w, c) else []);
      RecheckSqlite(m, w, cmd, latest) == RecheckPostgres(m, w, cmd, latest)
  {
    var cmd := Command(expected, if strict then Encode(w, c) else []);
    if strict {
      VerdictIsNovelty(m, c, history);
      if CoreUnits(c) == [] { NoCoreNoNovel(m, c, history); }
      CoreSurvives(w, c);
    } else {
      DecodeNothing(w);
    }
    RechecksAgreeIff(m, w, cmd, latest);
  }

  /**
   With the latest turn unchanged, the recheck rejects exactly the commands whose decoded units say nothing new
   beside it.
  */
  lemma RecheckMeaning(m: Measures, w: Wire, cmd: Command, id: Id, previous: Content)
    requires cmd.expected == Some(id)
    ensures RecheckSqlite(m, w, cmd, Some(Latest(id, Mapping(previous)))) ==
            if AllUnits(Decode(w, cmd.units)) != [] && !HasNovelUnit(m, Decode(w, cmd.units), [previous])
            then NoProgress else Accept
  {
    EquivalentIff(m, w, cmd.units, previous);
    if cmd.units == [] { DecodeNothing(w); }
    UnchangedDecision(m, w, cmd, id, previous);
  }

  /** The candidate carries units, and none of its core units is new beside the response. */
  ghost predicate NothingNew(m: Measures, w: Wire, cmd: Command, previous: Content) {
    AllUnits(Decode(w, cmd.units)) != [] && !HasNovelUnit(m, Decode(w, cmd.units), [previous])
  }

  /** The latest turn is not the one the candidate was checked against. */
  predicate Overtaken(cmd: Command, latest: Option<Latest>) {
    if latest.None? then cmd.expected.Some? else cmd.expected != Some(latest.value.id)
  }

  /**
   What the stores answer in every case. A candidate that carries neither units nor a turn to
   stand behind is not checked. One that was overtaken is refused, for lack of progress where
   it says nothing new beside the turn that came first, and for the conflict otherwise; one
   that was not is refused for lack of progress alone.
   */
  lemma RecheckOutcome(m: Measures, w: Wire, cmd: Command, latest: Option<Latest>)
    requires latest.Some? ==> !latest.value.response.Corrupt?
    ensures var guarded := cmd.units != [] || cmd.expected.Some?;
      var stale := latest.Some? && latest.value.response.Mapping?
                   && NothingNew(m, w, cmd, latest.value.response.content);
      RecheckPostgres(m, w, cmd, latest) == RecheckSqlite(m, w, cmd, latest)
      && RecheckSqlite(m, w, cmd, latest) == if !guarded then Accept
                                             else if stale then NoProgress
                                             else if Overtaken(cmd, latest) then Conflict
                                             else Accept
  {
    ReadableAgrees(m, w, cmd, latest);
    if cmd.units == [] { DecodeNothing(w); }
    if latest.Some? && latest.value.response.Mapping? {
      EquivalentIff(m, w, cmd.units, latest.value.response.content);
      MappedDecision(c => ComparisonEquivalent(m, w, cmd.units, c), cmd, latest);
    }
  }

  lemma MappedDecision(same: Content -> bool, cmd: Command, latest: Option<Latest>)
    requires latest.Some? && latest.value.response.Mapping?
    requires cmd.units == [] ==> !same(latest.value.response.content)
    ensures SqliteDecision(same, cmd, latest) ==
            if !(cmd.units != [] || cmd.expected.Some?) then Accept
            else if same(latest.value.response.content) then NoProgress
            else if Overtaken(cmd, latest) then Conflict else Accept
  {
  }

  /** Text that does not parse counts as an empty response for SQLite once the candidate was overtaken. */
  lemma CorruptOutcome(m: Measures, w: Wire, cmd: Command, id: Id)
    ensures var latest := Some(Latest(id, Corrupt));
      RecheckSqlite(m, w, cmd, latest) ==
      if !(cmd.units != [] || cmd.expected.Some?) || !Overtaken(cmd, latest) then Accept
      else if AllUnits(Decode(w, cmd.units)) != [] && CoreUnits(Decode(w, cmd.units)) == [] then NoProgress
      else Conflict
  {
    EquivalentToNothing(m, w, cmd.units);
    CorruptDecision(c => ComparisonEquivalent(m, w, cmd.units, c), cmd, id);
  }

  lemma CorruptDecision(same: Content -> bool, cmd: Command, id: Id)
    ensures var latest := Some(Latest(id, Corrupt));
      SqliteDecision(same, cmd, latest) ==
      if !(cmd.units != [] || cmd.expected.Some?) || !Overtaken(cmd, latest) then Accept
      else if same(NOTHING) then NoProgress else Conflict
  {
  }

  lemma EquivalentIff(m: Measures, w: Wire, units: seq<string>, previous: Content)
    ensures ComparisonEquivalent(m, w, units, previous) <==>
            AllUnits(Decode(w, units)) != [] && !HasNovelUnit(m, Decode(w, units), [previous])
  {
    VerdictIsNovelty(m, Decode(w, units), [previous]);
  }

  lemma UnchangedDecision(m: Measures, w: Wire, cmd: Command, id: Id, previous: Content)
    requires cmd.expected == Some(id) && (cmd.units == [] ==> !ComparisonEquivalent(m, w, cmd.units, previous))
    ensures RecheckSqlite(m, w, cmd, Some(Latest(id, Mapping(previous)))) ==
            if ComparisonEquivalent(m, w, cmd.units, previous) then NoProgress else Accept
  {
  }

  /** The latest turn of a history whose last turn has this id. */
  function LatestTurn(history: seq<Content>, id: Option<Id>): Option<Latest>
    requires id.Some? <==> history != []
  {
    if history == [] then None else Some(Latest(id.value, Mapping(history[|history| - 1])))
  }

  /** A recheck accepts unless the latest turn changed or the command says nothing new beside it. */
  lemma AcceptedUnless(m: Measures, w: Wire, cmd: Command, latest: Option<Latest>)
    requires !IdChanged(cmd, latest)
    requires latest.Some? && latest.value.response.Mapping? ==>
             !ComparisonEquivalent(m, w, cmd.units, latest.value.response.content)
    ensures RecheckSqlite(m, w, cmd, latest) == Accept && RecheckPostgres(m, w, cmd, latest) == Accept
  {
  }

  lemma ChangedIsRefused(m: Measures, w: Wire, cmd: Command, latest: Option<Latest>)
    requires Guarded(cmd) && IdChanged(cmd, latest)
    ensures RecheckSqlite(m, w, cmd, latest) != Accept
  {
  }

  lemma NovelIsNotEquivalent(m: Measures, w: Wire, units: seq<string>, previous: Content)
    requires HasNovelUnit(m, Decode(w, units), [previous])
    ensures !ComparisonEquivalent(m, w, units, previous)
  {
    VerdictIsNovelty(m, Decode(w, units), [previous]);
  }

  lemma NovelBesideLast(m: Measures, c: Content, history: seq<Content>)
    requires HasNovelUnit(m, c, history) && history != []
    ensures HasNovelUnit(m, c, [history[|history| - 1]])
  {
    var f, u :| IsNovel(m, c, history, f, u);
    assert IsNovel(m, c, [history[|history| - 1]], f, u);
  }

  /** A candidate with a novel unit that was not truncated is never rejected while the latest turn is unchanged. */
  lemma NovelIsAccepted(m: Measures, w: Wire, c: Content, history: seq<Content>, cmd: Command, latest: Option<Latest>)
    requires Lawful(w) && NormalRows(Rows(c)) && Fits(w, c) && HasNovelUnit(m, c, history)
    requires (cmd.expected.Some? <==> history != []) && cmd.units == Encode(w, c)
             && latest == LatestTurn(history, cmd.expected)
    ensures RecheckSqlite(m, w, cmd, latest) == Accept && RecheckPostgres(m, w, cmd, latest) == Accept
  {
    FittingRoundTrip(w, c);
    if history != [] {
      NovelBesideLast(m, c, history);
      NovelIsNotEquivalent(m, w, cmd.units, history[|history| - 1]);
    }
    AcceptedUnless(m, w, cmd, latest);
  }

  /** The same for a candidate that passed the pre-check on the whole history. */
  lemma PrecheckCarriesOver(m: Measures, w: Wire, c: Content, history: seq<Content>, id: Option<Id>)
    requires Lawful(w) && NormalRows(Rows(c)) && Fits(w, c)
    requires (id.Some? <==> history != []) && !FindDuplicate(m, c, history).duplicate
    ensures var cmd := Command(id, Encode(w, c));
            RecheckSqlite(m, w, cmd, LatestTurn(history, id)) == Accept
              && RecheckPostgres(m, w, cmd, LatestTurn(history, id)) == Accept
  {
    VerdictIsNovelty(m, c, history);
    NovelIsAccepted(m, w, c, history, Command(id, Encode(w, c)), LatestTurn(history, id));
  }

  // ---------------------------------------------------------------- truncation

  /** `i + 1` letters. */
  function Word(i: nat): string {
    seq(i + 1, _ => 'a')
  }

  /** Forty-eight replies, and optionally one action after them. */
  function Long(actions: seq<string>): Content {
    NOTHING.(replies := seq(48, i requires 0 <= i < 48 => Word(i)), actions := actions)
  }

  lemma LongRows(actions: seq<string>, u: string)
    requires actions == [] || actions == [u]
    requires |u| == 1 && Visible(u)
    ensures NormalRows(Rows(Long(actions)))
  {
    var rows := Rows(Long(actions));
    assert forall i :: 0 <= i < 48 ==> |Long(actions).replies[i]| == i + 1;
    forall i | 0 <= i < |rows| ensures DistinctUnits(rows[i]) && Clean(rows[i]) {
      if i == 0 {
        forall x | x in rows[0] ensures x != "" && Visible(x) {
          var k :| 0 <= k < 48 && rows[0][k] == x;
          assert x == Word(k);
        }
      }
    }
  }

  lemma {:induction false} TagsOfLong(w: Wire, actions: seq<string>, k: nat)
    requires 2 <= k <= 7 && |actions| <= 1
    ensures TagRows(w, Rows(Long(actions)), k) == TagAll(w, 0, Long([]).replies) + TagAll(w, 1, actions)
  {
    var rows := Rows(Long(actions));
    if k == 2 {
      assert TagRows(w, rows, 0) == [];
      assert TagRows(w, rows, 1) == TagAll(w, 0, rows[0]);
    } else {
      TagsOfLong(w, actions, k - 1);
      assert rows[k - 1] == [];
    }
  }

  lemma LongRoundTrip(w: Wire, u: string)
    requires Lawful(w) && w.room(0) >= 48 && |u| == 1 && Visible(u)
    ensures Decode(w, Encode(w, Long([u]))) == Long([])
  {
    TagsOfLong(w, [u], |Rows(Long([u]))|);
    TagsOfLong(w, [], |Rows(Long([]))|);
    assert Encode(w, Long([u])) == Encode(w, Long([]));
    LongRows([], u);
    FittingRoundTrip(w, Long([]));
  }

  lemma LongHasUnits()
    ensures AllUnits(Long([])) != []
  {
    var x := Long([]).replies[0];
    assert x == Word(0) && |Word(0)| == 1;
    assert x in Long([]).replies;
    assert x in Get(Long([]), Replies) && x != "";
    CoreUnitsMeaning(Long([]), x);
    UniqueMeaning(CoreUnits(Long([])) + Long([]).notices);
    assert x in AllUnits(Long([]));
  }

  /**
   Truncation makes the recheck reject a turn that does make progress: the forty-ninth
   unit is new, passes the pre-check, and is not in the command.
   */
  lemma TruncatedRecheckRejects(m: Measures, w: Wire, u: string, id: Id)
    requires Lawful(w) && w.room(0) >= 48 && |u| == 1 && Visible(u)
    ensures !FindDuplicate(m, Long([u]), [Long([])]).duplicate
    ensures RecheckSqlite(m, w, Command(Some(id), Encode(w, Long([u]))), Some(Latest(id, Mapping(Long([])))))
            == NoProgress
  {
    assert IsNovel(m, Long([u]), [Long([])], Actions, u);
    VerdictIsNovelty(m, Long([u]), [Long([])]);
    LongRoundTrip(w, u);
    LongHasUnits();
    EqualTurnNotNovel(m, Long([]), [Long([])]);
    RecheckMeaning(m, w, Command(Some(id), Encode(w, Long([u]))), id, Long([]));
  }
}
