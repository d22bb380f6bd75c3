/**
 Provider health with hysteresis: app/health/service.py over the store of app/providers/health.py.
 */
module Health {
  import opened Common

  datatype Outcome = Success | Timeout | NetworkError | RateLimited | ServerError | InvalidOutput | Rejected |
      ConfigurationError | ProviderError

  datatype Status = Unknown | Healthy | Degraded

  datatype CallResult = CallResult(id: Id, provider: string, outcome: Outcome, at: Time)

  datatype HealthState = HealthState(provider: string, status: Status, samples: nat, failures: nat, successRun: nat,
                                     failureRun: nat, lastAt: Option<Time>, updatedAt: Time)

  datatype Store = Store(results: seq<CallResult>, states: map<string, HealthState>)

  /** `sample_limit` is between 4 and 100. */
  datatype Settings = Settings(window: Time, sampleLimit: nat)

  predicate ValidSettings(c: Settings) {
    c.window > 0 && 4 <= c.sampleLimit <= 100
  }

  // ---------------------------------------------------------------- the newest results

  predicate InWindow(r: CallResult, provider: string, since: Time) {
    r.provider == provider && r.at >= since
  }

  function Windowed(rs: seq<CallResult>, provider: string, since: Time): seq<CallResult> {
    if rs == [] then []
    else
      Windowed(rs[..|rs| - 1], provider, since)
      + (if InWindow(rs[|rs| - 1], provider, since) then [rs[|rs| - 1]] else [])
  }

  lemma {:induction false} WindowedMeaning(rs: seq<CallResult>, provider: string, since: Time)
    ensures forall r :: r in Windowed(rs, provider, since) <==> r in rs && InWindow(r, provider, since)
  {
    if rs != [] {
      WindowedMeaning(rs[..|rs| - 1], provider, since);
      assert rs == rs[..|rs| - 1] + [rs[|rs| - 1]];
    }
  }

  /** Descending (occurred_at, id). */
  predicate NotOlder(a: CallResult, b: CallResult) {
    a.at > b.at || (a.at == b.at && a.id >= b.id)
  }

  predicate NewestFirst(rs: seq<CallResult>) {
    forall i, j :: 0 <= i < j < |rs| ==> NotOlder(rs[i], rs[j])
  }

  function Insert(r: CallResult, sorted: seq<CallResult>): seq<CallResult> {
    if sorted == [] || NotOlder(r, sorted[0]) then [r] + sorted else [sorted[0]] + Insert(r, sorted[1..])
  }

  function Sorted(rs: seq<CallResult>): seq<CallResult> {
    if rs == [] then [] else Insert(rs[|rs| - 1], Sorted(rs[..|rs| - 1]))
  }

  lemma HeadStaysFirst(r: CallResult, sorted: seq<CallResult>, rest: seq<CallResult>)
    requires sorted != [] && NewestFirst(sorted) && !NotOlder(r, sorted[0])
    requires multiset(rest) == multiset(sorted[1..]) + multiset{r} && NewestFirst(rest)
    ensures NewestFirst([sorted[0]] + rest)
  {
    forall j | 0 <= j < |rest| ensures NotOlder(sorted[0], rest[j]) {
      assert rest[j] in multiset(rest);
      if rest[j] != r { assert rest[j] in sorted[1..]; }
    }
  }

  lemma {:induction false} InsertKeeps(r: CallResult, sorted: seq<CallResult>)
    requires NewestFirst(sorted)
    ensures NewestFirst(Insert(r, sorted)) && multiset(Insert(r, sorted)) == multiset(sorted) + multiset{r}
  {
    if sorted == [] || NotOlder(r, sorted[0]) {
      NewHead(r, sorted);
    } else {
      InsertKeeps(r, sorted[1..]);
      assert sorted == [sorted[0]] + sorted[1..];
      HeadStaysFirst(r, sorted, Insert(r, sorted[1..]));
    }
  }

  lemma NewHead(r: CallResult, sorted: seq<CallResult>)
    requires NewestFirst(sorted) && (sorted == [] || NotOlder(r, sorted[0]))
    ensures NewestFirst([r] + sorted) && multiset([r] + sorted) == multiset(sorted) + multiset{r}
  {
    forall j | 0 <= j < |sorted| ensures NotOlder(r, sorted[j]) {
      if j > 0 { assert NotOlder(sorted[0], sorted[j]); }
    }
  }

  lemma {:induction false} SortedMeaning(rs: seq<CallResult>)
    ensures NewestFirst(Sorted(rs)) && multiset(Sorted(rs)) == multiset(rs)
  {
    if rs != [] {
      SortedMeaning(rs[..|rs| - 1]);
      InsertKeeps(rs[|rs| - 1], Sorted(rs[..|rs| - 1]));
      assert rs == rs[..|rs| - 1] + [rs[|rs| - 1]];
    }
  }

  function Take(rs: seq<CallResult>, limit: nat): seq<CallResult> {
    if |rs| <= limit then rs else rs[..limit]
  }

  /** `recent_results`. */
  function Recent(rs: seq<CallResult>, provider: string, since: Time, limit: nat): seq<CallResult> {
    Take(Sorted(Windowed(rs, provider, since)), limit)
  }

  lemma TakeMeaning(sorted: seq<CallResult>, limit: nat)
    requires NewestFirst(sorted) && |sorted| > limit
    ensures NewestFirst(sorted[..limit])
    ensures multiset(sorted) == multiset(sorted[..limit]) + multiset(sorted[limit..])
    ensures forall x, y :: x in sorted[..limit] && y in sorted[limit..] ==> NotOlder(x, y)
  {
    assert sorted == sorted[..limit] + sorted[limit..];
    forall x, y | x in sorted[..limit] && y in sorted[limit..] ensures NotOlder(x, y) {
      var i :| 0 <= i < limit && sorted[i] == x;
      var j :| limit <= j < |sorted| && sorted[j] == y;
    }
  }

  /** The newest of the windowed results: as many as the limit allows, and none left out is newer than one taken. */
  lemma RecentMeaning(rs: seq<CallResult>, provider: string, since: Time, limit: nat)
    ensures var taken, all := Recent(rs, provider, since, limit), Windowed(rs, provider, since);
      && NewestFirst(taken) && |taken| == (if |all| <= limit then |all| else limit)
      && exists left :: NewestOf(all, taken, left)
  {
    SortedMeaning(Windowed(rs, provider, since));
    NewestTaken(Windowed(rs, provider, since), Sorted(Windowed(rs, provider, since)), limit);
  }

  /** `taken` and `left` are all the results together, and nothing left is newer than anything taken. */
  predicate NewestOf(all: seq<CallResult>, taken: seq<CallResult>, left: seq<CallResult>) {
    multiset(all) == multiset(taken) + multiset(left) && forall x, y :: x in taken && y in left ==> NotOlder(x, y)
  }

  lemma NewestTaken(all: seq<CallResult>, sorted: seq<CallResult>, limit: nat)
    requires NewestFirst(sorted) && multiset(sorted) == multiset(all)
    ensures NewestFirst(Take(sorted, limit)) && |Take(sorted, limit)| == (if |all| <= limit then |all| else limit)
    ensures exists left :: NewestOf(all, Take(sorted, limit), left)
  {
    assert |multiset(sorted)| == |multiset(all)|;
    if |all| > limit {
      TakeMeaning(sorted, limit);
      assert NewestOf(all, Take(sorted, limit), sorted[limit..]);
    } else {
      assert NewestOf(all, Take(sorted, limit), []);
    }
  }

  // ---------------------------------------------------------------- the verdict

  function Failures(rs: seq<CallResult>): (n: nat)
    ensures n <= |rs|
  {
    if rs == [] then 0 else Failures(rs[..|rs| - 1]) + if rs[|rs| - 1].outcome.Success? then 0 else 1
  }

  /** How many of the first results agree with `success`. */
  function Streak(rs: seq<CallResult>, success: bool): (n: nat)
    ensures n <= |rs|
  {
    if rs == [] || rs[0].outcome.Success? != success then 0 else 1 + Streak(rs[1..], success)
  }

  lemma ThreeInARow(rs: seq<CallResult>, success: bool)
    ensures Streak(rs, success) >= 3 <==> |rs| >= 3 && forall i :: 0 <= i < 3 ==> rs[i].outcome.Success? == success
  {
    if |rs| >= 3 && rs[0].outcome.Success? == success {
      var tail := rs[1..];
      assert Streak(rs, success) == 1 + Streak(tail, success);
      if tail[0].outcome.Success? == success {
        assert Streak(tail, success) == 1 + Streak(tail[1..], success);
        assert tail[1..][0] == rs[2];
      }
    } else if rs != [] && rs[0].outcome.Success? != success {
      assert Streak(rs, success) == 0;
    }
  }

  predicate Failing(rs: seq<CallResult>) {
    Streak(rs, false) >= 3 || (|rs| >= 4 && 2 * Failures(rs) >= |rs|)
  }

  function Verdict(rs: seq<CallResult>, previous: Option<Status>): Status {
    if rs == [] then Unknown
    else if Failing(rs) then Degraded
    else if previous == Some(Degraded) && Streak(rs, true) < 3 then Degraded
    else Healthy
  }

  function Summary(provider: string, status: Status, rs: seq<CallResult>, now: Time): HealthState {
    HealthState(provider, status, |rs|, Failures(rs), Streak(rs, true), Streak(rs, false),
                if rs == [] then None else Some(rs[0].at), now)
  }

  /** The bounds `ProviderHealthState` puts on its counts. */
  predicate Representable(h: HealthState) {
    h.samples <= 10 && h.failures <= 10 && h.successRun <= 10 && h.failureRun <= 10
  }

  function StatusOf(s: Store, provider: string): Option<Status> {
    if provider in s.states then Some(s.states[provider].status) else None
  }

  /** `_calculate`; None where the state fails its validation. */
  function Calculate(s: Store, c: Settings, provider: string, now: Time): Option<HealthState> {
    var rs := Recent(s.results, provider, now - c.window, c.sampleLimit);
    var h := Summary(provider, Verdict(rs, StatusOf(s, provider)), rs, now);
    if Representable(h) then Some(h) else None
  }

  function AddResult(s: Store, r: CallResult): Store {
    if exists x :: x in s.results && x.id == r.id then s else s.(results := s.results + [r])
  }

  function Save(s: Store, h: HealthState): Store {
    s.(states := s.states[h.provider := h])
  }

  /** The result stays recorded when the state cannot be built. */
  function Record(s: Store, c: Settings, r: CallResult): (Store, Option<HealthState>) {
    var s1 := AddResult(s, r);
    var h := Calculate(s1, c, r.provider, r.at);
    (if h.Some? then Save(s1, h.value) else s1, h)
  }

  function Query(s: Store, c: Settings, provider: string, now: Time): (Store, Option<HealthState>) {
    var h := Calculate(s, c, provider, now);
    (if h.Some? && !(provider in s.states && s.states[provider] == h.value) then Save(s, h.value) else s, h)
  }

  // ---------------------------------------------------------------- one step

  /** Recovery from degraded: exactly three newest successes, and failures below half once there are four samples. */
  lemma RecoversIff(rs: seq<CallResult>)
    ensures Verdict(rs, Some(Degraded)) == Healthy
      <==> |rs| >= 3 && rs[0].outcome.Success? && rs[1].outcome.Success? && rs[2].outcome.Success?
           && (|rs| < 4 || 2 * Failures(rs) < |rs|)
  {
    ThreeInARow(rs, true);
    ThreeInARow(rs, false);
  }

  /** Without a degraded past, the newest three failing or half of four or more failing is what degrades. */
  lemma DegradesIff(rs: seq<CallResult>, previous: Option<Status>)
    requires previous != Some(Degraded)
    ensures Verdict(rs, previous) == Degraded
      <==> (|rs| >= 3 && !rs[0].outcome.Success? && !rs[1].outcome.Success? && !rs[2].outcome.Success?)
           || (|rs| >= 4 && 2 * Failures(rs) >= |rs|)
  {
    ThreeInARow(rs, false);
  }

  /** The counts fit their fields exactly when no more than ten windowed results are taken. */
  lemma RaisesIff(s: Store, c: Settings, provider: string, now: Time)
    requires ValidSettings(c)
    ensures Calculate(s, c, provider, now).None?
      <==> c.sampleLimit > 10 && |Windowed(s.results, provider, now - c.window)| > 10
  {
    RecentMeaning(s.results, provider, now - c.window, c.sampleLimit);
  }

  /** The first `n` calls of a provider, all successful and at one instant. */
  function Calls(provider: string, now: Time, n: nat): seq<CallResult> {
    if n == 0 then [] else Calls(provider, now, n - 1) + [CallResult(n - 1, provider, Success, now)]
  }

  lemma {:induction false} CallsMeaning(provider: string, now: Time, n: nat)
    ensures |Calls(provider, now, n)| == n
    ensures forall r :: r in Calls(provider, now, n) ==> r.id < n && r.provider == provider && r.at == now
  {
    if n > 0 { CallsMeaning(provider, now, n - 1); }
  }

  lemma {:induction false} AllWindowed(rs: seq<CallResult>, provider: string, since: Time)
    requires forall r :: r in rs ==> InWindow(r, provider, since)
    ensures Windowed(rs, provider, since) == rs
  {
    if rs != [] {
      AllWindowed(rs[..|rs| - 1], provider, since);
      assert rs == rs[..|rs| - 1] + [rs[|rs| - 1]];
    }
  }

  lemma CallsWindowed(provider: string, now: Time, since: Time, n: nat)
    requires since <= now
    ensures |Windowed(Calls(provider, now, n), provider, since)| == n
  {
    CallsMeaning(provider, now, n);
    AllWindowed(Calls(provider, now, n), provider, since);
  }

  lemma CallAdds(s: Store, provider: string, now: Time, n: nat)
    requires s.results == Calls(provider, now, n)
    ensures AddResult(s, CallResult(n, provider, Success, now)).results == Calls(provider, now, n + 1)
  {
    CallsMeaning(provider, now, n);
  }

  /** Asking again at the same instant gives the same answer and writes nothing. */
  lemma QueryIdempotent(s: Store, c: Settings, provider: string, now: Time)
    ensures var (t, h) := Query(s, c, provider, now); Query(t, c, provider, now) == (t, h)
  {
  }

  // ---------------------------------------------------------------- runs

  datatype Event = Called(result: CallResult) | Asked(provider: string, now: Time)

  function Next(s: Store, c: Settings, e: Event): Store {
    match e
    case Called(r) => Record(s, c, r).0
    case Asked(provider, now) => Query(s, c, provider, now).0
  }

  ghost predicate Run(c: Settings, ws: seq<Store>, es: seq<Event>) {
    |ws| == |es| + 1 && forall i :: 0 <= i < |es| ==> ws[i + 1] == Next(ws[i], c, es[i])
  }

  /** A run of calls of one provider, all successful and at one instant. */
  ghost predicate CallRun(c: Settings, ws: seq<Store>, es: seq<Event>, provider: string, now: Time) {
    && Run(c, ws, es) && ws[0] == Store([], map[])
    && forall i :: 0 <= i < |es| ==> es[i] == Called(CallResult(i, provider, Success, now))
  }

  lemma CalledKeepsResult(s: Store, c: Settings, provider: string, now: Time, n: nat)
    requires s.results == Calls(provider, now, n)
    ensures Next(s, c, Called(CallResult(n, provider, Success, now))).results == Calls(provider, now, n + 1)
  {
    CallAdds(s, provider, now, n);
  }

  lemma CallStep(c: Settings, ws: seq<Store>, es: seq<Event>, provider: string, now: Time, k: nat)
    requires CallRun(c, ws, es, provider, now) && k < |es| && ws[k].results == Calls(provider, now, k)
    ensures ws[k + 1].results == Calls(provider, now, k + 1)
  {
    CalledKeepsResult(ws[k], c, provider, now, k);
  }

  lemma {:induction false} CallChain(ws: seq<Store>, provider: string, now: Time, n: nat)
    requires n < |ws| && ws[0].results == []
    requires forall k :: 0 <= k < n && ws[k].results == Calls(provider, now, k) ==>
             ws[k + 1].results == Calls(provider, now, k + 1)
    ensures ws[n].results == Calls(provider, now, n)
  {
    if n > 0 { CallChain(ws, provider, now, n - 1); }
  }

  lemma CallsAreKept(c: Settings, ws: seq<Store>, es: seq<Event>, provider: string, now: Time, n: nat)
    requires CallRun(c, ws, es, provider, now) && n <= |es|
    ensures ws[n].results == Calls(provider, now, n)
  {
    forall k | 0 <= k < n && ws[k].results == Calls(provider, now, k)
      ensures ws[k + 1].results == Calls(provider, now, k + 1) {
      CallStep(c, ws, es, provider, now, k);
    }
    CallChain(ws, provider, now, n);
  }

  /** With a sample limit over ten, eleven results in the window make every further calculation raise. */
  lemma ElevenRaise(s: Store, c: Settings, provider: string, now: Time, n: nat)
    requires ValidSettings(c) && c.sampleLimit > 10 && s.results == Calls(provider, now, n) && n > 10
    ensures Calculate(s, c, provider, now) == None
  {
    CallsWindowed(provider, now, now - c.window, n);
    RaisesIff(s, c, provider, now);
  }

  /** With a sample limit over ten, the eleventh call of a run raises, and so does a status query after it. */
  lemma EleventhCallRaises(c: Settings, ws: seq<Store>, es: seq<Event>, provider: string, now: Time)
    requires ValidSettings(c) && c.sampleLimit > 10 && CallRun(c, ws, es, provider, now) && |es| == 11
    ensures Calculate(AddResult(ws[10], es[10].result), c, provider, now) == None
            && Calculate(ws[11], c, provider, now) == None
  {
    CallsAreKept(c, ws, es, provider, now, 10);
    CallsAreKept(c, ws, es, provider, now, 11);
    CallAdds(ws[10], provider, now, 10);
    ElevenRaise(AddResult(ws[10], es[10].result), c, provider, now, 11);
    ElevenRaise(ws[11], c, provider, now, 11);
  }

  /** There is such a run. */
  lemma {:induction false} SomeCallRun(c: Settings, provider: string, now: Time, n: nat)
    returns (ws: seq<Store>, es: seq<Event>)
    ensures CallRun(c, ws, es, provider, now) && |es| == n
  {
    if n == 0 {
      ws, es := [Store([], map[])], [];
    } else {
      ws, es := SomeCallRun(c, provider, now, n - 1);
      var e := Called(CallResult(n - 1, provider, Success, now));
      ws, es := ws + [Next(ws[n - 1], c, e)], es + [e];
    }
  }

  /** The results an event judges its provider by. */
  function Judged(s: Store, c: Settings, e: Event): seq<CallResult> {
    match e
    case Called(r) => Recent(AddResult(s, r).results, r.provider, r.at - c.window, c.sampleLimit)
    case Asked(provider, now) => Recent(s.results, provider, now - c.window, c.sampleLimit)
  }

  function Subject(e: Event): string {
    match e case Called(r) => r.provider case Asked(provider, _) => provider
  }

  /** Only the provider concerned gets a new state, and that is the verdict on what it is judged by. */
  lemma StepStatus(s: Store, c: Settings, e: Event, provider: string)
    ensures var t := Next(s, c, e);
      if Subject(e) != provider then StatusOf(t, provider) == StatusOf(s, provider)
      else StatusOf(t, provider) == StatusOf(s, provider)
           || StatusOf(t, provider) == Some(Verdict(Judged(s, c, e), StatusOf(s, provider)))
  {
  }

  /** A step from degraded to healthy. */
  predicate RecoveryStep(c: Settings, s: Store, e: Event, provider: string) {
    var rs := Judged(s, c, e);
    && Subject(e) == provider && |rs| >= 3
    && rs[0].outcome.Success? && rs[1].outcome.Success? && rs[2].outcome.Success?
    && (|rs| < 4 || 2 * Failures(rs) < |rs|)
  }

  lemma DirectRecovery(c: Settings, s: Store, e: Event, provider: string)
    requires StatusOf(s, provider) == Some(Degraded) && StatusOf(Next(s, c, e), provider) == Some(Healthy)
    ensures RecoveryStep(c, s, e, provider)
  {
    StepStatus(s, c, e, provider);
    RecoversIff(Judged(s, c, e));
  }

  /**
   In any run a provider that was degraded is healthy again only after a recovery step, unless its window ran
   empty.
  */
  lemma {:induction false} NoSilentRecovery(c: Settings, ws: seq<Store>, es: seq<Event>, i: nat, j: nat,
                                            provider: string)
    requires Run(c, ws, es) && i <= j <= |es|
    requires StatusOf(ws[i], provider) == Some(Degraded) && StatusOf(ws[j], provider) == Some(Healthy)
    requires forall k :: i <= k <= j ==> StatusOf(ws[k], provider) != Some(Unknown)
    ensures exists k :: i <= k < j && RecoveryStep(c, ws[k], es[k], provider)
  {
    assert i < j;
    KeepsState(ws, es, c, i, j - 1, provider);
    if StatusOf(ws[j - 1], provider) == Some(Degraded) {
      DirectRecovery(c, ws[j - 1], es[j - 1], provider);
    } else {
      KnownStatus(StatusOf(ws[j - 1], provider));
      NoSilentRecovery(c, ws, es, i, j - 1, provider);
    }
  }

  lemma KnownStatus(status: Option<Status>)
    requires status.Some? && status != Some(Degraded) && status != Some(Unknown)
    ensures status == Some(Healthy)
  {
    match status.value {
      case Healthy =>
      case Degraded => assert false;
      case Unknown => assert false;
    }
  }

  lemma {:induction false} KeepsState(ws: seq<Store>, es: seq<Event>, c: Settings, i: nat, j: nat, provider: string)
    requires Run(c, ws, es) && i <= j <= |es| && StatusOf(ws[i], provider).Some?
    ensures StatusOf(ws[j], provider).Some?
  {
    if i < j {
      KeepsState(ws, es, c, i, j - 1, provider);
      StepStatus(ws[j - 1], c, es[j - 1], provider);
    }
  }

  /** An empty window forgets the degradation: one success later the provider counts as healthy. */
  lemma EmptyWindowForgets(c: Settings, s: Store, provider: string, id: Id, now: Time)
    requires ValidSettings(c) && StatusOf(s, provider) == Some(Degraded)
    requires forall r :: r in s.results ==> r.id != id && (r.provider == provider ==> r.at < now - c.window)
    ensures var t := Query(s, c, provider, now).0;
      && StatusOf(t, provider) == Some(Unknown)
      && StatusOf(Record(t, c, CallResult(id, provider, Success, now)).0, provider) == Some(Healthy)
  {
    NothingWindowed(s.results, provider, now - c.window);
    FreshStart(c, Query(s, c, provider, now).0, provider, id, now);
  }

  /** After an empty window a single success makes the provider healthy. */
  lemma FreshStart(c: Settings, s: Store, provider: string, id: Id, now: Time)
    requires ValidSettings(c) && StatusOf(s, provider) == Some(Unknown)
    requires Windowed(s.results, provider, now - c.window) == [] && forall r :: r in s.results ==> r.id != id
    ensures StatusOf(Record(s, c, CallResult(id, provider, Success, now)).0, provider) == Some(Healthy)
  {
    var r := CallResult(id, provider, Success, now);
    OnlyResult(c, s, r);
    OneSuccess(c, AddResult(s, r), r);
  }

  lemma OnlyResult(c: Settings, s: Store, r: CallResult)
    requires ValidSettings(c) && Windowed(s.results, r.provider, r.at - c.window) == []
    requires forall x :: x in s.results ==> x.id != r.id
    ensures Recent(AddResult(s, r).results, r.provider, r.at - c.window, c.sampleLimit) == [r]
    ensures StatusOf(AddResult(s, r), r.provider) == StatusOf(s, r.provider)
  {
    WindowedSnoc(s.results, r, r.at - c.window);
    JustOne(r, c.sampleLimit);
  }

  lemma WindowedSnoc(rs: seq<CallResult>, r: CallResult, since: Time)
    requires r.at >= since
    ensures Windowed(rs + [r], r.provider, since) == Windowed(rs, r.provider, since) + [r]
  {
    assert (rs + [r])[..|rs|] == rs;
  }

  lemma OneSuccess(c: Settings, s: Store, r: CallResult)
    requires Recent(s.results, r.provider, r.at - c.window, c.sampleLimit) == [r]
    requires r.outcome.Success? && StatusOf(s, r.provider) == Some(Unknown)
    ensures Calculate(s, c, r.provider, r.at).Some? && Calculate(s, c, r.provider, r.at).value.status == Healthy
    ensures Calculate(s, c, r.provider, r.at).value.provider == r.provider
  {
    assert Streak([r], true) <= 1 && Failures([r]) <= 1 && Streak([r], false) == 0;
  }

  lemma JustOne(r: CallResult, limit: nat)
    requires limit >= 1
    ensures Take(Sorted([r]), limit) == [r] && Failures([r]) == if r.outcome.Success? then 0 else 1
  {
    assert [r][..0] == [];
    assert Sorted([r]) == Insert(r, Sorted([]));
  }

  lemma NothingWindowed(rs: seq<CallResult>, provider: string, since: Time)
    requires forall r :: r in rs ==> !InWindow(r, provider, since)
    ensures Windowed(rs, provider, since) == []
  {
    WindowedMeaning(rs, provider, since);
    if Windowed(rs, provider, since) != [] { assert Windowed(rs, provider, since)[0] in Windowed(rs, provider, since); }
  }

  // ---------------------------------------------------------------- what a saved state says

  ghost function FailingAt(rs: seq<CallResult>): set<nat> {
    set i: nat | i < |rs| && !rs[i].outcome.Success?
  }

  lemma {:induction false} FailuresMeaning(rs: seq<CallResult>)
    ensures Failures(rs) == |FailingAt(rs)|
  {
    if rs != [] {
      var n := |rs| - 1;
      FailuresMeaning(rs[..n]);
      assert FailingAt(rs) == FailingAt(rs[..n]) + if rs[n].outcome.Success? then {} else {n};
    }
  }

  /** The run of equal outcomes that the newest result begins. */
  predicate RunOf(rs: seq<CallResult>, success: bool, n: nat) {
    && n <= |rs| && (forall i :: 0 <= i < n ==> rs[i].outcome.Success? == success)
    && (n < |rs| ==> rs[n].outcome.Success? != success)
  }

  lemma {:induction false} StreakMeaning(rs: seq<CallResult>, success: bool)
    ensures RunOf(rs, success, Streak(rs, success))
  {
    if rs != [] && rs[0].outcome.Success? == success {
      StreakMeaning(rs[1..], success);
      var n := Streak(rs[1..], success);
      forall i | 0 <= i < n + 1 ensures rs[i].outcome.Success? == success {
        if i > 0 { assert rs[1..][i - 1] == rs[i]; }
      }
      if n + 1 < |rs| { assert rs[1..][n] == rs[n + 1]; }
    }
  }

  /**
   A calculated state counts the results it was calculated from: samples, failures, the run of
   the newest outcome, and their newest instant; its status follows from these counts and the
   status before.
   */
  lemma StateMeaning(s: Store, c: Settings, provider: string, now: Time)
    requires Calculate(s, c, provider, now).Some?
    ensures var (h, rs) := (Calculate(s, c, provider, now).value,
                            Recent(s.results, provider, now - c.window, c.sampleLimit));
      && h.provider == provider && h.updatedAt == now && h.samples == |rs| && h.failures == |FailingAt(rs)|
      && RunOf(rs, true, h.successRun) && RunOf(rs, false, h.failureRun)
      && (h.lastAt.None? <==> rs == []) && (rs != [] ==> h.lastAt == Some(rs[0].at))
      && (h.successRun == 0 || h.failureRun == 0) && (rs != [] ==> h.successRun + h.failureRun > 0)
      && (h.status.Unknown? <==> h.samples == 0)
      && (h.status.Degraded? <==>
            h.samples > 0
            && (h.failureRun >= 3 || (h.samples >= 4 && 2 * h.failures >= h.samples)
                || (provider in s.states && s.states[provider].status.Degraded? && h.successRun < 3)))
  {
    var rs := Recent(s.results, provider, now - c.window, c.sampleLimit);
    FailuresMeaning(rs);
    StreakMeaning(rs, true);
    StreakMeaning(rs, false);
  }

  /** What a call and a question leave in the store: the new result, once, and the calculated state. */
  lemma StepWrites(s: Store, c: Settings, e: Event, provider: string)
    ensures var t := Next(s, c, e);
      && (if e.Called? && forall x :: x in s.results ==> x.id != e.result.id then t.results == s.results + [e.result]
          else t.results == s.results)
      && (provider != Subject(e) ==> (provider in t.states <==> provider in s.states)
                                     && (provider in s.states ==> t.states[provider] == s.states[provider]))
  {
  }

  /** The state saved is the one answered; where none can be built the state before stays. */
  lemma AnswerIsSaved(s: Store, c: Settings, r: CallResult, provider: string, now: Time)
    ensures var (t, h) := Record(s, c, r);
      if h.Some? then r.provider in t.states && t.states[r.provider] == h.value else t.states == s.states
    ensures var (t, h) := Query(s, c, provider, now);
      if h.Some? then provider in t.states && t.states[provider] == h.value else t.states == s.states
  {
  }

  /** What a call is judged by includes the call itself, when it is the newest in the window. */
  lemma NewestCounts(s: Store, c: Settings, r: CallResult)
    requires ValidSettings(c) && forall x :: x in s.results ==> x.id != r.id
    requires forall x :: x in s.results && x.provider == r.provider ==> x.at < r.at
    ensures var rs := Recent(AddResult(s, r).results, r.provider, r.at - c.window, c.sampleLimit);
      rs != [] && rs[0] == r
  {
    var all := Windowed(AddResult(s, r).results, r.provider, r.at - c.window);
    AddedIsNewest(s, r, r.at - c.window);
    TakenLeads(all, r, c.sampleLimit);
  }

  lemma TakenLeads(all: seq<CallResult>, r: CallResult, limit: nat)
    requires r in all && (forall x :: x in all && x != r ==> x.at < r.at) && limit >= 1
    ensures Take(Sorted(all), limit) != [] && Take(Sorted(all), limit)[0] == r
  {
    SortedMeaning(all);
    NewestLeads(all, Sorted(all), r);
  }

  lemma AddedIsNewest(s: Store, r: CallResult, since: Time)
    requires r.at >= since && forall x :: x in s.results ==> x.id != r.id
    requires forall x :: x in s.results && x.provider == r.provider ==> x.at < r.at
    ensures var all := Windowed(AddResult(s, r).results, r.provider, since);
      r in all && forall x :: x in all && x != r ==> x.at < r.at
  {
    assert AddResult(s, r).results == s.results + [r];
    WindowedSnoc(s.results, r, since);
    WindowedMeaning(s.results, r.provider, since);
  }

  lemma NewestLeads(all: seq<CallResult>, sorted: seq<CallResult>, r: CallResult)
    requires r in all && (forall x :: x in all && x != r ==> x.at < r.at)
    requires NewestFirst(sorted) && multiset(sorted) == multiset(all)
    ensures sorted != [] && sorted[0] == r
  {
    assert r in multiset(sorted);
    var k :| 0 <= k < |sorted| && sorted[k] == r;
    assert sorted[0] in multiset(all);
    if k > 0 { assert NotOlder(sorted[0], sorted[k]); }
  }

  // ---------------------------------------------------------------- the service over its store

  class ProviderHealth {
    const settings: Settings
    var results: seq<CallResult>
    var states: map<string, HealthState>

    function View(): Store
      reads this
    {
      Store(results, states)
    }

    constructor (settings: Settings)
      requires ValidSettings(settings)
      ensures this.settings == settings && View() == Store([], map[])
    {
      this.settings := settings;
      results, states := [], map[];
    }

    /** `_consecutive`. */
    static method Consecutive(rs: seq<CallResult>, success: bool) returns (count: nat)
      ensures count == Streak(rs, success)
    {
      count := 0;
      while count < |rs|
        invariant count <= |rs|
        invariant Streak(rs, success) == count + Streak(rs[count..], success)
      {
        if rs[count].outcome.Success? != success { return; }
        count := count + 1;
      }
    }

    static method CountFailures(rs: seq<CallResult>) returns (count: nat)
      ensures count == Failures(rs)
    {
      count := 0;
      for i := 0 to |rs|
        invariant count == Failures(rs[..i])
      {
        if !rs[i].outcome.Success? { count := count + 1; }
        assert rs[..i + 1][..i] == rs[..i];
      }
      assert rs[..|rs|] == rs;
    }

    /** `_calculate`. */
    method CalculateState(provider: string, now: Time) returns (h: Option<HealthState>)
      ensures h == Calculate(View(), settings, provider, now)
    {
      var rs := Recent(results, provider, now - settings.window, settings.sampleLimit);
      var failures := CountFailures(rs);
      var successRun := Consecutive(rs, true);
      var failureRun := Consecutive(rs, false);
      var status;
      if rs == [] {
        status := Unknown;
      } else if failureRun >= 3 || (|rs| >= 4 && 2 * failures >= |rs|) {
        status := Degraded;
      } else if provider in states && states[provider].status.Degraded? && successRun < 3 {
        status := Degraded;
      } else {
        status := Healthy;
      }
      var state := HealthState(provider, status, |rs|, failures, successRun, failureRun,
                               if rs == [] then None else Some(rs[0].at), now);
      return if Representable(state) then Some(state) else None;
    }

    /** `record`. */
    method RecordCall(r: CallResult) returns (h: Option<HealthState>)
      modifies this
      ensures (View(), h) == Record(old(View()), settings, r)
    {
      if !exists x :: x in results && x.id == r.id { results := results + [r]; }
      h := CalculateState(r.provider, r.at);
      if h.Some? { states := states[r.provider := h.value]; }
    }

    /** `status`. */
    method CurrentStatus(provider: string, now: Time) returns (h: Option<HealthState>)
      modifies this
      ensures (View(), h) == Query(old(View()), settings, provider, now)
    {
      h := CalculateState(provider, now);
      if h.Some? && (provider !in states || states[provider] != h.value) { states := states[provider := h.value]; }
    }
  }
}
