/**
 The fixed-window limiter: the window arithmetic of app/auth/service.py over the counter of
 app/auth/store.py, in memory and as the PostgreSQL upsert.
 */
module RateLimit {
  import opened Common

  const SECOND := 1000000

  datatype Key = Key(action: string, digest: string, window: int)

  type Counters = map<Key, int>

  // ---------------------------------------------------------------- window arithmetic

  /** `int(now.timestamp())` on microseconds: truncation toward zero. */
  function Seconds(now: Time): (s: int)
    ensures now >= 0 ==> s * SECOND <= now < (s + 1) * SECOND
    ensures now < 0 ==> (s - 1) * SECOND < now <= s * SECOND
  {
    if now >= 0 then now / SECOND else -(-now / SECOND)
  }

  /** The start of the aligned window, in seconds; Python's `%` with a positive divisor. */
  function WindowStart(now: Time, width: int): int
    requires width >= 1
  {
    Seconds(now) - Seconds(now) % width
  }

  lemma SecondsMonotone(a: Time, b: Time, width: int)
    requires a <= b <= a + width * SECOND && width >= 1
    ensures Seconds(a) <= Seconds(b) <= Seconds(a) + width
  {
  }

  lemma TimesAtLeast(d: int, least: int, width: int)
    requires width >= 1
    ensures d >= least ==> d * width >= least * width
  {
    if d >= least { assert (d - least) * width >= 0; }
  }

  lemma QuotientBound(p: int, q: int, s: int, t: int, width: int)
    requires width >= 1 && 0 <= s && t < 2 * width && p * width + s <= q * width + t
    ensures p <= q + 1
    ensures t < width ==> p <= q
  {
    assert (p - q) * width == p * width - q * width;
    TimesAtLeast(p - q, 2, width);
    TimesAtLeast(p - q, 1, width);
  }

  lemma AlignedStep(x: int, y: int, width: int)
    requires width >= 1 && x <= y <= x + width
    ensures y - y % width == x - x % width || y - y % width == x - x % width + width
  {
    var q, r := x / width, x % width;
    assert x == q * width + r;
    var p, s := y / width, y % width;
    assert y == p * width + s;
    assert p * width + s <= q * width + r + width;
    QuotientBound(p, q, s, r + width, width);
    QuotientBound(q, p, r, s, width);
    if p == q + 1 { assert p * width == q * width + width; }
  }

  /** An interval of one window length meets at most two aligned windows, even around the epoch. */
  lemma TwoWindows(a: Time, b: Time, width: int)
    requires width >= 1 && a <= b <= a + width * SECOND
    ensures WindowStart(b, width) == WindowStart(a, width) || WindowStart(b, width) == WindowStart(a, width) + width
  {
    SecondsMonotone(a, b, width);
    AlignedStep(Seconds(a), Seconds(b), width);
  }

  // ---------------------------------------------------------------- the counters

  function Count(c: Counters, k: Key): int {
    if k in c then c[k] else 0
  }

  /** `InMemoryAuthStore.consume_rate_limit`. */
  function Consume(c: Counters, k: Key, limit: int): (Counters, bool) {
    if Count(c, k) >= limit then (c, false) else (c[k := Count(c, k) + 1], true)
  }

  /** The upsert: insert 1, or add 1 where the stored count is below the limit; no row returned otherwise. */
  function Upsert(c: Counters, k: Key, limit: int): (Counters, bool) {
    if k !in c then (c[k := 1], 1 <= limit)
    else if c[k] < limit then (c[k := c[k] + 1], c[k] + 1 <= limit)
    else (c, false)
  }

  /** Same verdict always; same table afterwards except that the upsert leaves a row where nothing is allowed. */
  lemma UpsertAgrees(c: Counters, k: Key, limit: int)
    ensures Upsert(c, k, limit).1 == Consume(c, k, limit).1
    ensures Upsert(c, k, limit).0 == Consume(c, k, limit).0 <==> limit >= 1 || k in c
  {
    if limit < 1 && k !in c { assert k in Upsert(c, k, limit).0; }
  }

  /** With a limit that changes between calls the row left behind can cost one acceptance. */
  lemma UpsertDiffersAfterZero(k: Key)
    ensures Consume(Consume(map[], k, 0).0, k, 1).1
    ensures !Upsert(Upsert(map[], k, 0).0, k, 1).1
  {
  }

  class RateCounters {
    var rates: Counters

    constructor ()
      ensures rates == map[]
    {
      rates := map[];
    }

    method ConsumeRateLimit(action: string, digest: string, window: int, limit: int) returns (accepted: bool)
      modifies this
      ensures (rates, accepted) == Consume(old(rates), Key(action, digest, window), limit)
    {
      var key := Key(action, digest, window);
      var count := if key in rates then rates[key] else 0;
      if count >= limit { return false; }
      rates := rates[key := count + 1];
      return true;
    }
  }

  // ---------------------------------------------------------------- the service

  datatype Verdict = Pass | Limited | BadWindow

  /** The limits per action and the window length in microseconds, which is positive. */
  datatype Policy = Policy(limits: map<string, int>, window: Time)

  datatype Attempt = Attempt(action: string, digest: string, now: Time)

  function Width(p: Policy): int {
    Seconds(p.window)
  }

  function KeyOf(p: Policy, a: Attempt): Key
    requires Width(p) >= 1
  {
    Key(a.action, a.digest, WindowStart(a.now, Width(p)))
  }

  /** `AuthService._consume_rate_limit`; a window under one second divides by zero. */
  function Admit(p: Policy, c: Counters, a: Attempt): (Counters, Verdict)
    requires p.window > 0
  {
    if a.action !in p.limits then (c, Pass)
    else if p.limits[a.action] < 1 then (c, Limited)
    else if Width(p) == 0 then (c, BadWindow)
    else var (d, ok) := Consume(c, KeyOf(p, a), p.limits[a.action]); (d, if ok then Pass else Limited)
  }

  class Limiter {
    const policy: Policy
    const store: RateCounters

    constructor (policy: Policy, store: RateCounters)
      requires policy.window > 0
      ensures this.policy == policy && this.store == store
    {
      this.policy, this.store := policy, store;
    }

    method ConsumeRateLimit(action: string, digest: string, now: Time) returns (v: Verdict)
      requires policy.window > 0
      modifies store
      ensures (store.rates, v) == Admit(policy, old(store.rates), Attempt(action, digest, now))
    {
      if action !in policy.limits { return Pass; }
      var limit := policy.limits[action];
      if limit < 1 { return Limited; }
      var windowSeconds := Seconds(policy.window);
      if windowSeconds == 0 { return BadWindow; }
      var timestamp := Seconds(now);
      var accepted := store.ConsumeRateLimit(action, digest, timestamp - timestamp % windowSeconds, limit);
      return if accepted then Pass else Limited;
    }
  }

  // ---------------------------------------------------------------- runs

  function After(p: Policy, es: seq<Attempt>): Counters
    requires p.window > 0
  {
    if es == [] then map[] else Admit(p, After(p, es[..|es| - 1]), es[|es| - 1]).0
  }

  /** The verdict of the last attempt. */
  function Last(p: Policy, es: seq<Attempt>): Verdict
    requires p.window > 0 && es != []
  {
    Admit(p, After(p, es[..|es| - 1]), es[|es| - 1]).1
  }

  function Attempts(p: Policy, es: seq<Attempt>, k: Key): nat
    requires p.window > 0 && Width(p) >= 1
  {
    if es == [] then 0
    else Attempts(p, es[..|es| - 1], k) + if KeyOf(p, es[|es| - 1]) == k then 1 else 0
  }

  function Accepted(p: Policy, es: seq<Attempt>, k: Key): nat
    requires p.window > 0 && Width(p) >= 1
  {
    if es == [] then 0
    else Accepted(p, es[..|es| - 1], k) + if KeyOf(p, es[|es| - 1]) == k && Last(p, es).Pass? then 1 else 0
  }

  function Min(a: int, b: int): int {
    if a <= b then a else b
  }

  /** In each aligned window exactly the first `limit` attempts of a key pass, in any order of arrival. */
  lemma {:induction false} ExactlyMin(p: Policy, es: seq<Attempt>, k: Key)
    requires p.window > 0 && Width(p) >= 1 && k.action in p.limits && p.limits[k.action] >= 1
    ensures Accepted(p, es, k) == Min(Attempts(p, es, k), p.limits[k.action])
    ensures Count(After(p, es), k) == Accepted(p, es, k)
  {
    if es != [] {
      ExactlyMin(p, es[..|es| - 1], k);
    }
  }

  /**
   An attempt passes exactly when its action has no limit, or fewer attempts than the limit came
   before it in its window.
   */
  lemma VerdictMeaning(p: Policy, es: seq<Attempt>, a: Attempt)
    requires p.window > 0
    ensures var v := Last(p, es + [a]);
      && (v.BadWindow? <==> a.action in p.limits && p.limits[a.action] >= 1 && p.window < SECOND)
      && (v.Pass? <==> a.action !in p.limits
                       || (p.window >= SECOND && Attempts(p, es, KeyOf(p, a)) < p.limits[a.action]))
  {
    assert (es + [a])[..|es|] == es;
    WholeSeconds(p);
    if a.action in p.limits && p.limits[a.action] >= 1 && p.window >= SECOND { ExactlyMin(p, es, KeyOf(p, a)); }
  }

  lemma WholeSeconds(p: Policy)
    requires p.window > 0
    ensures Width(p) >= 1 <==> p.window >= SECOND
    ensures Width(p) >= 0
  {
  }

  /** The passes of one client and action at times in [from, from + length). */
  function PassedIn(p: Policy, es: seq<Attempt>, action: string, digest: string, from: Time, length: Time): nat
    requires p.window > 0
  {
    if es == [] then 0
    else
      var e := es[|es| - 1];
      PassedIn(p, es[..|es| - 1], action, digest, from, length)
      + if e.action == action && e.digest == digest && from <= e.now < from + length && Last(p, es).Pass? then 1 else 0
  }

  lemma {:induction false} PassedInTwo(p: Policy, es: seq<Attempt>, action: string, digest: string, from: Time,
                                       length: Time)
    requires p.window > 0 && Width(p) >= 1 && length <= Width(p) * SECOND + 1
    ensures var w := WindowStart(from, Width(p));
      PassedIn(p, es, action, digest, from, length)
      <= Accepted(p, es, Key(action, digest, w)) + Accepted(p, es, Key(action, digest, w + Width(p)))
  {
    if es != [] {
      PassedInTwo(p, es[..|es| - 1], action, digest, from, length);
      var e := es[|es| - 1];
      if from <= e.now < from + length { TwoWindows(from, e.now, Width(p)); }
    }
  }

  /** An interval of the limiter's whole seconds, or a microsecond more, lets at most twice the limit through. */
  lemma AtMostTwice(p: Policy, es: seq<Attempt>, action: string, digest: string, from: Time, length: Time)
    requires p.window > 0 && Width(p) >= 1 && action in p.limits && p.limits[action] >= 1
    requires length <= Width(p) * SECOND + 1
    ensures PassedIn(p, es, action, digest, from, length) <= 2 * p.limits[action]
  {
    var w := WindowStart(from, Width(p));
    PassedInTwo(p, es, action, digest, from, length);
    ExactlyMin(p, es, Key(action, digest, w));
    ExactlyMin(p, es, Key(action, digest, w + Width(p)));
  }

  // Bursts: the same attempt made n times.

  function Burst(es: seq<Attempt>, a: Attempt, n: nat): seq<Attempt> {
    if n == 0 then es else Burst(es, a, n - 1) + [a]
  }

  /** Up to the limit, a burst in a window not used before passes entirely and touches no other window. */
  lemma BurstPasses(p: Policy, es: seq<Attempt>, a: Attempt, n: nat, from: Time, length: Time)
    requires p.window > 0 && Width(p) >= 1 && a.action in p.limits && n <= p.limits[a.action]
    requires from <= a.now < from + length && Count(After(p, es), KeyOf(p, a)) == 0
    ensures AllPassed(p, es, a, n, from, length)
  {
    NonePassed(p, es, a, from, length);
    forall m: nat | m < n && AllPassed(p, es, a, m, from, length) ensures AllPassed(p, es, a, m + 1, from, length) {
      AllPassedNext(p, es, a, m, from, length);
    }
    Chain((m: nat) => AllPassed(p, es, a, m, from, length), 0, n);
  }

  lemma NonePassed(p: Policy, es: seq<Attempt>, a: Attempt, from: Time, length: Time)
    requires p.window > 0 && Width(p) >= 1 && Count(After(p, es), KeyOf(p, a)) == 0
    ensures AllPassed(p, es, a, 0, from, length)
  {
  }

  /** The burst passed entirely, filled its own window and no other. */
  ghost predicate AllPassed(p: Policy, es: seq<Attempt>, a: Attempt, n: nat, from: Time, length: Time)
    requires p.window > 0 && Width(p) >= 1
  {
    && PassedIn(p, Burst(es, a, n), a.action, a.digest, from, length)
       == PassedIn(p, es, a.action, a.digest, from, length) + n
    && Count(After(p, Burst(es, a, n)), KeyOf(p, a)) == n
    && (forall k :: k != KeyOf(p, a) ==> Count(After(p, Burst(es, a, n)), k) == Count(After(p, es), k))
  }

  lemma AllPassedNext(p: Policy, es: seq<Attempt>, a: Attempt, n: nat, from: Time, length: Time)
    requires p.window > 0 && Width(p) >= 1 && a.action in p.limits && n < p.limits[a.action]
    requires from <= a.now < from + length && AllPassed(p, es, a, n, from, length)
    ensures AllPassed(p, es, a, n + 1, from, length)
  {
    OneMorePasses(p, Burst(es, a, n), a, from, length);
  }

  lemma OneMorePasses(p: Policy, before: seq<Attempt>, a: Attempt, from: Time, length: Time)
    requires p.window > 0 && Width(p) >= 1 && a.action in p.limits
    requires from <= a.now < from + length && 0 <= Count(After(p, before), KeyOf(p, a)) < p.limits[a.action]
    ensures PassedIn(p, before + [a], a.action, a.digest, from, length)
            == PassedIn(p, before, a.action, a.digest, from, length) + 1
    ensures Count(After(p, before + [a]), KeyOf(p, a)) == Count(After(p, before), KeyOf(p, a)) + 1
    ensures forall k :: k != KeyOf(p, a) ==> Count(After(p, before + [a]), k) == Count(After(p, before), k)
  {
    assert (before + [a])[..|before|] == before;
    BurstStep(p, After(p, before), a);
  }

  lemma BurstStep(p: Policy, c: Counters, a: Attempt)
    requires p.window > 0 && Width(p) >= 1 && a.action in p.limits && Count(c, KeyOf(p, a)) < p.limits[a.action]
    ensures Admit(p, c, a).1.Pass? || p.limits[a.action] < 1
    ensures p.limits[a.action] >= 1 ==> Count(Admit(p, c, a).0, KeyOf(p, a)) == Count(c, KeyOf(p, a)) + 1
    ensures forall k :: k != KeyOf(p, a) ==> Count(Admit(p, c, a).0, k) == Count(c, k)
  {
  }

  /** The bound is reached: `limit` attempts at the end of one window and `limit` at the start of the next. */
  lemma TwiceIsReached(p: Policy, action: string, digest: string)
    requires p.window > 0 && Width(p) >= 1 && action in p.limits && p.limits[action] >= 1
    ensures exists es, from :: PassedIn(p, es, action, digest, from, 2) == 2 * p.limits[action]
  {
    var n, edge := p.limits[action], Width(p) * SECOND;
    var a, b := Attempt(action, digest, edge - 1), Attempt(action, digest, edge);
    Edges(Width(p));
    BurstPasses(p, [], a, n, edge - 1, 2);
    BurstPasses(p, Burst([], a, n), b, n, edge - 1, 2);
    assert PassedIn(p, Burst(Burst([], a, n), b, n), action, digest, edge - 1, 2) == 2 * n;
  }

  lemma SecondsOf(n: nat)
    ensures Seconds(n * SECOND) == n
  {
  }

  lemma Multiples(width: int)
    requires width >= 1
    ensures width % width == 0 && (2 * width) % width == 0 && (width - 1) % width == width - 1
  {
    assert 2 * width == width + width;
  }

  /** The last microsecond of the first window and the first ones of the next two. */
  lemma Edges(width: int)
    requires width >= 1
    ensures WindowStart(width * SECOND - 1, width) == 0
    ensures WindowStart(width * SECOND, width) == width
    ensures WindowStart(2 * width * SECOND, width) == 2 * width
  {
    SecondsOf(width);
    SecondsOf(2 * width);
    assert Seconds(width * SECOND - 1) == width - 1;
    Multiples(width);
  }

  lemma ThreeBursts(p: Policy, action: string, digest: string)
    requires p.window > 0 && Width(p) >= 1 && action in p.limits && p.limits[action] >= 1
             && p.window >= Width(p) * SECOND + 2
    ensures exists es, from :: PassedIn(p, es, action, digest, from, p.window) == 3 * p.limits[action]
  {
    var n, edge := p.limits[action], Width(p) * SECOND;
    var a, b, c := Attempt(action, digest, edge - 1), Attempt(action, digest, edge), Attempt(action, digest, 2 * edge);
    Edges(Width(p));
    BurstPasses(p, [], a, n, edge - 1, p.window);
    BurstPasses(p, Burst([], a, n), b, n, edge - 1, p.window);
    BurstPasses(p, Burst(Burst([], a, n), b, n), c, n, edge - 1, p.window);
    assert PassedIn(p, Burst(Burst(Burst([], a, n), b, n), c, n), action, digest, edge - 1, p.window) == 3 * n;
  }

  /**
   Twice the limit bounds every interval of the configured length exactly when that length
   is whole seconds, give or take the last microsecond: the limiter drops the fraction.
   */
  lemma TwiceTheLimitIff(p: Policy, action: string)
    requires p.window > 0 && Width(p) >= 1 && action in p.limits && p.limits[action] >= 1
    ensures (forall es, digest, from :: PassedIn(p, es, action, digest, from, p.window) <= 2 * p.limits[action])
            <==> p.window % SECOND <= 1
  {
    assert p.window == Width(p) * SECOND + p.window % SECOND;
    if p.window % SECOND <= 1 {
      forall es, digest, from ensures PassedIn(p, es, action, digest, from, p.window) <= 2 * p.limits[action] {
        AtMostTwice(p, es, action, digest, from, p.window);
      }
    } else {
      ThreeBursts(p, action, "");
      var es, from :| PassedIn(p, es, action, "", from, p.window) == 3 * p.limits[action];
      assert PassedIn(p, es, action, "", from, p.window) > 2 * p.limits[action];
    }
  }

  // ---------------------------------------------------------------- the upsert in a whole run

  function AdmitSql(p: Policy, c: Counters, a: Attempt): (Counters, Verdict)
    requires p.window > 0
  {
    if a.action !in p.limits then (c, Pass)
    else if p.limits[a.action] < 1 then (c, Limited)
    else if Width(p) == 0 then (c, BadWindow)
    else var (d, ok) := Upsert(c, KeyOf(p, a), p.limits[a.action]); (d, if ok then Pass else Limited)
  }

  function AfterSql(p: Policy, es: seq<Attempt>): Counters
    requires p.window > 0
  {
    if es == [] then map[] else AdmitSql(p, AfterSql(p, es[..|es| - 1]), es[|es| - 1]).0
  }

  /** Behind the service, which never asks with a limit below one, the two stores are indistinguishable. */
  lemma {:induction false} StoresAgree(p: Policy, es: seq<Attempt>, a: Attempt)
    requires p.window > 0
    ensures AfterSql(p, es) == After(p, es)
    ensures AdmitSql(p, AfterSql(p, es), a).1 == Admit(p, After(p, es), a).1
  {
    if es != [] {
      var n := |es| - 1;
      StoresAgree(p, es[..n], a);
      var c, e := After(p, es[..n]), es[n];
      if e.action in p.limits && Width(p) >= 1 { UpsertAgrees(c, KeyOf(p, e), p.limits[e.action]); }
    }
    if a.action in p.limits && Width(p) >= 1 { UpsertAgrees(After(p, es), KeyOf(p, a), p.limits[a.action]); }
  }
}
