/**
 The bounded executor of app/execution/bounded.py.

 Every coroutine body between two suspension points runs alone on the event loop,
 so each `async with self._condition` block is one atomic section. The class below
 has one method per section; `Step` is the same section on values, and a run is any
 sequence of sections by any tasks.
 */
module Execution {
  import opened Common

  type TaskId = nat

  /**
   Where one call of `run` is suspended.
   - Fresh: counted in `waiting`; its waiter task was created and has not checked yet
   - Parked: its waiter sleeps on the condition
   - Woken: its waiter was notified and has not rechecked
   - Granted: its waiter took the slot; the caller has not resumed
   - Unwinding: the waiter is gone; the `finally` block will still decrement `waiting`
   - Holding: the caller owns a slot and runs its operation
   */
  datatype Pc = Fresh | Parked | Woken | Granted | Unwinding | Holding

  datatype Limits = Limits(maxConcurrency: nat, maxWaiting: nat)

  /** `parked` lists the sleeping waiters in the order in which `notify` wakes them. */
  datatype State = State(running: int, waiting: int, pcs: map<TaskId, Pc>, parked: seq<TaskId>)

  datatype Event =
    | Arrive(t: TaskId)
    | Check(t: TaskId)
    | Resume(t: TaskId)
    | Finish(t: TaskId)
    | Cancel(t: TaskId)
    | CancelGranted(t: TaskId)
    | Unwind(t: TaskId)

  datatype Outcome = Admitted | Queued | QueueFull

  const EMPTY := State(0, 0, map[], [])

  // ---------------------------------------------------------------- sections on values

  function Without(q: seq<TaskId>, t: TaskId): (r: seq<TaskId>)
    ensures forall u :: u in r <==> u in q && u != t
    ensures Distinct(q) ==> Distinct(r)
  {
    if q == [] then []
    else
      var rest := Without(q[1..], t);
      assert forall u :: u in q <==> u == q[0] || u in q[1..];
      assert Distinct(q) ==> Distinct(q[1..]) && q[0] !in q[1..];
      if q[0] == t then rest else [q[0]] + rest
  }

  predicate Distinct(q: seq<TaskId>) {
    forall i, j :: 0 <= i < j < |q| ==> q[i] != q[j]
  }

  /** `Condition.notify(1)`: the longest sleeper, if any, is scheduled to recheck. */
  function Notify(s: State): State {
    if s.parked == [] then s
    else s.(pcs := s.pcs[s.parked[0] := Woken], parked := s.parked[1..])
  }

  /** The decrement of `running` in `finally`, before `notify`. */
  function GiveBack(s: State, t: TaskId): State {
    s.(running := s.running - 1, pcs := s.pcs - {t})
  }

  function Entry(l: Limits, s: State): Outcome {
    if s.running < l.maxConcurrency then Admitted
    else if s.waiting >= l.maxWaiting then QueueFull
    else Queued
  }

  predicate Enabled(s: State, e: Event) {
    match e
    case Arrive(t) => t !in s.pcs
    case Check(t) => t in s.pcs && (s.pcs[t] == Fresh || s.pcs[t] == Woken)
    case Resume(t) => t in s.pcs && s.pcs[t] == Granted
    case Finish(t) => t in s.pcs && s.pcs[t] == Holding
    case Cancel(t) => t in s.pcs && (s.pcs[t] == Fresh || s.pcs[t] == Parked || s.pcs[t] == Woken)
    case CancelGranted(t) => t in s.pcs && s.pcs[t] == Granted
    case Unwind(t) => t in s.pcs && s.pcs[t] == Unwinding
  }

  function Step(l: Limits, s: State, e: Event): State
    requires Enabled(s, e)
  {
    match e
    case Arrive(t) =>
      (match Entry(l, s)
       case Admitted => s.(running := s.running + 1, pcs := s.pcs[t := Holding])
       case Queued => s.(waiting := s.waiting + 1, pcs := s.pcs[t := Fresh])
       case QueueFull => s)
    case Check(t) =>
      if s.running < l.maxConcurrency
      then s.(running := s.running + 1, waiting := s.waiting - 1, pcs := s.pcs[t := Granted])
      else s.(pcs := s.pcs[t := Parked], parked := s.parked + [t])
    case Resume(t) => s.(pcs := s.pcs[t := Holding])
    case Finish(t) => Notify(GiveBack(s, t))
    case Cancel(t) => s.(pcs := s.pcs[t := Unwinding], parked := Without(s.parked, t))
    case CancelGranted(t) => s.(pcs := s.pcs[t := Unwinding])
    case Unwind(t) => s.(waiting := s.waiting - 1, pcs := s.pcs - {t})
  }

  // ---------------------------------------------------------------- what the counters should mean

  /** Callers that own a slot. */
  ghost function Slots(s: State): set<TaskId> {
    set t | t in s.pcs && (s.pcs[t] == Granted || s.pcs[t] == Holding)
  }

  /** Callers still queued. */
  ghost function Queue(s: State): set<TaskId> {
    set t | t in s.pcs && s.pcs[t] != Granted && s.pcs[t] != Holding
  }

  ghost function At(s: State, pc: Pc): set<TaskId> {
    set t | t in s.pcs && s.pcs[t] == pc
  }

  /**
   The law of the two counters. `leaked` callers were cancelled after their waiter took
   the slot: each is decremented twice from `waiting` and never from `running`.
   */
  ghost predicate Counters(l: Limits, s: State, leaked: nat) {
    && s.running == |Slots(s)| + leaked
    && s.waiting == |Queue(s)| - leaked
    && s.running <= l.maxConcurrency
    && s.waiting <= l.maxWaiting
  }

  /** The condition's deque holds exactly the sleeping waiters, each once. */
  predicate Listed(s: State) {
    && Distinct(s.parked)
    && (forall t :: t in s.parked ==> t in s.pcs && s.pcs[t] == Parked)
    && (forall t :: t in s.pcs && s.pcs[t] == Parked ==> t in s.parked)
  }

  /** While someone sleeps, every slot is taken, about to be rechecked, or its wake-up was lost. */
  ghost predicate Awake(l: Limits, s: State, lost: nat) {
    s.parked != [] ==> s.running + |At(s, Woken)| + lost >= l.maxConcurrency
  }

  // ---------------------------------------------------------------- runs

  datatype Run = Run(state: State, leaked: nat, lost: nat)

  /** Does this section lose a wake-up: a notified waiter dies before it rechecks? */
  predicate LosesWakeup(s: State, e: Event) {
    e.Cancel? && e.t in s.pcs && s.pcs[e.t] == Woken
  }

  /** The state after the sections `es`, with the number of hand-offs cut and of wake-ups lost. */
  function Execute(l: Limits, es: seq<Event>): Option<Run> {
    if es == [] then Some(Run(EMPTY, 0, 0)) else
    var before := Execute(l, es[..|es| - 1]);
    var e := es[|es| - 1];
    if before.None? || !Enabled(before.value.state, e) then None else
    var s := before.value.state;
    Some(Run(Step(l, s, e),
             before.value.leaked + (if e.CancelGranted? then 1 else 0),
             before.value.lost + (if LosesWakeup(s, e) then 1 else 0)))
  }

  // ---------------------------------------------------------------- one section

  lemma NotifyKeepsListed(s: State)
    requires Listed(s)
    ensures Listed(Notify(s))
  {
    if s.parked != [] {
      assert forall u :: u in s.parked <==> u == s.parked[0] || u in s.parked[1..];
      assert s.parked[0] !in s.parked[1..];
    }
  }

  lemma StepKeepsListed(l: Limits, s: State, e: Event)
    requires Listed(s) && Enabled(s, e)
    ensures Listed(Step(l, s, e))
  {
    match e {
      case Check(t) =>
        assert t !in s.parked;
        assert forall u :: u in s.parked + [t] <==> u in s.parked || u == t;
      case Finish(t) =>
        NotifyKeepsListed(GiveBack(s, t));
      case _ =>
    }
  }

  predicate OwnsSlot(pc: Pc) {
    pc == Granted || pc == Holding
  }

  /** One caller moves to another point of its program. */
  lemma CallerMoves(s: State, n: State, t: TaskId, pc: Pc)
    requires n.pcs == s.pcs[t := pc]
    ensures Slots(n) == if OwnsSlot(pc) then Slots(s) + {t} else Slots(s) - {t}
    ensures Queue(n) == if OwnsSlot(pc) then Queue(s) - {t} else Queue(s) + {t}
    ensures At(n, Woken) == if pc == Woken then At(s, Woken) + {t} else At(s, Woken) - {t}
    ensures t in s.pcs && OwnsSlot(s.pcs[t]) == OwnsSlot(pc) ==> Slots(n) == Slots(s) && Queue(n) == Queue(s)
  {
  }

  lemma CallerLeaves(s: State, n: State, t: TaskId)
    requires n.pcs == s.pcs - {t}
    ensures Slots(n) == Slots(s) - {t} && Queue(n) == Queue(s) - {t} && At(n, Woken) == At(s, Woken) - {t}
  {
  }

  lemma WhereCallerIs(s: State, t: TaskId)
    ensures t in Slots(s) <==> t in s.pcs && OwnsSlot(s.pcs[t])
    ensures t in Queue(s) <==> t in s.pcs && !OwnsSlot(s.pcs[t])
    ensures t in At(s, Woken) <==> t in s.pcs && s.pcs[t] == Woken
  {
  }

  lemma NotifyKeepsCounters(l: Limits, s: State, leaked: nat)
    requires Counters(l, s, leaked) && Listed(s)
    ensures Counters(l, Notify(s), leaked)
    ensures Notify(s).running == s.running
    ensures s.parked != [] ==> |At(Notify(s), Woken)| == |At(s, Woken)| + 1
  {
    if s.parked != [] {
      var t := s.parked[0];
      var n := Notify(s);
      assert t in s.parked;
      WhereCallerIs(s, t);
      CallerMoves(s, n, t, Woken);
    }
  }

  lemma ArriveKeepsCounters(l: Limits, s: State, t: TaskId, leaked: nat)
    requires Counters(l, s, leaked) && Enabled(s, Arrive(t))
    ensures Counters(l, Step(l, s, Arrive(t)), leaked)
  {
    var n := Step(l, s, Arrive(t));
    WhereCallerIs(s, t);
    if s.running < l.maxConcurrency {
      CallerMoves(s, n, t, Holding);
    } else if s.waiting < l.maxWaiting {
      CallerMoves(s, n, t, Fresh);
    } else {
      assert n == s;
    }
  }

  lemma CheckKeepsCounters(l: Limits, s: State, t: TaskId, leaked: nat)
    requires Counters(l, s, leaked) && Enabled(s, Check(t))
    ensures Counters(l, Step(l, s, Check(t)), leaked)
  {
    WhereCallerIs(s, t);
    CallerMoves(s, Step(l, s, Check(t)), t, if s.running < l.maxConcurrency then Granted else Parked);
  }

  lemma GiveBackKeepsCounters(l: Limits, s: State, t: TaskId, leaked: nat)
    requires Counters(l, s, leaked) && Enabled(s, Finish(t))
    ensures Counters(l, GiveBack(s, t), leaked) && At(GiveBack(s, t), Woken) == At(s, Woken)
  {
    WhereCallerIs(s, t);
    CallerLeaves(s, GiveBack(s, t), t);
  }

  lemma LeavingKeepsCounters(l: Limits, s: State, e: Event, leaked: nat)
    requires Counters(l, s, leaked) && Enabled(s, e)
    requires e.Resume? || e.Cancel? || e.CancelGranted? || e.Unwind?
    ensures Counters(l, Step(l, s, e), leaked + (if e.CancelGranted? then 1 else 0))
  {
    match e {
      case Resume(t) => MoveKeepsCounters(l, s, Step(l, s, e), t, Holding, leaked);
      case Cancel(t) => MoveKeepsCounters(l, s, Step(l, s, e), t, Unwinding, leaked);
      case CancelGranted(t) => CutKeepsCounters(l, s, t, leaked);
      case Unwind(t) =>
        WhereCallerIs(s, t);
        CallerLeaves(s, Step(l, s, e), t);
    }
  }

  lemma MoveKeepsCounters(l: Limits, s: State, n: State, t: TaskId, pc: Pc, leaked: nat)
    requires Counters(l, s, leaked) && t in s.pcs && OwnsSlot(s.pcs[t]) == OwnsSlot(pc)
    requires n.pcs == s.pcs[t := pc] && n.running == s.running && n.waiting == s.waiting
    ensures Counters(l, n, leaked)
  {
    CallerMoves(s, n, t, pc);
  }

  lemma CutKeepsCounters(l: Limits, s: State, t: TaskId, leaked: nat)
    requires Counters(l, s, leaked) && Enabled(s, CancelGranted(t))
    ensures Counters(l, Step(l, s, CancelGranted(t)), leaked + 1)
  {
    WhereCallerIs(s, t);
    CallerMoves(s, Step(l, s, CancelGranted(t)), t, Unwinding);
  }

  lemma StepKeepsCounters(l: Limits, s: State, e: Event, leaked: nat)
    requires Counters(l, s, leaked) && Listed(s) && Enabled(s, e)
    ensures Counters(l, Step(l, s, e), leaked + (if e.CancelGranted? then 1 else 0))
  {
    match e {
      case Arrive(t) => ArriveKeepsCounters(l, s, t, leaked);
      case Check(t) => CheckKeepsCounters(l, s, t, leaked);
      case Finish(t) =>
        GiveBackKeepsCounters(l, s, t, leaked);
        NotifyKeepsCounters(l, GiveBack(s, t), leaked);
      case _ => LeavingKeepsCounters(l, s, e, leaked);
    }
  }

  lemma StepKeepsAwake(l: Limits, s: State, e: Event, leaked: nat, lost: nat)
    requires Counters(l, s, leaked) && Listed(s) && Awake(l, s, lost) && Enabled(s, e)
    ensures Awake(l, Step(l, s, e), lost + (if LosesWakeup(s, e) then 1 else 0))
  {
    match e {
      case Arrive(t) => ArriveKeepsAwake(l, s, t, lost);
      case Check(t) => CheckKeepsAwake(l, s, t, lost);
      case Finish(t) => FinishKeepsAwake(l, s, t, leaked, lost);
      case Unwind(t) => UnwindKeepsAwake(l, s, t, leaked, lost);
      case Resume(t) => ResumeKeepsAwake(l, s, t, lost);
      case _ => CancelKeepsAwake(l, s, e, lost);
    }
  }

  lemma ArriveKeepsAwake(l: Limits, s: State, t: TaskId, lost: nat)
    requires Awake(l, s, lost) && Enabled(s, Arrive(t))
    ensures Awake(l, Step(l, s, Arrive(t)), lost)
  {
    var n := Step(l, s, Arrive(t));
    WhereCallerIs(s, t);
    if n != s { CallerMoves(s, n, t, if s.running < l.maxConcurrency then Holding else Fresh); }
  }

  lemma UnwindKeepsAwake(l: Limits, s: State, t: TaskId, leaked: nat, lost: nat)
    requires Counters(l, s, leaked) && Listed(s) && Awake(l, s, lost) && Enabled(s, Unwind(t))
    ensures Awake(l, Step(l, s, Unwind(t)), lost)
  {
    WhereCallerIs(s, t);
    CallerLeaves(s, Step(l, s, Unwind(t)), t);
  }

  lemma ResumeKeepsAwake(l: Limits, s: State, t: TaskId, lost: nat)
    requires Awake(l, s, lost) && Enabled(s, Resume(t))
    ensures Awake(l, Step(l, s, Resume(t)), lost)
  {
    WhereCallerIs(s, t);
    CallerMoves(s, Step(l, s, Resume(t)), t, Holding);
  }

  lemma CancelKeepsAwake(l: Limits, s: State, e: Event, lost: nat)
    requires Awake(l, s, lost) && Enabled(s, e)
    requires !e.Arrive? && !e.Check? && !e.Finish? && !e.Unwind? && !e.Resume?
    ensures Awake(l, Step(l, s, e), lost + (if LosesWakeup(s, e) then 1 else 0))
  {
    WhereCallerIs(s, e.t);
    CallerMoves(s, Step(l, s, e), e.t, Unwinding);
  }

  lemma CheckKeepsAwake(l: Limits, s: State, t: TaskId, lost: nat)
    requires Awake(l, s, lost) && Enabled(s, Check(t))
    ensures Awake(l, Step(l, s, Check(t)), lost)
  {
    WhereCallerIs(s, t);
    CallerMoves(s, Step(l, s, Check(t)), t, if s.running < l.maxConcurrency then Granted else Parked);
  }

  lemma FinishKeepsAwake(l: Limits, s: State, t: TaskId, leaked: nat, lost: nat)
    requires Counters(l, s, leaked) && Listed(s) && Awake(l, s, lost) && Enabled(s, Finish(t))
    ensures Awake(l, Step(l, s, Finish(t)), lost)
  {
    GiveBackKeepsCounters(l, s, t, leaked);
    NotifyKeepsCounters(l, GiveBack(s, t), leaked);
  }

  // ---------------------------------------------------------------- every run

  /** Both laws hold after every run, whatever was cancelled and wherever. */
  lemma {:induction false} RunKeeps(l: Limits, es: seq<Event>)
    ensures Execute(l, es).Some? ==>
      var r := Execute(l, es).value;
      Counters(l, r.state, r.leaked) && Listed(r.state) && Awake(l, r.state, r.lost)
  {
    if es == [] {
      assert Slots(EMPTY) == {} && Queue(EMPTY) == {};
    } else if Execute(l, es).Some? {
      RunKeeps(l, es[..|es| - 1]);
      var r := Execute(l, es[..|es| - 1]).value;
      StepKeepsCounters(l, r.state, es[|es| - 1], r.leaked);
      StepKeepsListed(l, r.state, es[|es| - 1]);
      StepKeepsAwake(l, r.state, es[|es| - 1], r.leaked, r.lost);
    }
  }

  /** The counters agree with the callers they count exactly when no hand-off was cut. */
  lemma CountersExactIffNoHandOffCut(l: Limits, es: seq<Event>)
    requires Execute(l, es).Some?
    ensures var r := Execute(l, es).value;
            (r.state.running == |Slots(r.state)| <==> r.leaked == 0)
            && (r.state.waiting == |Queue(r.state)| <==> r.leaked == 0)
            && (r.leaked == 0 ==> 0 <= r.state.running <= l.maxConcurrency && 0 <= r.state.waiting <= l.maxWaiting)
  {
    RunKeeps(l, es);
  }

  /** No run, however it is cancelled, lets more callers run than there are slots left. */
  lemma ConcurrencyBounded(l: Limits, es: seq<Event>)
    requires Execute(l, es).Some?
    ensures var r := Execute(l, es).value;
            |Slots(r.state)| + r.leaked <= l.maxConcurrency
            && |Queue(r.state)| <= l.maxWaiting + r.leaked
  {
    RunKeeps(l, es);
  }

  /** What the three outcomes of an arrival say about the callers inside. */
  lemma EntryMeaning(l: Limits, es: seq<Event>)
    requires Execute(l, es).Some?
    ensures var r := Execute(l, es).value;
            (Entry(l, r.state) == Admitted <==> |Slots(r.state)| + r.leaked < l.maxConcurrency)
            && (Entry(l, r.state) == QueueFull <==>
                |Slots(r.state)| + r.leaked == l.maxConcurrency && |Queue(r.state)| == l.maxWaiting + r.leaked)
  {
    RunKeeps(l, es);
  }

  lemma {:induction false} LeakOnlyGrows(l: Limits, es: seq<Event>, more: seq<Event>)
    requires Execute(l, es + more).Some?
    ensures Execute(l, es).Some? && Execute(l, es).value.leaked <= Execute(l, es + more).value.leaked
  {
    if more == [] {
      assert es + more == es;
    } else {
      assert (es + more)[..|es + more| - 1] == es + more[..|more| - 1];
      LeakOnlyGrows(l, es, more[..|more| - 1]);
    }
  }

  /** Once every slot has leaked, nobody ever runs again. */
  lemma AllSlotsLeakedIsForever(l: Limits, es: seq<Event>, more: seq<Event>)
    requires Execute(l, es + more).Some?
    requires Execute(l, es).Some? ==> Execute(l, es).value.leaked == l.maxConcurrency
    ensures Slots(Execute(l, es + more).value.state) == {}
    ensures Entry(l, Execute(l, es + more).value.state) != Admitted
  {
    LeakOnlyGrows(l, es, more);
    ConcurrencyBounded(l, es + more);
    EntryMeaning(l, es + more);
  }

  /** After everyone has left, the counters hold nothing but the leak. */
  lemma IdleCounters(l: Limits, es: seq<Event>)
    requires Execute(l, es).Some? && Execute(l, es).value.state.pcs == map[]
    ensures var r := Execute(l, es).value; r.state.running == r.leaked && r.state.waiting + r.leaked == 0
  {
    RunKeeps(l, es);
    var s := Execute(l, es).value.state;
    assert Slots(s) == {} && Queue(s) == {};
  }

  /** No lost wake-up: without a notified waiter dying, a free slot and a sleeper imply someone about to recheck. */
  lemma NoLostWakeup(l: Limits, es: seq<Event>)
    requires Execute(l, es).Some? && Execute(l, es).value.lost == 0
    ensures var s := Execute(l, es).value.state;
            && (s.parked != [] ==> s.running + |At(s, Woken)| >= l.maxConcurrency)
            && (s.parked != [] && s.running < l.maxConcurrency ==> exists t :: t in s.pcs && s.pcs[t] == Woken)
  {
    RunKeeps(l, es);
    var s := Execute(l, es).value.state;
    if s.parked != [] && s.running < l.maxConcurrency {
      assert At(s, Woken) != {};
      var t :| t in At(s, Woken);
    }
  }

  /**
   When one notified waiter dies, the guarantee survives exactly if nobody sleeps or the others still cover the
   slots.
  */
  lemma CancelWokenKeepsAwakeIff(l: Limits, s: State, t: TaskId)
    requires Listed(s) && Enabled(s, Cancel(t)) && s.pcs[t] == Woken
    ensures Awake(l, Step(l, s, Cancel(t)), 0) <==>
            (s.parked == [] || s.running + |At(s, Woken)| > l.maxConcurrency)
  {
    var n := Step(l, s, Cancel(t));
    assert At(n, Woken) == At(s, Woken) - {t};
    assert t !in s.parked;
    WithoutAbsent(s.parked, t);
  }

  lemma {:induction false} WithoutAbsent(q: seq<TaskId>, t: TaskId)
    requires t !in q
    ensures Without(q, t) == q
  {
    if q != [] { WithoutAbsent(q[1..], t); }
  }

  predicate Progress(e: Event) {
    e.Check? || e.Resume? || e.Finish? || e.Unwind?
  }

  /** Nobody waits for ever on a stuck executor: some caller inside can always move by itself. */
  lemma DeadlockFree(l: Limits, es: seq<Event>)
    requires Execute(l, es).Some?
    requires Execute(l, es).value.lost == 0 && Execute(l, es).value.leaked < l.maxConcurrency
    requires Execute(l, es).value.state.pcs != map[]
    ensures exists e :: Progress(e) && Enabled(Execute(l, es).value.state, e)
  {
    var s := Execute(l, es).value.state;
    RunKeeps(l, es);
    NoLostWakeup(l, es);
    var t :| t in s.pcs;
    match s.pcs[t] {
      case Fresh => assert Enabled(s, Check(t));
      case Woken => assert Enabled(s, Check(t));
      case Granted => assert Enabled(s, Resume(t));
      case Holding => assert Enabled(s, Finish(t));
      case Unwinding => assert Enabled(s, Unwind(t));
      case Parked =>
        assert t in s.parked;
        if s.running < l.maxConcurrency {
          var u :| u in s.pcs && s.pcs[u] == Woken;
          assert Enabled(s, Check(u));
        } else {
          assert Slots(s) != {};
          var u :| u in Slots(s);
          assert Enabled(s, if s.pcs[u] == Granted then Resume(u) else Finish(u));
        }
    }
  }

  // ---------------------------------------------------------------- the way through the program

  /** The caller that learns of its slot can leave with it, and can no longer be cut off from it. */
  lemma ResumeHandsOver(l: Limits, s: State, t: TaskId)
    requires Enabled(s, Resume(t))
    ensures var n := Step(l, s, Resume(t));
      Enabled(n, Finish(t)) && !Enabled(n, Resume(t)) && !Enabled(n, CancelGranted(t))
  {
  }

  /** A caller can be cancelled while its wait lasts, or in the hand-off, and not once it holds its slot or leaves. */
  lemma CancelIff(s: State, t: TaskId)
    ensures Enabled(s, Cancel(t)) <==> t in Queue(s) && t !in At(s, Unwinding)
    ensures Enabled(s, CancelGranted(t)) <==> t in Slots(s) && t !in At(s, Holding)
    ensures Enabled(s, Resume(t)) <==> Enabled(s, CancelGranted(t))
    ensures Enabled(s, Check(t)) <==> Enabled(s, Cancel(t)) && t !in At(s, Parked)
    ensures t in s.pcs && !Enabled(s, Cancel(t)) && !Enabled(s, CancelGranted(t)) ==>
              Enabled(s, Finish(t)) != Enabled(s, Unwind(t))
  {
  }

  /** No section but a refused arrival can be repeated: each one moves its caller on. */
  lemma SectionsMoveOn(l: Limits, s: State, e: Event)
    requires Listed(s) && Enabled(s, e)
    ensures Enabled(Step(l, s, e), e) <==> e.Arrive? && s.running >= l.maxConcurrency && s.waiting >= l.maxWaiting
  {
    if e.Finish? { assert e.t !in s.parked; }
  }

  /** The others stay where they are, but for the longest sleeper, whom a leaving caller wakes. */
  lemma OthersStay(l: Limits, s: State, e: Event, u: TaskId)
    requires Listed(s) && Enabled(s, e) && u != e.t
    ensures var n := Step(l, s, e);
      if e.Finish? && s.parked != [] && u == s.parked[0] then u in n.pcs && n.pcs[u] == Woken
      else (u in n.pcs <==> u in s.pcs) && (u in s.pcs ==> n.pcs[u] == s.pcs[u])
  {
  }

  predicate SleepsBefore(q: seq<TaskId>, u: TaskId, t: TaskId) {
    exists i, j :: 0 <= i < j < |q| && q[i] == u && q[j] == t
  }

  /** First come, first woken: nobody is woken past a sleeper who lay down before. */
  lemma WokenInOrder(l: Limits, s: State, e: Event, u: TaskId, t: TaskId)
    requires Listed(s) && Enabled(s, e) && SleepsBefore(s.parked, u, t)
    ensures var n := Step(l, s, e);
      (u in n.parked && t in n.parked ==> SleepsBefore(n.parked, u, t))
      && (t !in n.parked ==> e == Cancel(t)) && (u !in n.parked ==> e == Cancel(u) || e.Finish?)
  {
    var i, j :| 0 <= i < j < |s.parked| && s.parked[i] == u && s.parked[j] == t;
    assert u in s.parked && t in s.parked;
    match e {
      case Check(v) => assert (s.parked + [v])[i] == u && (s.parked + [v])[j] == t;
      case Finish(v) =>
        if i > 0 { assert s.parked[1..][i - 1] == u; }
        assert s.parked[1..][j - 1] == t;
      case Cancel(v) => if v != u && v != t { WithoutKeepsOrder(s.parked, v, i, j); }
      case _ =>
    }
  }

  lemma {:induction false} WithoutKeepsOrder(q: seq<TaskId>, v: TaskId, i: nat, j: nat)
    requires i < j < |q| && q[i] != v && q[j] != v
    ensures SleepsBefore(Without(q, v), q[i], q[j])
  {
    var rest := Without(q[1..], v);
    if i > 0 {
      WithoutKeepsOrder(q[1..], v, i - 1, j - 1);
      var a, b :| 0 <= a < b < |rest| && rest[a] == q[i] && rest[b] == q[j];
      if q[0] != v { assert Without(q, v)[a + 1] == q[i] && Without(q, v)[b + 1] == q[j]; }
    } else {
      assert q[1..][j - 1] == q[j];
      assert q[j] in rest;
      var b :| 0 <= b < |rest| && rest[b] == q[j];
      assert Without(q, v)[0] == q[i] && Without(q, v)[b + 1] == q[j];
    }
  }

  // Draining: the callers inside can all finish by themselves.

  /** Callers that have not yet taken a slot. */
  ghost function Waiters(s: State): set<TaskId> {
    set t | t in s.pcs && (s.pcs[t] == Fresh || s.pcs[t] == Parked || s.pcs[t] == Woken)
  }

  /** Sections that remain when no check fails: three for a waiter, two for a granted caller, one for the others. */
  ghost function Remaining(s: State): nat {
    |s.pcs.Keys| + |Waiters(s) + At(s, Granted)| + |Waiters(s)|
  }

  /** A section a caller can always afford: it leaves, takes over its slot, or takes a free one. */
  predicate Useful(l: Limits, s: State, e: Event) {
    Enabled(s, e) && (e.Resume? || e.Finish? || e.Unwind? || (e.Check? && s.running < l.maxConcurrency))
  }

  lemma OneFewer<T>(a: set<T>, b: set<T>, x: T)
    requires x in a && b == a - {x}
    ensures |b| == |a| - 1
  {
  }

  lemma LeaverCounted(s: State, n: State, t: TaskId)
    requires t in s.pcs && n.pcs.Keys == s.pcs.Keys - {t}
    requires Waiters(n) == Waiters(s) && At(n, Granted) == At(s, Granted)
    ensures Remaining(n) == Remaining(s) - 1
  {
    OneFewer(s.pcs.Keys, n.pcs.Keys, t);
  }

  lemma TakerCounted(s: State, n: State, t: TaskId)
    requires n.pcs.Keys == s.pcs.Keys && t in Waiters(s)
    requires Waiters(n) == Waiters(s) - {t} && At(n, Granted) == At(s, Granted) + {t}
    ensures Remaining(n) == Remaining(s) - 1
  {
    OneFewer(Waiters(s), Waiters(n), t);
    SameTogether(Waiters(s), At(s, Granted), Waiters(n), At(n, Granted), t);
  }

  lemma SameTogether<T>(a: set<T>, b: set<T>, a': set<T>, b': set<T>, x: T)
    requires x in a && a' == a - {x} && b' == b + {x}
    ensures a' + b' == a + b
  {
  }

  lemma ResumerCounted(s: State, n: State, t: TaskId)
    requires n.pcs.Keys == s.pcs.Keys && t in At(s, Granted) && t !in Waiters(s)
    requires Waiters(n) == Waiters(s) && At(n, Granted) == At(s, Granted) - {t}
    ensures Remaining(n) == Remaining(s) - 1
  {
    assert Waiters(n) + At(n, Granted) == Waiters(s) + At(s, Granted) - {t};
    OneFewer(Waiters(s) + At(s, Granted), Waiters(n) + At(n, Granted), t);
  }

  lemma LeavingShrinks(l: Limits, s: State, e: Event)
    requires Listed(s) && Enabled(s, e) && (e.Finish? || e.Unwind?)
    ensures Remaining(Step(l, s, e)) == Remaining(s) - 1
  {
    if e.Finish? { FinishingLeaves(s, e.t); } else { UnwindingLeaves(l, s, e.t); }
    LeaverCounted(s, Step(l, s, e), e.t);
  }

  lemma UnwindingLeaves(l: Limits, s: State, t: TaskId)
    requires Enabled(s, Unwind(t))
    ensures var n := Step(l, s, Unwind(t));
      n.pcs.Keys == s.pcs.Keys - {t} && Waiters(n) == Waiters(s) && At(n, Granted) == At(s, Granted)
  {
  }

  lemma FinishingLeaves(s: State, t: TaskId)
    requires Listed(s) && Enabled(s, Finish(t))
    ensures var n := Notify(GiveBack(s, t));
      n.pcs.Keys == s.pcs.Keys - {t} && Waiters(n) == Waiters(s) && At(n, Granted) == At(s, Granted)
  {
    var g := GiveBack(s, t);
    assert g.pcs.Keys == s.pcs.Keys - {t} && Waiters(g) == Waiters(s) && At(g, Granted) == At(s, Granted);
    if s.parked != [] {
      assert s.parked[0] in s.parked;
      NotifyingMoves(g);
    }
  }

  lemma NotifyingMoves(s: State)
    requires s.parked != [] && s.parked[0] in s.pcs && s.pcs[s.parked[0]] == Parked
    ensures var n := Notify(s);
      n.pcs.Keys == s.pcs.Keys && Waiters(n) == Waiters(s) && At(n, Granted) == At(s, Granted)
  {
  }

  lemma ResumingShrinks(l: Limits, s: State, t: TaskId)
    requires Enabled(s, Resume(t))
    ensures Remaining(Step(l, s, Resume(t))) == Remaining(s) - 1
  {
    var n := Step(l, s, Resume(t));
    assert n.pcs.Keys == s.pcs.Keys && Waiters(n) == Waiters(s) && At(n, Granted) == At(s, Granted) - {t};
    ResumerCounted(s, n, t);
  }

  lemma TakingShrinks(l: Limits, s: State, t: TaskId)
    requires Enabled(s, Check(t)) && s.running < l.maxConcurrency
    ensures Remaining(Step(l, s, Check(t))) == Remaining(s) - 1
  {
    var n := Step(l, s, Check(t));
    assert n.pcs.Keys == s.pcs.Keys && Waiters(n) == Waiters(s) - {t} && At(n, Granted) == At(s, Granted) + {t};
    TakerCounted(s, n, t);
  }

  lemma UsefulShrinks(l: Limits, s: State, e: Event)
    requires Listed(s) && Useful(l, s, e)
    ensures Remaining(Step(l, s, e)) == Remaining(s) - 1
  {
    match e {
      case Check(t) => TakingShrinks(l, s, t);
      case Resume(t) => ResumingShrinks(l, s, t);
      case _ => LeavingShrinks(l, s, e);
    }
  }

  /** With every slot free and none lost, a sleeper means that someone was notified. */
  lemma FreeSlotWakes(l: Limits, s: State, leaked: nat)
    requires Counters(l, s, leaked) && Awake(l, s, 0) && leaked < l.maxConcurrency && Slots(s) == {} && s.parked != []
    ensures exists u :: u in s.pcs && s.pcs[u] == Woken
  {
    assert At(s, Woken) != {};
    var u :| u in At(s, Woken);
  }

  /** While no wake-up was lost and a slot is left, someone inside has a useful section. */
  lemma SomeoneUseful(l: Limits, s: State, leaked: nat) returns (e: Event)
    requires Counters(l, s, leaked) && Listed(s) && Awake(l, s, 0) && leaked < l.maxConcurrency && s.pcs != map[]
    ensures Useful(l, s, e)
  {
    if u :| u in s.pcs && (s.pcs[u] == Granted || s.pcs[u] == Holding || s.pcs[u] == Unwinding) {
      e := if s.pcs[u] == Granted then Resume(u) else if s.pcs[u] == Holding then Finish(u) else Unwind(u);
    } else {
      assert Slots(s) == {};
      var t :| t in s.pcs;
      if s.parked != [] {
        FreeSlotWakes(l, s, leaked);
        t :| t in s.pcs && s.pcs[t] == Woken;
      }
      e := Check(t);
    }
  }

  lemma Extends(l: Limits, es: seq<Event>, e: Event)
    requires Execute(l, es).Some? && Enabled(Execute(l, es).value.state, e)
    ensures var r := Execute(l, es).value;
      Execute(l, es + [e]) == Some(Run(Step(l, r.state, e), r.leaked + (if e.CancelGranted? then 1 else 0),
                                       r.lost + (if LosesWakeup(r.state, e) then 1 else 0)))
  {
    assert (es + [e])[..|es|] == es;
  }

  /** `more` are sections of the callers inside alone, after which all of them have left. */
  ghost predicate DrainedBy(r: Option<Run>, more: seq<Event>, n: Option<Run>) {
    && r.Some? && n.Some? && |more| == Remaining(r.value.state) && (forall e :: e in more ==> Progress(e))
    && n.value.leaked == r.value.leaked == n.value.state.running
    && n.value.state.pcs == map[] && n.value.state.parked == []
  }

  /**
   From every reachable state in which no wake-up was lost and a slot is left, the callers
   inside can all leave by their own sections, after which the counters hold the leak alone.
   */
  lemma {:induction false} Drains(l: Limits, es: seq<Event>) returns (more: seq<Event>)
    requires Execute(l, es).Some?
    requires Execute(l, es).value.lost == 0 && Execute(l, es).value.leaked < l.maxConcurrency
    ensures DrainedBy(Execute(l, es), more, Execute(l, es + more))
    decreases Remaining(Execute(l, es).value.state)
  {
    if Execute(l, es).value.state.pcs == map[] {
      more := [];
      DrainedAlready(l, es);
    } else {
      var e := UsefulSection(l, es);
      var rest := Drains(l, es + [e]);
      more := [e] + rest;
      DrainedFirst(Execute(l, es), e, Execute(l, es + [e]), rest, Execute(l, es + [e] + rest));
      Regroup(es, e, rest);
    }
  }

  lemma Regroup(es: seq<Event>, e: Event, rest: seq<Event>)
    ensures es + [e] + rest == es + ([e] + rest)
  {
  }

  lemma DrainedAlready(l: Limits, es: seq<Event>)
    requires Execute(l, es).Some? && Execute(l, es).value.state.pcs == map[]
    ensures DrainedBy(Execute(l, es), [], Execute(l, es + []))
  {
    assert es + [] == es;
    NobodyLeft(l, es);
  }

  lemma UsefulSection(l: Limits, es: seq<Event>) returns (e: Event)
    requires Execute(l, es).Some? && Execute(l, es).value.state.pcs != map[]
    requires Execute(l, es).value.lost == 0 && Execute(l, es).value.leaked < l.maxConcurrency
    ensures Goes(Execute(l, es), e, Execute(l, es + [e]))
  {
    RunKeeps(l, es);
    e := SomeoneUseful(l, Execute(l, es).value.state, Execute(l, es).value.leaked);
    UsefulGoesOn(l, es, e);
  }

  /** One section nearer to the end, with nothing lost. */
  ghost predicate Goes(r: Option<Run>, e: Event, n: Option<Run>) {
    && Progress(e) && r.Some? && n.Some? && n.value.leaked == r.value.leaked && n.value.lost == r.value.lost
    && Remaining(n.value.state) == Remaining(r.value.state) - 1
  }

  lemma DrainedFirst(r: Option<Run>, e: Event, m: Option<Run>, rest: seq<Event>, n: Option<Run>)
    requires Goes(r, e, m) && DrainedBy(m, rest, n)
    ensures DrainedBy(r, [e] + rest, n)
  {
  }

  lemma NobodyLeft(l: Limits, es: seq<Event>)
    requires Execute(l, es).Some? && Execute(l, es).value.state.pcs == map[]
    ensures var r := Execute(l, es).value;
      r.state.parked == [] && r.state.running == r.leaked && Remaining(r.state) == 0
  {
    RunKeeps(l, es);
    IdleCounters(l, es);
    var s := Execute(l, es).value.state;
    assert s.pcs.Keys == {} && Waiters(s) == {} && At(s, Granted) == {};
    SleeperIsInside(s);
  }

  lemma SleeperIsInside(s: State)
    requires Listed(s)
    ensures s.parked != [] ==> s.pcs != map[]
  {
    if s.parked != [] { assert s.parked[0] in s.parked; }
  }

  lemma UsefulGoesOn(l: Limits, es: seq<Event>, e: Event)
    requires Execute(l, es).Some? && Useful(l, Execute(l, es).value.state, e)
    ensures Goes(Execute(l, es), e, Execute(l, es + [e]))
  {
    RunKeeps(l, es);
    Extends(l, es, e);
    UsefulShrinks(l, Execute(l, es).value.state, e);
  }

  // ---------------------------------------------------------------- the two windows

  /** Extend a known prefix of a concrete run by one section. */
  lemma Extend(l: Limits, es: seq<Event>, r: Run, e: Event, n: State)
    requires Execute(l, es) == Some(r) && Enabled(r.state, e)
    requires var m := Step(l, r.state, e);
             m.running == n.running && m.waiting == n.waiting && m.pcs == n.pcs && m.parked == n.parked
    ensures Execute(l, es + [e]) == Some(Run(n, r.leaked + (if e.CancelGranted? then 1 else 0),
                                             r.lost + (if LosesWakeup(r.state, e) then 1 else 0)))
  {
    assert (es + [e])[..|es|] == es;
  }

  /** One caller runs, a second one queues. */
  lemma SecondQueues(l: Limits) returns (es: seq<Event>)
    requires l.maxConcurrency == 1 && l.maxWaiting >= 1
    ensures Execute(l, es) == Some(Run(State(1, 1, map[0 := Holding, 1 := Fresh], []), 0, 0))
  {
    es := [];
    Extend(l, es, Run(EMPTY, 0, 0), Arrive(0), State(1, 0, map[0 := Holding], []));
    es := es + [Arrive(0)];
    Extend(l, es, Run(State(1, 0, map[0 := Holding], []), 0, 0), Arrive(1),
           State(1, 1, map[0 := Holding, 1 := Fresh], []));
    es := es + [Arrive(1)];
  }

  lemma SecondSleeps(l: Limits) returns (es: seq<Event>)
    requires l.maxConcurrency == 1 && l.maxWaiting >= 1
    ensures Execute(l, es) == Some(Run(State(1, 1, map[0 := Holding, 1 := Parked], [1]), 0, 0))
  {
    es := SecondQueues(l);
    Extend(l, es, Run(State(1, 1, map[0 := Holding, 1 := Fresh], []), 0, 0), Check(1),
           State(1, 1, map[0 := Holding, 1 := Parked], [1]));
    es := es + [Check(1)];
  }

  /** One caller runs, a second one sleeps, the first one leaves. */
  lemma SleeperNotified(l: Limits) returns (es: seq<Event>)
    requires l.maxConcurrency == 1 && l.maxWaiting >= 1
    ensures Execute(l, es) == Some(Run(State(0, 1, map[1 := Woken], []), 0, 0))
  {
    es := SecondSleeps(l);
    Extend(l, es, Run(State(1, 1, map[0 := Holding, 1 := Parked], [1]), 0, 0), Finish(0),
           State(0, 1, map[1 := Woken], []));
    es := es + [Finish(0)];
  }

  /** A caller cancelled between its waiter's success and its own resumption leaks the only slot. */
  lemma HandOffTrace(l: Limits) returns (es: seq<Event>)
    requires l.maxConcurrency == 1 && l.maxWaiting >= 1
    ensures Execute(l, es) == Some(Run(State(1, -1, map[], []), 1, 0))
  {
    es := SleeperNotified(l);
    Extend(l, es, Run(State(0, 1, map[1 := Woken], []), 0, 0), Check(1), State(1, 0, map[1 := Granted], []));
    es := es + [Check(1)];
    Extend(l, es, Run(State(1, 0, map[1 := Granted], []), 0, 0), CancelGranted(1),
           State(1, 0, map[1 := Unwinding], []));
    es := es + [CancelGranted(1)];
    Extend(l, es, Run(State(1, 0, map[1 := Unwinding], []), 1, 0), Unwind(1), State(1, -1, map[], []));
    es := es + [Unwind(1)];
  }

  /** A notified waiter times out before it rechecks: a sleeper stays beside a free slot. */
  lemma LostWakeupTrace(l: Limits) returns (es: seq<Event>)
    requires l.maxConcurrency == 1 && l.maxWaiting >= 2
    ensures Execute(l, es) == Some(Run(State(0, 1, map[2 := Parked], [2]), 0, 1))
  {
    es := SecondSleeps(l);
    es := LostWakeupTail(l, es);
  }

  lemma LostWakeupTail(l: Limits, start: seq<Event>) returns (es: seq<Event>)
    requires l.maxConcurrency == 1 && l.maxWaiting >= 2
    requires Execute(l, start) == Some(Run(State(1, 1, map[0 := Holding, 1 := Parked], [1]), 0, 0))
    ensures Execute(l, es) == Some(Run(State(0, 1, map[2 := Parked], [2]), 0, 1))
  {
    es := start;
    Extend(l, es, Run(State(1, 1, map[0 := Holding, 1 := Parked], [1]), 0, 0), Arrive(2),
           State(1, 2, map[0 := Holding, 1 := Parked, 2 := Fresh], [1]));
    es := es + [Arrive(2)];
    Extend(l, es, Run(State(1, 2, map[0 := Holding, 1 := Parked, 2 := Fresh], [1]), 0, 0), Check(2),
           State(1, 2, map[0 := Holding, 1 := Parked, 2 := Parked], [1, 2]));
    es := es + [Check(2)];
    Extend(l, es, Run(State(1, 2, map[0 := Holding, 1 := Parked, 2 := Parked], [1, 2]), 0, 0), Finish(0),
           State(0, 2, map[1 := Woken, 2 := Parked], [2]));
    es := es + [Finish(0)];
    es := LostWakeupEnd(l, es);
  }

  lemma LostWakeupEnd(l: Limits, start: seq<Event>) returns (es: seq<Event>)
    requires l.maxConcurrency == 1 && l.maxWaiting >= 2
    requires Execute(l, start) == Some(Run(State(0, 2, map[1 := Woken, 2 := Parked], [2]), 0, 0))
    ensures Execute(l, es) == Some(Run(State(0, 1, map[2 := Parked], [2]), 0, 1))
  {
    es := start;
    WithoutAbsent([2], 1);
    Extend(l, es, Run(State(0, 2, map[1 := Woken, 2 := Parked], [2]), 0, 0), Cancel(1),
           State(0, 2, map[1 := Unwinding, 2 := Parked], [2]));
    es := es + [Cancel(1)];
    Extend(l, es, Run(State(0, 2, map[1 := Unwinding, 2 := Parked], [2]), 0, 1), Unwind(1),
           State(0, 1, map[2 := Parked], [2]));
    es := es + [Unwind(1)];
  }

  // ---------------------------------------------------------------- the executor itself

  class BoundedExecutor {
    const limits: Limits
    var running: int
    var waiting: int
    var parked: seq<TaskId>
    ghost var pcs: map<TaskId, Pc>

    ghost function Current(): State
      reads this
    {
      State(running, waiting, pcs, parked)
    }

    constructor (maxConcurrency: nat, maxWaiting: nat)
      requires maxConcurrency >= 1
      ensures limits == Limits(maxConcurrency, maxWaiting) && Current() == EMPTY
    {
      limits := Limits(maxConcurrency, maxWaiting);
      running, waiting, parked, pcs := 0, 0, [], map[];
    }

    /** The first `async with` block of `run`. */
    method Enter(t: TaskId) returns (outcome: Outcome)
      requires Enabled(Current(), Arrive(t))
      modifies this
      ensures outcome == Entry(limits, old(Current()))
      ensures Current() == Step(limits, old(Current()), Arrive(t))
    {
      if running < limits.maxConcurrency {
        running := running + 1;
        pcs := pcs[t := Holding];
        return Admitted;
      } else if waiting >= limits.maxWaiting {
        return QueueFull;
      }
      waiting := waiting + 1;
      pcs := pcs[t := Fresh];
      return Queued;
    }

    /** One evaluation of the predicate inside `wait_for_slot`, and what follows it. */
    method WaiterCheck(t: TaskId) returns (granted: bool)
      requires Enabled(Current(), Check(t))
      modifies this
      ensures granted == (old(running) < limits.maxConcurrency)
      ensures Current() == Step(limits, old(Current()), Check(t))
    {
      granted := running < limits.maxConcurrency;
      if granted {
        waiting := waiting - 1;
        running := running + 1;
        pcs := pcs[t := Granted];
      } else {
        parked := parked + [t];
        pcs := pcs[t := Parked];
      }
    }

    /** The caller learns that its waiter is done: `acquired = True; queued = False`. */
    method CallerResume(t: TaskId)
      requires Enabled(Current(), Resume(t))
      modifies this
      ensures Current() == Step(limits, old(Current()), Resume(t))
    {
      pcs := pcs[t := Holding];
    }

    /** The caller times out or is cancelled while its waiter has not taken the slot. */
    method AbandonWait(t: TaskId)
      requires Enabled(Current(), Cancel(t))
      modifies this
      ensures Current() == Step(limits, old(Current()), Cancel(t))
    {
      parked := Without(parked, t);
      pcs := pcs[t := Unwinding];
    }

    /** The caller is cancelled in the hand-off window: `queued` is still set, `acquired` is not. */
    method AbandonGranted(t: TaskId)
      requires Enabled(Current(), CancelGranted(t))
      modifies this
      ensures Current() == Step(limits, old(Current()), CancelGranted(t))
    {
      pcs := pcs[t := Unwinding];
    }

    /** `finally` with `queued` set. */
    method LeaveQueue(t: TaskId)
      requires Enabled(Current(), Unwind(t))
      modifies this
      ensures Current() == Step(limits, old(Current()), Unwind(t))
    {
      waiting := waiting - 1;
      pcs := pcs - {t};
    }

    /** `finally` with `acquired` set: give the slot back and notify one sleeper. */
    method Release(t: TaskId)
      requires Enabled(Current(), Finish(t))
      modifies this
      ensures Current() == Step(limits, old(Current()), Finish(t))
    {
      running := running - 1;
      pcs := pcs - {t};
      if parked != [] {
        pcs := pcs[parked[0] := Woken];
        parked := parked[1..];
      }
    }
  }
}
