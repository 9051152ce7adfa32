/**
  A task enabled in vtime.bpf.c against the tasks that wait already: where it joins the
  queue, how much it is served before an older one, and what enabling it over and over
  does to them.
 */
module Newcomer {
  import opened Kernel
  import opened Vtime
  import opened Fairness

  // ---------------------------------------------------------------- joining at the head

  /** p stands at the clock, as sched_enable leaves it, and is not queued yet. */
  ghost predicate Fresh(s: State, p: Task) {
    WellFormed(s) && p in s.vtime && p !in s.queue && s.running != Some(p) && s.vtime[p] == s.now
  }

  lemma ClockIsNotClamped(a: Arith, form: Form, now: int)
    requires a.Wrapping? ==> 0 <= now < TWO64
    ensures Clamp(a, form, now, now) == now
  {
    if a.Wrapping? {
      WrapDifference(now, now - SLICE);
      WrapSmall(now);
      WrapSmall(SLICE);
    }
  }

  /** It joins at the head exactly if the task there is ahead of the clock. As written the clock stands still,
      so that is every task that has been charged. */
  lemma JoinsAtHeadExactly(a: Arith, form: Form, s: State, p: Task)
    requires Fresh(s, p) && s.queue != [] && (a.Wrapping? ==> 0 <= s.now < TWO64)
    ensures EnqueueStep(a, form, s, p).queue == [p] + s.queue <==> Before(a, s.now, s.vtime[s.queue[0]])
  {
    ClockIsNotClamped(a, form, s.now);
    hide Before, Clamp, Distinct;
    var v := s.vtime[p := s.now];
    assert v == s.vtime;
    assert Insert(a, s.queue, v, p)[0] == if Before(a, s.now, s.vtime[s.queue[0]]) then p else s.queue[0];
  }

  // ---------------------------------------------------------------- service before an older task

  lemma StepKeepsOrdered(form: Form, s: State, e: Event)
    requires WellFormed(s) && Guard(s, e) && Ordered(s.queue, s.vtime)
    ensures WellFormed(Step(Unbounded, form, s, e))
    ensures Ordered(Step(Unbounded, form, s, e).queue, Step(Unbounded, form, s, e).vtime)
  {
    var t := Step(Unbounded, form, s, e);
    StepKeepsWellFormed(Unbounded, form, s, e);
    hide Charge, Clamp, Insert, Ordered, Distinct, IsSmaller;
    match e
    case Enable(p, w) => OrderedFrame(s.queue, s.vtime, t.vtime);
    case Enqueue(p) =>
      OrderedFrame(s.queue, s.vtime, t.vtime);
      InsertOrdered(s.queue, t.vtime, p);
    case Dispatch =>
      if s.queue != [] {
        Tail(s.queue, s.vtime);
      }
    case Stop(p, left) => OrderedFrame(s.queue, s.vtime, t.vtime);
  }

  /** u waits in every state of the run. */
  ghost predicate StaysQueued(form: Form, s: State, es: seq<Event>, u: Task)
    requires WellFormed(s) && Runs(Unbounded, form, s, es)
    decreases |es|
  {
    u in s.queue
    && (es == [] || (StepKeepsWellFormed(Unbounded, form, s, es[0]);
                     StaysQueued(form, Step(Unbounded, form, s, es[0]), es[1..], u)))
  }

  function Lead(x: int, y: int): nat {
    if x > y then x - y else 0
  }

  /** While u waits at vtime v: p, which was at v0 when its account c was opened, has been charged no more than
      u's lead and one full charge, and it only runs while it is not behind u. */
  ghost predicate Overtakes(s: State, p: Task, u: Task, v0: int, v: int, c: Account) {
    && WellFormed(s) && Ordered(s.queue, s.vtime) && p != u && p in s.vtime && u in s.queue && s.vtime[u] == v
    && c.weight == s.weight[p]
    && v0 + c.charged <= s.vtime[p]
    && c.charged <= Lead(v, v0) + FullCharge(c.weight)
    && (s.running == Some(p) ==> s.vtime[p] <= v)
  }

  lemma StepOvertakes(form: Form, s: State, e: Event, p: Task, u: Task, v0: int, v: int, c: Account)
    requires Overtakes(s, p, u, v0, v, c) && Guard(s, e)
    requires (e.Enable? ==> e.p != p) && u in Step(Unbounded, form, s, e).queue
    ensures Overtakes(Step(Unbounded, form, s, e), p, u, v0, v, ChargeEvent(c, e, p))
  {
    StepKeepsOrdered(form, s, e);
    if e.Stop? {
      ChargeMono(e.left, s.weight[e.p]);
    }
    if e.Dispatch? && s.queue != [] {
      Tail(s.queue, s.vtime);
    }
    hide Charge, FullCharge, Insert, Distinct, Ordered;
  }

  lemma {:induction false} RunOvertakes(form: Form, s: State, es: seq<Event>, p: Task, u: Task, v0: int, v: int,
                                        c: Account)
    requires WellFormed(s) && Overtakes(s, p, u, v0, v, c)
    requires Runs(Unbounded, form, s, es) && StaysQueued(form, s, es, u)
    requires forall e <- es :: e.Enable? ==> e.p != p
    ensures Overtakes(Run(Unbounded, form, s, es), p, u, v0, v, Charged(c, es, p))
    decreases |es|
  {
    hide Overtakes, Step, Guard, ChargeEvent;
    if es != [] {
      assert es[0] in es;
      StepKeepsWellFormed(Unbounded, form, s, es[0]);
      assert u in Step(Unbounded, form, s, es[0]).queue;
      StepOvertakes(form, s, es[0], p, u, v0, v, c);
      RunOvertakes(form, Step(Unbounded, form, s, es[0]), es[1..], p, u, v0, v, ChargeEvent(c, es[0], p));
    }
  }

  lemma {:induction false} WeightStays(c: Account, es: seq<Event>, p: Task)
    requires forall e <- es :: e.Enable? ==> e.p != p
    ensures Charged(c, es, p).weight == c.weight
    decreases |es|
  {
    if es != [] {
      assert es[0] in es;
      WeightStays(ChargeEvent(c, es[0], p), es[1..], p);
    }
  }

  /** In both forms: while u waits, p is charged at most what u is ahead of it and one full charge. */
  lemma ChargedWhileWaiting(form: Form, s: State, es: seq<Event>, p: Task, u: Task)
    requires WellFormed(s) && Ordered(s.queue, s.vtime)
    requires p in s.vtime && u in s.queue && p != u && s.running != Some(p)
    requires Runs(Unbounded, form, s, es) && StaysQueued(form, s, es, u)
    requires forall e <- es :: e.Enable? ==> e.p != p
    ensures Charged(Account(s.weight[p], 0), es, p).charged
            <= Lead(s.vtime[u], s.vtime[p]) + FullCharge(s.weight[p])
  {
    hide FullCharge, Charged, Run, Runs;
    var c := Account(s.weight[p], 0);
    assert Overtakes(s, p, u, s.vtime[p], s.vtime[u], c);
    RunOvertakes(form, s, es, p, u, s.vtime[p], s.vtime[u], c);
    WeightStays(c, es, p);
  }

  /** As meant that is a bound: a task just enabled is charged at most one full charge of the waiting task and
      one of its own before the waiting task runs, unless it is enabled again. */
  lemma BoundedAsMeant(s: State, es: seq<Event>, p: Task, u: Task)
    requires ClockInv(s) && Fresh(s, p) && u in s.queue
    requires Runs(Unbounded, Meant, s, es) && StaysQueued(Meant, s, es, u)
    requires forall e <- es :: e.Enable? ==> e.p != p
    ensures Charged(Account(s.weight[p], 0), es, p).charged <= FullCharge(s.weight[u]) + FullCharge(s.weight[p])
  {
    hide FullCharge, Charged, Runs;
    ChargedWhileWaiting(Meant, s, es, p, u);
  }

  /** As written: p stands at now0 plus its charges, every other task at now0 + d or later, and another task
      runs only once p has caught up. */
  ghost predicate CatchesUp(s: State, p: Task, now0: int, d: nat, c: Account) {
    && WellFormed(s) && Ordered(s.queue, s.vtime) && p in s.vtime
    && c.weight == s.weight[p] && s.vtime[p] == now0 + c.charged
    && (forall t <- s.vtime :: t != p ==> s.vtime[t] >= now0 + d)
    && (s.running.Some? && s.running.value != p ==> c.charged >= d)
  }

  lemma WrittenClampUnbounded(now: int, v: int)
    ensures Clamp(Unbounded, Written, now, v) == v
  {
  }

  lemma StepCatchesUp(s: State, e: Event, p: Task, now0: int, d: nat, c: Account)
    requires CatchesUp(s, p, now0, d, c) && Guard(s, e) && Follows(EnqueueFirst, s, e)
    ensures CatchesUp(Step(Unbounded, Written, s, e), p, now0, d, ChargeEvent(c, e, p))
  {
    StepKeepsOrdered(Written, s, e);
    if e.Enqueue? {
      WrittenClampUnbounded(s.now, s.vtime[e.p]);
    }
    if e.Dispatch? && s.queue != [] {
      Tail(s.queue, s.vtime);
    }
    hide Charge, Insert, Distinct, Ordered, Clamp, IsSmaller;
  }

  lemma {:induction false} RunCatchesUp(s: State, es: seq<Event>, p: Task, now0: int, d: nat, c: Account)
    requires WellFormed(s) && CatchesUp(s, p, now0, d, c) && BusyRun(EnqueueFirst, Written, s, es)
    ensures CatchesUp(Run(Unbounded, Written, s, es), p, now0, d, Charged(c, es, p))
    decreases |es|
  {
    hide CatchesUp, Step, Guard, ChargeEvent, Follows;
    if es != [] {
      StepKeepsWellFormed(Unbounded, Written, s, es[0]);
      StepCatchesUp(s, es[0], p, now0, d, c);
      RunCatchesUp(Step(Unbounded, Written, s, es[0]), es[1..], p, now0, d, ChargeEvent(c, es[0], p));
    }
  }

  /** As written there is no such bound: among tasks that are always runnable and queued again before the next
      dispatch, an older one runs only after the new task has been charged all that the older ones are ahead of
      the clock, which is what they have been charged since they were enabled. */
  lemma ServedFirstAsWritten(s: State, es: seq<Event>, p: Task, d: nat)
    requires Fresh(s, p) && Ordered(s.queue, s.vtime) && s.running.None?
    requires forall t <- s.vtime :: t != p ==> s.vtime[t] >= s.now + d
    requires BusyRun(EnqueueFirst, Written, s, es)
    ensures var r := Run(Unbounded, Written, s, es);
            r.running.Some? && r.running.value != p ==> Charged(Account(s.weight[p], 0), es, p).charged >= d
  {
    hide Charged, Run, Runs, FollowsAll;
    var c := Account(s.weight[p], 0);
    assert CatchesUp(s, p, s.now, d, c);
    RunCatchesUp(s, es, p, s.now, d, c);
  }

  // ---------------------------------------------------------------- the same in u64, as written

  /** A task joins a queue whose vtimes are within 2^63 of its own. */
  ghost predicate Near(s: State, e: Event) {
    e.Enqueue? && e.p in s.vtime ==>
      forall t <- s.queue :: t in s.vtime ==> -TWO63 <= s.vtime[e.p] - s.vtime[t] < TWO63
  }

  ghost predicate NearRun(s: State, es: seq<Event>)
    requires WellFormed(s) && Runs(Unbounded, Written, s, es)
    decreases |es|
  {
    es == [] || (Near(s, es[0])
                 && (StepKeepsWellFormed(Unbounded, Written, s, es[0]);
                     NearRun(Step(Unbounded, Written, s, es[0]), es[1..])))
  }

  lemma WrittenStepRefines(s: State, e: Event)
    requires WellFormed(s) && Guard(s, e) && Near(s, e)
    ensures WellFormed(Wrapped(s)) && Guard(Wrapped(s), e)
    ensures Step(Wrapping, Written, Wrapped(s), e) == Wrapped(Step(Unbounded, Written, s, e))
  {
    hide Charge, Insert, Wrap, Before, EnqueueStep, StopStep, DispatchStep, Clamp, Distinct;
    match e
    case Enable(p, w) => WrapAllUpdate(s.vtime, p, s.now);
    case Enqueue(p) =>
      WrittenClampUnbounded(s.now, s.vtime[p]);
      EnqueueRefines(Written, s, p);
    case Dispatch => WrittenDispatchRefines(s);
    case Stop(p, left) => StopRefines(s, p, left);
  }

  /** As written, the u64 scheduler takes every run of the unbounded one in which queued vtimes stay near. */
  lemma {:induction false} WrittenRunRefines(s: State, es: seq<Event>)
    requires WellFormed(s) && Runs(Unbounded, Written, s, es) && NearRun(s, es)
    ensures WellFormed(Wrapped(s)) && Runs(Wrapping, Written, Wrapped(s), es)
    ensures Run(Wrapping, Written, Wrapped(s), es) == Wrapped(Run(Unbounded, Written, s, es))
    decreases |es|
  {
    hide Step, Guard, Near, Distinct;
    if es != [] {
      WrittenStepRefines(s, es[0]);
      StepKeepsWellFormed(Unbounded, Written, s, es[0]);
      WrittenRunRefines(Step(Unbounded, Written, s, es[0]), es[1..]);
    }
  }

  // ---------------------------------------------------------------- enabled over and over

  /** p is enabled, queued, dispatched and uses up its slice. */
  function Round(p: Task, w: nat): seq<Event> {
    [Enable(p, w), Enqueue(p), Dispatch, Stop(p, 0)]
  }

  function Rounds(p: Task, w: nat, n: nat): seq<Event> {
    if n == 0 then [] else Round(p, w) + Rounds(p, w, n - 1)
  }

  /** The CPU is free, p is elsewhere, and the task at the head is ahead of the clock. */
  ghost predicate Exposed(a: Arith, s: State, p: Task) {
    && WellFormed(s) && s.running.None? && p !in s.queue && s.queue != []
    && (a.Wrapping? ==> 0 <= s.now < TWO64)
    && Before(a, s.now, s.vtime[s.queue[0]])
  }

  /** What a round leaves: only p has changed. */
  function AfterRound(a: Arith, s: State, p: Task, w: nat): State {
    s.(vtime := s.vtime[p := Norm(a, s.now + Charge(0, w))], weight := s.weight[p := w])
  }

  lemma RunCons(a: Arith, form: Form, s: State, e: Event, es: seq<Event>)
    requires WellFormed(s) && Guard(s, e)
    ensures WellFormed(Step(a, form, s, e))
    ensures Runs(a, form, Step(a, form, s, e), es) ==>
              Runs(a, form, s, [e] + es) && Run(a, form, s, [e] + es) == Run(a, form, Step(a, form, s, e), es)
  {
    StepKeepsWellFormed(a, form, s, e);
    hide Step, Guard, WellFormed;
    assert ([e] + es)[1..] == es;
  }

  lemma QueuesFirst(a: Arith, form: Form, s: State, p: Task)
    requires Fresh(s, p) && s.queue != [] && (a.Wrapping? ==> 0 <= s.now < TWO64)
    requires Before(a, s.now, s.vtime[s.queue[0]])
    ensures EnqueueStep(a, form, s, p) == s.(queue := [p] + s.queue)
  {
    JoinsAtHeadExactly(a, form, s, p);
    ClockIsNotClamped(a, form, s.now);
    hide Before, Clamp, Distinct, Insert;
    assert s.vtime[p := s.now] == s.vtime;
  }

  lemma DispatchesFirst(a: Arith, form: Form, s: State, q: seq<Task>, p: Task)
    requires p in s.vtime && s.vtime[p] == s.now && forall t <- q :: t in s.vtime
    ensures DispatchStep(a, form, s.(queue := [p] + q)) == s.(queue := q, running := Some(p))
  {
    assert ([p] + q)[1..] == q;
    assert Wrap(0) == 0;
  }

  /** The four hooks of a round, one state after another. */
  lemma RoundSteps(a: Arith, form: Form, s: State, p: Task, w: nat)
    requires Exposed(a, s, p) && w >= 1
    ensures Guard(s, Enable(p, w))
    ensures var s1 := Step(a, form, s, Enable(p, w));
            && s1 == s.(vtime := s.vtime[p := s.now], weight := s.weight[p := w])
            && WellFormed(s1) && Guard(s1, Enqueue(p))
            && var s2 := Step(a, form, s1, Enqueue(p));
            && s2 == s1.(queue := [p] + s.queue)
            && WellFormed(s2) && Guard(s2, Dispatch)
            && var s3 := Step(a, form, s2, Dispatch);
            && s3 == s1.(running := Some(p))
            && WellFormed(s3) && Guard(s3, Stop(p, 0))
            && Step(a, form, s3, Stop(p, 0)) == AfterRound(a, s, p, w)
  {
    StepKeepsWellFormed(a, form, s, Enable(p, w));
    var s1 := Step(a, form, s, Enable(p, w));
    StepKeepsWellFormed(a, form, s1, Enqueue(p));
    QueuesFirst(a, form, s1, p);
    var s2 := s1.(queue := [p] + s.queue);
    StepKeepsWellFormed(a, form, s2, Dispatch);
    DispatchesFirst(a, form, s1, s.queue, p);
    hide Charge, Clamp, Insert, Before, Distinct, IsSmaller;
    assert s1.vtime[p := Norm(a, s.now + Charge(0, w))] == s.vtime[p := Norm(a, s.now + Charge(0, w))];
  }

  lemma RoundRuns(a: Arith, form: Form, s: State, p: Task, w: nat, es: seq<Event>)
    requires Exposed(a, s, p) && w >= 1
    ensures Exposed(a, AfterRound(a, s, p, w), p)
    ensures Runs(a, form, AfterRound(a, s, p, w), es) ==>
              Runs(a, form, s, Round(p, w) + es)
              && Run(a, form, s, Round(p, w) + es) == Run(a, form, AfterRound(a, s, p, w), es)
  {
    RoundSteps(a, form, s, p, w);
    var e1, e2, e3, e4 := Enable(p, w), Enqueue(p), Dispatch, Stop(p, 0);
    var s1 := Step(a, form, s, e1);
    var s2 := Step(a, form, s1, e2);
    var s3 := Step(a, form, s2, e3);
    StepKeepsWellFormed(a, form, s3, e4);
    assert Exposed(a, AfterRound(a, s, p, w), p) by {
      hide Charge, Before, Distinct;
    }
    hide Step, Guard, WellFormed, Run, Runs, Exposed, AfterRound;
    RunCons(a, form, s3, e4, es);
    RunCons(a, form, s2, e3, [e4] + es);
    RunCons(a, form, s1, e2, [e3] + ([e4] + es));
    RunCons(a, form, s, e1, [e2] + ([e3] + ([e4] + es)));
    assert [e1] + ([e2] + ([e3] + ([e4] + es))) == Round(p, w) + es;
  }

  lemma ExposedIsWellFormed(a: Arith, s: State, p: Task)
    requires Exposed(a, s, p)
    ensures WellFormed(s) && s.running.None?
  {
  }

  lemma RoundTally(c: Tally, es: seq<Event>, p: Task, w: nat)
    ensures Tallied(c, Round(p, w) + es, p, w) == Tallied(Tally(c.service + Service(0, w), c.runs + 1), es, p, w)
  {
    hide Service;
    var r := Round(p, w) + es;
    assert r[1..][1..][1..][1..] == es;
    assert Tallied(c, r, p, w) == Tallied(c, r[1..], p, w);
    assert Tallied(c, r[1..], p, w) == Tallied(c, r[1..][1..], p, w);
    assert Tallied(c, r[1..][1..], p, w) == Tallied(c, r[1..][1..][1..], p, w);
  }

  /** Enabling p over and over starves every task that waits, for any number of rounds: p is served a full slice
      in each, and of the rest nothing changes. As written it takes no more than that the task at the head has
      been charged; as meant, that it is ahead of the clock. In u64 or unbounded. */
  lemma {:induction false} EnabledOverAndOver(a: Arith, form: Form, s: State, p: Task, w: nat, n: nat, c: Tally)
    requires WellFormed(s) && Exposed(a, s, p) && w >= 1
    ensures Runs(a, form, s, Rounds(p, w, n))
    ensures var r := Run(a, form, s, Rounds(p, w, n));
            && r.queue == s.queue && r.now == s.now && r.running.None?
            && forall t <- s.vtime :: t != p ==> t in r.vtime && r.vtime[t] == s.vtime[t]
    ensures Tallied(c, Rounds(p, w, n), p, w) == Tally(c.service + n as real * Service(0, w), c.runs + n)
    decreases n
  {
    hide Service, Exposed, WellFormed, Step, Guard, Before, Charge;
    if n > 0 {
      var t := AfterRound(a, s, p, w);
      RoundRuns(a, form, s, p, w, Rounds(p, w, n - 1));
      ExposedIsWellFormed(a, t, p);
      EnabledOverAndOver(a, form, t, p, w, n - 1, Tally(c.service + Service(0, w), c.runs + 1));
      RoundTally(c, Rounds(p, w, n - 1), p, w);
    } else {
      ExposedIsWellFormed(a, s, p);
    }
  }
}
