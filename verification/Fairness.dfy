/**
  Weighted fairness of vtime.bpf.c among tasks that are always runnable, over runs of
  the hooks of module Vtime, and the order of hooks it depends on.
 */
module Fairness {
  import opened Arithmetic
  import opened Kernel
  import opened Vtime

  // ---------------------------------------------------------------- tasks that are always runnable

  ghost predicate AllQueued(s: State) {
    forall t <- s.vtime :: t in s.queue
  }

  ghost predicate OthersQueued(s: State, p: Task) {
    forall t <- s.vtime :: t == p || t in s.queue
  }

  /** No task is enabled anew, and a task that stops is queued again before another one stops; in the
      given order with the next dispatch. */
  ghost predicate Follows(o: Order, s: State, e: Event) {
    match e
    case Enable(_, _) => false
    case Enqueue(_) => o.DispatchFirst? ==> s.running.Some? || s.queue == []
    case Dispatch => o.EnqueueFirst? ==> AllQueued(s)
    case Stop(p, _) => OthersQueued(s, p)
  }

  ghost predicate FollowsAll(o: Order, form: Form, s: State, es: seq<Event>)
    requires WellFormed(s) && Runs(Unbounded, form, s, es)
    decreases |es|
  {
    es == [] || (Follows(o, s, es[0])
                 && (StepKeepsWellFormed(Unbounded, form, s, es[0]);
                     FollowsAll(o, form, Step(Unbounded, form, s, es[0]), es[1..])))
  }

  /** A run of tasks that are always runnable. */
  ghost predicate BusyRun(o: Order, form: Form, s: State, es: seq<Event>)
    requires WellFormed(s)
  {
    Runs(Unbounded, form, s, es) && FollowsAll(o, form, s, es)
  }

  /** Every task was enabled at the present clock value and waits. */
  ghost predicate EnabledTogether(s: State) {
    WellFormed(s) && s.running.None? && AllQueued(s) && forall t <- s.vtime :: s.vtime[t] == s.now
  }

  /** Every task's vtime is at most the least one plus a full charge of that task. */
  ghost predicate Spread(s: State) {
    s.weight.Keys == s.vtime.Keys
    && forall t, u :: t in s.vtime && u in s.vtime ==> s.vtime[t] <= s.vtime[u] + FullCharge(s.weight[t])
  }

  // ---------------------------------------------------------------- queued again before the next dispatch

  /** No task is behind p, and as meant the clock stands at p. */
  ghost predicate IsLeast(form: Form, s: State, p: Task) {
    && p in s.vtime
    && (forall t <- s.vtime :: s.vtime[p] <= s.vtime[t])
    && (form.Meant? ==> s.vtime[p] <= s.now)
  }

  ghost predicate FairInv(form: Form, s: State) {
    && WellFormed(s) && Ordered(s.queue, s.vtime) && Spread(s)
    && (forall t <- s.vtime :: s.now <= s.vtime[t])
    && (form.Meant? ==> forall t <- s.vtime :: s.vtime[t] <= s.now + FullCharge(s.weight[t]))
    && (s.running.Some? ==> OthersQueued(s, s.running.value) && IsLeast(form, s, s.running.value))
  }

  lemma StartsFair(form: Form, s: State)
    requires EnabledTogether(s)
    ensures FairInv(form, s)
  {
  }

  /** With every task queued the head is least, and dispatching it moves no vtime. */
  lemma HeadIsLeast(form: Form, s: State)
    requires FairInv(form, s) && AllQueued(s) && s.queue != []
    ensures var d := DispatchStep(Unbounded, form, s);
            && d.vtime == s.vtime && d.weight == s.weight && d.running == Some(s.queue[0]) && d.queue == s.queue[1..]
            && s.now <= d.now <= s.vtime[s.queue[0]] && IsLeast(form, d, s.queue[0])
  {
    hide FullCharge, Spread, Distinct;
    Tail(s.queue, s.vtime);
    hide Ordered;
  }

  lemma SameSpread(s: State, d: State)
    requires Spread(s) && d.vtime == s.vtime && d.weight == s.weight
    ensures Spread(d)
  {
    hide FullCharge;
  }

  lemma DispatchKeepsFair(form: Form, s: State)
    requires FairInv(form, s) && s.running.None? && AllQueued(s)
    ensures FairInv(form, DispatchStep(Unbounded, form, s))
  {
    if s.queue != [] {
      StepKeepsWellFormed(Unbounded, form, s, Dispatch);
      HeadIsLeast(form, s);
      Tail(s.queue, s.vtime);
      hide FullCharge, Ordered, Distinct, DispatchStep, WellFormed, IsLeast;
      var d := DispatchStep(Unbounded, form, s);
      SameSpread(s, d);
      hide Spread;
    }
  }

  lemma SpreadAfterCharge(s: State, t: State, p: Task, c: nat)
    requires Spread(s) && t.weight == s.weight && p in s.vtime && c <= FullCharge(s.weight[p])
    requires forall u <- s.vtime :: s.vtime[p] <= s.vtime[u]
    requires t.vtime == s.vtime[p := s.vtime[p] + c]
    ensures Spread(t)
  {
    hide FullCharge;
  }

  lemma StopKeepsFair(form: Form, s: State, left: Left)
    requires FairInv(form, s) && s.running.Some?
    ensures FairInv(form, StopStep(Unbounded, s, s.running.value, left))
  {
    var p := s.running.value;
    var t := StopStep(Unbounded, s, p, left);
    StepKeepsWellFormed(Unbounded, form, s, Stop(p, left));
    ChargeMono(left, s.weight[p]);
    hide FullCharge, Charge, Ordered, Distinct;
    OrderedFrame(s.queue, s.vtime, t.vtime);
    SpreadAfterCharge(s, t, p, Charge(left, s.weight[p]));
  }

  /** A task that comes back is not behind the clock, so it is not clamped. */
  lemma EnqueueKeepsVtime(form: Form, s: State, p: Task)
    requires FairInv(form, s) && p in s.vtime
    ensures Clamp(Unbounded, form, s.now, s.vtime[p]) == s.vtime[p]
    ensures EnqueueStep(Unbounded, form, s, p)
            == s.(queue := Insert(Unbounded, s.queue, s.vtime, p))
  {
    hide FullCharge, Ordered, Distinct, Insert;
    assert s.vtime[p := s.vtime[p]] == s.vtime;
  }

  lemma EnqueueKeepsFair(form: Form, s: State, p: Task)
    requires FairInv(form, s) && Guard(s, Enqueue(p))
    ensures FairInv(form, EnqueueStep(Unbounded, form, s, p))
  {
    StepKeepsWellFormed(Unbounded, form, s, Enqueue(p));
    EnqueueKeepsVtime(form, s, p);
    hide FullCharge, Ordered, Distinct, Insert, EnqueueStep;
    InsertMembers(Unbounded, s.queue, s.vtime, p);
    InsertOrdered(s.queue, s.vtime, p);
  }

  /** In either form of the comparison, each hook keeps the spread. */
  lemma StepKeepsFair(form: Form, s: State, e: Event)
    requires FairInv(form, s) && Guard(s, e) && Follows(EnqueueFirst, s, e)
    ensures FairInv(form, Step(Unbounded, form, s, e))
  {
    hide FairInv, EnqueueStep, DispatchStep, StopStep;
    match e
    case Enqueue(p) => EnqueueKeepsFair(form, s, p);
    case Dispatch => DispatchKeepsFair(form, s);
    case Stop(p, left) => StopKeepsFair(form, s, left);
  }

  /** Everything the hooks compare is close together. */
  lemma FairWindow(form: Form, s: State)
    requires FairInv(form, s)
    ensures forall t, u :: t in s.vtime && u in s.vtime ==> s.vtime[t] - s.vtime[u] <= 100 * SLICE
    ensures forall t <- s.vtime :: 0 <= s.vtime[t] - s.now && (form.Meant? ==> s.vtime[t] - s.now <= 100 * SLICE)
  {
    forall t <- s.vtime
      ensures FullCharge(s.weight[t]) <= 100 * SLICE
    {
      ChargeMono(0, s.weight[t]);
    }
  }

  lemma WrittenDispatchRefines(s: State)
    requires WellFormed(s)
    ensures DispatchStep(Wrapping, Written, Wrapped(s)) == Wrapped(DispatchStep(Unbounded, Written, s))
  {
    hide Ordered, Distinct;
  }

  lemma MeantDispatchRefines(s: State)
    requires WellFormed(s) && forall t <- s.vtime :: 0 <= s.vtime[t] - s.now <= 100 * SLICE
    ensures DispatchStep(Wrapping, Meant, Wrapped(s)) == Wrapped(DispatchStep(Unbounded, Meant, s))
  {
    hide Wrap, Before, Ordered, Distinct;
    if s.queue != [] {
      BeforeAgrees(s.now, s.vtime[s.queue[0]]);
    }
  }

  lemma FairEnqueueRefines(form: Form, s: State, p: Task)
    requires FairInv(form, s) && Guard(s, Enqueue(p))
    ensures EnqueueStep(Wrapping, form, Wrapped(s), p) == Wrapped(EnqueueStep(Unbounded, form, s, p))
  {
    FairWindow(form, s);
    EnqueueKeepsVtime(form, s, p);
    hide FullCharge, EnqueueStep, Clamp, Ordered, Distinct, Spread, Wrapped;
    EnqueueRefines(form, s, p);
  }

  lemma FairDispatchRefines(form: Form, s: State)
    requires FairInv(form, s)
    ensures DispatchStep(Wrapping, form, Wrapped(s)) == Wrapped(DispatchStep(Unbounded, form, s))
  {
    FairWindow(form, s);
    hide FullCharge, DispatchStep, Ordered, Distinct, Spread, Wrapped;
    match form
    case Written => WrittenDispatchRefines(s);
    case Meant => MeantDispatchRefines(s);
  }

  /** The u64 hook does what the unbounded hook does. */
  lemma FairStepRefines(form: Form, s: State, e: Event)
    requires FairInv(form, s) && Guard(s, e) && Follows(EnqueueFirst, s, e)
    ensures WellFormed(Wrapped(s)) && Guard(Wrapped(s), e)
    ensures Step(Wrapping, form, Wrapped(s), e) == Wrapped(Step(Unbounded, form, s, e))
  {
    hide FullCharge, Charge, Insert, Wrap, Before, Clamp, Ordered, Distinct, Spread;
    hide EnqueueStep, StopStep, DispatchStep;
    match e
    case Enqueue(p) => FairEnqueueRefines(form, s, p);
    case Dispatch => FairDispatchRefines(form, s);
    case Stop(p, left) => StopRefines(s, p, left);
  }

  // ---------------------------------------------------------------- weighted service

  /** What a task has had: weighted service, 100 * run time / weight, and runs. */
  datatype Tally = Tally(service: real, runs: nat)

  const NOTHING := Tally(0.0, 0)

  /** Weighted service of one run. */
  function Service(left: Left, w: nat): real {
    if w == 0 then 0.0 else ((SLICE - left) * 100) as real / w as real
  }

  function TallyEvent(c: Tally, e: Event, p: Task, w: nat): Tally {
    if e.Stop? && e.p == p then Tally(c.service + Service(e.left, w), c.runs + 1) else c
  }

  function Tallied(c: Tally, es: seq<Event>, p: Task, w: nat): Tally
    decreases |es|
  {
    if es == [] then c else Tallied(TallyEvent(c, es[0], p, w), es[1..], p, w)
  }

  /** A vtime advance is the weighted service, less at most one unit per run. */
  ghost predicate Served(advance: int, c: Tally) {
    advance as real <= c.service <= (advance + c.runs) as real
  }

  lemma RealProduct(a: nat, b: nat)
    ensures (a * b) as real == a as real * b as real
  {
  }

  lemma RealOrder(x: real, y: real, w: real)
    requires w > 0.0 && x * w <= y * w
    ensures x <= y
  {
    assert (y - x) * w >= 0.0;
  }

  lemma RealQuotient(n: nat, w: nat, q: nat)
    requires w >= 1 && q * w <= n < q * w + w
    ensures q as real <= n as real / w as real <= (q + 1) as real
  {
    var x, y, z := n as real / w as real, q as real, w as real;
    RealProduct(q, w);
    assert y * z <= n as real <= y * z + z;
    assert x * z == n as real;
    assert (y + 1.0) * z == y * z + z;
    RealOrder(y, x, z);
    RealOrder(x, y + 1.0, z);
  }

  lemma ChargeIsService(left: Left, w: nat)
    requires w >= 1
    ensures Charge(left, w) as real <= Service(left, w) <= (Charge(left, w) + 1) as real
  {
    var n := (SLICE - left) * 100;
    DivBounds(n, w);
    RealQuotient(n, w, n / w);
  }

  /** One hook moves a task's vtime by what it adds to its tally. */
  lemma StepServes(form: Form, s: State, e: Event, t: Task, v0: int, c: Tally)
    requires FairInv(form, s) && Guard(s, e) && Follows(EnqueueFirst, s, e)
    requires t in s.vtime && Served(s.vtime[t] - v0, c)
    ensures var r := Step(Unbounded, form, s, e);
            && r.weight == s.weight && t in r.vtime
            && Served(r.vtime[t] - v0, TallyEvent(c, e, t, s.weight[t]))
  {
    hide FullCharge, Charge, Service, Ordered, Distinct, Insert, Clamp;
    if e.Enqueue? {
      EnqueueKeepsVtime(form, s, e.p);
    } else if e.Stop? && e.p == t {
      ChargeIsService(e.left, s.weight[t]);
    }
  }

  lemma FairIsWellFormed(form: Form, s: State)
    requires FairInv(form, s)
    ensures WellFormed(s) && WellFormed(Wrapped(s)) && s.weight.Keys == s.vtime.Keys && Spread(s)
  {
  }

  /** Over whole runs: the invariant, the service of each task, and the u64 scheduler in step. */
  lemma {:induction false} RunKeepsFair(form: Form, s: State, es: seq<Event>, t: Task, v0: int, c: Tally)
    requires FairInv(form, s) && BusyRun(EnqueueFirst, form, s, es)
    requires t in s.vtime && Served(s.vtime[t] - v0, c)
    ensures var r := Run(Unbounded, form, s, es);
            && FairInv(form, r) && r.weight == s.weight && t in r.vtime
            && Served(r.vtime[t] - v0, Tallied(c, es, t, s.weight[t]))
    ensures WellFormed(Wrapped(s)) && Runs(Wrapping, form, Wrapped(s), es)
    ensures Run(Wrapping, form, Wrapped(s), es) == Wrapped(Run(Unbounded, form, s, es))
    decreases |es|
  {
    hide FairInv, Step, Guard, Follows, TallyEvent, Served, Wrapped;
    FairIsWellFormed(form, s);
    if es != [] {
      StepKeepsFair(form, s, es[0]);
      StepServes(form, s, es[0], t, v0, c);
      FairStepRefines(form, s, es[0]);
      RunKeepsFair(form, Step(Unbounded, form, s, es[0]), es[1..], t, v0, TallyEvent(c, es[0], t, s.weight[t]));
    }
  }

  lemma StartsUnserved(s: State, t: Task)
    requires EnabledTogether(s) && t in s.vtime
    ensures WellFormed(s) && Served(s.vtime[t] - s.now, NOTHING)
  {
  }

  lemma SpreadServices(s: State, t: Task, u: Task, v0: int, a: Tally, b: Tally)
    requires Spread(s) && t in s.vtime && u in s.vtime
    requires Served(s.vtime[t] - v0, a) && Served(s.vtime[u] - v0, b)
    ensures s.vtime[t] <= s.vtime[u] + FullCharge(s.weight[t])
    ensures a.service - b.service <= (FullCharge(s.weight[t]) + a.runs) as real
  {
    hide FullCharge;
  }

  /** One task's part in a run from the start. */
  lemma ServedFromStart(form: Form, s: State, es: seq<Event>, t: Task)
    requires EnabledTogether(s) && BusyRun(EnqueueFirst, form, s, es) && t in s.vtime
    ensures WellFormed(s)
    ensures var r := Run(Unbounded, form, s, es);
            && Spread(r) && r.weight == s.weight && t in r.vtime && t in s.weight
            && Served(r.vtime[t] - s.now, Tallied(NOTHING, es, t, s.weight[t]))
    ensures WellFormed(Wrapped(s)) && Runs(Wrapping, form, Wrapped(s), es)
    ensures Run(Wrapping, form, Wrapped(s), es) == Wrapped(Run(Unbounded, form, s, es))
  {
    hide FullCharge, Run, Runs, FollowsAll, Tallied, Served, Spread, FairInv, Wrapped, WellFormed, EnabledTogether;
    StartsFair(form, s);
    StartsUnserved(s, t);
    RunKeepsFair(form, s, es, t, s.now, NOTHING);
    FairIsWellFormed(form, Run(Unbounded, form, s, es));
  }

  /** Weighted fairness in every state of every run of tasks enabled together and always runnable, if they
      are queued again before the next dispatch, with isSmaller as written or as meant: nobody is ahead of
      the least vtime by more than a full charge, weighted services differ by at most that and one unit per
      run, and the u64 scheduler does the same. */
  lemma WeightedFairness(form: Form, s: State, es: seq<Event>, t: Task, u: Task)
    requires EnabledTogether(s) && BusyRun(EnqueueFirst, form, s, es) && t in s.vtime && u in s.vtime
    ensures var r := Run(Unbounded, form, s, es);
            var a, b := Tallied(NOTHING, es, t, s.weight[t]), Tallied(NOTHING, es, u, s.weight[u]);
            && Spread(r) && t in r.vtime && u in r.vtime
            && r.vtime[t] <= r.vtime[u] + FullCharge(s.weight[t])
            && a.service - b.service <= (FullCharge(s.weight[t]) + a.runs) as real
    ensures WellFormed(Wrapped(s)) && Runs(Wrapping, form, Wrapped(s), es)
    ensures Run(Wrapping, form, Wrapped(s), es) == Wrapped(Run(Unbounded, form, s, es))
  {
    hide FullCharge, Run, Runs, FollowsAll, Tallied, Served, Spread, FairInv, Wrapped, WellFormed, EnabledTogether;
    ServedFromStart(form, s, es, t);
    ServedFromStart(form, s, es, u);
    SpreadServices(Run(Unbounded, form, s, es), t, u, s.now,
                   Tallied(NOTHING, es, t, s.weight[t]), Tallied(NOTHING, es, u, s.weight[u]));
  }

  // ---------------------------------------------------------------- queued again after the next dispatch

  lemma {:induction false} RunAppend(o: Order, form: Form, s: State, es: seq<Event>, fs: seq<Event>)
    requires WellFormed(s) && BusyRun(o, form, s, es)
    requires BusyRun(o, form, Run(Unbounded, form, s, es), fs)
    ensures BusyRun(o, form, s, es + fs)
    ensures Run(Unbounded, form, s, es + fs) == Run(Unbounded, form, Run(Unbounded, form, s, es), fs)
    decreases |es|
  {
    hide Step, Guard, Follows, WellFormed;
    if es == [] {
      assert es + fs == fs;
    } else {
      StepKeepsWellFormed(Unbounded, form, s, es[0]);
      RunAppend(o, form, Step(Unbounded, form, s, es[0]), es[1..], fs);
      assert (es + fs)[1..] == es[1..] + fs;
    }
  }

  lemma OneEvent(o: Order, form: Form, s: State, e: Event)
    requires WellFormed(s) && Guard(s, e) && Follows(o, s, e)
    ensures BusyRun(o, form, s, [e]) && Run(Unbounded, form, s, [e]) == Step(Unbounded, form, s, e)
  {
    hide Step, Guard, Follows, WellFormed;
    StepKeepsWellFormed(Unbounded, form, s, e);
    var t := Step(Unbounded, form, s, e);
    assert [e][1..] == [];
    assert Runs(Unbounded, form, t, []);
    assert FollowsAll(o, form, t, []);
  }

  lemma ThreeEvents(o: Order, form: Form, s: State, a: Event, b: Event, c: Event)
    requires WellFormed(s) && Guard(s, a) && Follows(o, s, a)
    requires var r := Step(Unbounded, form, s, a); WellFormed(r) && Guard(r, b) && Follows(o, r, b)
    requires var r := Step(Unbounded, form, Step(Unbounded, form, s, a), b);
             WellFormed(r) && Guard(r, c) && Follows(o, r, c)
    ensures BusyRun(o, form, s, [a, b, c])
    ensures Run(Unbounded, form, s, [a, b, c])
            == Step(Unbounded, form, Step(Unbounded, form, Step(Unbounded, form, s, a), b), c)
  {
    hide Step, Guard, Follows, WellFormed, BusyRun, Run;
    var r1 := Step(Unbounded, form, s, a);
    OneEvent(o, form, s, a);
    OneEvent(o, form, r1, b);
    OneEvent(o, form, Step(Unbounded, form, r1, b), c);
    RunAppend(o, form, s, [a], [b]);
    RunAppend(o, form, s, [a] + [b], [c]);
    assert [a] + [b] + [c] == [a, b, c];
  }

  /** One exchange in this order: p stops, another task is dispatched, and only then p is queued again. */
  function Exchange(p: Task, left: Left): seq<Event> {
    [Stop(p, left), Dispatch, Enqueue(p)]
  }

  function Clock(form: Form, r: State): int
    requires r.queue != [] && r.queue[0] in r.vtime
  {
    if form.Meant? && r.now < r.vtime[r.queue[0]] then r.vtime[r.queue[0]] else r.now
  }

  /** The state after an exchange. */
  function Exchanged(form: Form, r: State, p: Task, left: Left): State
    requires WellFormed(r) && r.queue != [] && p in r.vtime && p in r.weight
  {
    var now := Clock(form, r);
    var v := r.vtime[p := Clamp(Unbounded, form, now, r.vtime[p] + Charge(left, r.weight[p]))];
    State(now, v, r.weight, Insert(Unbounded, r.queue[1..], v, p), Some(r.queue[0]))
  }

  lemma ExchangeStop(form: Form, r: State, p: Task, left: Left)
    requires WellFormed(r) && r.running == Some(p) && OthersQueued(r, p)
    ensures Guard(r, Stop(p, left)) && Follows(DispatchFirst, r, Stop(p, left))
    ensures WellFormed(Step(Unbounded, form, r, Stop(p, left)))
    ensures Step(Unbounded, form, r, Stop(p, left))
            == r.(vtime := r.vtime[p := r.vtime[p] + Charge(left, r.weight[p])], running := None)
  {
    StepKeepsWellFormed(Unbounded, form, r, Stop(p, left));
    hide Charge, Distinct;
  }

  lemma ExchangeDispatch(form: Form, r: State)
    requires WellFormed(r) && r.running.None? && r.queue != []
    ensures Guard(r, Dispatch) && Follows(DispatchFirst, r, Dispatch)
    ensures WellFormed(Step(Unbounded, form, r, Dispatch))
    ensures Step(Unbounded, form, r, Dispatch)
            == r.(now := Clock(form, r), queue := r.queue[1..], running := Some(r.queue[0]))
  {
    StepKeepsWellFormed(Unbounded, form, r, Dispatch);
    hide Distinct;
  }

  lemma ExchangeEnqueue(form: Form, r: State, p: Task, b: Task)
    requires WellFormed(r) && r.running == Some(b) && p in r.vtime && p !in r.queue && p != b
    requires forall t <- r.vtime :: t == p || t == b || t in r.queue
    ensures Guard(r, Enqueue(p)) && Follows(DispatchFirst, r, Enqueue(p))
    ensures var t := Step(Unbounded, form, r, Enqueue(p));
            WellFormed(t) && OthersQueued(t, b) && t == EnqueueStep(Unbounded, form, r, p)
  {
    StepKeepsWellFormed(Unbounded, form, r, Enqueue(p));
    hide Clamp, Insert, Distinct;
    InsertMembers(Unbounded, r.queue, Step(Unbounded, form, r, Enqueue(p)).vtime, p);
  }

  /** A stop and a dispatch, then the queueing: the parts make up Exchanged. */
  lemma ExchangeSum(form: Form, r: State, p: Task, left: Left)
    requires WellFormed(r) && r.queue != [] && p in r.vtime && p !in r.queue
    ensures var v := r.vtime[p := r.vtime[p] + Charge(left, r.weight[p])];
            && Clock(form, r.(vtime := v, running := None)) == Clock(form, r)
            && EnqueueStep(Unbounded, form, State(Clock(form, r), v, r.weight, r.queue[1..], Some(r.queue[0])), p)
               == Exchanged(form, r, p, left)
  {
    hide Clamp, Charge, Insert, Distinct;
    var x := Clamp(Unbounded, form, Clock(form, r), r.vtime[p] + Charge(left, r.weight[p]));
    assert r.vtime[p := r.vtime[p] + Charge(left, r.weight[p])][p := x] == r.vtime[p := x];
  }

  lemma ExchangeSteps(form: Form, r: State, p: Task, left: Left)
    requires WellFormed(r) && r.running == Some(p) && OthersQueued(r, p) && r.queue != []
    ensures Guard(r, Stop(p, left)) && Follows(DispatchFirst, r, Stop(p, left))
    ensures var r1 := Step(Unbounded, form, r, Stop(p, left));
            WellFormed(r1) && Guard(r1, Dispatch) && Follows(DispatchFirst, r1, Dispatch)
    ensures var r2 := Step(Unbounded, form, Step(Unbounded, form, r, Stop(p, left)), Dispatch);
            && WellFormed(r2) && Guard(r2, Enqueue(p)) && Follows(DispatchFirst, r2, Enqueue(p))
            && Step(Unbounded, form, r2, Enqueue(p)) == Exchanged(form, r, p, left)
    ensures WellFormed(Exchanged(form, r, p, left)) && OthersQueued(Exchanged(form, r, p, left), r.queue[0])
  {
    hide Step, Guard, Follows, Clamp, Charge, Insert, EnqueueStep, Exchanged, Clock;
    ExchangeSum(form, r, p, left);
    ExchangeStop(form, r, p, left);
    var r1 := Step(Unbounded, form, r, Stop(p, left));
    ExchangeDispatch(form, r1);
    var r2 := Step(Unbounded, form, r1, Dispatch);
    Tail(r.queue, r.vtime);
    hide Distinct;
    ExchangeEnqueue(form, r2, p, r.queue[0]);
  }

  lemma ExchangeRuns(form: Form, r: State, p: Task, left: Left)
    requires WellFormed(r) && r.running == Some(p) && OthersQueued(r, p) && r.queue != []
    ensures BusyRun(DispatchFirst, form, r, Exchange(p, left))
    ensures Run(Unbounded, form, r, Exchange(p, left)) == Exchanged(form, r, p, left)
    ensures WellFormed(Exchanged(form, r, p, left)) && OthersQueued(Exchanged(form, r, p, left), r.queue[0])
  {
    hide Step, Guard, Follows, WellFormed, BusyRun, OthersQueued, Run, Exchanged;
    ExchangeSteps(form, r, p, left);
    ThreeEvents(DispatchFirst, form, r, Stop(p, left), Dispatch, Enqueue(p));
  }

  lemma {:induction false} InsertKeepsPrefix(q: seq<Task>, vtime: map<Task, int>, p: Task, m: nat)
    requires p in vtime && (forall t <- q :: t in vtime) && m <= |q|
    requires forall i :: 0 <= i < m ==> vtime[q[i]] <= vtime[p]
    ensures var r := Insert(Unbounded, q, vtime, p); m <= |r| && r[..m] == q[..m]
  {
    if m > 0 {
      InsertKeepsPrefix(q[1..], vtime, p, m - 1);
    }
  }

  /** Some tasks charged for every task of a line but the last few. */
  ghost predicate Paid(s: State, v: map<Task, int>, k: nat)
    requires WellFormed(s) && v.Keys == s.vtime.Keys
  {
    forall i :: 0 <= i < |s.queue| ==>
      v[s.queue[i]] == s.now + if i < k then FullCharge(s.weight[s.queue[i]]) else 0
  }

  /** From start s: the first k tasks of the line have each run a full slice and the next one runs. */
  ghost predicate FirstRound(s: State, r: State, k: nat) {
    && EnabledTogether(s) && k < |s.queue|
    && WellFormed(r) && r.running == Some(s.queue[k]) && OthersQueued(r, s.queue[k])
    && r.now == s.now && r.weight == s.weight && r.vtime.Keys == s.vtime.Keys
    && s.queue[k + 1..] <= r.queue
    && Paid(s, r.vtime, k)
  }

  lemma NobodyPaid(s: State)
    requires EnabledTogether(s)
    ensures Paid(s, s.vtime, 0)
  {
    hide FullCharge;
  }

  lemma FirstDispatch(form: Form, s: State)
    requires EnabledTogether(s) && s.queue != []
    ensures Guard(s, Dispatch) && Follows(DispatchFirst, s, Dispatch)
    ensures FirstRound(s, Step(Unbounded, form, s, Dispatch), 0)
  {
    StepKeepsWellFormed(Unbounded, form, s, Dispatch);
    Tail(s.queue, s.vtime);
    NobodyPaid(s);
    hide Distinct, FullCharge, Paid;
  }

  lemma FullChargeIs(w: nat)
    ensures Charge(0, w) == FullCharge(w)
  {
  }

  /** In the first round the clock stands still and nobody is clamped. */
  lemma RoundExchange(form: Form, s: State, r: State, k: nat)
    requires FirstRound(s, r, k) && k + 1 < |s.queue|
    ensures r.queue != [] && r.queue[0] == s.queue[k + 1] && s.queue[k] in r.vtime && s.queue[k] in r.weight
    ensures WellFormed(s) && WellFormed(r) && forall t <- r.queue :: t in r.vtime
    ensures var p := s.queue[k];
            var v := r.vtime[p := s.now + FullCharge(s.weight[p])];
            Exchanged(form, r, p, 0)
            == State(s.now, v, s.weight, Insert(Unbounded, r.queue[1..], v, p), Some(s.queue[k + 1]))
  {
    hide FullCharge, Insert, Distinct;
    assert r.queue[0] == s.queue[k + 1..][0];
    assert r.vtime[s.queue[k]] == s.now && r.vtime[s.queue[k + 1]] == s.now;
    FullChargeIs(s.weight[s.queue[k]]);
    hide Charge;
  }

  lemma PaidNext(s: State, v: map<Task, int>, k: nat)
    requires WellFormed(s) && v.Keys == s.vtime.Keys && k < |s.queue| && Paid(s, v, k)
    ensures Paid(s, v[s.queue[k] := s.now + FullCharge(s.weight[s.queue[k]])], k + 1)
  {
    hide FullCharge;
  }

  lemma PrefixNext(s: State, q: seq<Task>, v: map<Task, int>, k: nat)
    requires WellFormed(s) && v.Keys == s.vtime.Keys && k + 1 < |s.queue| && Paid(s, v, k + 1)
    requires s.queue[k + 1..] <= q && forall t <- q :: t in v
    ensures s.queue[k + 2..] <= Insert(Unbounded, q[1..], v, s.queue[k])
  {
    var m := |s.queue| - k - 2;
    hide Insert, FullCharge, Distinct;
    assert forall i :: 0 <= i < m ==> q[1..][i] == s.queue[k + 1..][i + 1] == s.queue[k + 2..][i];
    InsertKeepsPrefix(q[1..], v, s.queue[k], m);
    assert q[1..][..m] == s.queue[k + 2..];
  }

  lemma NextInRound(form: Form, s: State, r: State, k: nat)
    requires FirstRound(s, r, k) && k + 1 < |s.queue|
    ensures r.queue != [] && s.queue[k] in r.vtime && s.queue[k] in r.weight
    ensures FirstRound(s, Exchanged(form, r, s.queue[k], 0), k + 1)
  {
    hide FullCharge, Insert, Exchanged, Paid, BusyRun, Run, OthersQueued, WellFormed, EnabledTogether;
    RoundExchange(form, s, r, k);
    ExchangeRuns(form, r, s.queue[k], 0);
    PaidNext(s, r.vtime, k);
    PrefixNext(s, r.queue, r.vtime[s.queue[k] := s.now + FullCharge(s.weight[s.queue[k]])], k);
  }

  /** Every task can be charged something. */
  ghost predicate Chargeable(s: State) {
    s.weight.Keys == s.vtime.Keys && forall t <- s.vtime :: FullCharge(s.weight[t]) >= 1
  }

  /** After the round, the last task runs and every other waits, one full charge later. */
  lemma RoundDone(s: State, r: State) returns (b: Task)
    requires |s.queue| >= 2 && FirstRound(s, r, |s.queue| - 1)
    ensures var a := s.queue[|s.queue| - 1];
            && r.queue != [] && b == r.queue[0] && b != a && a in r.vtime && a in r.weight && a !in r.queue
            && r.vtime[a] == s.now && b in s.weight && r.vtime[b] == s.now + FullCharge(s.weight[b])
  {
    hide FullCharge;
    assert s.queue[0] in r.vtime;
    b := r.queue[0];
    assert b in r.queue && b in s.vtime;
    var i :| 0 <= i < |s.queue| && s.queue[i] == b;
  }

  lemma NoCharge(w: nat)
    ensures Charge(SLICE, w) == 0
  {
  }

  /** The last task stops at once, and the task dispatched while it is away gets a second full slice. */
  lemma SecondSlice(form: Form, s: State, r: State, b: Task)
    requires |s.queue| >= 2 && FirstRound(s, r, |s.queue| - 1) && Chargeable(s)
    requires var a := s.queue[|s.queue| - 1];
             && r.queue != [] && b == r.queue[0] && b != a && a in r.vtime && a in r.weight && a !in r.queue
             && r.vtime[a] == s.now && b in s.weight && r.vtime[b] == s.now + FullCharge(s.weight[b])
    ensures var t := Exchanged(form, r, s.queue[|s.queue| - 1], SLICE);
            && WellFormed(t) && Guard(t, Stop(b, 0)) && Follows(DispatchFirst, t, Stop(b, 0))
            && !Spread(Step(Unbounded, form, t, Stop(b, 0)))
  {
    hide FullCharge, Insert, Distinct, Paid;
    var a := s.queue[|s.queue| - 1];
    ExchangeRuns(form, r, a, SLICE);
    var t := Exchanged(form, r, a, SLICE);
    NoCharge(r.weight[a]);
    FullChargeIs(s.weight[b]);
    hide Charge;
    assert t.vtime[a] < s.now + FullCharge(s.weight[b]);
    var u := Step(Unbounded, form, t, Stop(b, 0));
    assert u.vtime[b] == s.now + 2 * FullCharge(s.weight[b]) && u.vtime[a] == t.vtime[a];
  }

  /** A run in this order that breaks the spread, from any start of two or more chargeable tasks. */
  lemma {:induction false} BreaksFrom(form: Form, s: State, r: State, k: nat) returns (es: seq<Event>)
    requires FirstRound(s, r, k) && |s.queue| >= 2 && Chargeable(s)
    ensures BusyRun(DispatchFirst, form, r, es) && !Spread(Run(Unbounded, form, r, es))
    decreases |s.queue| - k
  {
    hide FullCharge, Exchanged, Distinct, Paid, Spread, BusyRun, Run, Step, Guard, Follows, WellFormed, Chargeable;
    var p := s.queue[k];
    if k + 1 < |s.queue| {
      NextInRound(form, s, r, k);
      ExchangeRuns(form, r, p, 0);
      var rest := BreaksFrom(form, s, Exchanged(form, r, p, 0), k + 1);
      RunAppend(DispatchFirst, form, r, Exchange(p, 0), rest);
      es := Exchange(p, 0) + rest;
    } else {
      var b := RoundDone(s, r);
      SecondSlice(form, s, r, b);
      ExchangeRuns(form, r, p, SLICE);
      var t := Exchanged(form, r, p, SLICE);
      OneEvent(DispatchFirst, form, t, Stop(b, 0));
      RunAppend(DispatchFirst, form, r, Exchange(p, SLICE), [Stop(b, 0)]);
      es := Exchange(p, SLICE) + [Stop(b, 0)];
    }
  }

  lemma BreaksSpread(form: Form, s: State) returns (es: seq<Event>)
    requires EnabledTogether(s) && |s.queue| >= 2 && Chargeable(s)
    ensures BusyRun(DispatchFirst, form, s, es) && !Spread(Run(Unbounded, form, s, es))
  {
    hide FullCharge, Spread, BusyRun, Run, Step, Guard, Follows, FirstRound, Chargeable;
    FirstDispatch(form, s);
    StepKeepsWellFormed(Unbounded, form, s, Dispatch);
    var rest := BreaksFrom(form, s, Step(Unbounded, form, s, Dispatch), 0);
    OneEvent(DispatchFirst, form, s, Dispatch);
    RunAppend(DispatchFirst, form, s, [Dispatch], rest);
    es := [Dispatch] + rest;
  }

  /** Whether the spread holds in every state that tasks enabled together can reach in an order of hooks. */
  ghost predicate AlwaysSpread(o: Order, form: Form, s: State)
    requires WellFormed(s)
  {
    forall es :: BusyRun(o, form, s, es) ==> Spread(Run(Unbounded, form, s, es))
  }

  /** For two or more chargeable tasks the spread bound holds throughout exactly if a stopped task is queued
      again before the next dispatch, with isSmaller as written or as meant. */
  lemma SpreadExactly(o: Order, form: Form, s: State)
    requires EnabledTogether(s) && |s.queue| >= 2 && Chargeable(s)
    ensures AlwaysSpread(o, form, s) <==> o.EnqueueFirst?
  {
    hide FullCharge, Spread, Runs, FollowsAll, Run, Chargeable, FairInv;
    match o
    case EnqueueFirst =>
      forall es | BusyRun(o, form, s, es)
        ensures Spread(Run(Unbounded, form, s, es))
      {
        WeightedFairness(form, s, es, s.queue[0], s.queue[0]);
      }
    case DispatchFirst =>
      var es := BreaksSpread(form, s);
  }

  /** Two tasks of weight 100, enabled at clock value 0. */
  const PAIR := State(0, map[0 := 0, 1 := 0], map[0 := 100, 1 := 100], [0, 1], None)

  const UNFAIR_EVENTS: seq<Event> :=
    [Dispatch] + Exchange(0, 0) + Exchange(1, SLICE) + [Stop(0, 0)]

  function PairState(now: int, lead: int, waiting: Task, runs: Task): State {
    State(now, map[0 := lead, 1 := 0], map[0 := 100, 1 := 100], [waiting], Some(runs))
  }

  lemma PairStarts(form: Form)
    ensures EnabledTogether(PAIR) && Guard(PAIR, Dispatch) && Follows(DispatchFirst, PAIR, Dispatch)
    ensures Step(Unbounded, form, PAIR, Dispatch) == PairState(0, 0, 1, 0)
  {
    FirstDispatch(form, PAIR);
    assert PAIR.queue[1..] == [1];
  }

  lemma PairBusy(now: int, lead: int, waiting: Task, runs: Task)
    requires {waiting, runs} == {0, 1}
    ensures var r := PairState(now, lead, waiting, runs);
            WellFormed(r) && r.running == Some(runs) && OthersQueued(r, runs) && r.queue != []
  {
  }

  lemma PairFirst(form: Form)
    ensures WellFormed(PairState(0, 0, 1, 0))
    ensures Exchanged(form, PairState(0, 0, 1, 0), 0, 0) == PairState(0, SLICE, 0, 1)
  {
    PairBusy(0, 0, 1, 0);
    var r := PairState(0, 0, 1, 0);
    assert Charge(0, 100) == SLICE;
    assert r.queue[1..] == [];
    assert r.vtime[0 := SLICE] == map[0 := SLICE, 1 := 0];
  }

  lemma PairSecond(form: Form)
    ensures WellFormed(PairState(0, SLICE, 0, 1))
    ensures Exchanged(form, PairState(0, SLICE, 0, 1), 1, SLICE)
            == PairState(if form.Meant? then SLICE else 0, SLICE, 1, 0)
  {
    PairBusy(0, SLICE, 0, 1);
    var r := PairState(0, SLICE, 0, 1);
    assert Charge(SLICE, 100) == 0;
    assert r.queue[1..] == [];
    assert r.vtime[1 := 0] == r.vtime;
  }

  lemma PairLast(form: Form, now: int)
    ensures var r := PairState(now, SLICE, 1, 0);
            && WellFormed(r) && Guard(r, Stop(0, 0)) && Follows(DispatchFirst, r, Stop(0, 0))
            && !Spread(Step(Unbounded, form, r, Stop(0, 0)))
  {
    PairBusy(now, SLICE, 1, 0);
    assert Charge(0, 100) == SLICE && FullCharge(100) == SLICE;
    var t := Step(Unbounded, form, PairState(now, SLICE, 1, 0), Stop(0, 0));
    assert t.vtime[0] == 2 * SLICE && t.vtime[1] == 0;
  }

  /** A failing input: 0 runs a full slice, 1 stops at once, and 0, dispatched while 1 is away, runs another. */
  lemma PairBreaksSpread(form: Form)
    ensures EnabledTogether(PAIR) && BusyRun(DispatchFirst, form, PAIR, UNFAIR_EVENTS)
    ensures !Spread(Run(Unbounded, form, PAIR, UNFAIR_EVENTS))
  {
    hide Spread, BusyRun, Run, Step, Guard, Follows, Exchanged, Exchange, OthersQueued, PairState, Insert;
    var r0, r1 := PairState(0, 0, 1, 0), PairState(0, SLICE, 0, 1);
    var now := if form.Meant? then SLICE else 0;
    var r2 := PairState(now, SLICE, 1, 0);
    var a, b := Exchange(0, 0), Exchange(1, SLICE);
    PairStarts(form);
    OneEvent(DispatchFirst, form, PAIR, Dispatch);
    PairBusy(0, 0, 1, 0);
    PairFirst(form);
    ExchangeRuns(form, r0, 0, 0);
    RunAppend(DispatchFirst, form, PAIR, [Dispatch], a);
    PairBusy(0, SLICE, 0, 1);
    PairSecond(form);
    ExchangeRuns(form, r1, 1, SLICE);
    RunAppend(DispatchFirst, form, PAIR, [Dispatch] + a, b);
    PairLast(form, now);
    OneEvent(DispatchFirst, form, r2, Stop(0, 0));
    RunAppend(DispatchFirst, form, PAIR, [Dispatch] + a + b, [Stop(0, 0)]);
  }

  /** a and b take turns, a first: x and y are the runs they have had. */
  ghost predicate TakeTurns(s: State, a: Task, b: Task, x: nat, y: nat) {
    && a != b && WellFormed(s) && s.vtime.Keys == {a, b}
    && match s.running
       case None => if x == y then s.queue in {[a, b], [a]} else x == y + 1 && s.queue == [b]
       case Some(p) =>
         if p == a then x == y && s.queue in {[b], []} else p == b && x == y + 1 && s.queue in {[a], []}
  }

  lemma StepTakesTurns(form: Form, s: State, e: Event, a: Task, b: Task, c: Tally, d: Tally)
    requires TakeTurns(s, a, b, c.runs, d.runs) && a in s.weight && b in s.weight
    requires Guard(s, e) && Follows(DispatchFirst, s, e)
    ensures var r := Step(Unbounded, form, s, e);
            && r.weight == s.weight
            && TakeTurns(r, a, b, TallyEvent(c, e, a, s.weight[a]).runs, TallyEvent(d, e, b, s.weight[b]).runs)
  {
    StepKeepsWellFormed(Unbounded, form, s, e);
    hide Charge, Clamp, Before, Service, Distinct;
  }

  lemma {:induction false} RunTakesTurns(form: Form, s: State, es: seq<Event>, a: Task, b: Task, c: Tally, d: Tally)
    requires WellFormed(s) && TakeTurns(s, a, b, c.runs, d.runs) && a in s.weight && b in s.weight
    requires BusyRun(DispatchFirst, form, s, es)
    ensures var x, y := Tallied(c, es, a, s.weight[a]).runs, Tallied(d, es, b, s.weight[b]).runs;
            TakeTurns(Run(Unbounded, form, s, es), a, b, x, y)
    decreases |es|
  {
    hide TakeTurns, Step, Guard, Follows, TallyEvent;
    if es != [] {
      StepKeepsWellFormed(Unbounded, form, s, es[0]);
      StepTakesTurns(form, s, es[0], a, b, c, d);
      RunTakesTurns(form, Step(Unbounded, form, s, es[0]), es[1..], a, b,
                    TallyEvent(c, es[0], a, s.weight[a]), TallyEvent(d, es[0], b, s.weight[b]));
    }
  }

  /** In this order two tasks alternate strictly whatever their weights, so their weighted services drift apart. */
  lemma TwoAlternate(form: Form, s: State, es: seq<Event>, a: Task, b: Task)
    requires EnabledTogether(s) && s.queue == [a, b] && BusyRun(DispatchFirst, form, s, es)
    ensures a in s.weight && b in s.weight
    ensures var x, y := Tallied(NOTHING, es, a, s.weight[a]).runs, Tallied(NOTHING, es, b, s.weight[b]).runs;
            x == y || x == y + 1
  {
    assert a in s.queue && b in s.queue;
    assert s.queue[0] == a && s.queue[1] == b;
    assert s.vtime.Keys == {a, b};
    assert TakeTurns(s, a, b, 0, 0);
    RunTakesTurns(form, s, es, a, b, NOTHING, NOTHING);
    hide Run, Runs, FollowsAll, Tallied;
  }

  /** What full slices amount to: the runs times the service of one. */
  lemma {:induction false} FullSlices(c: Tally, es: seq<Event>, p: Task, w: nat)
    requires forall e <- es :: e.Stop? ==> e.left == 0
    ensures var r := Tallied(c, es, p, w);
            r.runs >= c.runs && r.service == c.service + (r.runs - c.runs) as real * Service(0, w)
    decreases |es|
  {
    hide Service;
    if es != [] {
      assert es[0] in es;
      FullSlices(TallyEvent(c, es[0], p, w), es[1..], p, w);
    }
  }

  lemma FullSlicesFromNothing(es: seq<Event>, p: Task, w: nat)
    requires forall e <- es :: e.Stop? ==> e.left == 0
    ensures var r := Tallied(NOTHING, es, p, w); r.service == r.runs as real * Service(0, w)
  {
    hide Tallied, Service;
    FullSlices(NOTHING, es, p, w);
  }

  lemma Drift(x: nat, y: nat, f: real, g: real)
    requires x == y || x == y + 1
    ensures x as real * f - y as real * g == y as real * (f - g) + if x == y then 0.0 else f
  {
    assert y as real * (f - g) == y as real * f - y as real * g;
    if x == y + 1 {
      assert x as real * f == (y as real + 1.0) * f == y as real * f + f;
    }
  }

  /** Two tasks that always use their full slices: the services drift apart by the difference of the two
      in every pair of runs, so no bound holds when the weights differ. */
  lemma ServicesDrift(form: Form, s: State, es: seq<Event>, a: Task, b: Task)
    requires EnabledTogether(s) && s.queue == [a, b] && BusyRun(DispatchFirst, form, s, es)
    requires forall e <- es :: e.Stop? ==> e.left == 0
    ensures a in s.weight && b in s.weight
    ensures var x, y := Tallied(NOTHING, es, a, s.weight[a]), Tallied(NOTHING, es, b, s.weight[b]);
            x.service - y.service
            == y.runs as real * (Service(0, s.weight[a]) - Service(0, s.weight[b]))
               + if x.runs == y.runs then 0.0 else Service(0, s.weight[a])
  {
    hide Tallied, Service, BusyRun, EnabledTogether;
    TwoAlternate(form, s, es, a, b);
    FullSlicesFromNothing(es, a, s.weight[a]);
    FullSlicesFromNothing(es, b, s.weight[b]);
    var x, y := Tallied(NOTHING, es, a, s.weight[a]), Tallied(NOTHING, es, b, s.weight[b]);
    Drift(x.runs, y.runs, Service(0, s.weight[a]), Service(0, s.weight[b]));
  }
}
