/**
  The vruntime scheduler of vtime.bpf.c on one CPU.

  One definition of every hook serves four machines: the u64 arithmetic that
  wraps and an unbounded one, each with isSmaller as written (an unsigned
  difference compared with 0) and as meant (a signed difference).
 */
module Vtime {

  import opened Arithmetic
  import opened Kernel

  const SLICE: int := 20_000_000
  const TWO63: int := 0x8000_0000_0000_0000
  const TWO64: int := 0x1_0000_0000_0000_0000

  type Task = nat
  type Left = x: nat | x <= SLICE
  datatype Arith = Unbounded | Wrapping
  datatype Form = Written | Meant

  function Wrap(x: int): (r: nat)
    ensures r < TWO64
  {
    x % TWO64
  }

  function Norm(a: Arith, x: int): int {
    if a.Wrapping? then Wrap(x) else x
  }

  /** (s64)d */
  function Signed(d: nat): int {
    if d < TWO63 then d else d - TWO64
  }

  /** The kernel's order of a vtime queue: the sign of the difference. */
  predicate Before(a: Arith, x: int, y: int) {
    if a.Wrapping? then Signed(Wrap(x - y)) < 0 else x < y
  }

  predicate IsSmaller(a: Arith, form: Form, x: int, y: int) {
    match form
    case Written => Norm(Wrapping, x - y) < 0
    case Meant => Before(a, x, y)
  }

  /** (SLICE - slice) * 100 / weight */
  function Charge(left: Left, weight: nat): nat {
    BpfDiv((SLICE - left) * 100, weight)
  }

  /** 100 * SLICE / weight, the charge of a full slice. */
  function FullCharge(weight: nat): nat {
    Charge(0, weight)
  }

  /** now is vtime_now; vtime and weight are fields of the tasks; queue is the shared DSQ in order. */
  datatype State = State(now: int, vtime: map<Task, int>, weight: map<Task, nat>,
                         queue: seq<Task>, running: Option<Task>)

  datatype Event =
    | Enable(p: Task, w: nat)
    | Enqueue(p: Task)
    | Dispatch
    | Stop(p: Task, left: Left)

  /** Insertion behind every queued task whose vtime is not greater. */
  function Insert(a: Arith, q: seq<Task>, vtime: map<Task, int>, p: Task): seq<Task>
    requires p in vtime && forall t <- q :: t in vtime
  {
    if q == [] then [p]
    else if Before(a, vtime[p], vtime[q[0]]) then [p] + q
    else [q[0]] + Insert(a, q[1..], vtime, p)
  }

  ghost predicate Distinct(q: seq<Task>) {
    forall i, j :: 0 <= i < j < |q| ==> q[i] != q[j]
  }

  ghost predicate Ordered(q: seq<Task>, vtime: map<Task, int>)
    requires forall t <- q :: t in vtime
  {
    forall i, j :: 0 <= i < j < |q| ==> vtime[q[i]] <= vtime[q[j]]
  }

  /** The head of an ordered queue without duplicates, against the rest. */
  lemma Tail(q: seq<Task>, vtime: map<Task, int>)
    requires q != [] && forall t <- q :: t in vtime
    ensures forall t <- q :: t == q[0] || t in q[1..]
    ensures forall t <- q[1..] :: t in q
    ensures Distinct(q) ==> Distinct(q[1..]) && q[0] !in q[1..]
    ensures Ordered(q, vtime) ==> Ordered(q[1..], vtime) && forall t <- q :: vtime[q[0]] <= vtime[t]
  {
    assert q == [q[0]] + q[1..];
  }

  ghost predicate WellFormed(s: State) {
    && s.weight.Keys == s.vtime.Keys
    && (forall t <- s.weight :: s.weight[t] >= 1)
    && (forall t <- s.queue :: t in s.vtime)
    && Distinct(s.queue)
    && (s.running.Some? ==> s.running.value in s.vtime && s.running.value !in s.queue)
  }

  /** What the kernel guarantees about the hook calls. */
  ghost predicate Guard(s: State, e: Event) {
    match e
    case Enable(p, w) => p !in s.queue && s.running != Some(p) && w >= 1
    case Enqueue(p) => p in s.vtime && p !in s.queue && s.running != Some(p)
    case Dispatch => s.running.None?
    case Stop(p, left) => s.running == Some(p)
  }

  /** The vtime a task is queued with: at most one slice behind the clock. */
  function Clamp(a: Arith, form: Form, now: int, v: int): int {
    if IsSmaller(a, form, v, Norm(a, now - SLICE)) then Norm(a, now - SLICE) else v
  }

  function EnqueueStep(a: Arith, form: Form, s: State, p: Task): State
    requires p in s.vtime && forall t <- s.queue :: t in s.vtime
  {
    var vtime := s.vtime[p := Clamp(a, form, s.now, s.vtime[p])];
    s.(vtime := vtime, queue := Insert(a, s.queue, vtime, p))
  }

  /** scx_bpf_dsq_move_to_local and, as the task starts on this CPU, sched_running. */
  function DispatchStep(a: Arith, form: Form, s: State): State
    requires forall t <- s.queue :: t in s.vtime
  {
    if s.queue == [] then s
    else
      var v := s.vtime[s.queue[0]];
      s.(now := if IsSmaller(a, form, s.now, v) then v else s.now,
         queue := s.queue[1..], running := Some(s.queue[0]))
  }

  function StopStep(a: Arith, s: State, p: Task, left: Left): State
    requires p in s.vtime && p in s.weight
  {
    s.(vtime := s.vtime[p := Norm(a, s.vtime[p] + Charge(left, s.weight[p]))], running := None)
  }

  function EnableStep(s: State, p: Task, w: nat): State {
    s.(vtime := s.vtime[p := s.now], weight := s.weight[p := w])
  }

  ghost function Step(a: Arith, form: Form, s: State, e: Event): State
    requires WellFormed(s) && Guard(s, e)
  {
    match e
    case Enable(p, w) => EnableStep(s, p, w)
    case Enqueue(p) => EnqueueStep(a, form, s, p)
    case Dispatch => DispatchStep(a, form, s)
    case Stop(p, left) => StopStep(a, s, p, left)
  }

  lemma {:induction false} InsertMembers(a: Arith, q: seq<Task>, vtime: map<Task, int>, p: Task)
    requires p in vtime && (forall t <- q :: t in vtime) && p !in q && Distinct(q)
    ensures var r := Insert(a, q, vtime, p);
            |r| == |q| + 1 && p in r && (forall t <- q :: t in r) && (forall t <- r :: t == p || t in q) && Distinct(r)
  {
    hide Before;
    if q != [] && !Before(a, vtime[p], vtime[q[0]]) {
      Tail(q, vtime);
      InsertMembers(a, q[1..], vtime, p);
    }
  }

  /** The scan that finds the first later task inserts where Insert does. */
  lemma {:induction false} InsertAt(a: Arith, q: seq<Task>, vtime: map<Task, int>, p: Task, i: nat)
    requires p in vtime && (forall t <- q :: t in vtime) && i <= |q|
    requires forall k :: 0 <= k < i ==> !Before(a, vtime[p], vtime[q[k]])
    requires i < |q| ==> Before(a, vtime[p], vtime[q[i]])
    ensures Insert(a, q, vtime, p) == q[..i] + [p] + q[i..]
  {
    if i > 0 {
      InsertAt(a, q[1..], vtime, p, i - 1);
    }
  }

  lemma StepKeepsWellFormed(a: Arith, form: Form, s: State, e: Event)
    requires WellFormed(s) && Guard(s, e)
    ensures WellFormed(Step(a, form, s, e))
  {
    hide Insert, Distinct, Before, Charge;
    if e.Enqueue? {
      InsertMembers(a, s.queue, Step(a, form, s, e).vtime, e.p);
    } else if e.Dispatch? && s.queue != [] {
      Tail(s.queue, s.vtime);
    }
  }

  /** Every event's guard holds when its turn comes. */
  ghost predicate Runs(a: Arith, form: Form, s: State, es: seq<Event>)
    requires WellFormed(s)
    decreases |es|
  {
    es == [] || (Guard(s, es[0])
                 && (StepKeepsWellFormed(a, form, s, es[0]); Runs(a, form, Step(a, form, s, es[0]), es[1..])))
  }

  ghost function Run(a: Arith, form: Form, s: State, es: seq<Event>): (r: State)
    requires WellFormed(s) && Runs(a, form, s, es)
    ensures WellFormed(r)
    decreases |es|
  {
    if es == [] then s
    else
      StepKeepsWellFormed(a, form, s, es[0]);
      Run(a, form, Step(a, form, s, es[0]), es[1..])
  }

  // ---------------------------------------------------------------- the hooks, updating state in place

  class Scheduler {
    const form: Form
    var vtimeNow: U64
    var dsqVtime: map<Task, int>
    var weight: map<Task, nat>
    var queue: seq<Task>
    var running: Option<Task>

    ghost function Abstract(): State
      reads this
    {
      State(vtimeNow, dsqVtime, weight, queue, running)
    }

    ghost predicate Valid()
      reads this
    {
      WellFormed(Abstract()) && forall t <- dsqVtime :: 0 <= dsqVtime[t] < TWO64
    }

    constructor (form: Form)
      ensures Valid() && this.form == form && Abstract() == State(0, map[], map[], [], None)
    {
      this.form := form;
      vtimeNow, dsqVtime, weight, queue, running := 0, map[], map[], [], None;
    }

    method SchedEnable(p: Task, w: nat)
      requires Valid() && Guard(Abstract(), Enable(p, w))
      modifies this
      ensures Valid() && Abstract() == Step(Wrapping, form, old(Abstract()), Enable(p, w))
    {
      dsqVtime := dsqVtime[p := vtimeNow];
      weight := weight[p := w];
    }

    /** scx_bpf_dsq_insert_vtime: stores the vtime in the task and links it into the ordered queue. */
    method DsqInsertVtime(p: Task, v: U64)
      requires p in dsqVtime && forall t <- queue :: t in dsqVtime
      modifies this`dsqVtime, this`queue
      ensures dsqVtime == old(dsqVtime)[p := v]
      ensures queue == Insert(Wrapping, old(queue), dsqVtime, p)
    {
      hide Before;
      dsqVtime := dsqVtime[p := v];
      var i := 0;
      while i < |queue| && !Before(Wrapping, v, dsqVtime[queue[i]])
        invariant 0 <= i <= |queue|
        invariant forall k :: 0 <= k < i ==> !Before(Wrapping, v, dsqVtime[queue[k]])
      {
        i := i + 1;
      }
      InsertAt(Wrapping, queue, dsqVtime, p, i);
      queue := queue[..i] + [p] + queue[i..];
    }

    method SchedEnqueue(p: Task)
      requires Valid() && Guard(Abstract(), Enqueue(p))
      modifies this
      ensures Valid() && Abstract() == Step(Wrapping, form, old(Abstract()), Enqueue(p))
    {
      hide Charge, Insert, Before;
      StepKeepsWellFormed(Wrapping, form, Abstract(), Enqueue(p));
      var vtime := dsqVtime[p];
      if IsSmaller(Wrapping, form, vtime, Wrap(vtimeNow - SLICE)) {
        vtime := Wrap(vtimeNow - SLICE);
      }
      DsqInsertVtime(p, vtime);
    }

    method SchedDispatch()
      requires Valid() && Guard(Abstract(), Dispatch)
      modifies this
      ensures Valid() && Abstract() == Step(Wrapping, form, old(Abstract()), Dispatch)
    {
      if queue != [] {
        var p := queue[0];
        queue, running := queue[1..], Some(p);
        if IsSmaller(Wrapping, form, vtimeNow, dsqVtime[p]) {
          vtimeNow := dsqVtime[p];
        }
      }
    }

    method SchedStopping(p: Task, left: Left)
      requires Valid() && Guard(Abstract(), Stop(p, left))
      modifies this
      ensures Valid() && Abstract() == Step(Wrapping, form, old(Abstract()), Stop(p, left))
    {
      dsqVtime := dsqVtime[p := Wrap(dsqVtime[p] + Charge(left, weight[p]))];
      running := None;
    }
  }

  // ---------------------------------------------------------------- u64 against unbounded integers

  /** The sign of the wrapped difference is the sign of the difference exactly below 2^63. */
  lemma SignedCompareExact(d: int)
    requires -TWO64 < d < TWO64
    ensures (Signed(Wrap(d)) < 0 <==> d < 0) <==> -TWO63 <= d < TWO63
  {
    if d < 0 {
      assert Wrap(d) == d + TWO64;
    } else {
      assert Wrap(d) == d;
    }
  }

  lemma WrapDifference(x: int, y: int)
    ensures Wrap(Wrap(x) - Wrap(y)) == Wrap(x - y)
  {
    var qx, qy := x / TWO64, y / TWO64;
    assert x - y == Wrap(x) - Wrap(y) + TWO64 * (qx - qy);
  }

  lemma WrapSmall(x: int)
    requires 0 <= x < TWO64
    ensures Wrap(x) == x
  {
  }

  lemma WrapSum(x: int, y: int)
    ensures Wrap(Wrap(x) + y) == Wrap(x + y)
  {
    assert x + y == Wrap(x) + y + TWO64 * (x / TWO64);
  }

  lemma BeforeAgrees(x: int, y: int)
    requires -TWO63 <= x - y < TWO63
    ensures Before(Wrapping, Wrap(x), Wrap(y)) <==> Before(Unbounded, x, y)
  {
    WrapDifference(x, y);
    SignedCompareExact(x - y);
  }

  ghost function WrapAll(v: map<Task, int>): map<Task, int> {
    map t | t in v :: Wrap(v[t])
  }

  lemma WrapAllUpdate(v: map<Task, int>, p: Task, x: int)
    ensures WrapAll(v)[p := Wrap(x)] == WrapAll(v[p := x])
  {
    hide Wrap;
  }

  /** The u64 state that an unbounded state stands for. */
  ghost function Wrapped(s: State): State {
    s.(now := Wrap(s.now), vtime := WrapAll(s.vtime))
  }

  lemma {:induction false} InsertAgrees(q: seq<Task>, vtime: map<Task, int>, p: Task)
    requires p in vtime && forall t <- q :: t in vtime
    requires forall t <- q :: -TWO63 <= vtime[p] - vtime[t] < TWO63
    ensures Insert(Wrapping, q, WrapAll(vtime), p) == Insert(Unbounded, q, vtime, p)
  {
    if q != [] {
      BeforeAgrees(vtime[p], vtime[q[0]]);
      InsertAgrees(q[1..], vtime, p);
    }
  }

  lemma {:induction false} InsertOrdered(q: seq<Task>, vtime: map<Task, int>, p: Task)
    requires p in vtime && (forall t <- q :: t in vtime) && Ordered(q, vtime)
    ensures var r := Insert(Unbounded, q, vtime, p);
            (forall t <- r :: t in vtime && (t == p || t in q)) && Ordered(r, vtime)
  {
    if q != [] {
      Tail(q, vtime);
      if vtime[q[0]] <= vtime[p] {
        InsertOrdered(q[1..], vtime, p);
      }
    }
  }

  lemma OrderedFrame(q: seq<Task>, v: map<Task, int>, w: map<Task, int>)
    requires forall t <- q :: t in v && t in w && v[t] == w[t]
    requires Ordered(q, v)
    ensures Ordered(q, w)
  {
  }

  /** The clock invariant: nobody is more than a full charge ahead of the clock, a running task is not
      ahead at all, and no queued task is more than a slice behind. */
  ghost predicate ClockInv(s: State) {
    && WellFormed(s) && Ordered(s.queue, s.vtime)
    && (forall t <- s.vtime :: s.vtime[t] <= s.now + FullCharge(s.weight[t]))
    && (forall t <- s.queue :: s.now - SLICE <= s.vtime[t])
    && (s.running.Some? ==> s.vtime[s.running.value] <= s.now)
  }

  /** In vtime units, 100 * 20 ms / weight: at the default weight 100 a full slice counts as it is, 20 million ns. */
  lemma FullChargeExactly(weight: nat)
    requires weight >= 1
    ensures FullCharge(weight) * weight <= 2_000_000_000 < (FullCharge(weight) + 1) * weight
    ensures FullCharge(100) == 20_000_000
  {
    assert FullCharge(weight) == BpfDiv(2_000_000_000, weight);
    MulPlus(BpfDiv(2_000_000_000, weight), 1, weight);
    assert FullCharge(100) == BpfDiv(2_000_000_000, 100);
  }

  lemma ChargeMono(left: Left, weight: nat)
    requires weight >= 1
    ensures Charge(left, weight) <= FullCharge(weight) <= 100 * SLICE
  {
    DivMono((SLICE - left) * 100, SLICE * 100, weight);
  }

  lemma EnqueueKeepsClockInv(s: State, p: Task)
    requires ClockInv(s) && Guard(s, Enqueue(p))
    ensures ClockInv(EnqueueStep(Unbounded, Meant, s, p)) && EnqueueStep(Unbounded, Meant, s, p).now == s.now
  {
    var t := EnqueueStep(Unbounded, Meant, s, p);
    StepKeepsWellFormed(Unbounded, Meant, s, Enqueue(p));
    hide Charge, FullCharge, Insert, Ordered, Distinct;
    OrderedFrame(s.queue, s.vtime, t.vtime);
    InsertMembers(Unbounded, s.queue, t.vtime, p);
    InsertOrdered(s.queue, t.vtime, p);
  }

  lemma StopKeepsClockInv(s: State, left: Left)
    requires ClockInv(s) && s.running.Some?
    ensures ClockInv(StopStep(Unbounded, s, s.running.value, left))
    ensures StopStep(Unbounded, s, s.running.value, left).now == s.now
  {
    var p := s.running.value;
    StepKeepsWellFormed(Unbounded, Meant, s, Stop(p, left));
    ChargeMono(left, s.weight[p]);
    hide Charge, FullCharge, Ordered, Distinct;
    OrderedFrame(s.queue, s.vtime, StopStep(Unbounded, s, p, left).vtime);
  }

  /** As meant: one hook keeps the clock invariant and never turns the clock back. */
  lemma StepKeepsClockInv(s: State, e: Event)
    requires ClockInv(s) && Guard(s, e)
    ensures ClockInv(Step(Unbounded, Meant, s, e))
    ensures s.now <= Step(Unbounded, Meant, s, e).now
  {
    StepKeepsWellFormed(Unbounded, Meant, s, e);
    hide EnqueueStep, StopStep, Charge, FullCharge, Ordered, Distinct;
    match e
    case Enable(p, w) => OrderedFrame(s.queue, s.vtime, EnableStep(s, p, w).vtime);
    case Enqueue(p) => EnqueueKeepsClockInv(s, p);
    case Dispatch =>
      if s.queue != [] {
        Tail(s.queue, s.vtime);
      }
    case Stop(p, left) => StopKeepsClockInv(s, left);
  }

  /** The window in nanoseconds of vtime: a queued task is at most 20 ms behind the clock, and at most 2 s over its
      weight ahead of it. */
  lemma ClockWindow(s: State, t: Task)
    requires ClockInv(s) && t in s.queue
    ensures s.now - 20_000_000 <= s.vtime[t]
    ensures (s.vtime[t] - s.now) * s.weight[t] <= 2_000_000_000
  {
    var d, w := s.vtime[t] - s.now, s.weight[t];
    FullChargeExactly(w);
    assert d <= FullCharge(w) && w >= 1;
    hide ClockInv, FullCharge;
    if d >= 0 {
      MulLe(d, FullCharge(w), w);
    } else {
      MulLe(0, -d, w);
      assert d * w == -((-d) * w);
    }
  }

  /** How far a vtime lags behind the clock's floor matters modulo 2^64: the wrapped difference has the right
      sign up to 2^63, and at a whole multiple of 2^64 the two vtimes are the same. */
  predicate LagSafe(now: int, v: int) {
    v >= now - SLICE || (now - SLICE - v) % TWO64 <= TWO63
  }

  /** A task that wakes lags safely. */
  ghost predicate LagBounded(s: State, e: Event) {
    e.Enqueue? && e.p in s.vtime ==> LagSafe(s.now, s.vtime[e.p])
  }

  lemma WindowBounds(s: State, t: Task)
    requires ClockInv(s) && t in s.vtime
    ensures s.vtime[t] <= s.now + 100 * SLICE
  {
    ChargeMono(0, s.weight[t]);
  }

  lemma ClampBounds(s: State, p: Task)
    requires ClockInv(s) && p in s.vtime
    ensures s.now - SLICE <= Clamp(Unbounded, Meant, s.now, s.vtime[p]) <= s.now + 100 * SLICE
  {
    hide Charge, FullCharge, Insert;
    WindowBounds(s, p);
  }

  lemma WrapNegative(x: nat)
    ensures Wrap(0 - x) == if x % TWO64 == 0 then 0 else TWO64 - x % TWO64
  {
    var k := x / TWO64;
    assert x == k * TWO64 + x % TWO64;
  }

  lemma SameWrap(x: int, y: int)
    ensures Wrap(x) == Wrap(y) <==> Wrap(x - y) == 0
  {
    WrapDifference(x, y);
  }

  /** As meant, the wrapped clamp picks the unbounded one's value, up to the wrap, exactly at a safe lag. */
  lemma ClampRefinesExactly(now: int, v: int)
    requires v - (now - SLICE) < TWO63
    ensures Clamp(Wrapping, Meant, Wrap(now), Wrap(v)) == Wrap(Clamp(Unbounded, Meant, now, v)) <==> LagSafe(now, v)
  {
    WrapSum(now, -SLICE);
    assert Wrap(Wrap(now) - SLICE) == Wrap(now - SLICE);
    WrapDifference(v, now - SLICE);
    if v >= now - SLICE {
      SignedCompareExact(v - (now - SLICE));
    } else {
      WrapNegative(now - SLICE - v);
      SameWrap(v, now - SLICE);
    }
  }

  lemma ClampRefines(form: Form, now: int, v: int)
    requires form.Meant? ==> v - (now - SLICE) < TWO63 && LagSafe(now, v)
    ensures Clamp(Wrapping, form, Wrap(now), Wrap(v)) == Wrap(Clamp(Unbounded, form, now, v))
  {
    if form.Meant? {
      ClampRefinesExactly(now, v);
    }
  }

  /** The u64 enqueue does what the unbounded enqueue does while all compared values are within 2^63 and the
      lag is safe. */
  lemma EnqueueRefines(form: Form, s: State, p: Task)
    requires p in s.vtime && forall t <- s.queue :: t in s.vtime
    requires form.Meant? ==> s.vtime[p] - (s.now - SLICE) < TWO63 && LagSafe(s.now, s.vtime[p])
    requires var v := Clamp(Unbounded, form, s.now, s.vtime[p]);
             forall t <- s.queue :: t != p && -TWO63 <= v - s.vtime[t] < TWO63
    ensures EnqueueStep(Wrapping, form, Wrapped(s), p) == Wrapped(EnqueueStep(Unbounded, form, s, p))
  {
    hide Insert, Wrap, Clamp, Before;
    var vtime := EnqueueStep(Unbounded, form, s, p).vtime;
    ClampRefines(form, s.now, s.vtime[p]);
    WrapAllUpdate(s.vtime, p, vtime[p]);
    InsertAgrees(s.queue, vtime, p);
  }

  lemma StopRefines(s: State, p: Task, left: Left)
    requires p in s.vtime && p in s.weight
    ensures StopStep(Wrapping, Wrapped(s), p, left) == Wrapped(StopStep(Unbounded, s, p, left))
  {
    hide Charge, Wrap;
    assert p in WrapAll(s.vtime) && WrapAll(s.vtime)[p] == Wrap(s.vtime[p]);
    WrapSum(s.vtime[p], Charge(left, s.weight[p]));
    WrapAllUpdate(s.vtime, p, s.vtime[p] + Charge(left, s.weight[p]));
  }

  /** As meant: the u64 hook does what the unbounded hook does. */
  lemma StepRefines(s: State, e: Event)
    requires ClockInv(s) && Guard(s, e) && LagBounded(s, e)
    ensures WellFormed(Wrapped(s)) && Guard(Wrapped(s), e)
    ensures Step(Wrapping, Meant, Wrapped(s), e) == Wrapped(Step(Unbounded, Meant, s, e))
  {
    hide Charge, FullCharge, Insert, Wrap, Before, EnqueueStep, StopStep, Clamp, Ordered, Distinct, LagSafe;
    match e
    case Enable(p, w) =>
    case Enqueue(p) =>
      WindowBounds(s, p);
      ClampBounds(s, p);
      forall t <- s.queue
        ensures -101 * SLICE <= s.vtime[t] - s.now <= 101 * SLICE
      {
        WindowBounds(s, t);
      }
      EnqueueRefines(Meant, s, p);
    case Dispatch =>
      if s.queue != [] {
        WindowBounds(s, s.queue[0]);
        BeforeAgrees(s.now, s.vtime[s.queue[0]]);
      }
    case Stop(p, left) =>
      StopRefines(s, p, left);
  }

  /** As meant, the u64 hook does what the unbounded hook does exactly if a task that wakes lags safely. */
  lemma StepRefinesExactly(s: State, e: Event)
    requires ClockInv(s) && Guard(s, e)
    ensures WellFormed(Wrapped(s)) && Guard(Wrapped(s), e)
    ensures Step(Wrapping, Meant, Wrapped(s), e) == Wrapped(Step(Unbounded, Meant, s, e)) <==> LagBounded(s, e)
  {
    hide Charge, FullCharge, Insert, Wrap, Before, DispatchStep, StopStep, Clamp, Ordered, Distinct, LagSafe;
    if LagBounded(s, e) {
      StepRefines(s, e);
    } else {
      WindowBounds(s, e.p);
      ClampRefinesExactly(s.now, s.vtime[e.p]);
      assert Step(Wrapping, Meant, Wrapped(s), e).vtime[e.p] != Wrapped(Step(Unbounded, Meant, s, e)).vtime[e.p];
    }
  }

  ghost predicate LagBoundedRun(s: State, es: seq<Event>)
    requires WellFormed(s) && Runs(Unbounded, Meant, s, es)
    decreases |es|
  {
    es == [] || (LagBounded(s, es[0])
                 && (StepKeepsWellFormed(Unbounded, Meant, s, es[0]);
                     LagBoundedRun(Step(Unbounded, Meant, s, es[0]), es[1..])))
  }

  /** As meant, over whole runs: the u64 scheduler refines the unbounded one, the clock never goes
      back, and every queued vtime stays in its window around the clock. */
  lemma {:induction false} RunRefines(s: State, es: seq<Event>)
    requires ClockInv(s) && Runs(Unbounded, Meant, s, es) && LagBoundedRun(s, es)
    ensures ClockInv(Run(Unbounded, Meant, s, es)) && s.now <= Run(Unbounded, Meant, s, es).now
    ensures WellFormed(Wrapped(s)) && Runs(Wrapping, Meant, Wrapped(s), es)
    ensures Run(Wrapping, Meant, Wrapped(s), es) == Wrapped(Run(Unbounded, Meant, s, es))
    decreases |es|
  {
    if es != [] {
      StepRefines(s, es[0]);
      StepKeepsClockInv(s, es[0]);
      RunRefines(Step(Unbounded, Meant, s, es[0]), es[1..]);
    }
  }

  /** After each of the first k events the u64 scheduler, started with the same state, is where the unbounded
      one is, up to the wrap. */
  ghost predicate InStep(s: State, es: seq<Event>, k: nat)
    requires WellFormed(s) && k <= |es|
  {
    && Runs(Unbounded, Meant, s, es[..k])
    && WellFormed(Wrapped(s)) && Runs(Wrapping, Meant, Wrapped(s), es[..k])
    && Run(Wrapping, Meant, Wrapped(s), es[..k]) == Wrapped(Run(Unbounded, Meant, s, es[..k]))
  }

  lemma {:induction false} PrefixLagBounded(s: State, es: seq<Event>, k: nat)
    requires WellFormed(s) && Runs(Unbounded, Meant, s, es) && k <= |es|
    ensures Runs(Unbounded, Meant, s, es[..k])
    ensures LagBoundedRun(s, es) ==> LagBoundedRun(s, es[..k])
    decreases k
  {
    hide Step, Guard, LagBounded, WellFormed;
    if k > 0 {
      StepKeepsWellFormed(Unbounded, Meant, s, es[0]);
      PrefixLagBounded(Step(Unbounded, Meant, s, es[0]), es[1..], k - 1);
      assert es[..k][1..] == es[1..][..k - 1];
    }
  }

  lemma InStepTail(s: State, es: seq<Event>, k: nat)
    requires ClockInv(s) && Runs(Unbounded, Meant, s, es) && 0 < k <= |es|
    requires LagBounded(s, es[0]) && InStep(s, es, k)
    ensures WellFormed(Step(Unbounded, Meant, s, es[0])) && InStep(Step(Unbounded, Meant, s, es[0]), es[1..], k - 1)
  {
    StepKeepsWellFormed(Unbounded, Meant, s, es[0]);
    StepRefines(s, es[0]);
    StepKeepsWellFormed(Wrapping, Meant, Wrapped(s), es[0]);
    assert es[..k][1..] == es[1..][..k - 1];
    hide Step, Guard, LagBounded, WellFormed, Wrapped;
  }

  lemma RunOne(a: Arith, form: Form, s: State, e: Event)
    requires WellFormed(s) && Guard(s, e)
    ensures Runs(a, form, s, [e]) && Run(a, form, s, [e]) == Step(a, form, s, e)
  {
    StepKeepsWellFormed(a, form, s, e);
    hide Step, Guard, WellFormed;
    assert [e][1..] == [];
    assert Runs(a, form, Step(a, form, s, e), []);
  }

  lemma FirstInStep(s: State, es: seq<Event>)
    requires ClockInv(s) && Runs(Unbounded, Meant, s, es) && es != [] && InStep(s, es, 1)
    ensures LagBounded(s, es[0])
  {
    StepRefinesExactly(s, es[0]);
    hide Step, Guard, LagBounded, Wrapped, ClockInv, Run;
    assert es[..1] == [es[0]];
    RunOne(Unbounded, Meant, s, es[0]);
    RunOne(Wrapping, Meant, Wrapped(s), es[0]);
  }

  /** As meant, for every run of the unbounded scheduler: the u64 one goes along with it, after every event,
      exactly if no task wakes at an unsafe lag. */
  lemma {:induction false} RunRefinesExactly(s: State, es: seq<Event>)
    requires ClockInv(s) && Runs(Unbounded, Meant, s, es)
    ensures (forall k :: 0 <= k <= |es| ==> InStep(s, es, k)) <==> LagBoundedRun(s, es)
    decreases |es|
  {
    hide Step, Guard, LagBounded, Wrapped, Ordered, FullCharge, Run;
    if LagBoundedRun(s, es) {
      forall k | 0 <= k <= |es|
        ensures InStep(s, es, k)
      {
        PrefixLagBounded(s, es, k);
        RunRefines(s, es[..k]);
      }
    }
    if es != [] && forall k :: 0 <= k <= |es| ==> InStep(s, es, k) {
      assert InStep(s, es, 1);
      FirstInStep(s, es);
      StepKeepsClockInv(s, es[0]);
      StepKeepsWellFormed(Unbounded, Meant, s, es[0]);
      forall k | 0 <= k <= |es[1..]|
        ensures InStep(Step(Unbounded, Meant, s, es[0]), es[1..], k)
      {
        assert InStep(s, es, k + 1);
        InStepTail(s, es, k + 1);
      }
      RunRefinesExactly(Step(Unbounded, Meant, s, es[0]), es[1..]);
    }
  }

  // ---------------------------------------------------------------- as written

  /** What p has been charged since it was last enabled, starting from account c. */
  datatype Account = Account(weight: nat, charged: nat)

  function ChargeEvent(c: Account, e: Event, p: Task): Account {
    match e
    case Enable(q, w) => if q == p then Account(w, 0) else c
    case Stop(q, left) =>
      if q == p then c.(charged := c.charged + Charge(left, c.weight)) else c
    case _ => c
  }

  function Charged(c: Account, es: seq<Event>, p: Task): Account
    decreases |es|
  {
    if es == [] then c else Charged(ChargeEvent(c, es[0], p), es[1..], p)
  }

  ghost predicate Accounted(s: State, p: Task, c: Account) {
    && 0 <= s.now < TWO64
    && (p in s.vtime && p in s.weight ==> c.weight == s.weight[p] && s.vtime[p] == Wrap(s.now + c.charged))
  }

  /** The unsigned difference is never below 0. */
  lemma WrittenNeverSmaller(x: int, y: int)
    ensures !IsSmaller(Wrapping, Written, x, y)
  {
  }

  lemma WrittenClamp(now: int, v: int)
    ensures Clamp(Wrapping, Written, now, v) == v
  {
  }

  lemma WrittenStep(s: State, e: Event, p: Task, c: Account)
    requires WellFormed(s) && Guard(s, e) && Accounted(s, p, c)
    ensures Step(Wrapping, Written, s, e).now == s.now
    ensures Accounted(Step(Wrapping, Written, s, e), p, ChargeEvent(c, e, p))
  {
    hide Charge, Insert, Wrap, Before, Distinct, Clamp, IsSmaller;
    WrapSmall(s.now);
    if e.Enqueue? {
      WrittenClamp(s.now, s.vtime[e.p]);
    } else if e.Dispatch? && s.queue != [] {
      WrittenNeverSmaller(s.now, s.vtime[s.queue[0]]);
    } else if e.Stop? && e.p == p {
      WrapSum(s.now + c.charged, Charge(e.left, c.weight));
    }
  }

  /** As written, the clock is frozen and a task's vtime is the clock plus its charges, modulo 2^64. */
  lemma {:induction false} WrittenRun(s: State, es: seq<Event>, p: Task, c: Account)
    requires WellFormed(s) && Runs(Wrapping, Written, s, es) && Accounted(s, p, c)
    ensures var r := Run(Wrapping, Written, s, es);
            r.now == s.now
            && (p in r.vtime ==> r.vtime[p] == Wrap(s.now + Charged(c, es, p).charged))
    decreases |es|
  {
    hide Charge, Insert, Wrap, Step, Guard, ChargeEvent;
    if es != [] {
      StepKeepsWellFormed(Wrapping, Written, s, es[0]);
      WrittenStep(s, es[0], p, c);
      WrittenRun(Step(Wrapping, Written, s, es[0]), es[1..], p, ChargeEvent(c, es[0], p));
    }
  }
}
