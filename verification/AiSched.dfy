/**
  The AI scheduler of ai_sched.bpf.c: routing of tasks into five dispatch queues,
  strict-priority dispatch and statistics; and the daemon's heuristic classifier
  of classifier.cpp, whose decisions it follows.
 */
module AiSched {
  import opened Kernel

  // enum ai_task_class
  const REALTIME_AI: U32 := 0
  const INTERACTIVE_AI: U32 := 1
  const BATCH_AI: U32 := 2
  const BACKGROUND: U32 := 3
  const UNKNOWN: U32 := 4

  // enum ai_compute_device
  const PERF_CORE: U32 := 0
  const EFF_CORE: U32 := 1
  const GPU: U32 := 2
  const NPU: U32 := 3
  const AUTO: U32 := 4

  // enum ai_energy_mode
  const BALANCED: U32 := 1
  const EFFICIENT: U32 := 2
  const POWER_SAVER: U32 := 3

  datatype Dsq = Perf | Eff | Gpu | Npu | Fallback

  datatype Decision = Decision(pid: U32, taskClass: U32, preferredDevice: U32, cpuAffinityMask: U32, timeSliceUs: U32,
                               priorityBoost: U32, tsDecision: U64)

  /** The fields of task_struct that the scheduler reads; None where the pointer is null. */
  datatype Task = Task(tgid: U32, flags: U32, threads: Option<U32>, totalVm: Option<U64>, state: U32, prio: int)

  // ---------------------------------------------------------------- kernel: classification and routing

  /** (vm * 4096) >> 20 in 64 bits, then cut to 32. */
  function MemoryMb(p: Task): U32 {
    match p.totalVm
    case None => 0
    case Some(vm) => vm * 4096 % 0x1_0000_0000_0000_0000 / 0x10_0000 % 0x1_0000_0000
  }

  /** 256 pages make a megabyte; the shift loses what is above 2^52 pages and the cut what is above 2^40, so nothing
      is lost exactly below that. */
  lemma MemoryMbExactly(p: Task)
    ensures p.totalVm.None? ==> MemoryMb(p) == 0
    ensures p.totalVm.Some? ==> MemoryMb(p) == p.totalVm.value % 0x10_0000_0000_0000 / 256 % 0x1_0000_0000
    ensures p.totalVm.Some? ==> (MemoryMb(p) == p.totalVm.value / 256 <==> p.totalVm.value < 0x100_0000_0000)
  {
  }

  function Threads(p: Task): U32 {
    match p.threads case None => 1 case Some(n) => n
  }

  /** classify_task_fallback */
  function ClassifyFallback(p: Task): U32 {
    var numThreads, memoryMb := Threads(p), MemoryMb(p);
    if p.flags / 0x20_0000 % 2 == 1 || p.flags / 2 % 2 == 1 then BACKGROUND
    else if p.state == 0 && p.prio < 100 then REALTIME_AI
    else if numThreads > 4 && memoryMb > 50 then BATCH_AI
    else if memoryMb > 200 then INTERACTIVE_AI
    else if p.prio > 130 then BACKGROUND
    else UNKNOWN
  }

  /** A kernel thread or a task that is starting up: PF_KTHREAD is bit 21 of the flags, and bit 1 is tested with it. */
  predicate SystemTask(p: Task) {
    p.flags / 0x20_0000 % 2 == 1 || p.flags / 2 % 2 == 1
  }

  /** Which task gets which class: 0 for a running realtime task, 2 for more than four threads over 50 MB, 1 over
      200 MB, 3 for a system task or else a priority past 130, 4 for the rest; each test only where no earlier
      one has decided, a system task first. */
  lemma FallbackExactly(p: Task)
    ensures var c, mb := ClassifyFallback(p), MemoryMb(p);
            var realtime := p.state == 0 && p.prio < 100;
            var many := p.threads.Some? && p.threads.value > 4;
            && (c == 0 <==> !SystemTask(p) && realtime)
            && (c == 2 <==> !SystemTask(p) && !realtime && many && mb > 50)
            && (c == 1 <==> !SystemTask(p) && !realtime && !many && mb > 200)
            && (c == 3 <==> SystemTask(p) || (!realtime && !(many && mb > 50) && mb <= 200 && p.prio > 130))
            && (c == 4 <==> !SystemTask(p) && !realtime && !(many && mb > 50) && mb <= 200 && p.prio <= 130)
  {
    hide MemoryMb;
  }

  /** get_time_slice_ns: the map lookup succeeds for every key below the map's size. */
  function TimeSliceNs(timeSlices: seq<U64>, taskClass: U32): U64 {
    var key := taskClass % 5;
    if key < |timeSlices| then timeSlices[key]
    else if taskClass == REALTIME_AI then 1_000_000
    else if taskClass == INTERACTIVE_AI then 2_000_000
    else if taskClass == BATCH_AI then 10_000_000
    else if taskClass == BACKGROUND then 20_000_000
    else 5_000_000
  }

  /** The default slices are for a failed lookup only, in milliseconds 1, 2, 10, 20 and 5. */
  lemma SliceExactly(timeSlices: seq<U64>, taskClass: U32)
    ensures |timeSlices| >= 5 ==> TimeSliceNs(timeSlices, taskClass) == timeSlices[taskClass % 5]
    ensures timeSlices == [] ==>
              TimeSliceNs(timeSlices, taskClass)
              == if taskClass < 5 then [1, 2, 10, 20, 5][taskClass] * 1_000_000 else 5_000_000
  {
  }

  /** select_dsq */
  function SelectDsq(taskClass: U32, preferred: U32, energy: U32): Dsq {
    if preferred == PERF_CORE then Perf
    else if preferred == EFF_CORE then Eff
    else if preferred == GPU then Gpu
    else if preferred == NPU then Npu
    else if taskClass == REALTIME_AI || taskClass == INTERACTIVE_AI then Perf
    else if taskClass == BATCH_AI then (if energy == EFFICIENT || energy == POWER_SAVER then Eff else Perf)
    else if taskClass == BACKGROUND then Eff
    else Fallback
  }

  function Level(d: Dsq): nat {
    match d
    case Perf => 0
    case Eff => 1
    case Gpu => 2
    case Npu => 3
    case Fallback => 4
  }

  /** Where a task belongs, by the numbers of ai_sched.h: a device 0 to 3 has its own queue, in the order of the
      queues. Without one, modes 2 and 3 save energy and move batch tasks, class 2, from DSQ_PERF, where the
      classes below 3 go, to DSQ_EFF with class 3; the rest goes to DSQ_FALLBACK. */
  ghost predicate Belongs(d: Dsq, taskClass: U32, preferred: U32, energy: U32) {
    var saved := taskClass == 2 && (energy == 2 || energy == 3);
    if preferred < 4 then Level(d) == preferred
    else
      && (d == Perf <==> taskClass < 3 && !saved)
      && (d == Eff <==> taskClass == 3 || saved)
      && (d == Fallback <==> taskClass > 3)
  }

  lemma SelectDsqExactly(taskClass: U32, preferred: U32, energy: U32, d: Dsq)
    ensures SelectDsq(taskClass, preferred, energy) == d <==> Belongs(d, taskClass, preferred, energy)
  {
  }

  /** The energy mode moves a task exactly if it is a batch task without a preferred device and the two
      modes differ in saving energy. */
  lemma EnergyMovesBatchOnly(taskClass: U32, preferred: U32, e1: U32, e2: U32)
    ensures SelectDsq(taskClass, preferred, e1) != SelectDsq(taskClass, preferred, e2)
            <==> taskClass == 2 && preferred >= 4 && (e1 in {2, 3}) != (e2 in {2, 3})
  {
  }

  /** A queued task; id counts the enqueues. */
  datatype Entry = Entry(id: nat, task: Task, taskClass: U32, dsq: Dsq, sliceNs: U64)

  /** struct ai_sched_stats; the last two counters are never touched. */
  datatype Stats = Stats(enqueued: nat, dispatched: nat, aiCpu: nat, aiNpu: nat, bgEff: nat)

  datatype Queues = Queues(perf: seq<Entry>, eff: seq<Entry>, gpu: seq<Entry>, npu: seq<Entry>, fallback: seq<Entry>)

  function Append(q: Queues, d: Dsq, e: Entry): Queues {
    match d
    case Perf => q.(perf := q.perf + [e])
    case Eff => q.(eff := q.eff + [e])
    case Gpu => q.(gpu := q.gpu + [e])
    case Npu => q.(npu := q.npu + [e])
    case Fallback => q.(fallback := q.fallback + [e])
  }

  datatype State = State(queues: Queues, decisions: map<U32, Decision>, energy: U32,
                         timeSlices: seq<U64>, stats: Stats, moved: seq<Entry>)

  function UpdateStats(st: Stats, taskClass: U32, d: Dsq): Stats {
    var s := st.(enqueued := st.enqueued + 1);
    if d.Perf? && taskClass < BACKGROUND then s.(aiCpu := s.aiCpu + 1)
    else if d.Npu? then s.(aiNpu := s.aiNpu + 1)
    else if d.Eff? then s.(bgEff := s.bgEff + 1)
    else s
  }

  /** The entry that enqueueing a task makes: by the stored decision if there is one, else by the fallback. */
  function MakeEntry(s: State, p: Task): Entry {
    if p.tgid in s.decisions then
      var d := s.decisions[p.tgid];
      Entry(s.stats.enqueued, p, d.taskClass, SelectDsq(d.taskClass, d.preferredDevice, s.energy), d.timeSliceUs * 1000)
    else
      var c := ClassifyFallback(p);
      Entry(s.stats.enqueued, p, c, SelectDsq(c, AUTO, s.energy), TimeSliceNs(s.timeSlices, c))
  }

  /** A task without a decision goes to DSQ_FALLBACK exactly if it is an ordinary user thread of small
      memory and middling priority; no energy mode changes that. */
  lemma UndecidedFallsBackExactly(s: State, p: Task)
    requires p.tgid !in s.decisions
    ensures MakeEntry(s, p).dsq == Fallback
            <==> p.flags / 0x20_0000 % 2 == 0 && p.flags / 2 % 2 == 0 && p.prio <= 130
                 && (p.state != 0 || p.prio >= 100)
                 && MemoryMb(p) <= 200 && (MemoryMb(p) > 50 ==> Threads(p) <= 4)
  {
  }

  function EnqueueStep(s: State, p: Task): State {
    var e := MakeEntry(s, p);
    s.(queues := Append(s.queues, e.dsq, e), stats := UpdateStats(s.stats, e.taskClass, e.dsq))
  }

  /** Every queued task may run on the dispatching CPU, so a move takes the head of its queue. */
  function DispatchStep(s: State): State {
    var q := s.queues;
    if q.perf != [] then s.(queues := q.(perf := q.perf[1..]), moved := s.moved + [q.perf[0]])
    else if q.eff != [] then s.(queues := q.(eff := q.eff[1..]), moved := s.moved + [q.eff[0]])
    else if q.gpu != [] then s.(queues := q.(gpu := q.gpu[1..]), moved := s.moved + [q.gpu[0]])
    else if q.npu != [] then s.(queues := q.(npu := q.npu[1..]), moved := s.moved + [q.npu[0]])
    else if q.fallback != [] then s.(queues := q.(fallback := q.fallback[1..]), moved := s.moved + [q.fallback[0]])
    else s
  }

  const INIT := State(Queues([], [], [], [], []), map[], BALANCED, [0, 0, 0, 0, 0], Stats(0, 0, 0, 0, 0), [])

  /** What happens to the scheduler: its two hooks, and the maps written from user space. */
  datatype Event =
    | Enqueue(p: Task)
    | Dispatch
    | StoreDecision(d: Decision)
    | SetEnergy(mode: U32)

  function Step(s: State, e: Event): State {
    match e
    case Enqueue(p) => EnqueueStep(s, p)
    case Dispatch => DispatchStep(s)
    case StoreDecision(d) => s.(decisions := s.decisions[d.pid := d])
    case SetEnergy(m) => s.(energy := m)
  }

  function Run(s: State, es: seq<Event>): State
    decreases |es|
  {
    if es == [] then s else Run(Step(s, es[0]), es[1..])
  }

  // ---------------------------------------------------------------- the hooks, updating state in place

  class Scheduler {
    var perf: seq<Entry>
    var eff: seq<Entry>
    var gpu: seq<Entry>
    var npu: seq<Entry>
    var fallback: seq<Entry>
    var decisions: map<U32, Decision>
    var energyMode: U32
    var timeSlices: seq<U64>
    var stats: Stats
    var moved: seq<Entry>

    ghost function Abstract(): State
      reads this
    {
      State(Queues(perf, eff, gpu, npu, fallback), decisions, energyMode, timeSlices, stats, moved)
    }

    /** ai_sched_init: time_slices is left as the array map starts, all zeros. */
    constructor ()
      ensures Abstract() == INIT
    {
      perf, eff, gpu, npu, fallback := [], [], [], [], [];
      decisions, energyMode, timeSlices := map[], BALANCED, [0, 0, 0, 0, 0];
      stats, moved := Stats(0, 0, 0, 0, 0), [];
    }

    method UpdateStatistics(taskClass: U32, target: Dsq)
      modifies this`stats
      ensures stats == UpdateStats(old(stats), taskClass, target)
    {
      stats := stats.(enqueued := stats.enqueued + 1);
      if target.Perf? && taskClass < BACKGROUND {
        stats := stats.(aiCpu := stats.aiCpu + 1);
      } else if target.Npu? {
        stats := stats.(aiNpu := stats.aiNpu + 1);
      } else if target.Eff? {
        stats := stats.(bgEff := stats.bgEff + 1);
      }
    }

    method AiSchedEnqueue(p: Task)
      modifies this
      ensures Abstract() == Step(old(Abstract()), Enqueue(p))
    {
      var taskClass, preferred := UNKNOWN, AUTO;
      var sliceNs: U64;
      if p.tgid in decisions {
        var d := decisions[p.tgid];
        taskClass, preferred, sliceNs := d.taskClass, d.preferredDevice, d.timeSliceUs * 1000;
      } else {
        taskClass := ClassifyFallback(p);
        sliceNs := TimeSliceNs(timeSlices, taskClass);
      }
      var target := SelectDsq(taskClass, preferred, energyMode);
      var e := Entry(stats.enqueued, p, taskClass, target, sliceNs);
      UpdateStatistics(taskClass, target);
      match target
      case Perf => perf := perf + [e];
      case Eff => eff := eff + [e];
      case Gpu => gpu := gpu + [e];
      case Npu => npu := npu + [e];
      case Fallback => fallback := fallback + [e];
    }

    method AiSchedDispatch()
      modifies this
      ensures Abstract() == Step(old(Abstract()), Dispatch)
    {
      if perf != [] {
        perf, moved := perf[1..], moved + [perf[0]];
      } else if eff != [] {
        eff, moved := eff[1..], moved + [eff[0]];
      } else if gpu != [] {
        gpu, moved := gpu[1..], moved + [gpu[0]];
      } else if npu != [] {
        npu, moved := npu[1..], moved + [npu[0]];
      } else if fallback != [] {
        fallback, moved := fallback[1..], moved + [fallback[0]];
      }
    }
  }

  // ---------------------------------------------------------------- waiting

  /** All waiting tasks in strict priority; a task's rank is its index here. */
  function Line(q: Queues): seq<Entry> {
    q.perf + (q.eff + (q.gpu + (q.npu + q.fallback)))
  }

  /** How many tasks wait in queue d and in the queues before it. */
  function UpTo(q: Queues, d: Dsq): nat {
    match d
    case Perf => |q.perf|
    case Eff => |q.perf| + |q.eff|
    case Gpu => |q.perf| + |q.eff| + |q.gpu|
    case Npu => |q.perf| + |q.eff| + |q.gpu| + |q.npu|
    case Fallback => |Line(q)|
  }

  lemma DropHead<T>(a: seq<T>, b: seq<T>)
    ensures if a == [] then a + b == b else (a + b)[0] == a[0] && (a + b)[1..] == a[1..] + b
  {
  }

  /** A dispatch takes the head of the line. */
  lemma DispatchTakesHead(s: State)
    ensures var l, t := Line(s.queues), DispatchStep(s);
            if l == [] then t == s
            else Line(t.queues) == l[1..] && t.moved == s.moved + [l[0]] && t.stats == s.stats
  {
    var q := s.queues;
    DropHead(q.perf, q.eff + (q.gpu + (q.npu + q.fallback)));
    if q.perf == [] {
      DropHead(q.eff, q.gpu + (q.npu + q.fallback));
      if q.eff == [] {
        DropHead(q.gpu, q.npu + q.fallback);
        if q.gpu == [] {
          DropHead(q.npu, q.fallback);
        }
      }
    }
  }

  /** l with e put in at index k. */
  function InsertAt<T>(l: seq<T>, k: nat, e: T): seq<T>
    requires k <= |l|
  {
    l[..k] + [e] + l[k..]
  }

  lemma InsertBehind<T>(a: seq<T>, b: seq<T>, e: T)
    ensures (a + [e]) + b == InsertAt(a + b, |a|, e)
  {
  }

  lemma InsertInTail<T>(a: seq<T>, b: seq<T>, k: nat, e: T)
    requires k <= |b|
    ensures a + InsertAt(b, k, e) == InsertAt(a + b, |a| + k, e)
  {
  }

  /** An enqueue enters the line behind its own queue and before every lower one. */
  lemma EnqueueEntersLine(s: State, p: Task)
    ensures var l, e, t := Line(s.queues), MakeEntry(s, p), EnqueueStep(s, p);
            var k := UpTo(s.queues, e.dsq);
            k <= |l| && Line(t.queues) == InsertAt(l, k, e)
  {
    hide MakeEntry, InsertAt;
    var q, e := s.queues, MakeEntry(s, p);
    var l4 := q.npu + q.fallback;
    var l3 := q.gpu + l4;
    var l2 := q.eff + l3;
    match e.dsq
    case Perf =>
      InsertBehind(q.perf, l2, e);
    case Eff =>
      InsertBehind(q.eff, l3, e);
      InsertInTail(q.perf, l2, |q.eff|, e);
    case Gpu =>
      InsertBehind(q.gpu, l4, e);
      InsertInTail(q.eff, l3, |q.gpu|, e);
      InsertInTail(q.perf, l2, |q.eff| + |q.gpu|, e);
    case Npu =>
      InsertBehind(q.npu, q.fallback, e);
      InsertInTail(q.gpu, l4, |q.npu|, e);
      InsertInTail(q.eff, l3, |q.gpu| + |q.npu|, e);
      InsertInTail(q.perf, l2, |q.eff| + |q.gpu| + |q.npu|, e);
    case Fallback =>
      InsertBehind(q.fallback, [], e);
      assert q.fallback + [] == q.fallback && q.fallback + [e] + [] == q.fallback + [e];
      InsertInTail(q.npu, q.fallback, |q.fallback|, e);
      InsertInTail(q.gpu, l4, |l4|, e);
      InsertInTail(q.eff, l3, |l3|, e);
      InsertInTail(q.perf, l2, |l2|, e);
  }

  /** Each queue holds entries routed to it. */
  ghost predicate Routed(q: Queues) {
    && (forall e <- q.perf :: e.dsq == Perf)
    && (forall e <- q.eff :: e.dsq == Eff)
    && (forall e <- q.gpu :: e.dsq == Gpu)
    && (forall e <- q.npu :: e.dsq == Npu)
    && (forall e <- q.fallback :: e.dsq == Fallback)
  }

  lemma StepKeepsRouted(s: State, ev: Event)
    requires Routed(s.queues)
    ensures Routed(Step(s, ev).queues)
  {
    hide MakeEntry;
  }

  /** Every state of a run from init is routed. */
  lemma {:induction false} RunKeepsRouted(s: State, es: seq<Event>)
    requires Routed(s.queues)
    ensures Routed(Run(s, es).queues)
    decreases |es|
  {
    hide Routed, Step;
    if es != [] {
      StepKeepsRouted(s, es[0]);
      RunKeepsRouted(Step(s, es[0]), es[1..]);
    }
  }

  lemma RankWithinUpTo(q: Queues, d: Dsq, i: nat)
    requires Routed(q) && i < |Line(q)|
    ensures i < UpTo(q, d) <==> Level(Line(q)[i].dsq) <= Level(d)
  {
    var l := Line(q);
    var a, b, c, n := UpTo(q, Perf), UpTo(q, Eff), UpTo(q, Gpu), UpTo(q, Npu);
    if i < a {
      assert l[i] == q.perf[i];
    } else if i < b {
      assert l[i] == q.eff[i - a];
    } else if i < c {
      assert l[i] == q.gpu[i - b];
    } else if i < n {
      assert l[i] == q.npu[i - c];
    } else {
      assert l[i] == q.fallback[i - n];
    }
  }

  /** One event and the task of rank i: a dispatch lowers the rank by one or moves the task at rank 0, an
      enqueue raises it by one exactly if it goes to a higher queue, and nothing else changes it. */
  lemma RankStep(s: State, ev: Event, i: nat)
    requires Routed(s.queues) && i < |Line(s.queues)|
    ensures var l, t := Line(s.queues), Step(s, ev);
            match ev
            case Dispatch =>
              t.moved == s.moved + [l[0]] && |Line(t.queues)| == |l| - 1 && (i > 0 ==> Line(t.queues)[i - 1] == l[i])
            case Enqueue(p) =>
              var j := if Level(MakeEntry(s, p).dsq) < Level(l[i].dsq) then i + 1 else i;
              j < |Line(t.queues)| && Line(t.queues)[j] == l[i] && t.moved == s.moved
            case _ => Line(t.queues) == l && t.moved == s.moved
  {
    hide MakeEntry;
    match ev
    case Dispatch => DispatchTakesHead(s);
    case Enqueue(p) =>
      EnqueueEntersLine(s, p);
      RankWithinUpTo(s.queues, MakeEntry(s, p).dsq, i);
    case _ =>
  }

  function Dispatches(es: seq<Event>): nat {
    if es == [] then 0 else (if es[0].Dispatch? then 1 else 0) + Dispatches(es[1..])
  }

  /** No event of the run enqueues above the given level. */
  ghost predicate NoHigherArrivals(s: State, es: seq<Event>, level: nat)
    decreases |es|
  {
    es == [] || ((es[0].Enqueue? ==> level <= Level(MakeEntry(s, es[0].p).dsq))
                 && NoHigherArrivals(Step(s, es[0]), es[1..], level))
  }

  lemma {:induction false} MovedGrows(s: State, es: seq<Event>)
    ensures s.moved <= Run(s, es).moved
    decreases |es|
  {
    hide MakeEntry;
    if es != [] {
      MovedGrows(Step(s, es[0]), es[1..]);
    }
  }

  /** Without higher arrivals, the task of rank i has rank i - d after d dispatches, and is moved by dispatch i + 1. */
  lemma {:induction false} LeavesAfterRank(s: State, es: seq<Event>, i: nat)
    requires Routed(s.queues) && i < |Line(s.queues)|
    requires NoHigherArrivals(s, es, Level(Line(s.queues)[i].dsq))
    ensures var t, x, d := Run(s, es), Line(s.queues)[i], Dispatches(es);
            if d <= i then i - d < |Line(t.queues)| && Line(t.queues)[i - d] == x
            else |t.moved| > |s.moved| + i && t.moved[|s.moved| + i] == x
    decreases |es|
  {
    hide MakeEntry, Routed, Line, Step, Level;
    if es != [] {
      var s' := Step(s, es[0]);
      RankStep(s, es[0], i);
      StepKeepsRouted(s, es[0]);
      MovedGrows(s', es[1..]);
      if !es[0].Dispatch? {
        LeavesAfterRank(s', es[1..], i);
      } else if i > 0 {
        LeavesAfterRank(s', es[1..], i - 1);
      }
    }
  }

  // ---------------------------------------------------------------- conservation

  /** The entries made by a run, in order. */
  function Log(s: State, es: seq<Event>): seq<Entry>
    decreases |es|
  {
    if es == [] then []
    else (if es[0].Enqueue? then [MakeEntry(s, es[0].p)] else []) + Log(Step(s, es[0]), es[1..])
  }

  function Count(l: seq<Entry>, p: Entry -> bool): nat {
    if l == [] then 0 else (if p(l[0]) then 1 else 0) + Count(l[1..], p)
  }

  lemma {:induction false} CountAppend(l: seq<Entry>, e: Entry, p: Entry -> bool)
    ensures Count(l + [e], p) == Count(l, p) + (if p(e) then 1 else 0)
  {
    if l == [] {
      assert l + [e] == [e];
    } else {
      CountAppend(l[1..], e, p);
      assert (l + [e])[1..] == l[1..] + [e];
    }
  }

  const TO_EFF := (e: Entry) => e.dsq == Eff
  const TO_NPU := (e: Entry) => e.dsq == Npu
  const AI_TO_PERF := (e: Entry) => e.dsq == Perf && e.taskClass < 3

  /** The books: every entry logged is in the line or moved, once; ids count the log; and the counters
      count what their names say, except that tasks_dispatched stays 0. */
  ghost predicate Balanced(s: State, log: seq<Entry>) {
    && multiset(Line(s.queues)) + multiset(s.moved) == multiset(log)
    && (forall i :: 0 <= i < |log| ==> log[i].id == i)
    && s.stats == Stats(|log|, 0, Count(log, AI_TO_PERF), Count(log, TO_NPU), Count(log, TO_EFF))
    && |log| == |Line(s.queues)| + |s.moved|
  }

  lemma InsertMultiset<T>(l: seq<T>, k: nat, e: T)
    requires k <= |l|
    ensures multiset(InsertAt(l, k, e)) == multiset(l) + multiset{e}
  {
    assert l == l[..k] + l[k..];
  }

  lemma CountersFollow(st: Stats, log: seq<Entry>, e: Entry)
    requires st == Stats(|log|, 0, Count(log, AI_TO_PERF), Count(log, TO_NPU), Count(log, TO_EFF))
    ensures UpdateStats(st, e.taskClass, e.dsq)
            == Stats(|log + [e]|, 0, Count(log + [e], AI_TO_PERF), Count(log + [e], TO_NPU), Count(log + [e], TO_EFF))
  {
    CountAppend(log, e, AI_TO_PERF);
    CountAppend(log, e, TO_NPU);
    CountAppend(log, e, TO_EFF);
    hide Count;
  }

  lemma EntryId(s: State, p: Task)
    ensures MakeEntry(s, p).id == s.stats.enqueued
  {
  }

  lemma InsertLength<T>(l: seq<T>, k: nat, e: T)
    requires k <= |l|
    ensures |InsertAt(l, k, e)| == |l| + 1
  {
  }

  lemma EnqueueKeepsBalanced(s: State, log: seq<Entry>, p: Task)
    requires Balanced(s, log)
    ensures Balanced(EnqueueStep(s, p), log + [MakeEntry(s, p)])
  {
    hide MakeEntry, Line, UpTo, Append, Count, InsertAt, UpdateStats;
    var e, l := MakeEntry(s, p), Line(s.queues);
    var k := UpTo(s.queues, e.dsq);
    EntryId(s, p);
    EnqueueEntersLine(s, p);
    InsertMultiset(l, k, e);
    assert multiset(log + [e]) == multiset(log) + multiset{e};
    InsertLength(l, k, e);
    CountersFollow(s.stats, log, e);
  }

  lemma DispatchKeepsBalanced(s: State, log: seq<Entry>)
    requires Balanced(s, log)
    ensures Balanced(DispatchStep(s), log)
  {
    DispatchTakesHead(s);
    var l := Line(s.queues);
    hide Line, DispatchStep;
    if l != [] {
      assert l == [l[0]] + l[1..];
    }
  }

  lemma {:induction false} RunKeepsBalanced(s: State, log: seq<Entry>, es: seq<Event>)
    requires Balanced(s, log)
    ensures Balanced(Run(s, es), log + Log(s, es))
    decreases |es|
  {
    hide MakeEntry, Line, EnqueueStep, DispatchStep, Count;
    if es == [] {
      assert log + [] == log;
    } else {
      var s' := Step(s, es[0]);
      match es[0]
      case Enqueue(p) =>
        EnqueueKeepsBalanced(s, log, p);
        RunKeepsBalanced(s', log + [MakeEntry(s, p)], es[1..]);
        assert log + [MakeEntry(s, p)] + Log(s', es[1..]) == log + Log(s, es);
      case Dispatch =>
        DispatchKeepsBalanced(s, log);
        RunKeepsBalanced(s', log, es[1..]);
        assert [] + Log(s', es[1..]) == Log(s', es[1..]);
      case _ =>
        RunKeepsBalanced(s', log, es[1..]);
        assert [] + Log(s', es[1..]) == Log(s', es[1..]);
    }
  }

  /** Conservation over every run from init. */
  lemma Conservation(es: seq<Event>)
    ensures Balanced(Run(INIT, es), Log(INIT, es))
  {
    assert Balanced(INIT, []);
    RunKeepsBalanced(INIT, [], es);
    assert [] + Log(INIT, es) == Log(INIT, es);
  }

  // ---------------------------------------------------------------- the daemon's classifier

  datatype Telemetry = Telemetry(pid: U32, cpuUtil: U32, memoryMb: U32, threads: U32, nice: U32, schedClass: U32)

  /** classify_heuristic; the constant -10 is converted to u32 in the comparison. */
  function ClassifyHeuristic(t: Telemetry): U32 {
    if t.schedClass == 5 || t.schedClass == 0 then BACKGROUND
    else if t.nice <= 0x1_0000_0000 - 10 && t.cpuUtil >= 40 then REALTIME_AI
    else if t.memoryMb >= 100 || t.threads >= 2 then BATCH_AI
    else if t.cpuUtil >= 20 then INTERACTIVE_AI
    else BACKGROUND
  }

  function SelectDevice(taskClass: U32): U32 {
    if taskClass == REALTIME_AI then PERF_CORE
    else if taskClass == INTERACTIVE_AI then AUTO
    else if taskClass == BATCH_AI then AUTO
    else if taskClass == BACKGROUND then EFF_CORE
    else AUTO
  }

  function EstimateTimeSlice(taskClass: U32): U64 {
    if taskClass == REALTIME_AI then 1_000_000
    else if taskClass == INTERACTIVE_AI then 2_000_000
    else if taskClass == BATCH_AI then 20_000_000
    else if taskClass == BACKGROUND then 50_000_000
    else 5_000_000
  }

  /** What the heuristic makes of a sample, in the source's numbers: policies 5 and 0 are system tasks; a niceness
      of at most 2^32 - 10 with 40% CPU is urgent, realtime, class 0; 100 MB or two threads are batch, class 2; 20%
      CPU is interactive, class 1; the rest is background, class 3, with the system tasks. */
  ghost predicate HeuristicClass(t: Telemetry, c: U32) {
    var sys := t.schedClass == 5 || t.schedClass == 0;
    var urgent := t.nice <= 0xFFFF_FFF6 && t.cpuUtil >= 40;
    var big := t.memoryMb >= 100 || t.threads >= 2;
    && c < 4
    && (c == 0 <==> !sys && urgent)
    && (c == 2 <==> !sys && !urgent && big)
    && (c == 1 <==> !sys && !urgent && !big && t.cpuUtil >= 20)
    && (c == 3 <==> sys || (!urgent && !big && t.cpuUtil < 20))
  }

  lemma HeuristicExactly(t: Telemetry, c: U32)
    ensures ClassifyHeuristic(t) == c <==> HeuristicClass(t, c)
  {
  }

  /** More memory or threads never takes a task out of the batch class, and makes an interactive or background
      task at most batch. */
  lemma BiggerIsBatch(t: Telemetry, u: Telemetry)
    requires t.memoryMb <= u.memoryMb && t.threads <= u.threads
    requires t.cpuUtil == u.cpuUtil && t.nice == u.nice && t.schedClass == u.schedClass
    ensures ClassifyHeuristic(t) == 2 ==> ClassifyHeuristic(u) == 2
    ensures ClassifyHeuristic(u) in {ClassifyHeuristic(t), 2}
    ensures ClassifyHeuristic(t) == 0 ==> ClassifyHeuristic(u) == 0
  {
  }

  /** What classify stores for a class at time ts. */
  function DecisionFor(pid: U32, taskClass: U32, ts: U64): Decision {
    Decision(pid, taskClass, SelectDevice(taskClass), 0, EstimateTimeSlice(taskClass) / 1000 % 0x1_0000_0000, 0, ts)
  }

  /** A decision for this sample at time ts: class, device (the performance cores for class 0, the efficiency
      cores for class 3, AUTO otherwise) and slice (1, 2, 20 and 50 ms). */
  ghost predicate Decides(t: Telemetry, ts: U64, d: Decision) {
    && d.pid == t.pid && HeuristicClass(t, d.taskClass)
    && d.preferredDevice == [0, 4, 4, 1][d.taskClass]
    && d.timeSliceUs == [1_000, 2_000, 20_000, 50_000][d.taskClass]
    && d.cpuAffinityMask == 0 && d.priorityBoost == 0 && d.tsDecision == ts
  }

  lemma DecidesExactly(t: Telemetry, ts: U64, d: Decision)
    ensures d == DecisionFor(t.pid, ClassifyHeuristic(t), ts) <==> Decides(t, ts, d)
  {
    HeuristicExactly(t, ClassifyHeuristic(t));
    HeuristicExactly(t, d.taskClass);
    hide ClassifyHeuristic;
  }

  /** struct ai_sched_decision as classify fills it in place. */
  class DecisionBuffer {
    var decision: Decision

    constructor (decision: Decision)
      ensures this.decision == decision
    {
      this.decision := decision;
    }
  }

  /** Classifier::classify, reading the monotonic clock as seconds and nanoseconds; a null pointer is an error
      and touches nothing. */
  method Classify(telemetry: Option<Telemetry>, buffer: DecisionBuffer?, sec: U64, nsec: U64) returns (ret: int)
    modifies buffer
    ensures ret == if telemetry.None? || buffer == null then -1 else 0
    ensures ret == -1 && buffer != null ==> buffer.decision == old(buffer.decision)
    ensures ret == 0 ==>
              Decides(telemetry.value, (sec * 1_000_000_000 + nsec) % 0x1_0000_0000_0000_0000, buffer.decision)
  {
    if telemetry.None? || buffer == null {
      return -1;
    }
    var t := telemetry.value;
    buffer.decision := Decision(0, 0, 0, 0, 0, 0, 0);
    buffer.decision := buffer.decision.(pid := t.pid);
    buffer.decision := buffer.decision.(tsDecision := (sec * 1_000_000_000 + nsec) % 0x1_0000_0000_0000_0000);
    buffer.decision := buffer.decision.(taskClass := ClassifyHeuristic(t));
    buffer.decision := buffer.decision.(preferredDevice := SelectDevice(buffer.decision.taskClass));
    var sliceUs := EstimateTimeSlice(buffer.decision.taskClass) / 1000 % 0x1_0000_0000;
    buffer.decision := buffer.decision.(timeSliceUs := sliceUs);
    buffer.decision := buffer.decision.(cpuAffinityMask := 0);
    buffer.decision := buffer.decision.(priorityBoost := 0);
    DecidesExactly(t, (sec * 1_000_000_000 + nsec) % 0x1_0000_0000_0000_0000, buffer.decision);
    ret := 0;
  }

  /** The realtime test is on the unsigned niceness: of the nice values -20..19 it excludes only -9..-1,
      so it differs from nice <= -10 exactly for the non-negative ones. */
  lemma RealtimeExactly(t: Telemetry, nice: int)
    requires -20 <= nice <= 19 && t.nice == nice % 0x1_0000_0000
    ensures ClassifyHeuristic(t) == REALTIME_AI
            <==> t.schedClass != 5 && t.schedClass != 0 && t.cpuUtil >= 40 && !(-9 <= nice <= -1)
    ensures (t.nice <= 0x1_0000_0000 - 10 <==> nice <= -10) <==> nice < 0
  {
    assert t.nice == if nice < 0 then nice + 0x1_0000_0000 else nice;
  }

  /** Made by classify from some telemetry. */
  ghost predicate Classified(d: Decision) {
    exists t: Telemetry :: Decides(t, d.tsDecision, d)
  }

  /** A classified decision goes, under every energy mode, where a task of its class without a preferred device
      belongs, and its slice comes back from microseconds as the classifier estimated it. */
  lemma RoutingAgrees(d: Decision, energy: U32)
    requires Classified(d)
    ensures Belongs(SelectDsq(d.taskClass, d.preferredDevice, energy), d.taskClass, 4, energy)
    ensures SelectDsq(d.taskClass, d.preferredDevice, energy) in {Perf, Eff}
    ensures d.taskClass < 4 && d.timeSliceUs * 1000 == EstimateTimeSlice(d.taskClass)
  {
    var t: Telemetry :| Decides(t, d.tsDecision, d);
    assert HeuristicClass(t, d.taskClass);
    hide HeuristicClass;
  }

  ghost predicate ClassifiedOnly(es: seq<Event>) {
    forall i :: 0 <= i < |es| && es[i].StoreDecision? ==> Classified(es[i].d)
  }

  /** An entry with what its enqueue saw: the energy mode, and the stored decision if there was one. */
  datatype Record = Record(entry: Entry, energy: U32, decision: Option<Decision>)

  function MakeRecord(s: State, p: Task): Record {
    Record(MakeEntry(s, p), s.energy, if p.tgid in s.decisions then Some(s.decisions[p.tgid]) else None)
  }

  /** The records of a run, in order. */
  function Records(s: State, es: seq<Event>): seq<Record>
    decreases |es|
  {
    if es == [] then []
    else (if es[0].Enqueue? then [MakeRecord(s, es[0].p)] else []) + Records(Step(s, es[0]), es[1..])
  }

  /** They are records of the entries that the books log. */
  lemma {:induction false} RecordsAreLog(s: State, es: seq<Event>)
    ensures |Records(s, es)| == |Log(s, es)|
    ensures forall i :: 0 <= i < |Records(s, es)| ==> Records(s, es)[i].entry == Log(s, es)[i]
    decreases |es|
  {
    hide MakeEntry, Step;
    if es != [] {
      RecordsAreLog(Step(s, es[0]), es[1..]);
    }
  }

  // ---------------------------------------------------------------- what an enqueue sees

  /** The decision stored last for a process, and the mode set last; the mode starts as 1, balanced. */
  function LastDecision(es: seq<Event>, pid: U32): Option<Decision> {
    if es == [] then None
    else
      var e := es[|es| - 1];
      if e.StoreDecision? && e.d.pid == pid then Some(e.d) else LastDecision(es[..|es| - 1], pid)
  }

  function LastMode(es: seq<Event>): U32 {
    if es == [] then 1
    else if es[|es| - 1].SetEnergy? then es[|es| - 1].mode
    else LastMode(es[..|es| - 1])
  }

  lemma {:induction false} RunSnoc(s: State, es: seq<Event>)
    requires es != []
    ensures Run(s, es) == Step(Run(s, es[..|es| - 1]), es[|es| - 1])
    decreases |es|
  {
    hide Step;
    var n := |es| - 1;
    if n > 0 {
      RunSnoc(Step(s, es[0]), es[1..]);
      assert es[1..][..n - 1] == es[..n][1..];
    }
  }

  lemma RunOfNone(s: State)
    ensures Run(s, []) == s
  {
  }

  /** After every run from init the maps hold what was written last, and time_slices is as it was created, all zero. */
  lemma {:induction false} MapsFollowHistory(es: seq<Event>, pid: U32)
    ensures var s := Run(INIT, es);
            && s.energy == LastMode(es)
            && (if pid in s.decisions then Some(s.decisions[pid]) else None) == LastDecision(es, pid)
            && s.timeSlices == [0, 0, 0, 0, 0]
    decreases |es|
  {
    hide Run, MakeEntry;
    if es == [] {
      assert Run(INIT, []) == INIT by { RunOfNone(INIT); }
    } else {
      RunSnoc(INIT, es);
      MapsFollowHistory(es[..|es| - 1], pid);
    }
  }

  /** What every enqueue after a run from init does: a decision stored for the process is followed in class, device
      and slice; without one the class is the fallback's, there is no device, and the slice is 0. */
  ghost predicate Followed(r: Record) {
    match r.decision
    case Some(d) =>
      && d.pid == r.entry.task.tgid && r.entry.taskClass == d.taskClass && r.entry.sliceNs == d.timeSliceUs * 1000
      && Belongs(r.entry.dsq, d.taskClass, d.preferredDevice, r.energy)
    case None =>
      && r.entry.taskClass == ClassifyFallback(r.entry.task) && r.entry.sliceNs == 0
      && Belongs(r.entry.dsq, r.entry.taskClass, 4, r.energy)
  }

  lemma {:induction false} LastDecisionIsFor(es: seq<Event>, pid: U32)
    ensures LastDecision(es, pid).Some? ==> LastDecision(es, pid).value.pid == pid
  {
    if es != [] {
      LastDecisionIsFor(es[..|es| - 1], pid);
    }
  }

  lemma EnqueueFollows(es: seq<Event>, p: Task)
    ensures var r := MakeRecord(Run(INIT, es), p);
            r.entry.task == p && r.energy == LastMode(es) && r.decision == LastDecision(es, p.tgid) && Followed(r)
  {
    hide Run, SelectDsq, ClassifyFallback, Belongs;
    var s := Run(INIT, es);
    var r := MakeRecord(s, p);
    MapsFollowHistory(es, p.tgid);
    LastDecisionIsFor(es, p.tgid);
    if r.decision.Some? {
      var d := r.decision.value;
      SelectDsqExactly(d.taskClass, d.preferredDevice, s.energy, r.entry.dsq);
    } else {
      SelectDsqExactly(r.entry.taskClass, 4, s.energy, r.entry.dsq);
    }
  }

  lemma {:induction false} RecordsSnoc(s: State, es: seq<Event>)
    requires es != []
    ensures var e := es[|es| - 1];
            Records(s, es) == Records(s, es[..|es| - 1])
                              + if e.Enqueue? then [MakeRecord(Run(s, es[..|es| - 1]), e.p)] else []
    decreases |es|
  {
    hide Step, MakeRecord;
    var n := |es| - 1;
    if n > 0 {
      RecordsSnoc(Step(s, es[0]), es[1..]);
      assert es[1..][..n - 1] == es[..n][1..];
    } else {
      assert es[1..] == [] && es[..0] == [];
    }
  }

  lemma NoRecords()
    ensures Records(INIT, []) == []
  {
  }

  /** Over every run from init, whoever writes the maps: every entry follows its decision, or the fallback. */
  lemma {:induction false} RunFollows(es: seq<Event>)
    ensures forall r <- Records(INIT, es) :: Followed(r)
    decreases |es|
  {
    hide Followed, MakeRecord, Run, Records;
    if es == [] {
      NoRecords();
    } else {
      var n := |es| - 1;
      RecordsSnoc(INIT, es);
      RunFollows(es[..n]);
      if es[n].Enqueue? {
        EnqueueFollows(es[..n], es[n].p);
      }
    }
  }

  lemma {:induction false} ModeUnset(es: seq<Event>)
    requires forall e <- es :: !e.SetEnergy?
    ensures LastMode(es) == 1
  {
    if es != [] {
      assert es[|es| - 1] in es;
      ModeUnset(es[..|es| - 1]);
    }
  }

  /** Until an energy mode is set, a batch task without a preferred device goes to DSQ_PERF. */
  lemma BatchRunsOnPerfUntilSet(es: seq<Event>, p: Task)
    requires forall e <- es :: !e.SetEnergy?
    ensures var r := MakeRecord(Run(INIT, es), p);
            r.entry.taskClass == 2 && (r.decision.Some? ==> r.decision.value.preferredDevice >= 4) ==>
              r.entry.dsq == Perf
  {
    hide Run, MakeRecord;
    EnqueueFollows(es, p);
    ModeUnset(es);
  }

  // ---------------------------------------------------------------- fed by the classifier

  /** Every stored decision is classified, and the accelerator queues and time_slices are as at the start. */
  ghost predicate Agreeing(s: State) {
    && (forall pid <- s.decisions :: Classified(s.decisions[pid]))
    && s.queues.gpu == [] && s.queues.npu == [] && s.timeSlices == [0, 0, 0, 0, 0]
  }

  /** The entry went where AUTO would have sent its class under the mode of the moment, past the accelerator
      queues, with a slice of 1, 2, 20 or 50 ms by its class, or of 0 without a decision. */
  ghost predicate AgreeingRecord(r: Record) {
    && Belongs(r.entry.dsq, r.entry.taskClass, 4, r.energy)
    && !r.entry.dsq.Gpu? && !r.entry.dsq.Npu?
    && (r.decision.None? ==> r.entry.sliceNs == 0)
    && (r.decision.Some? ==>
          r.entry.taskClass < 4 && r.entry.sliceNs == [1, 2, 20, 50][r.entry.taskClass] * 1_000_000)
  }

  lemma UndecidedSliceIsZero(s: State, p: Task)
    requires s.timeSlices == [0, 0, 0, 0, 0] && p.tgid !in s.decisions
    ensures MakeEntry(s, p).sliceNs == 0
  {
    var key := ClassifyFallback(p) % 5;
    assert s.timeSlices[key] == 0;
    hide ClassifyFallback, SelectDsq;
  }

  lemma EntryAgrees(s: State, p: Task)
    requires Agreeing(s)
    ensures AgreeingRecord(MakeRecord(s, p))
  {
    if p.tgid in s.decisions {
      var d := s.decisions[p.tgid];
      RoutingAgrees(d, s.energy);
      hide SelectDsq, Belongs, Classified;
    } else {
      UndecidedSliceIsZero(s, p);
      var c := ClassifyFallback(p);
      SelectDsqExactly(c, 4, s.energy, SelectDsq(c, 4, s.energy));
      hide ClassifyFallback;
    }
  }

  lemma NotAccelerated(r: Record)
    requires AgreeingRecord(r)
    ensures !r.entry.dsq.Gpu? && !r.entry.dsq.Npu?
  {
  }

  lemma {:induction false} AgreeingRun(s: State, es: seq<Event>)
    requires Agreeing(s) && ClassifiedOnly(es)
    ensures Agreeing(Run(s, es)) && forall r <- Records(s, es) :: AgreeingRecord(r)
    decreases |es|
  {
    hide MakeEntry, SelectDsq, ClassifyFallback, Classified, AgreeingRecord;
    if es != [] {
      if es[0].Enqueue? {
        EntryAgrees(s, es[0].p);
        NotAccelerated(MakeRecord(s, es[0].p));
      }
      AgreeingRun(Step(s, es[0]), es[1..]);
    }
  }

  /** Over every run from init fed by the classifier, under any energy modes, every record agrees, and DSQ_GPU and
      DSQ_NPU are empty in every reachable state. */
  lemma RunAgrees(es: seq<Event>)
    requires ClassifiedOnly(es)
    ensures Run(INIT, es).queues.gpu == [] && Run(INIT, es).queues.npu == []
    ensures forall r <- Records(INIT, es) :: AgreeingRecord(r)
  {
    hide Classified, AgreeingRecord;
    AgreeingRun(INIT, es);
  }
}
