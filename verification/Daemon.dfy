/**
  The daemon's pipeline of aie_daemon.cpp: the telemetry thread classifies
  samples in batches and appends decisions to a shared vector; the decision
  thread writes that vector out and then clears it.

  The threads interleave in atomic steps: each push_back is one step, and
  push_decisions is a write step followed by a clear step.
 */
module Daemon {
  type Sample = nat

  /** A decision for a sample; id counts the decisions pushed. */
  datatype Decision = Decision(id: nat, sample: Sample)

  /** The telemetry thread is at its loop head, past the test of running_ and waiting for a sample, in
      classify_pending_tasks with the samples from index next on still to do, or has returned. */
  datatype TelemetryPc = LoopHead | Reading | Classifying(next: nat) | TelemetryDone

  /** The decision thread is at its loop head, past the test of running_ and entering push_decisions,
      between the write of n decisions and the clear, or has returned. */
  datatype DecisionPc = Ready | Pushing | Written(ok: bool, n: nat) | DecisionDone

  /** The shared fields and thread positions, then four histories: samples accepted, samples classified,
      decisions pushed, and decisions written to the kernel. */
  datatype State = State(
    running: bool, pendingTelemetry: seq<Sample>, pendingDecisions: seq<Decision>,
    telemetryPc: TelemetryPc, decisionPc: DecisionPc,
    accepted: seq<Sample>, classified: seq<Sample>, pushed: seq<Decision>, written: seq<Decision>)

  datatype Step =
    | TelemetryLoops
    | ReadSample(x: Sample)
    | ReadNothing
    | ClassifyOne(classifyOk: bool)
    | ClearTelemetry
    | DecisionLoops
    | NothingToPush
    | Write(writeOk: bool)
    | ClearDecisions
    | Shutdown
    | TelemetryExits
    | DecisionExits

  const BATCH: nat := 10

  /** A step is possible where its thread stands; running_ is tested at the loop heads only, so a sample
      may still arrive and a write still happen after a shutdown. */
  predicate Enabled(s: State, t: Step) {
    match t
    case TelemetryLoops => s.telemetryPc.LoopHead? && s.running
    case ReadSample(_) => s.telemetryPc.Reading?
    case ReadNothing => s.telemetryPc.Reading?
    case ClassifyOne(_) => s.telemetryPc.Classifying? && s.telemetryPc.next < |s.pendingTelemetry|
    case ClearTelemetry => s.telemetryPc.Classifying? && s.telemetryPc.next >= |s.pendingTelemetry|
    case DecisionLoops => s.decisionPc.Ready? && s.running
    case NothingToPush => s.decisionPc.Pushing? && s.pendingDecisions == []
    case Write(_) => s.decisionPc.Pushing? && s.pendingDecisions != []
    case ClearDecisions => s.decisionPc.Written?
    case Shutdown => true
    case TelemetryExits => s.telemetryPc.LoopHead? && !s.running
    case DecisionExits => s.decisionPc.Ready? && !s.running
  }

  function Next(s: State, t: Step): State
    requires Enabled(s, t)
  {
    match t
    case TelemetryLoops => s.(telemetryPc := Reading)
    case ReadSample(x) =>
      var p := s.pendingTelemetry + [x];
      s.(pendingTelemetry := p, accepted := s.accepted + [x],
         telemetryPc := if |p| >= BATCH then Classifying(0) else LoopHead)
    case ReadNothing => s.(telemetryPc := LoopHead)
    case ClassifyOne(ok) =>
      var x := s.pendingTelemetry[s.telemetryPc.next];
      var c := s.(telemetryPc := Classifying(s.telemetryPc.next + 1), classified := s.classified + [x]);
      var d := Decision(|s.pushed|, x);
      if ok then c.(pendingDecisions := s.pendingDecisions + [d], pushed := s.pushed + [d]) else c
    case ClearTelemetry => s.(pendingTelemetry := [], telemetryPc := LoopHead)
    case DecisionLoops => s.(decisionPc := Pushing)
    case NothingToPush => s.(decisionPc := Ready)
    case Write(ok) =>
      s.(decisionPc := Written(ok, |s.pendingDecisions|),
         written := if ok then s.written + s.pendingDecisions else s.written)
    case ClearDecisions => s.(pendingDecisions := [], decisionPc := Ready)
    case Shutdown => s.(running := false)
    case TelemetryExits => s.(telemetryPc := TelemetryDone)
    case DecisionExits => s.(decisionPc := DecisionDone)
  }

  const INIT := State(true, [], [], LoopHead, Ready, [], [], [], [])

  ghost predicate Runs(s: State, ts: seq<Step>)
    decreases |ts|
  {
    ts == [] || (Enabled(s, ts[0]) && Runs(Next(s, ts[0]), ts[1..]))
  }

  function Run(s: State, ts: seq<Step>): State
    requires Runs(s, ts)
    decreases |ts|
  {
    if ts == [] then s else Run(Next(s, ts[0]), ts[1..])
  }

  // ---------------------------------------------------------------- the steps, updating shared state in place

  class AieDaemon {
    var running: bool
    var pendingTelemetry: seq<Sample>
    var pendingDecisions: seq<Decision>
    var telemetryPc: TelemetryPc
    var decisionPc: DecisionPc
    ghost var accepted: seq<Sample>
    ghost var classified: seq<Sample>
    var pushed: seq<Decision>
    ghost var written: seq<Decision>

    ghost function Abstract(): State
      reads this
    {
      State(running, pendingTelemetry, pendingDecisions, telemetryPc, decisionPc, accepted, classified, pushed, written)
    }

    /** After a successful init. */
    constructor ()
      ensures Abstract() == INIT
    {
      running, pendingTelemetry, pendingDecisions := true, [], [];
      telemetryPc, decisionPc := LoopHead, Ready;
      accepted, classified, pushed, written := [], [], [], [];
    }

    /** telemetry_worker: the loop test. */
    method TelemetryLoopTest()
      requires telemetryPc.LoopHead?
      modifies this`telemetryPc
      ensures Abstract() == Next(old(Abstract()), if running then TelemetryLoops else TelemetryExits)
    {
      telemetryPc := if running then Reading else TelemetryDone;
    }

    /** telemetry_worker: a sample is read and appended; a full batch starts classification. */
    method AcceptSample(x: Sample)
      requires Enabled(Abstract(), ReadSample(x))
      modifies this
      ensures Abstract() == Next(old(Abstract()), ReadSample(x))
    {
      pendingTelemetry, accepted := pendingTelemetry + [x], accepted + [x];
      if |pendingTelemetry| >= BATCH {
        telemetryPc := Classifying(0);
      } else {
        telemetryPc := LoopHead;
      }
    }

    /** classify_pending_tasks: one sample; classifyOk says whether classify returned 0. */
    method ClassifyNext(classifyOk: bool)
      requires Enabled(Abstract(), ClassifyOne(classifyOk))
      modifies this
      ensures Abstract() == Next(old(Abstract()), ClassifyOne(classifyOk))
    {
      var x := pendingTelemetry[telemetryPc.next];
      classified := classified + [x];
      if classifyOk {
        var d := Decision(|pushed|, x);
        pendingDecisions, pushed := pendingDecisions + [d], pushed + [d];
      }
      telemetryPc := Classifying(telemetryPc.next + 1);
    }

    /** telemetry_worker: a timeout or a read error. */
    method NoSample()
      requires Enabled(Abstract(), ReadNothing)
      modifies this`telemetryPc
      ensures Abstract() == Next(old(Abstract()), ReadNothing)
    {
      telemetryPc := LoopHead;
    }

    method FinishClassification()
      requires Enabled(Abstract(), ClearTelemetry)
      modifies this
      ensures Abstract() == Next(old(Abstract()), ClearTelemetry)
    {
      pendingTelemetry, telemetryPc := [], LoopHead;
    }

    /** decision_worker: the loop test. */
    method DecisionLoopTest()
      requires decisionPc.Ready?
      modifies this`decisionPc
      ensures Abstract() == Next(old(Abstract()), if running then DecisionLoops else DecisionExits)
    {
      decisionPc := if running then Pushing else DecisionDone;
    }

    /** push_decisions with an empty vector. */
    method PushNothing()
      requires Enabled(Abstract(), NothingToPush)
      modifies this`decisionPc
      ensures Abstract() == Next(old(Abstract()), NothingToPush)
    {
      decisionPc := Ready;
    }

    /** push_decisions, first half; writeOk says whether write_decisions returned 0. */
    method WriteDecisions(writeOk: bool)
      requires Enabled(Abstract(), Write(writeOk))
      modifies this
      ensures Abstract() == Next(old(Abstract()), Write(writeOk))
    {
      decisionPc := Written(writeOk, |pendingDecisions|);
      if writeOk {
        written := written + pendingDecisions;
      }
    }

    /** push_decisions, second half: the vector is cleared whatever happened since. */
    method ClearPending()
      requires Enabled(Abstract(), ClearDecisions)
      modifies this
      ensures Abstract() == Next(old(Abstract()), ClearDecisions)
    {
      pendingDecisions, decisionPc := [], Ready;
    }

    method RequestShutdown()
      modifies this`running
      ensures !running && Abstract() == Next(old(Abstract()), Shutdown)
    {
      running := false;
    }
  }

  // ---------------------------------------------------------------- invariants

  /** The first decision the pending vector can still deliver: a successful write has delivered n. */
  function Delivered(s: State): nat {
    if s.decisionPc.Written? && s.decisionPc.ok then s.decisionPc.n else 0
  }

  /** The part of the pending vector not yet written. */
  function Unwritten(s: State): seq<Decision>
    requires Delivered(s) <= |s.pendingDecisions|
  {
    s.pendingDecisions[Delivered(s)..]
  }

  ghost predicate Numbered(ds: seq<Decision>) {
    forall i :: 0 <= i < |ds| ==> ds[i].id == i
  }

  /** An in-order selection from ds without repetition, entirely below index bound. */
  ghost predicate SelectedBelow(w: seq<Decision>, ds: seq<Decision>, bound: nat)
    requires bound <= |ds|
  {
    && (forall i :: 0 <= i < |w| ==> w[i].id < bound && w[i] == ds[w[i].id])
    && (forall i, j :: 0 <= i < j < |w| ==> w[i].id < w[j].id)
  }

  ghost predicate IsSuffix<T>(p: seq<T>, l: seq<T>) {
    |p| <= |l| && p == l[|l| - |p|..]
  }

  ghost predicate DecisionInv(s: State) {
    && Numbered(s.pushed)
    && IsSuffix(s.pendingDecisions, s.pushed)
    && Delivered(s) <= |s.pendingDecisions|
    && (s.decisionPc.Written? ==> s.decisionPc.n <= |s.pendingDecisions|)
    && SelectedBelow(s.written, s.pushed, |s.pushed| - |Unwritten(s)|)
  }

  /** Fewer than ten samples wait for a batch, a batch has exactly ten, and none is lost. */
  ghost predicate TelemetryInv(s: State) {
    && (s.telemetryPc.Classifying? ==> s.telemetryPc.next <= |s.pendingTelemetry| == 10)
    && (!s.telemetryPc.Classifying? ==> |s.pendingTelemetry| < 10)
    && s.accepted == s.classified + s.pendingTelemetry[if s.telemetryPc.Classifying? then s.telemetryPc.next else 0..]
  }

  lemma StepKeepsTelemetryInv(s: State, t: Step)
    requires TelemetryInv(s) && Enabled(s, t)
    ensures TelemetryInv(Next(s, t))
  {
    match t
    case ReadSample(x) =>
      assert s.accepted + [x] == s.classified + (s.pendingTelemetry + [x]);
    case ClassifyOne(_) =>
      var p, k := s.pendingTelemetry, s.telemetryPc.next;
      assert p[k..] == [p[k]] + p[k + 1..];
      assert s.classified + p[k..] == (s.classified + [p[k]]) + p[k + 1..];
    case _ =>
  }

  lemma SelectedExtend(w: seq<Decision>, ds: seq<Decision>, lo: nat, hi: nat)
    requires lo <= hi <= |ds| && Numbered(ds) && SelectedBelow(w, ds, lo)
    ensures SelectedBelow(w + ds[lo..hi], ds, hi)
  {
  }

  lemma SelectedGrow(w: seq<Decision>, ds: seq<Decision>, d: Decision, lo: nat, hi: nat)
    requires lo <= |ds| && lo <= hi <= |ds| + 1 && SelectedBelow(w, ds, lo)
    ensures SelectedBelow(w, ds + [d], hi)
  {
  }

  lemma SuffixAppend<T>(p: seq<T>, l: seq<T>, x: T)
    requires IsSuffix(p, l)
    ensures IsSuffix(p + [x], l + [x])
  {
    assert l[|l| - |p|..] + [x] == (l + [x])[|l| - |p|..];
  }

  lemma SuffixLength<T>(p: seq<T>, l: seq<T>)
    requires IsSuffix(p, l)
    ensures |p| <= |l|
  {
  }

  lemma ClassifyKeepsDecisionInv(s: State, ok: bool)
    requires DecisionInv(s) && Enabled(s, ClassifyOne(ok))
    ensures DecisionInv(Next(s, ClassifyOne(ok)))
  {
    hide SelectedBelow, IsSuffix;
    assert |s.pendingDecisions| <= |s.pushed| by { SuffixLength(s.pendingDecisions, s.pushed); }
    if ok {
      var d, lo := Decision(|s.pushed|, s.pendingTelemetry[s.telemetryPc.next]), |s.pushed| - |Unwritten(s)|;
      SuffixAppend(s.pendingDecisions, s.pushed, d);
      SelectedGrow(s.written, s.pushed, d, lo, lo);
    }
  }

  lemma WriteKeepsDecisionInv(s: State, ok: bool)
    requires DecisionInv(s) && Enabled(s, Write(ok))
    ensures DecisionInv(Next(s, Write(ok)))
  {
    hide SelectedBelow;
    if ok {
      var lo := |s.pushed| - |s.pendingDecisions|;
      SelectedExtend(s.written, s.pushed, lo, |s.pushed|);
      assert s.pushed[lo..|s.pushed|] == s.pendingDecisions;
    }
  }

  lemma SelectedWiden(w: seq<Decision>, ds: seq<Decision>, lo: nat, hi: nat)
    requires lo <= hi <= |ds| && SelectedBelow(w, ds, lo)
    ensures SelectedBelow(w, ds, hi)
  {
  }

  lemma ClearKeepsDecisionInv(s: State)
    requires DecisionInv(s) && Enabled(s, ClearDecisions)
    ensures DecisionInv(Next(s, ClearDecisions))
  {
    hide SelectedBelow;
    SelectedWiden(s.written, s.pushed, |s.pushed| - |Unwritten(s)|, |s.pushed|);
  }

  lemma StepKeepsDecisionInv(s: State, t: Step)
    requires DecisionInv(s) && Enabled(s, t)
    ensures DecisionInv(Next(s, t))
  {
    hide SelectedBelow, IsSuffix, Numbered;
    match t
    case ClassifyOne(ok) => ClassifyKeepsDecisionInv(s, ok);
    case Write(ok) => WriteKeepsDecisionInv(s, ok);
    case ClearDecisions => ClearKeepsDecisionInv(s);
    case _ =>
  }

  /** Over every interleaving: what has been written is an in-order, duplicate-free selection of the
      decisions pushed; fewer than ten samples pend at each loop head; and the samples accepted are those
      classified followed by those pending. */
  lemma {:induction false} RunKeepsInv(s: State, ts: seq<Step>)
    requires DecisionInv(s) && TelemetryInv(s) && Runs(s, ts)
    ensures DecisionInv(Run(s, ts)) && TelemetryInv(Run(s, ts))
    decreases |ts|
  {
    hide DecisionInv, TelemetryInv, Next, Enabled;
    if ts != [] {
      StepKeepsDecisionInv(s, ts[0]);
      StepKeepsTelemetryInv(s, ts[0]);
      RunKeepsInv(Next(s, ts[0]), ts[1..]);
    }
  }

  // ---------------------------------------------------------------- shutdown

  /** A thread returns only once running_ is false. */
  lemma {:induction false} ReturnsOnlyAfterShutdown(s: State, ts: seq<Step>)
    requires Runs(s, ts) && (s.running ==> !s.telemetryPc.TelemetryDone? && !s.decisionPc.DecisionDone?)
    ensures var r := Run(s, ts); r.running ==> !r.telemetryPc.TelemetryDone? && !r.decisionPc.DecisionDone?
    decreases |ts|
  {
    if ts != [] {
      ReturnsOnlyAfterShutdown(Next(s, ts[0]), ts[1..]);
    }
  }

  /** A thread that has passed its loop test goes on: from every state a shutdown still lets the sample arrive that
      the telemetry thread waits for, and the write happen that the decision thread has begun. */
  lemma GoesOnAfterShutdown(s: State, x: Sample, ok: bool)
    ensures Enabled(s, Shutdown)
    ensures var r := Next(s, Shutdown);
            && !r.running && r.pendingTelemetry == s.pendingTelemetry && r.pendingDecisions == s.pendingDecisions
            && (s.telemetryPc.Reading? ==>
                  Enabled(r, ReadSample(x)) && Next(r, ReadSample(x)).accepted == s.accepted + [x])
            && (s.decisionPc.Pushing? && s.pendingDecisions != [] ==>
                  Enabled(r, Write(ok)) && (ok ==> Next(r, Write(ok)).written == s.written + s.pendingDecisions))
  {
  }

  /** Steps the telemetry thread can still take once running_ is false: at most one more sample and its batch. */
  function TelemetryLeft(s: State): nat
    requires TelemetryInv(s)
  {
    match s.telemetryPc
    case LoopHead => 1
    case Reading => 13
    case Classifying(next) => 12 - next
    case TelemetryDone => 0
  }

  /** And the decision thread: at most one more write and its clear. */
  function DecisionLeft(s: State): nat {
    match s.decisionPc
    case Ready => 1
    case Pushing => 3
    case Written(_, _) => 2
    case DecisionDone => 0
  }

  lemma StepAfterShutdown(s: State, t: Step)
    requires TelemetryInv(s) && Enabled(s, t) && !s.running && !t.Shutdown?
    ensures TelemetryInv(Next(s, t)) && !Next(s, t).running
    ensures TelemetryLeft(Next(s, t)) + DecisionLeft(Next(s, t)) < TelemetryLeft(s) + DecisionLeft(s)
  {
    StepKeepsTelemetryInv(s, t);
  }

  lemma AtMostSixteen(s: State)
    requires TelemetryInv(s)
    ensures TelemetryLeft(s) + DecisionLeft(s) <= 16
  {
  }

  lemma StuckIsDone(s: State)
    requires TelemetryInv(s) && !s.running
    ensures (forall t :: Enabled(s, t) ==> t.Shutdown?) <==> s.telemetryPc.TelemetryDone? && s.decisionPc.DecisionDone?
    ensures TelemetryLeft(s) + DecisionLeft(s) <= 16
  {
    assert s.telemetryPc.LoopHead? ==> Enabled(s, TelemetryExits);
    assert s.telemetryPc.Reading? ==> Enabled(s, ReadNothing);
    assert s.telemetryPc.Classifying? ==> Enabled(s, ClassifyOne(true)) || Enabled(s, ClearTelemetry);
    assert s.decisionPc.Ready? ==> Enabled(s, DecisionExits);
    assert s.decisionPc.Pushing? ==> Enabled(s, NothingToPush) || Enabled(s, Write(true));
    assert s.decisionPc.Written? ==> Enabled(s, ClearDecisions);
  }

  /** A shutdown ends both threads: whatever they do, they take at most 16 more steps, and when neither can take
      another both have returned. */
  lemma {:induction false} StopsAfterShutdown(s: State, ts: seq<Step>)
    requires TelemetryInv(s) && !s.running && Runs(s, ts) && forall t <- ts :: !t.Shutdown?
    ensures TelemetryInv(Run(s, ts))
    ensures |ts| + TelemetryLeft(Run(s, ts)) + DecisionLeft(Run(s, ts)) <= TelemetryLeft(s) + DecisionLeft(s) <= 16
    ensures (forall t :: Enabled(Run(s, ts), t) ==> t.Shutdown?)
            <==> Run(s, ts).telemetryPc.TelemetryDone? && Run(s, ts).decisionPc.DecisionDone?
    decreases |ts|
  {
    hide TelemetryInv;
    if ts == [] {
      StuckIsDone(s);
    } else {
      assert ts[0] in ts;
      StepAfterShutdown(s, ts[0]);
      StopsAfterShutdown(Next(s, ts[0]), ts[1..]);
      AtMostSixteen(s);
    }
  }

  // ---------------------------------------------------------------- what gets lost

  /** How many pushed decisions are neither written nor still waiting to be. */
  function Missing(s: State): int
    requires Delivered(s) <= |s.pendingDecisions|
  {
    |s.pushed| - |s.written| - |Unwritten(s)|
  }

  /** A clear that drops decisions: the write failed, or a push fell between the write and the clear. */
  predicate DropsAt(s: State, t: Step) {
    t.ClearDecisions? && s.decisionPc.Written? && (!s.decisionPc.ok || |s.pendingDecisions| > s.decisionPc.n)
  }

  ghost predicate DropsSomewhere(s: State, ts: seq<Step>)
    requires Runs(s, ts)
    decreases |ts|
  {
    ts != [] && (DropsAt(s, ts[0]) || DropsSomewhere(Next(s, ts[0]), ts[1..]))
  }

  lemma MissingStep(s: State, t: Step)
    requires Delivered(s) <= |s.pendingDecisions| && Enabled(s, t)
    requires s.decisionPc.Written? ==> s.pendingDecisions != [] && s.decisionPc.n <= |s.pendingDecisions|
    ensures Delivered(Next(s, t)) <= |Next(s, t).pendingDecisions|
    ensures Next(s, t).decisionPc.Written? ==> Next(s, t).pendingDecisions != []
    ensures if DropsAt(s, t) then Missing(Next(s, t)) > Missing(s) else Missing(Next(s, t)) == Missing(s)
  {
  }

  lemma WrittenBounds(s: State)
    requires DecisionInv(s)
    ensures Delivered(s) <= |s.pendingDecisions|
    ensures s.decisionPc.Written? ==> s.decisionPc.n <= |s.pendingDecisions|
  {
  }

  lemma {:induction false} MissingExactly(s: State, ts: seq<Step>)
    requires DecisionInv(s) && Runs(s, ts)
    requires s.decisionPc.Written? ==> s.pendingDecisions != []
    ensures DecisionInv(Run(s, ts)) && Delivered(Run(s, ts)) <= |Run(s, ts).pendingDecisions|
    ensures Delivered(s) <= |s.pendingDecisions|
    ensures if DropsSomewhere(s, ts) then Missing(Run(s, ts)) > Missing(s) else Missing(Run(s, ts)) == Missing(s)
    decreases |ts|
  {
    hide DecisionInv, Next, Enabled, DropsAt, Missing;
    WrittenBounds(s);
    if ts != [] {
      MissingStep(s, ts[0]);
      StepKeepsDecisionInv(s, ts[0]);
      MissingExactly(Next(s, ts[0]), ts[1..]);
    }
  }

  lemma {:induction false} AtLeastIndex(w: seq<Decision>, ds: seq<Decision>, bound: nat, i: nat)
    requires bound <= |ds| && SelectedBelow(w, ds, bound) && i < |w|
    ensures w[i].id >= i
  {
    if i > 0 {
      AtLeastIndex(w, ds, bound, i - 1);
    }
  }

  lemma {:induction false} RoomAbove(w: seq<Decision>, ds: seq<Decision>, bound: nat, i: nat)
    requires bound <= |ds| && SelectedBelow(w, ds, bound) && i < |w|
    ensures w[i].id <= bound - (|w| - i)
    decreases |w| - i
  {
    if i + 1 < |w| {
      RoomAbove(w, ds, bound, i + 1);
    }
  }

  /** bound selections below bound are all of them. */
  lemma {:induction false} FullSelection(w: seq<Decision>, ds: seq<Decision>, bound: nat)
    requires bound <= |ds| && SelectedBelow(w, ds, bound) && |w| == bound
    ensures w == ds[..bound]
  {
    forall i | 0 <= i < |w|
      ensures w[i].id == i
    {
      AtLeastIndex(w, ds, bound, i);
      RoomAbove(w, ds, bound, i);
    }
  }

  lemma LosslessState(s: State)
    requires DecisionInv(s)
    ensures s.written + Unwritten(s) == s.pushed <==> Missing(s) == 0
  {
    if Missing(s) == 0 {
      var bound := |s.pushed| - |Unwritten(s)|;
      FullSelection(s.written, s.pushed, bound);
      assert Unwritten(s) == s.pushed[bound..];
      assert s.pushed == s.pushed[..bound] + s.pushed[bound..];
    } else {
      assert |s.written + Unwritten(s)| == |s.written| + |Unwritten(s)|;
    }
  }

  /** From init, the decisions written are a prefix of those pushed and what is left of the pending vector
      is the rest, exactly if no clear ever dropped a decision. */
  lemma LosslessExactly(ts: seq<Step>)
    requires Runs(INIT, ts)
    ensures var s := Run(INIT, ts);
            Delivered(s) <= |s.pendingDecisions|
            && (s.written + Unwritten(s) == s.pushed <==> !DropsSomewhere(INIT, ts))
  {
    assert DecisionInv(INIT) && Missing(INIT) == 0;
    MissingExactly(INIT, ts);
    LosslessState(Run(INIT, ts));
  }

  // ---------------------------------------------------------------- nothing is invented

  function Samples(ds: seq<Decision>): (r: seq<Sample>)
    ensures |r| == |ds|
  {
    if ds == [] then [] else Samples(ds[..|ds| - 1]) + [ds[|ds| - 1].sample]
  }

  /** What classify returned in a run, in order: true where it succeeded. */
  function Outcomes(ts: seq<Step>): seq<bool> {
    if ts == [] then []
    else Outcomes(ts[..|ts| - 1]) + if ts[|ts| - 1].ClassifyOne? then [ts[|ts| - 1].classifyOk] else []
  }

  /** The elements whose flag is set, in order. */
  function Kept(xs: seq<Sample>, oks: seq<bool>): (r: seq<Sample>)
    requires |xs| == |oks|
    ensures |r| <= |xs|
    ensures |r| == |xs| <==> forall i :: 0 <= i < |oks| ==> oks[i]
    ensures (forall i :: 0 <= i < |oks| ==> oks[i]) ==> r == xs
  {
    if xs == [] then []
    else
      var n := |xs| - 1;
      Kept(xs[..n], oks[..n]) + if oks[n] then [xs[n]] else []
  }

  lemma {:induction false} RunSnoc(s: State, ts: seq<Step>)
    requires Runs(s, ts) && ts != []
    ensures var n := |ts| - 1;
            Runs(s, ts[..n]) && Enabled(Run(s, ts[..n]), ts[n]) && Run(s, ts) == Next(Run(s, ts[..n]), ts[n])
    decreases |ts|
  {
    hide Enabled, Next;
    var n := |ts| - 1;
    if n > 0 {
      RunSnoc(Next(s, ts[0]), ts[1..]);
      assert ts[1..][..n - 1] == ts[..n][1..];
    }
  }

  lemma KeptSnoc(xs: seq<Sample>, oks: seq<bool>, x: Sample, ok: bool)
    requires |xs| == |oks|
    ensures Kept(xs + [x], oks + [ok]) == Kept(xs, oks) + if ok then [x] else []
  {
    assert (xs + [x])[..|xs|] == xs && (oks + [ok])[..|oks|] == oks;
  }

  lemma SamplesSnoc(ds: seq<Decision>, d: Decision)
    ensures Samples(ds + [d]) == Samples(ds) + [d.sample]
  {
    assert (ds + [d])[..|ds|] == ds;
  }

  lemma ClassifyAdds(s: State, t: Step, oks: seq<bool>)
    requires Enabled(s, t) && |s.classified| == |oks| && Samples(s.pushed) == Kept(s.classified, oks)
    ensures var r, more := Next(s, t), oks + if t.ClassifyOne? then [t.classifyOk] else [];
            |r.classified| == |more| && Samples(r.pushed) == Kept(r.classified, more)
  {
    hide Kept, Samples;
    if t.ClassifyOne? {
      var x := s.pendingTelemetry[s.telemetryPc.next];
      KeptSnoc(s.classified, oks, x, t.classifyOk);
      SamplesSnoc(s.pushed, Decision(|s.pushed|, x));
    } else {
      assert oks + [] == oks;
    }
  }

  /** From init, whatever classify returns: the decisions pushed are for those samples classified, in order,
      whose classification succeeded; the others, and no others, are missing. */
  lemma {:induction false} PushedAreClassified(ts: seq<Step>)
    requires Runs(INIT, ts)
    ensures var s := Run(INIT, ts);
            |s.classified| == |Outcomes(ts)| && Samples(s.pushed) == Kept(s.classified, Outcomes(ts))
    decreases |ts|
  {
    if ts != [] {
      var n := |ts| - 1;
      RunSnoc(INIT, ts);
      PushedAreClassified(ts[..n]);
      ClassifyAdds(Run(INIT, ts[..n]), ts[n], Outcomes(ts[..n]));
    }
  }

  // ---------------------------------------------------------------- a run that loses a decision

  lemma {:induction false} RunsAppend(s: State, ts: seq<Step>, us: seq<Step>)
    requires Runs(s, ts) && Runs(Run(s, ts), us)
    ensures Runs(s, ts + us) && Run(s, ts + us) == Run(Run(s, ts), us)
    ensures DropsSomewhere(Run(s, ts), us) ==> DropsSomewhere(s, ts + us)
    decreases |ts|
  {
    hide Enabled, Next, DropsAt;
    if ts == [] {
      assert ts + us == us;
    } else {
      RunsAppend(Next(s, ts[0]), ts[1..], us);
      assert (ts + us)[1..] == ts[1..] + us;
    }
  }

  /** Both threads at their loop heads and nothing to push. */
  predicate Collecting(s: State, n: nat) {
    s.running && s.telemetryPc.LoopHead? && s.decisionPc.Ready? && s.pendingDecisions == [] && |s.pendingTelemetry| == n
  }

  /** Samples arrive until a batch is full. */
  lemma {:induction false} FillBatch(s: State, n: nat) returns (ts: seq<Step>)
    requires Collecting(s, n) && n < BATCH
    ensures Runs(s, ts) && forall t <- ts :: !t.Write?
    ensures var r := Run(s, ts);
            r.running && r.telemetryPc == Classifying(0) && r.decisionPc.Ready? && r.pendingDecisions == []
            && |r.pendingTelemetry| == BATCH
    decreases BATCH - n
  {
    var a, b := TelemetryLoops, ReadSample(0);
    var r := Next(Next(s, a), b);
    assert [a, b][1..] == [b] && [b][1..] == [];
    assert Runs(Next(Next(s, a), b), []) && Runs(Next(s, a), [b]) && Runs(s, [a, b]);
    assert Run(s, [a, b]) == Run(Next(s, a), [b]) == r;
    if n + 1 < BATCH {
      var rest := FillBatch(r, n + 1);
      RunsAppend(s, [a, b], rest);
      ts := [a, b] + rest;
    } else {
      ts := [a, b];
    }
  }

  lemma Prepend(s: State, t: Step, us: seq<Step>)
    requires Enabled(s, t) && Runs(Next(s, t), us)
    ensures Runs(s, [t] + us)
    ensures DropsAt(s, t) || DropsSomewhere(Next(s, t), us) ==> DropsSomewhere(s, [t] + us)
  {
    hide Enabled, Next, DropsAt;
    assert ([t] + us)[1..] == us;
  }

  /** A second decision is pushed between the write of the first and the clear. */
  lemma LatePush(s: State) returns (us: seq<Step>)
    requires s.running && s.telemetryPc == Classifying(0) && s.decisionPc.Ready? && s.pendingDecisions == []
    requires |s.pendingTelemetry| == BATCH
    ensures Runs(s, us) && DropsSomewhere(s, us) && forall t <- us :: t.Write? ==> t.writeOk
  {
    var s1 := Next(s, ClassifyOne(true));
    var s2 := Next(s1, DecisionLoops);
    var s3 := Next(s2, Write(true));
    var s4 := Next(s3, ClassifyOne(true));
    var s5 := Next(s4, ClearDecisions);
    assert DropsAt(s4, ClearDecisions);
    Prepend(s4, ClearDecisions, []);
    us := [ClearDecisions] + [];
    Prepend(s3, ClassifyOne(true), us);
    us := [ClassifyOne(true)] + us;
    Prepend(s2, Write(true), us);
    us := [Write(true)] + us;
    Prepend(s1, DecisionLoops, us);
    us := [DecisionLoops] + us;
    Prepend(s, ClassifyOne(true), us);
    us := [ClassifyOne(true)] + us;
  }

  /** A run from init in which every write succeeds and a decision is lost all the same. */
  lemma LosesDecision() returns (ts: seq<Step>)
    ensures Runs(INIT, ts) && DropsSomewhere(INIT, ts) && forall t <- ts :: t.Write? ==> t.writeOk
    ensures var s := Run(INIT, ts);
            Delivered(s) <= |s.pendingDecisions| && s.written + Unwritten(s) != s.pushed
  {
    var fill := FillBatch(INIT, 0);
    var late := LatePush(Run(INIT, fill));
    RunsAppend(INIT, fill, late);
    ts := fill + late;
    LosslessExactly(ts);
  }
}
