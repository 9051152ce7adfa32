/**
  The FIFO scheduler fifo.bpf.c: a queue whose slices shrink with its length.
 */
module Fifo {
  import opened Arithmetic
  import opened Kernel

  datatype Entry = Entry(pid: nat, slice: nat)

  /** The shared queue and the running task of one CPU. */
  datatype State = State(queue: seq<Entry>, running: Option<Entry>)

  function EnqueueStep(s: State, pid: nat): State {
    s.(queue := s.queue + [Entry(pid, SliceFor(|s.queue|))])
  }

  function DispatchStep(s: State): State {
    if s.queue == [] then s else State(s.queue[1..], Some(s.queue[0]))
  }

  class Scheduler {
    var queue: seq<Entry>
    var running: Option<Entry>

    ghost function Abstract(): State
      reads this
    {
      State(queue, running)
    }

    constructor ()
      ensures Abstract() == State([], None)
    {
      queue, running := [], None;
    }

    method SchedEnqueue(pid: nat)
      modifies this
      ensures Abstract() == EnqueueStep(old(Abstract()), pid)
    {
      var slice := SliceFor(|queue|);
      queue := queue + [Entry(pid, slice)];
    }

    method SchedDispatch()
      modifies this
      ensures Abstract() == DispatchStep(old(Abstract()))
    {
      if queue != [] {
        running, queue := Some(queue[0]), queue[1..];
      }
    }
  }

  // ---------------------------------------------------------------- n tasks that are always runnable

  ghost predicate Busy(o: Order, s: State) {
    s.running.Some? && (o.DispatchFirst? ==> s.queue != [])
  }

  function Turn(o: Order, s: State): State
    requires Busy(o, s)
  {
    var pid := s.running.value.pid;
    match o
    case EnqueueFirst => DispatchStep(EnqueueStep(s, pid))
    case DispatchFirst => EnqueueStep(DispatchStep(s), pid)
  }

  /** The running task, then the waiting ones. */
  function Line(s: State): seq<Entry>
    requires s.running.Some?
  {
    [s.running.value] + s.queue
  }

  function Pids(q: seq<Entry>): (r: seq<nat>)
    ensures |r| == |q|
  {
    seq(|q|, i requires 0 <= i < |q| => q[i].pid)
  }

  /** The length of the queue a task finds when it is queued again, of n tasks. */
  function Found(o: Order, n: nat): nat
    requires n >= 1 && (o.DispatchFirst? ==> n >= 2)
  {
    if o.EnqueueFirst? then n - 1 else n - 2
  }

  /** A turn moves the running task to the end of the line, with a new slice. */
  lemma TurnRotates(o: Order, s: State)
    requires Busy(o, s)
    ensures Busy(o, Turn(o, s))
    ensures var l, n := Line(s), |Line(s)|;
            Line(Turn(o, s)) == l[1..] + [Entry(l[0].pid, SliceFor(Found(o, n)))]
  {
    hide SliceFor;
    var r := s.running.value;
    if o.EnqueueFirst? && s.queue != [] {
      var q := s.queue + [Entry(r.pid, SliceFor(|s.queue|))];
      assert [q[0]] + q[1..] == q;
    }
  }

  /** The lines and the running times of a run: each task runs for at most its slice. */
  ghost predicate Times(o: Order, s: State, used: seq<nat>)
    requires Busy(o, s)
    decreases |used|
  {
    used == [] || (used[0] <= s.running.value.slice
                   && (TurnRotates(o, s); Times(o, Turn(o, s), used[1..])))
  }

  ghost function After(o: Order, s: State, k: nat): (r: State)
    requires Busy(o, s)
    ensures Busy(o, r)
    decreases k
  {
    if k == 0 then s
    else
      TurnRotates(o, s);
      After(o, Turn(o, s), k - 1)
  }

  /** Left rotation by k, for k up to the length. */
  function Rotate<T>(l: seq<T>, k: nat): seq<T>
    requires k <= |l|
  {
    l[k..] + l[..k]
  }

  lemma {:induction false} AfterLast(o: Order, s: State, k: nat)
    requires Busy(o, s)
    ensures After(o, s, k + 1) == Turn(o, After(o, s, k))
    decreases k
  {
    TurnRotates(o, s);
    if k > 0 {
      AfterLast(o, Turn(o, s), k - 1);
    }
  }

  /** After k <= n turns the line is rotated by k, and the k tasks served last hold new slices. */
  lemma {:induction false} LineAfter(o: Order, s: State, k: nat)
    requires Busy(o, s) && k <= |Line(s)|
    ensures var l, r := Line(s), Line(After(o, s, k));
            && Pids(r) == Rotate(Pids(l), k)
            && forall i :: |l| - k <= i < |l| ==> r[i].slice == SliceFor(Found(o, |l|))
    decreases k
  {
    hide SliceFor, Turn, Found;
    if k > 0 {
      AfterLast(o, s, k - 1);
      LineAfter(o, s, k - 1);
      var m := After(o, s, k - 1);
      TurnRotates(o, m);
      var l, a, b := Line(s), Line(m), Line(Turn(o, m));
      assert Pids(b) == Pids(a)[1..] + [Pids(a)[0]];
      assert Pids(a)[0] == Pids(l)[k - 1];
      assert Pids(l)[..k] == Pids(l)[..k - 1] + [Pids(l)[k - 1]];
    }
  }

  lemma {:induction false} AfterAdd(o: Order, s: State, j: nat, k: nat)
    requires Busy(o, s)
    ensures After(o, After(o, s, j), k) == After(o, s, j + k)
    decreases j
  {
    if j > 0 {
      TurnRotates(o, s);
      AfterAdd(o, Turn(o, s), j - 1, k);
    }
  }

  lemma SameLength(a: seq<Entry>, b: seq<Entry>)
    requires Pids(a) == Pids(b)
    ensures |a| == |b| && forall i :: 0 <= i < |a| ==> a[i].pid == b[i].pid
  {
    assert |Pids(a)| == |Pids(b)|;
    forall i | 0 <= i < |a|
      ensures a[i].pid == b[i].pid
    {
      assert Pids(a)[i] == Pids(b)[i];
    }
  }

  /** Whole rounds bring the line back. */
  lemma {:induction false} RoundsReturn(o: Order, s: State, rounds: nat)
    requires Busy(o, s)
    ensures Pids(Line(After(o, s, rounds * |Line(s)|))) == Pids(Line(s))
    decreases rounds
  {
    hide SliceFor, Turn;
    if rounds > 0 {
      var n := |Line(s)|;
      var m := After(o, s, n);
      LineAfter(o, s, n);
      SameLength(Line(m), Line(s));
      RoundsReturn(o, m, rounds - 1);
      MulPlus(rounds - 1, 1, n);
      AfterAdd(o, s, n, (rounds - 1) * n);
    }
  }

  /** A fixed rotation forever: after any number of full rounds and i turns, task i of the first line runs. */
  lemma RotationForever(o: Order, s: State, rounds: nat, i: nat)
    requires Busy(o, s) && i < |Line(s)|
    ensures After(o, s, rounds * |Line(s)| + i).running.value.pid == Line(s)[i].pid
  {
    hide SliceFor, Turn, After;
    var m := After(o, s, rounds * |Line(s)|);
    RoundsReturn(o, s, rounds);
    SameLength(Line(m), Line(s));
    LineAfter(o, m, i);
    AfterAdd(o, s, rounds * |Line(s)|, i);
    var r := Line(After(o, m, i));
    assert Pids(r)[0] == Pids(Line(m))[i];
  }

  function Sum(xs: seq<nat>): nat {
    if xs == [] then 0 else xs[0] + Sum(xs[1..])
  }

  ghost predicate Settled(o: Order, s: State)
    requires Busy(o, s)
  {
    forall i :: 0 <= i < |Line(s)| ==> Line(s)[i].slice == SliceFor(Found(o, |Line(s)|))
  }

  /** Once each of n tasks has been queued again, the state is settled. */
  lemma SettledAfterRound(o: Order, s: State)
    requires Busy(o, s)
    ensures Settled(o, After(o, s, |Line(s)|))
  {
    LineAfter(o, s, |Line(s)|);
    assert |Pids(Line(After(o, s, |Line(s)|)))| == |Line(s)|;
  }

  lemma TurnKeepsSettled(o: Order, s: State)
    requires Busy(o, s) && Settled(o, s)
    ensures Busy(o, Turn(o, s)) && Settled(o, Turn(o, s)) && |Line(Turn(o, s))| == |Line(s)|
  {
    hide SliceFor;
    TurnRotates(o, s);
  }

  /** In nanoseconds: the slices of a settled line are the whole part of 5 ms over the length found. */
  lemma SettledSlices(o: Order, s: State, i: nat)
    requires Busy(o, s) && Settled(o, s) && i < |Line(s)|
    ensures var x, m := Line(s)[i].slice, Found(o, |Line(s)|);
            if m == 0 then x == 0 else x * m <= 5_000_000 < (x + 1) * m
  {
    hide SliceFor;
  }

  /** In a settled run any k turns take at most k slices of the settled length. */
  lemma {:induction false} TurnsBounded(o: Order, s: State, used: seq<nat>)
    requires Busy(o, s) && Settled(o, s) && Times(o, s, used)
    ensures Sum(used) <= |used| * SliceFor(Found(o, |Line(s)|))
    decreases |used|
  {
    if used != [] {
      TurnKeepsSettled(o, s);
      assert Line(s)[0].slice <= SliceFor(Found(o, |Line(s)|));
      TurnsBounded(o, Turn(o, s), used[1..]);
      MulPlus(|used| - 1, 1, SliceFor(Found(o, |Line(s)|)));
    }
  }

  lemma RoundTime(n: nat, m: nat, x: nat)
    requires 1 <= m && (n == m + 1 || n == m + 2) && x * m <= 5_000_000
    ensures n * x <= (n - m + 1) * 5_000_000
  {
    MulLe(1, m, x);
    MulPlus(m, n - m, x);
  }

  /** A full settled round of n tasks takes at most 10 ms if tasks are queued before the dispatch, and at
      most 15 ms if the dispatch comes first. */
  lemma RoundBound(o: Order, s: State, used: seq<nat>)
    requires Busy(o, s) && Settled(o, s) && Times(o, s, used) && |used| == |Line(s)|
    requires |Line(s)| >= if o.EnqueueFirst? then 2 else 3
    ensures Sum(used) <= |used| * SliceFor(Found(o, |used|))
    ensures Sum(used) <= if o.EnqueueFirst? then 10_000_000 else 15_000_000
  {
    TurnsBounded(o, s, used);
    var m := Found(o, |used|);
    var x := SliceFor(m);
    RoundTime(|used|, m, x);
    hide SliceFor, Settled, Times;
  }

  lemma {:induction false} StaysSettled(o: Order, s: State, k: nat)
    requires Busy(o, s) && Settled(o, s)
    ensures Settled(o, After(o, s, k)) && |Line(After(o, s, k))| == |Line(s)|
    decreases k
  {
    hide SliceFor, Settled, Turn;
    if k > 0 {
      TurnKeepsSettled(o, s);
      StaysSettled(o, Turn(o, s), k - 1);
    }
  }

  lemma SameLengthAfter(o: Order, s: State)
    requires Busy(o, s)
    ensures |Line(After(o, s, |Line(s)|))| == |Line(s)|
  {
    hide SliceFor, Turn, After;
    LineAfter(o, s, |Line(s)|);
    assert |Pids(Line(After(o, s, |Line(s)|)))| == |Line(s)|;
  }

  /** From the first round on, every state is settled. */
  lemma SettledForGood(o: Order, s: State, k: nat)
    requires Busy(o, s) && k >= |Line(s)|
    ensures Settled(o, After(o, s, k)) && |Line(After(o, s, k))| == |Line(s)|
  {
    hide SliceFor, Settled, Turn, After;
    var n := |Line(s)|;
    SettledAfterRound(o, s);
    SameLengthAfter(o, s);
    StaysSettled(o, After(o, s, n), k - n);
    AfterAdd(o, s, n, k - n);
  }

  /** End to end: from any start of n tasks, once each has been queued again, every round ever after keeps
      the bound. */
  lemma EveryLaterRoundBounded(o: Order, s: State, k: nat, used: seq<nat>)
    requires Busy(o, s) && k >= |Line(s)| >= if o.EnqueueFirst? then 2 else 3
    requires Times(o, After(o, s, k), used) && |used| == |Line(s)|
    ensures Sum(used) <= |used| * SliceFor(Found(o, |used|))
    ensures Sum(used) <= if o.EnqueueFirst? then 10_000_000 else 15_000_000
  {
    hide SliceFor, Settled, Times, After;
    SettledForGood(o, s, k);
    RoundBound(o, After(o, s, k), used);
  }

  /** Every task runs for its whole slice. */
  ghost predicate Whole(o: Order, s: State, used: seq<nat>)
    requires Busy(o, s)
    decreases |used|
  {
    used == [] || (used[0] == s.running.value.slice
                   && (TurnRotates(o, s); Whole(o, Turn(o, s), used[1..])))
  }

  /** The bound is met: if every task uses its whole slice, any k settled turns take exactly k settled slices. */
  lemma {:induction false} WholeTurns(o: Order, s: State, used: seq<nat>)
    requires Busy(o, s) && Settled(o, s) && Whole(o, s, used)
    ensures Sum(used) == |used| * SliceFor(Found(o, |Line(s)|))
    decreases |used|
  {
    hide SliceFor;
    if used != [] {
      TurnKeepsSettled(o, s);
      assert Line(s)[0].slice == SliceFor(Found(o, |Line(s)|));
      WholeTurns(o, Turn(o, s), used[1..]);
      MulPlus(|used| - 1, 1, SliceFor(Found(o, |Line(s)|)));
    }
  }
}
