/**
  The priority scheduler prio.bpf.c: a vtime-ordered queue keyed by 100 - weight,
  computed in u32.
 */
module Prio {
  import opened Kernel

  /** A queued task with the slice insertion gave it; arrival numbers the enqueues. */
  datatype Entry = Entry(pid: nat, weight: U32, slice: nat, arrival: nat)

  /** 100 - p->scx.weight, before it is widened to the u64 vtime. */
  function Key(weight: U32): U32 {
    (100 - weight) % 0x1_0000_0000
  }

  /** Insertion behind every entry whose key is not greater. */
  function Insert(q: seq<Entry>, e: Entry): seq<Entry> {
    if q == [] then [e]
    else if Key(e.weight) < Key(q[0].weight) then [e] + q
    else [q[0]] + Insert(q[1..], e)
  }

  lemma {:induction false} InsertAt(q: seq<Entry>, e: Entry, i: nat)
    requires i <= |q|
    requires forall k :: 0 <= k < i ==> Key(q[k].weight) <= Key(e.weight)
    requires i < |q| ==> Key(e.weight) < Key(q[i].weight)
    ensures Insert(q, e) == q[..i] + [e] + q[i..]
  {
    hide Key;
    if i > 0 {
      InsertAt(q[1..], e, i - 1);
    }
  }

  datatype State = State(queue: seq<Entry>, moved: seq<Entry>, arrivals: nat)
  datatype Event = Enqueue(pid: nat, weight: U32) | Dispatch

  function Step(s: State, e: Event): State {
    match e
    case Enqueue(pid, w) =>
      State(Insert(s.queue, Entry(pid, w, SliceFor(|s.queue|), s.arrivals)), s.moved, s.arrivals + 1)
    case Dispatch =>
      if s.queue == [] then s else s.(queue := s.queue[1..], moved := s.moved + [s.queue[0]])
  }

  class Scheduler {
    var queue: seq<Entry>
    var moved: seq<Entry>
    var arrivals: nat

    constructor ()
      ensures queue == [] && moved == [] && arrivals == 0
    {
      queue, moved, arrivals := [], [], 0;
    }

    ghost function Abstract(): State
      reads this
    {
      State(queue, moved, arrivals)
    }

    method SchedEnqueue(pid: nat, weight: U32)
      modifies this
      ensures Abstract() == Step(old(Abstract()), Enqueue(pid, weight))
    {
      var e := Entry(pid, weight, SliceFor(|queue|), arrivals);
      var i := 0;
      while i < |queue| && Key(queue[i].weight) <= Key(weight)
        invariant 0 <= i <= |queue|
        invariant forall k :: 0 <= k < i ==> Key(queue[k].weight) <= Key(weight)
      {
        i := i + 1;
      }
      InsertAt(queue, e, i);
      queue, arrivals := queue[..i] + [e] + queue[i..], arrivals + 1;
    }

    method SchedDispatch()
      modifies this
      ensures Abstract() == Step(old(Abstract()), Dispatch)
    {
      if queue != [] {
        queue, moved := queue[1..], moved + [queue[0]];
      }
    }
  }

  // ---------------------------------------------------------------- runs

  function Run(s: State, es: seq<Event>): State
    decreases |es|
  {
    if es == [] then s else Run(Step(s, es[0]), es[1..])
  }

  const INIT := State([], [], 0)

  /** The order the scheduler really serves: weights up to 100 before all others, within each group the
      greater weight first, and equal weights in order of arrival. */
  predicate Precedes(a: Entry, b: Entry) {
    if a.weight <= 100 < b.weight then true
    else if b.weight <= 100 < a.weight then false
    else a.weight > b.weight || (a.weight == b.weight && a.arrival < b.arrival)
  }

  ghost predicate ServiceOrder(q: seq<Entry>) {
    forall i, j :: 0 <= i < j < |q| ==> Precedes(q[i], q[j])
  }

  /** The wrapping key reverses the weights within each group and puts the heavy group last. */
  lemma KeyOrder(a: U32, b: U32)
    ensures Key(a) < Key(b) <==>
              if a <= 100 < b then true else if b <= 100 < a then false else a > b
    ensures Key(a) == Key(b) <==> a == b
  {
  }

  lemma {:induction false} InsertMultiset(q: seq<Entry>, e: Entry)
    ensures multiset(Insert(q, e)) == multiset(q) + multiset{e}
  {
    if q != [] {
      assert q == [q[0]] + q[1..];
      InsertMultiset(q[1..], e);
    }
  }

  lemma HeadFirst(q: seq<Entry>, e: Entry)
    requires ServiceOrder(q) && q != [] && Precedes(e, q[0])
    ensures ServiceOrder([e] + q)
  {
  }

  lemma {:induction false} InsertKeepsOrder(q: seq<Entry>, e: Entry)
    requires ServiceOrder(q) && forall x <- q :: x.arrival < e.arrival
    ensures ServiceOrder(Insert(q, e))
    ensures forall x <- Insert(q, e) :: x == e || x in q
  {
    hide Key;
    if q != [] {
      assert q == [q[0]] + q[1..];
      KeyOrder(e.weight, q[0].weight);
      if Key(e.weight) < Key(q[0].weight) {
        HeadFirst(q, e);
      } else {
        InsertKeepsOrder(q[1..], e);
        var r := Insert(q[1..], e);
        forall k | 0 <= k < |r|
          ensures Precedes(q[0], r[k])
        {
          assert r[k] in r;
        }
      }
    }
  }

  /** Over every run: the queue is in service order, and every entry ever made is queued or moved, once. */
  ghost predicate Inv(s: State, made: multiset<Entry>) {
    && ServiceOrder(s.queue)
    && multiset(s.queue) + multiset(s.moved) == made
    && forall x <- s.queue :: x.arrival < s.arrivals
  }

  function Made(s: State, e: Event): multiset<Entry> {
    match e
    case Enqueue(pid, w) => multiset{Entry(pid, w, SliceFor(|s.queue|), s.arrivals)}
    case Dispatch => multiset{}
  }

  function AllMade(s: State, es: seq<Event>): multiset<Entry>
    decreases |es|
  {
    if es == [] then multiset{} else Made(s, es[0]) + AllMade(Step(s, es[0]), es[1..])
  }

  lemma StepKeepsInv(s: State, made: multiset<Entry>, e: Event)
    requires Inv(s, made)
    ensures Inv(Step(s, e), made + Made(s, e))
  {
    match e
    case Enqueue(pid, w) =>
      var x := Entry(pid, w, SliceFor(|s.queue|), s.arrivals);
      InsertMultiset(s.queue, x);
      InsertKeepsOrder(s.queue, x);
    case Dispatch =>
      if s.queue != [] {
        assert s.queue == [s.queue[0]] + s.queue[1..];
      }
  }

  lemma {:induction false} RunKeepsInv(s: State, made: multiset<Entry>, es: seq<Event>)
    requires Inv(s, made)
    ensures Inv(Run(s, es), made + AllMade(s, es))
    decreases |es|
  {
    hide Inv, Made, Step;
    if es != [] {
      StepKeepsInv(s, made, es[0]);
      RunKeepsInv(Step(s, es[0]), made + Made(s, es[0]), es[1..]);
      assert made + Made(s, es[0]) + AllMade(Step(s, es[0]), es[1..])
          == made + (Made(s, es[0]) + AllMade(Step(s, es[0]), es[1..]));
    } else {
      assert made + multiset{} == made;
    }
  }

  function Dispatches(n: nat): seq<Event> {
    seq(n, _ => Dispatch)
  }

  lemma {:induction false} DrainServesQueue(s: State)
    ensures Run(s, Dispatches(|s.queue|)) == State([], s.moved + s.queue, s.arrivals)
    decreases |s.queue|
  {
    if s.queue != [] {
      var s' := Step(s, Dispatch);
      assert Dispatches(|s.queue|)[1..] == Dispatches(|s'.queue|);
      DrainServesQueue(s');
      assert s.moved + [s.queue[0]] + s.queue[1..] == s.moved + s.queue;
    } else {
      assert s.moved + s.queue == s.moved;
    }
  }

  /** After any run, draining the queue serves every task still waiting, once, in service order. */
  lemma DrainInServiceOrder(es: seq<Event>)
    ensures var s := Run(INIT, es);
            var d := Run(s, Dispatches(|s.queue|));
            && d.queue == [] && d.moved == s.moved + s.queue && ServiceOrder(s.queue)
            && multiset(d.moved) == AllMade(INIT, es)
  {
    hide Run, AllMade, Step;
    assert Inv(INIT, multiset{});
    RunKeepsInv(INIT, multiset{}, es);
    assert multiset{} + AllMade(INIT, es) == AllMade(INIT, es);
    var s := Run(INIT, es);
    DrainServesQueue(s);
    assert multiset(s.moved + s.queue) == multiset(s.queue) + multiset(s.moved);
  }

  /** The drain is in non-increasing weight exactly if the two weight groups do not meet in the queue. */
  lemma NonIncreasingExactly(q: seq<Entry>)
    requires ServiceOrder(q)
    ensures (forall i, j :: 0 <= i < j < |q| ==> q[i].weight >= q[j].weight)
            <==> !(exists a, b :: a in q && b in q && a.weight <= 100 < b.weight)
  {
    if a, b :| a in q && b in q && a.weight <= 100 < b.weight {
      var i :| 0 <= i < |q| && q[i] == a;
      var j :| 0 <= j < |q| && q[j] == b;
      assert i < j;
    } else {
      forall i, j | 0 <= i < j < |q|
        ensures q[i].weight >= q[j].weight
      {
        assert Precedes(q[i], q[j]);
      }
    }
  }

  /** A run that serves weight 100 before weight 101, although 101 arrived first. */
  lemma HeavierServedLater()
    ensures var q := Run(INIT, [Enqueue(1, 101), Enqueue(2, 100)]).queue;
            q == [Entry(2, 100, SliceFor(1), 1), Entry(1, 101, SliceFor(0), 0)] && q[0].weight < q[1].weight
  {
    hide SliceFor;
    var a, b := Enqueue(1, 101), Enqueue(2, 100);
    var s1 := Step(INIT, a);
    assert s1.queue == [Entry(1, 101, SliceFor(0), 0)];
    var s2 := Step(s1, b);
    assert [a, b][1..] == [b] && [b][1..] == [];
    assert Run(INIT, [a, b]) == Run(s1, [b]) == Run(s2, []) == s2;
  }
}
