/**
  The lottery schedulers lottery.bpf.c and lottery_prio.bpf.c: one draw against
  the weights of a shared queue, with CPU affinity.

  u32 and s32 arithmetic wraps; a BPF modulo by zero leaves the dividend.
 */
module Lottery {
  import opened Arithmetic
  import opened Kernel

  /** p->scx.weight and p->cpus_ptr. */
  datatype Task = Task(pid: nat, weight: U32, cpus: set<nat>)

  function ToS32(x: int): int {
    var u := x % 0x1_0000_0000;
    if u < 0x8000_0000 then u else u - 0x1_0000_0000
  }

  predicate Eligible(t: Task, cpu: nat) {
    cpu in t.cpus
  }

  /** Sum of the weights of a queue. */
  function Total(q: seq<Task>): nat {
    if q == [] then 0 else q[0].weight + Total(q[1..])
  }

  /** The first eligible task at which the draw, less the weights up to and including it, is not positive;
      with s32 arithmetic. */
  function SelectS32(q: seq<Task>, cpu: nat, random: int): (r: Option<nat>)
    ensures r.Some? ==> r.value < |q| && Eligible(q[r.value], cpu)
  {
    if q == [] then None
    else
      var left := ToS32(random - q[0].weight);
      if left <= 0 && Eligible(q[0], cpu) then Some(0)
      else match SelectS32(q[1..], cpu, left)
        case None => None
        case Some(i) => Some(i + 1)
  }

  function WeightedDraw(q: seq<Task>, cpu: nat, prandom: U32): Option<nat> {
    SelectS32(q, cpu, ToS32(BpfMod(prandom, Total(q) % 0x1_0000_0000)))
  }

  /** The same tasks, each with weight 1. */
  function Unit(q: seq<Task>): (r: seq<Task>)
    ensures |r| == |q| && forall i :: 0 <= i < |q| ==> r[i] == q[i].(weight := 1)
  {
    if q == [] then [] else [q[0].(weight := 1)] + Unit(q[1..])
  }

  function UniformDraw(q: seq<Task>, cpu: nat, prandom: U32): Option<nat>
    requires |q| < 0x8000_0000
  {
    SelectS32(Unit(q), cpu, ToS32(BpfMod(prandom, |q|)))
  }

  function Without<T>(q: seq<T>, i: nat): (r: seq<T>)
    requires i < |q|
    ensures |r| == |q| - 1
    ensures (forall j :: 0 <= j < i ==> r[j] == q[j]) && forall j :: i <= j < |r| ==> r[j] == q[j + 1]
  {
    q[..i] + q[i + 1..]
  }

  function Shift(r: Option<nat>, offset: nat): Option<nat> {
    match r
    case None => None
    case Some(i) => Some(i + offset)
  }

  /** One round of the selection loop. */
  lemma SelectNext(q: seq<Task>, cpu: nat, random: int, i: nat)
    requires i < |q|
    ensures var left := ToS32(random - q[i].weight);
            Shift(SelectS32(q[i..], cpu, random), i)
            == if left <= 0 && Eligible(q[i], cpu) then Some(i) else Shift(SelectS32(q[i + 1..], cpu, left), i + 1)
  {
    assert q[i..][1..] == q[i + 1..];
  }

  lemma NoneLeft(cpu: nat, random: int)
    ensures SelectS32([], cpu, random) == None
  {
  }

  lemma AddWrapped(a: U32, w: nat, rest: nat)
    ensures ((a + w) % 0x1_0000_0000 + rest) % 0x1_0000_0000 == (a + (w + rest)) % 0x1_0000_0000
  {
  }

  /** The shared queue and what has been moved to the local queue of each dispatching CPU, in order. */
  class Scheduler {
    var queue: seq<Task>
    var moved: seq<(nat, Task)>

    constructor ()
      ensures queue == [] && moved == []
    {
      queue, moved := [], [];
    }

    /** What one draw may do: move the chosen task, if any, and keep the order of the rest. */
    twostate predicate Moves(cpu: nat, choice: Option<nat>)
      reads this
    {
      match choice
      case None => queue == old(queue) && moved == old(moved)
      case Some(i) =>
        && i < |old(queue)| && moved == old(moved) + [(cpu, old(queue)[i])]
        && |queue| == |old(queue)| - 1
        && (forall j :: 0 <= j < i ==> queue[j] == old(queue)[j])
        && forall j :: i <= j < |queue| ==> queue[j] == old(queue)[j + 1]
    }

    method SumWeights() returns (weightSum: U32)
      ensures weightSum == Total(queue) % 0x1_0000_0000
    {
      weightSum := 0;
      var i := 0;
      while i < |queue|
        invariant 0 <= i <= |queue|
        invariant (weightSum + Total(queue[i..])) % 0x1_0000_0000 == Total(queue) % 0x1_0000_0000
      {
        assert queue[i..][1..] == queue[i + 1..];
        AddWrapped(weightSum, queue[i].weight, Total(queue[i + 1..]));
        weightSum := (weightSum + queue[i].weight) % 0x1_0000_0000;
        i := i + 1;
      }
    }

    method DispatchWeighted(cpu: nat, prandom: U32)
      modifies this
      ensures Moves(cpu, WeightedDraw(old(queue), cpu, prandom))
    {
      hide ToS32, BpfMod, Eligible, Without, SelectS32, Total;
      var weightSum := SumWeights();
      var random := ToS32(BpfMod(prandom, weightSum));
      var i := 0;
      while i < |queue|
        invariant 0 <= i <= |queue|
        invariant queue == old(queue) && moved == old(moved)
        invariant WeightedDraw(queue, cpu, prandom) == Shift(SelectS32(queue[i..], cpu, random), i)
      {
        SelectNext(queue, cpu, random, i);
        random := ToS32(random - queue[i].weight);
        if random <= 0 && Eligible(queue[i], cpu) {
          queue, moved := Without(queue, i), moved + [(cpu, queue[i])];
          return;
        }
        i := i + 1;
      }
      NoneLeft(cpu, random);
    }

    method DispatchUniform(cpu: nat, prandom: U32)
      requires |queue| < 0x8000_0000
      modifies this
      ensures Moves(cpu, UniformDraw(old(queue), cpu, prandom))
    {
      hide ToS32, BpfMod, Unit, Without, SelectS32;
      var random := ToS32(BpfMod(prandom, |queue|));
      var i := 0;
      ghost var u := Unit(queue);
      while i < |queue|
        invariant 0 <= i <= |queue|
        invariant queue == old(queue) && moved == old(moved)
        invariant UniformDraw(queue, cpu, prandom) == Shift(SelectS32(u[i..], cpu, random), i)
      {
        SelectNext(u, cpu, random, i);
        assert u[i] == queue[i].(weight := 1);
        random := ToS32(random - 1);
        if random <= 0 && Eligible(queue[i], cpu) {
          queue, moved := Without(queue, i), moved + [(cpu, queue[i])];
          return;
        }
        i := i + 1;
      }
      NoneLeft(cpu, random);
    }
  }

  lemma NoWrap(x: int)
    requires -0x8000_0000 <= x < 0x8000_0000
    ensures ToS32(x) == x
  {
  }

  // ---------------------------------------------------------------- who gets how many tickets

  /** The weights before index i. */
  function Prefix(q: seq<Task>, i: nat): nat
    requires i <= |q|
  {
    Total(q[..i])
  }

  lemma {:induction false} TotalSplit(q: seq<Task>, r: seq<Task>)
    ensures Total(q + r) == Total(q) + Total(r)
  {
    if q == [] {
      assert q + r == r;
    } else {
      TotalSplit(q[1..], r);
      assert (q + r)[1..] == q[1..] + r;
    }
  }

  lemma EmptyTotal()
    ensures Total([]) == 0
  {
  }

  lemma PrefixNext(q: seq<Task>, i: nat)
    requires i < |q|
    ensures Prefix(q, i + 1) == Prefix(q, i) + q[i].weight
  {
    TotalSplit(q[..i], [q[i]]);
    assert q[..i + 1] == q[..i] + [q[i]];
    assert Total([q[i]]) == q[i].weight + Total([]);
  }

  lemma PrefixWhole(q: seq<Task>)
    ensures Prefix(q, |q|) == Total(q)
  {
    assert q[..|q|] == q;
  }

  lemma {:induction false} PrefixMono(q: seq<Task>, i: nat, j: nat)
    requires i <= j <= |q|
    ensures Prefix(q, i) <= Prefix(q, j)
  {
    if i < j {
      PrefixMono(q, i, j - 1);
      PrefixNext(q, j - 1);
    }
  }

  /** The smallest draw that passes over every eligible task before index i. */
  function Lowest(q: seq<Task>, cpu: nat, i: nat): nat
    requires i <= |q|
  {
    if i == 0 then 0 else if Eligible(q[i - 1], cpu) then Prefix(q, i) + 1 else Lowest(q, cpu, i - 1)
  }

  /** Tasks before index k all stay: each is ineligible or the draw exceeds the weights up to it. */
  ghost predicate Passed(q: seq<Task>, cpu: nat, random: int, k: nat)
    requires k <= |q|
  {
    forall j :: 0 <= j < k ==> !(Eligible(q[j], cpu) && random <= Prefix(q, j + 1))
  }

  lemma {:induction false} PassedExactly(q: seq<Task>, cpu: nat, random: int, k: nat)
    requires k <= |q| && random >= 0
    ensures Passed(q, cpu, random, k) <==> Lowest(q, cpu, k) <= random
  {
    if k > 0 {
      PassedExactly(q, cpu, random, k - 1);
      forall j | 0 <= j < k && Eligible(q[j], cpu)
        ensures Prefix(q, j + 1) <= Prefix(q, k)
      {
        PrefixMono(q, j + 1, k);
      }
    }
  }

  /** The loop from index k on: the first index that is not passed. */
  lemma {:induction false} SelectFrom(q: seq<Task>, cpu: nat, random: int, k: nat)
    requires k <= |q| && 0 <= random < 0x8000_0000 && Total(q) < 0x8000_0000
    ensures var r := SelectS32(q[k..], cpu, random - Prefix(q, k));
            match r
            case None => forall j :: k <= j < |q| ==> !(Eligible(q[j], cpu) && random <= Prefix(q, j + 1))
            case Some(i) =>
              Eligible(q[k + i], cpu) && random <= Prefix(q, k + i + 1)
              && forall j :: k <= j < k + i ==> !(Eligible(q[j], cpu) && random <= Prefix(q, j + 1))
    decreases |q| - k
  {
    hide ToS32, Prefix, Total;
    if k < |q| {
      PrefixNext(q, k);
      PrefixMono(q, k + 1, |q|);
      PrefixWhole(q);
      NoWrap(random - Prefix(q, k + 1));
      assert q[k..][1..] == q[k + 1..];
      SelectFrom(q, cpu, random, k + 1);
    }
  }

  /** Without wrapping, task i is chosen exactly by the draws from Lowest to the weights up to and including it. */
  lemma {:induction false} SelectExactly(q: seq<Task>, cpu: nat, random: int, i: nat)
    requires i < |q| && 0 <= random < 0x8000_0000 && Total(q) < 0x8000_0000
    ensures SelectS32(q, cpu, random) == Some(i)
            <==> Eligible(q[i], cpu) && Lowest(q, cpu, i) <= random <= Prefix(q, i + 1)
  {
    hide SelectS32, Lowest, Total;
    PrefixWhole(q);
    SelectFrom(q, cpu, random, 0);
    assert q[..0] == [] && q[0..] == q;
    assert Prefix(q, 0) == 0 by { EmptyTotal(); }
    hide Prefix;
    PassedExactly(q, cpu, random, i);
    PassedExactly(q, cpu, random, i + 1);
    PrefixMono(q, i + 1, |q|);
  }

  ghost function Interval(a: int, b: int): (s: set<int>)
    requires a <= b
    ensures |s| == b - a && forall r :: r in s <==> a <= r < b
    decreases b - a
  {
    if a == b then {} else Interval(a, b - 1) + {b - 1}
  }

  /** The tickets of task i: its own weight and those of the ineligible tasks just before it, one more if
      no eligible task comes before it, and one less if it is the last in the queue. */
  function Tickets(q: seq<Task>, cpu: nat, i: nat): int
    requires i < |q|
  {
    if !Eligible(q[i], cpu) then 0
    else Prefix(q, i + 1) + 1 - Lowest(q, cpu, i) - (if i == |q| - 1 then 1 else 0)
  }

  /** The residues of the draw modulo the weight sum that choose task i. */
  ghost function Winners(q: seq<Task>, cpu: nat, i: nat): (s: set<int>)
    ensures forall r :: r in s <==> 0 <= r < Total(q) && SelectS32(q, cpu, r) == Some(i)
  {
    set r: int | 0 <= r < Total(q) && SelectS32(q, cpu, r) == Some(i)
  }

  lemma {:induction false} LowestBelow(q: seq<Task>, cpu: nat, i: nat)
    requires i < |q| && forall t <- q :: t.weight >= 1
    ensures Lowest(q, cpu, i) <= Prefix(q, i + 1)
    decreases i
  {
    PrefixNext(q, i);
    if i > 0 && !Eligible(q[i - 1], cpu) {
      LowestBelow(q, cpu, i - 1);
    }
  }

  /** Exactly Tickets of the equally likely residues choose task i. */
  lemma ExactTickets(q: seq<Task>, cpu: nat, i: nat)
    requires i < |q| && Total(q) < 0x8000_0000 && forall t <- q :: t.weight >= 1
    ensures |Winners(q, cpu, i)| == Tickets(q, cpu, i)
  {
    hide SelectS32, Winners, Lowest, Prefix, Total;
    var s := Winners(q, cpu, i);
    var hi := Prefix(q, i + 1) + 1 - (if i == |q| - 1 then 1 else 0);
    forall r: int | 0 <= r < Total(q)
      ensures r in s <==> Eligible(q[i], cpu) && Lowest(q, cpu, i) <= r <= Prefix(q, i + 1)
    {
      SelectExactly(q, cpu, r, i);
    }
    if !Eligible(q[i], cpu) {
      assert s == {};
    } else {
      PrefixWhole(q);
      LowestBelow(q, cpu, i);
      if i < |q| - 1 {
        PrefixNext(q, i + 1);
        PrefixMono(q, i + 2, |q|);
      }
      assert s == Interval(Lowest(q, cpu, i), hi);
    }
  }

  lemma NoWrapU32(x: U32)
    ensures x % 0x1_0000_0000 == x
  {
  }

  /** While the weights stay below 2^31 the draw is the random number's residue. */
  lemma DrawIsResidue(q: seq<Task>, cpu: nat, prandom: U32)
    requires 0 < Total(q) < 0x8000_0000
    ensures WeightedDraw(q, cpu, prandom) == SelectS32(q, cpu, prandom % Total(q))
  {
    hide SelectS32, Total;
    NoWrapU32(Total(q));
    NoWrap(prandom % Total(q));
  }

  /** With no affinity in the way: the weight, plus 1 for the first and minus 1 for the last. */
  lemma TicketsWithoutAffinity(q: seq<Task>, cpu: nat, i: nat)
    requires i < |q| && forall t <- q :: Eligible(t, cpu)
    ensures Tickets(q, cpu, i) == q[i].weight + (if i == 0 then 1 else 0) - (if i == |q| - 1 then 1 else 0)
  {
    PrefixNext(q, i);
    assert i == 0 ==> q[..i] == [];
  }

  lemma {:induction false} LowestSkips(q: seq<Task>, cpu: nat, j: nat, i: nat)
    requires j < i < |q| && Eligible(q[j], cpu)
    requires forall k :: j < k < i ==> !Eligible(q[k], cpu)
    ensures Lowest(q, cpu, i) == Prefix(q, j + 1) + 1
  {
    if j + 1 < i {
      LowestSkips(q, cpu, j, i - 1);
    }
  }

  /** An ineligible task's tickets pass to the next eligible one. */
  lemma {:induction false} TicketsPassOn(q: seq<Task>, cpu: nat, j: nat, i: nat)
    requires j < i < |q| && Eligible(q[j], cpu) && Eligible(q[i], cpu)
    requires forall k :: j < k < i ==> !Eligible(q[k], cpu)
    ensures Tickets(q, cpu, i) == Total(q[j + 1..i + 1]) - (if i == |q| - 1 then 1 else 0)
  {
    LowestSkips(q, cpu, j, i);
    TotalSplit(q[..j + 1], q[j + 1..i + 1]);
    assert q[..i + 1] == q[..j + 1] + q[j + 1..i + 1];
  }

  lemma {:induction false} LowestOfNone(q: seq<Task>, cpu: nat, i: nat)
    requires i <= |q| && forall k :: 0 <= k < i ==> !Eligible(q[k], cpu)
    ensures Lowest(q, cpu, i) == 0
    decreases i
  {
    if i > 0 {
      LowestOfNone(q, cpu, i - 1);
    }
  }

  /** The first eligible task gets the tickets of the ineligible ones before it, and one more. */
  lemma TicketsOfFirst(q: seq<Task>, cpu: nat, i: nat)
    requires i < |q| && Eligible(q[i], cpu) && forall k :: 0 <= k < i ==> !Eligible(q[k], cpu)
    ensures Tickets(q, cpu, i) == Total(q[..i + 1]) + 1 - (if i == |q| - 1 then 1 else 0)
  {
    LowestOfNone(q, cpu, i);
  }

  /** Draws beyond the last eligible task dispatch nothing. */
  lemma NothingExactly(q: seq<Task>, cpu: nat, random: int)
    requires 0 <= random < 0x8000_0000 && Total(q) < 0x8000_0000
    ensures SelectS32(q, cpu, random) == None <==> Lowest(q, cpu, |q|) <= random
  {
    SelectFrom(q, cpu, random, 0);
    assert q[..0] == [] && q[0..] == q;
    PassedExactly(q, cpu, random, |q|);
  }

  // ---------------------------------------------------------------- tickets of the random number itself

  function Residue(x: int, w: nat): int
    requires w > 0
  {
    x % w
  }

  /** Below n, the numbers whose residue modulo w lies from a up to but not including b. */
  ghost function WithResidue(n: nat, w: nat, a: nat, b: nat): (s: set<int>)
    requires w > 0
    ensures forall x :: x in s <==> 0 <= x < n && a <= Residue(x, w) < b
  {
    set x: int | 0 <= x < n && a <= Residue(x, w) < b
  }

  /** How many of the numbers from a up to b lie below n. */
  function Below(n: int, a: nat, b: nat): nat
    requires a <= b
  {
    if n <= a then 0 else if n < b then n - a else b - a
  }

  lemma ResidueInBlock(k: nat, w: nat, y: nat)
    requires y < w
    ensures (k * w + y) % w == y
  {
    var x := k * w + y;
    DivBounds(x, w);
    if x / w < k {
      MulLe(x / w + 1, k, w);
      MulPlus(x / w, 1, w);
    } else if x / w > k {
      MulLe(k + 1, x / w, w);
      MulPlus(k, 1, w);
    }
  }

  /** A further block, whole or not, adds one run of numbers. */
  lemma AddBlock(m: nat, r: nat, w: nat, a: nat, b: nat)
    requires a <= b <= w && w > 0
    requires forall x :: m <= x < m + r ==> Residue(x, w) == x - m
    requires r <= w
    ensures |WithResidue(m + r, w, a, b)| == |WithResidue(m, w, a, b)| + Below(r, a, b)
  {
    hide WithResidue, Interval, Residue;
    var whole, more := WithResidue(m, w, a, b), Interval(m + a, m + a + Below(r, a, b));
    assert WithResidue(m + r, w, a, b) == whole + more;
    assert whole !! more;
  }

  lemma WholeBlock(w: nat, a: nat, b: nat)
    requires a <= b <= w
    ensures Below(w, a, b) == b - a
  {
  }

  /** In k whole blocks of w and a further part r, each block holds the residues once. */
  lemma {:induction false} CountResidues(k: nat, r: nat, w: nat, a: nat, b: nat)
    requires a <= b <= w && r <= w && w > 0
    ensures |WithResidue(k * w + r, w, a, b)| == k * (b - a) + Below(r, a, b)
    decreases k
  {
    forall x | k * w <= x < k * w + r
      ensures Residue(x, w) == x - k * w
    {
      ResidueInBlock(k, w, x - k * w);
    }
    hide WithResidue, Residue, Below;
    AddBlock(k * w, r, w, a, b);
    if k == 0 {
      assert WithResidue(0, w, a, b) == {};
    } else {
      WholeBlock(w, a, b);
      MulPlus(k - 1, 1, w);
      MulPlus(k - 1, 1, b - a);
      CountResidues(k - 1, w, w, a, b);
    }
  }

  const RANDOMS: nat := 0x1_0000_0000

  /** The values of bpf_get_prandom_u32 that choose task i. */
  ghost function Draws(q: seq<Task>, cpu: nat, i: nat): (s: set<int>)
    ensures forall x :: x in s <==> 0 <= x < RANDOMS && WeightedDraw(q, cpu, x) == Some(i)
  {
    set x: int | 0 <= x < RANDOMS && WeightedDraw(q, cpu, x) == Some(i)
  }

  /** The end of the interval of residues that choose an eligible task i. */
  function Highest(q: seq<Task>, i: nat): int
    requires i < |q|
  {
    Prefix(q, i + 1) + 1 - if i == |q| - 1 then 1 else 0
  }

  lemma WinningResidues(q: seq<Task>, cpu: nat, i: nat, r: int)
    requires i < |q| && 0 < Total(q) < 0x8000_0000 && 0 <= r < Total(q)
    ensures SelectS32(q, cpu, r) == Some(i) <==> Eligible(q[i], cpu) && Lowest(q, cpu, i) <= r < Highest(q, i)
  {
    hide SelectS32, Lowest, Prefix, Total;
    SelectExactly(q, cpu, r, i);
    PrefixWhole(q);
  }

  lemma WinningBounds(q: seq<Task>, cpu: nat, i: nat)
    requires i < |q| && forall t <- q :: t.weight >= 1
    ensures Total(q) > 0 && Lowest(q, cpu, i) <= Highest(q, i) <= Total(q)
    ensures Eligible(q[i], cpu) ==> Tickets(q, cpu, i) == Highest(q, i) - Lowest(q, cpu, i)
  {
    hide Lowest, Total;
    PrefixWhole(q);
    LowestBelow(q, cpu, i);
    assert q[i] in q;
    PrefixNext(q, i);
    hide Prefix;
    PrefixMono(q, i + 1, |q|);
    if i < |q| - 1 {
      assert q[i + 1] in q;
      PrefixNext(q, i + 1);
      PrefixMono(q, i + 2, |q|);
    }
  }

  lemma DrawsAreResidues(q: seq<Task>, cpu: nat, i: nat)
    requires i < |q| && Total(q) < 0x8000_0000 && (forall t <- q :: t.weight >= 1) && Eligible(q[i], cpu)
    ensures Total(q) > 0 && Lowest(q, cpu, i) <= Highest(q, i)
    ensures Draws(q, cpu, i) == WithResidue(RANDOMS, Total(q), Lowest(q, cpu, i), Highest(q, i))
  {
    hide SelectS32, Lowest, Prefix, Total, WeightedDraw, Eligible, Highest;
    WinningBounds(q, cpu, i);
    forall x: int | 0 <= x < RANDOMS
      ensures WeightedDraw(q, cpu, x) == Some(i) <==> Lowest(q, cpu, i) <= x % Total(q) < Highest(q, i)
    {
      DrawIsResidue(q, cpu, x);
      WinningResidues(q, cpu, i, x % Total(q));
    }
  }

  lemma CountBlocks(k: nat, r: nat, w: nat, a: nat, b: nat)
    requires a <= b <= w && r < w
    ensures var c := |WithResidue(k * w + r, w, a, b)|;
            && c == k * (b - a) + Below(r, a, b)
            && k * (b - a) <= c <= (k + if r == 0 then 0 else 1) * (b - a)
  {
    CountResidues(k, r, w, a, b);
    MulPlus(k, 1, b - a);
    hide WithResidue;
  }

  lemma RoundedUp(n: nat, w: nat)
    requires w > 0
    ensures (n + w - 1) / w == n / w + if n % w == 0 then 0 else 1
  {
    DivBounds(n, w);
    DivBounds(n + w - 1, w);
    var q, u := n / w, (n + w - 1) / w;
    MulPlus(q, 1, w);
    MulPlus(q + 1, 1, w);
    if n % w == 0 {
      DivBetween(n + w - 1, w, q, q + 1);
    } else {
      DivBetween(n + w - 1, w, q + 1, q + 2);
    }
  }

  lemma CountBelow(n: nat, w: nat, a: nat, b: nat)
    requires a <= b <= w && w > 0
    ensures var c := |WithResidue(n, w, a, b)|;
            && c == n / w * (b - a) + Below(n % w, a, b)
            && n / w * (b - a) <= c <= (n + w - 1) / w * (b - a)
  {
    hide WithResidue, Below;
    RoundedUp(n, w);
    assert n == n / w * w + n % w;
    CountBlocks(n / w, n % w, w, a, b);
  }

  /** Exactly how many values of the random number choose task i: its tickets in each whole block of the
      weight sum, and in the part of a block that is left what falls into its interval. So the count lies
      between the tickets times the rounded-down and the rounded-up number of blocks. */
  lemma ExactDraws(q: seq<Task>, cpu: nat, i: nat)
    requires i < |q| && Total(q) < 0x8000_0000 && (forall t <- q :: t.weight >= 1) && Eligible(q[i], cpu)
    ensures Total(q) > 0 && Lowest(q, cpu, i) <= Highest(q, i) && Tickets(q, cpu, i) >= 0
    ensures var w, n := Total(q), |Draws(q, cpu, i)|;
            && n == RANDOMS / w * Tickets(q, cpu, i) + Below(RANDOMS % w, Lowest(q, cpu, i), Highest(q, i))
            && RANDOMS / w * Tickets(q, cpu, i) <= n <= (RANDOMS + w - 1) / w * Tickets(q, cpu, i)
  {
    hide SelectS32, Lowest, Prefix, Total, Eligible, Highest, Draws, WithResidue, Tickets, Below;
    WinningBounds(q, cpu, i);
    DrawsAreResidues(q, cpu, i);
    var w, lo, hi := Total(q), Lowest(q, cpu, i), Highest(q, i);
    CountBelow(RANDOMS, w, lo, hi);
  }

  /** An ineligible task is never chosen. */
  lemma NoDrawsForIneligible(q: seq<Task>, cpu: nat, i: nat)
    requires i < |q| && !Eligible(q[i], cpu)
    ensures Draws(q, cpu, i) == {}
  {
    hide SelectS32;
  }

  /** Some random number draws the last task exactly if it is eligible and either alone, or behind an
      ineligible task, or of weight 2 or more. */
  lemma LastDrawnExactly(q: seq<Task>, cpu: nat)
    requires q != [] && Total(q) < 0x8000_0000 && forall t <- q :: t.weight >= 1
    ensures var n := |q|;
            (exists x: U32 :: WeightedDraw(q, cpu, x) == Some(n - 1))
            <==> Eligible(q[n - 1], cpu) && (n == 1 || !Eligible(q[n - 2], cpu) || q[n - 1].weight >= 2)
  {
    hide SelectS32, WeightedDraw, Eligible, Total, Prefix;
    var n := |q|;
    var i := n - 1;
    WinningBounds(q, cpu, i);
    PrefixWhole(q);
    PrefixNext(q, i);
    assert Lowest(q, cpu, i) <= Total(q) - 1 <==> n == 1 || !Eligible(q[n - 2], cpu) || q[i].weight >= 2 by {
      if n >= 2 && !Eligible(q[n - 2], cpu) {
        LowestBelow(q, cpu, n - 2);
      }
      assert q[i] in q;
    }
    forall x: U32
      ensures WeightedDraw(q, cpu, x) == Some(i)
              <==> Eligible(q[i], cpu) && Lowest(q, cpu, i) <= x % Total(q)
    {
      DrawIsResidue(q, cpu, x);
      WinningResidues(q, cpu, i, x % Total(q));
      DivBounds(x, Total(q));
    }
    var x: U32 := Total(q) - 1;
    ResidueInBlock(0, Total(q), x);
    assert WeightedDraw(q, cpu, x) == Some(i) <==> Eligible(q[i], cpu) && Lowest(q, cpu, i) <= Total(q) - 1;
  }

  // ---------------------------------------------------------------- the unweighted lottery

  lemma {:induction false} UnitTotal(q: seq<Task>)
    ensures Total(Unit(q)) == |q|
  {
    if q != [] {
      UnitTotal(q[1..]);
    }
  }

  /** The unweighted lottery is the weighted one with every weight 1. */
  lemma UniformIsUnitWeighted(q: seq<Task>, cpu: nat, prandom: U32)
    requires |q| < 0x8000_0000
    ensures UniformDraw(q, cpu, prandom) == WeightedDraw(Unit(q), cpu, prandom)
  {
    hide SelectS32, ToS32, Unit, Total;
    UnitTotal(q);
    NoWrapU32(|q|);
  }

  lemma {:induction false} UnitWeights(q: seq<Task>, cpu: nat)
    ensures forall t <- Unit(q) :: t.weight == 1
    ensures forall i :: 0 <= i < |q| ==> Eligible(Unit(q)[i], cpu) == Eligible(q[i], cpu)
  {
  }

  /** In the unweighted lottery some random number draws the last task exactly if it is eligible and is alone
      or behind an ineligible task. */
  lemma UniformLastExactly(q: seq<Task>, cpu: nat)
    requires 0 < |q| < 0x8000_0000
    ensures var n := |q|;
            (exists x: U32 :: UniformDraw(q, cpu, x) == Some(n - 1))
            <==> Eligible(q[n - 1], cpu) && (n == 1 || !Eligible(q[n - 2], cpu))
  {
    hide UniformDraw, WeightedDraw, Unit, Eligible, Total;
    UnitTotal(q);
    UnitWeights(q, cpu);
    LastDrawnExactly(Unit(q), cpu);
    forall x: U32
      ensures UniformDraw(q, cpu, x) == WeightedDraw(Unit(q), cpu, x)
    {
      UniformIsUnitWeighted(q, cpu, x);
    }
    assert Unit(q)[|q| - 1] in Unit(q);
  }

  /** So of two or more tasks that are all eligible the last is never drawn, though some task always is. */
  lemma UniformNeverLast(q: seq<Task>, cpu: nat, prandom: U32)
    requires 2 <= |q| < 0x8000_0000 && forall t <- q :: Eligible(t, cpu)
    ensures UniformDraw(q, cpu, prandom) != Some(|q| - 1)
    ensures UniformDraw(q, cpu, prandom) != None
  {
    hide SelectS32, Unit, Total;
    var u, r := Unit(q), BpfMod(prandom, |q|);
    UnitTotal(q);
    UnitWeights(q, cpu);
    UniformLastExactly(q, cpu);
    PrefixWhole(u);
    NothingExactly(u, cpu, r);
    assert q[|q| - 2] in q && q[|q| - 1] in q;
    NoWrap(r);
  }

  /** A queue whose last task is drawn, by the random number 2: the task before it may not run here. */
  lemma LastDrawnBehindIneligible(cpu: nat)
    ensures var q := [Task(0, 1, {cpu}), Task(1, 1, {}), Task(2, 1, {cpu})];
            Eligible(q[0], cpu) && Eligible(q[2], cpu) && UniformDraw(q, cpu, 2) == Some(2)
  {
    var q := [Task(0, 1, {cpu}), Task(1, 1, {}), Task(2, 1, {cpu})];
    assert Unit(q) == q;
    assert ToS32(BpfMod(2, |q|)) == 2;
    assert q[1..][1..] == [q[2]];
    assert SelectS32([q[2]], cpu, 0) == Some(0);
    assert SelectS32(q[1..], cpu, 1) == Some(1);
    assert SelectS32(q, cpu, 2) == Some(2);
  }
}
