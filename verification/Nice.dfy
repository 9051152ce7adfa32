/**
  The two nice/weight scripts: n2w.sh maps a nice value to a scheduling weight through
  the kernel's table, and w2n.sh searches the nice value of a weight.
 */
module Nice {
  import opened Kernel

  const WEIGHTS: seq<nat> := [
    88761, 71755, 56483, 46273, 36291,
    29154, 23254, 18705, 14949, 11916,
     9548,  7620,  6100,  4904,  3906,
     3121,  2501,  1991,  1586,  1277,
     1024,   820,   655,   526,   423,
      335,   272,   215,   172,   137,
      110,    87,    70,    56,    45,
       36,    29,    23,    18,    15
  ]

  const CGROUP_WEIGHT_MIN := 1
  const CGROUP_WEIGHT_DFL := 100
  const CGROUP_WEIGHT_MAX := 10000

  /** compute_cgroup_weight: scale by 100/1024 rounding to the nearest, then clamp. */
  function CgroupWeight(weight: nat): int {
    var result := (weight * CGROUP_WEIGHT_DFL + 512) / 1024;
    if result < CGROUP_WEIGHT_MIN then CGROUP_WEIGHT_MIN
    else if result > CGROUP_WEIGHT_MAX then CGROUP_WEIGHT_MAX
    else result
  }

  predicate IsNice(nice: int) {
    -20 <= nice <= 19
  }

  function Weight(nice: int): int
    requires IsNice(nice)
  {
    CgroupWeight(WEIGHTS[nice + 20])
  }

  /** n2w.sh: None is the error exit. */
  function N2w(nice: int): Option<int> {
    if IsNice(nice) then Some(Weight(nice)) else None
  }

  lemma WeightsDescend(nice: int)
    requires IsNice(nice) && IsNice(nice + 1)
    ensures Weight(nice) >= Weight(nice + 1)
    ensures Weight(nice) == Weight(nice + 1) <==> nice == 14 || nice == 17
  {
  }

  /** One step of niceness is a factor of 1.25, to within 4%, and nice 0 is 1024. */
  lemma QuarterSteps(nice: int)
    requires IsNice(nice) && IsNice(nice + 1)
    ensures WEIGHTS[20] == 1024
    ensures var x, y := 4 * WEIGHTS[nice + 20], 5 * WEIGHTS[nice + 21]; 96 * y <= 100 * x <= 104 * y
  {
  }

  /** What n2w.sh prints for -20 to 19. */
  const PRINTED: seq<int> := [
    8668, 7007, 5516, 4519, 3544, 2847, 2271, 1827, 1460, 1164,
     932,  744,  596,  479,  381,  305,  244,  194,  155,  125,
     100,   80,   64,   51,   41,   33,   27,   21,   17,   13,
      11,    8,    7,    5,    4,    4,    3,    2,    2,    1
  ]

  lemma PrintedRounds(i: nat)
    requires i < 40
    ensures 1 <= PRINTED[i] <= 10000 && 1024 * PRINTED[i] - 512 <= 100 * WEIGHTS[i] < 1024 * PRINTED[i] + 512
  {
  }

  lemma RoundedOnce(weight: nat, r: int)
    requires 1 <= r <= 10000 && 1024 * r - 512 <= 100 * weight < 1024 * r + 512
    ensures CgroupWeight(weight) == r
  {
  }

  /** n2w.sh refuses every other number. */
  lemma RefusedExactly(nice: int)
    ensures N2w(nice).None? <==> nice < -20 || nice > 19
  {
  }

  /** The weight of every nice value; nice 0 has the default weight 100. */
  lemma WeightsExactly(nice: int)
    requires IsNice(nice)
    ensures N2w(nice) == Some(PRINTED[nice + 20])
    ensures N2w(0) == Some(100)
  {
    PrintedRounds(nice + 20);
    PrintedRounds(20);
    assert PRINTED[20] == 100;
    RoundedOnce(WEIGHTS[nice + 20], PRINTED[nice + 20]);
    RoundedOnce(WEIGHTS[20], 100);
    hide CgroupWeight;
  }

  lemma ExtremeWeights()
    ensures Weight(-20) == 8668 && Weight(19) == 1
  {
    assert WEIGHTS[-20 + 20] == 88761 && WEIGHTS[19 + 20] == 15;
  }

  lemma {:induction false} WeightsSorted(m: int, n: int)
    requires IsNice(m) && IsNice(n) && m <= n
    ensures Weight(m) >= Weight(n)
    ensures m < n ==> (Weight(m) == Weight(n) <==> (m == 14 && n == 15) || (m == 17 && n == 18))
    decreases n - m
  {
    hide Weight;
    if m < n {
      WeightsSorted(m, n - 1);
      WeightsDescend(n - 1);
      if m < n - 1 {
        WeightsDescend(m);
      }
    }
  }

  /** CgroupWeight is 100/1024 of its argument rounded to the nearest, halves up, within the two bounds. */
  lemma CgroupWeightRounds(weight: nat)
    ensures var r := CgroupWeight(weight);
            && 1 <= r <= 10000
            && (r > 1 ==> 1024 * r - 512 <= 100 * weight)
            && (r < 10000 ==> 100 * weight < 1024 * r + 512)
  {
  }

  function Distance(w: int, nice: int): nat
    requires IsNice(nice)
  {
    var d := w - Weight(nice);
    if d < 0 then -d else d
  }

  /** nice is the smallest among the nice values whose weights are nearest to w. */
  ghost predicate SmallestNearest(w: int, nice: int) {
    && IsNice(nice)
    && (forall m :: IsNice(m) ==> Distance(w, nice) <= Distance(w, m))
    && forall m :: -20 <= m < nice ==> Distance(w, nice) < Distance(w, m)
  }

  /** Where the initial distance of the search stands to the distances of the weights. */
  lemma OutOfReach(w: int)
    ensures 2 - 100000000 <= w <= 100008667 ==> Distance(w, 19) < 100000000 || Distance(w, -20) < 100000000
    ensures w > 100008667 ==> SmallestNearest(w, -20)
    ensures w < 2 - 100000000 ==> Distance(w, 19) < Distance(w, -20)
    ensures w < 2 - 100000000 ==> forall m :: IsNice(m) ==> Distance(w, m) >= 100000000
  {
    hide Weight;
    ExtremeWeights();
    forall m | IsNice(m)
      ensures 1 <= Weight(m) <= 8668
      ensures m == -20 || Weight(m) < 8668
    {
      WeightsSorted(-20, m);
      WeightsSorted(m, 19);
    }
  }

  /** compute_nice_value: exact for every weight from 2 - 100000000 up, so for every weight there is. */
  method W2n(w: int) returns (closest: int)
    ensures IsNice(closest)
    ensures SmallestNearest(w, closest) <==> w >= 2 - 100000000
    ensures w < 2 - 100000000 ==> closest == -20
  {
    hide Weight;
    ExtremeWeights();
    closest := -20;
    var minDiff := 100000000;
    for nice := -20 to 20
      invariant IsNice(closest)
      invariant minDiff == 100000000 ==> closest == -20
      invariant minDiff < 100000000 ==> closest < nice && minDiff == Distance(w, closest)
      invariant minDiff <= 100000000
      invariant forall m :: -20 <= m < nice ==> minDiff <= Distance(w, m)
      invariant minDiff < 100000000 ==> forall m :: -20 <= m < closest ==> minDiff < Distance(w, m)
      invariant forall m :: -20 <= m < nice && Distance(w, m) < 100000000 ==> minDiff < 100000000
    {
      var weight := N2w(nice).value;
      var diff := w - weight;
      if diff < 0 {
        diff := -diff;
      }
      if diff < minDiff {
        minDiff := diff;
        closest := nice;
      }
    }
    OutOfReach(w);
  }

  /** Among equally near weights the search takes the larger. */
  lemma TiesGoToLarger(w: int, n: int, m: int)
    requires SmallestNearest(w, n) && IsNice(m) && Distance(w, m) == Distance(w, n)
    ensures Weight(m) <= Weight(n)
  {
    hide Weight;
    WeightsSorted(n, m);
  }

  /** A larger weight never gets a larger nice value. */
  lemma NonIncreasing(w1: int, n1: int, w2: int, n2: int)
    requires SmallestNearest(w1, n1) && SmallestNearest(w2, n2) && w1 <= w2
    ensures n1 >= n2
  {
    hide Weight;
    if n1 < n2 {
      WeightsSorted(n1, n2);
    }
  }

  /** Searching the weight of a nice value keeps the weight, and keeps the nice value unless it is 15 or 18. */
  lemma RoundTrip(k: int, n: int)
    requires IsNice(k) && SmallestNearest(Weight(k), n)
    ensures N2w(n) == N2w(k)
    ensures n == k <==> k != 15 && k != 18
  {
    hide Weight;
    assert Distance(Weight(k), k) == 0;
    if n < k {
      WeightsSorted(n, k);
    }
    if k == 15 {
      WeightsSorted(14, 15);
    }
    if k == 18 {
      WeightsSorted(17, 18);
    }
  }
}
