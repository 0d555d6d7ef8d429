/** Three different devices: the greedy sweep can miss a partition that exists. */
module PlannerGap {
  import opened Basics
  import opened QueryTiling
  import opened RangeCost
  import opened Partition
  import opened Planner

  // Four one-query segments with 1, 1, 10 and 1 keys, half-precision heads of width 8;
  // the middle device computes five times slower.
  function Uneven(): Problem {
    var fast := Device(128, 32.0, 16000.0, 16000.0, 0.0);
    Problem([0, 1, 2, 3, 4], [0, 1, 2, 12, 13], [0, 1, 2, 3, 4], Shape(1, 1, 8, 2),
            [fast, fast.(flopsPerSecond := 6.4), fast])
  }

  lemma UnevenValid()
    ensures ValidProblem(Uneven())
  {
  }

  // Keys of cell x.
  function CellKeys(x: nat): nat {
    if x == 2 then 10 else 1
  }

  // Seconds of one query with k keys, with a compute factor of 1 or 5.
  lemma OneQuery(i: nat, k: nat)
    requires i < 3 && 1 <= k
    ensures ValidDevice(Uneven().devices[i])
    ensures SegmentSeconds(1, k, Uneven().shape, Uneven().devices[i]) == (if i == 1 then 5.0 else 1.0) * k as real
    ensures SegmentSeconds(0, k, Uneven().shape, Uneven().devices[i]) == 0.0
  {
    var device := Uneven().devices[i];
    assert Flops(1, k, Uneven().shape) == 32 * k && QBytes(1, Uneven().shape) == 16 && KvBytes(k, Uneven().shape) == 32 * k;
    assert (32 * k) as real == 32.0 * k as real && (16 + 32 * k) as real == 16.0 + 32.0 * k as real;
    assert 1.0 <= k as real;
  }

  // Work of the cells from x up to y, in keys, as the first n segments contribute it.
  function KeysBetween(x: nat, y: nat, n: nat): nat {
    if n == 0 then 0 else KeysBetween(x, y, n - 1) + if x <= n - 1 < y then CellKeys(n - 1) else 0
  }

  lemma {:induction false} UnevenSeconds(i: nat, x: nat, y: nat, n: nat)
    requires ValidProblem(Uneven()) && i < 3 && x <= y <= 4 && n <= 4
    ensures RangeSeconds(Uneven().qBounds, Uneven().kBounds, x, y, n, Uneven().shape, Uneven().devices[i])
         == (if i == 1 then 5.0 else 1.0) * KeysBetween(x, y, n) as real
  {
    var p := Uneven();
    if n > 0 {
      UnevenSeconds(i, x, y, n - 1);
      assert p.kBounds[n] - p.kBounds[n - 1] == CellKeys(n - 1);
      assert Met(p.qBounds, n - 1, x, y) == if x <= n - 1 < y then 1 else 0;
      OneQuery(i, CellKeys(n - 1));
    }
  }

  lemma UnevenCost(i: nat, x: nat, y: nat)
    requires ValidProblem(Uneven()) && i < 3 && x <= y <= 4
    ensures Seconds(Uneven(), i, x, y) == (if i == 1 then 5.0 else 1.0) * KeysBetween(x, y, 4) as real
  {
    UnevenSeconds(i, x, y, 4);
    assert Uneven().candidates[x] == x && Uneven().candidates[y] == y;
  }

  lemma UnevenKeys()
    ensures KeysBetween(0, 1, 4) == 1 && KeysBetween(0, 2, 4) == 2 && KeysBetween(1, 2, 4) == 1
    ensures KeysBetween(2, 3, 4) == 10 && KeysBetween(2, 4, 4) == 11 && KeysBetween(1, 3, 4) == 11
  {
    assert KeysBetween(0, 1, 1) == 1 && KeysBetween(0, 1, 2) == 1 && KeysBetween(0, 1, 3) == 1;
    assert KeysBetween(0, 2, 1) == 1 && KeysBetween(0, 2, 2) == 2 && KeysBetween(0, 2, 3) == 2;
    assert KeysBetween(1, 2, 1) == 0 && KeysBetween(1, 2, 2) == 1 && KeysBetween(1, 2, 3) == 1;
    assert KeysBetween(2, 3, 1) == 0 && KeysBetween(2, 3, 2) == 0 && KeysBetween(2, 3, 3) == 10;
    assert KeysBetween(2, 4, 1) == 0 && KeysBetween(2, 4, 2) == 0 && KeysBetween(2, 4, 3) == 10;
    assert KeysBetween(1, 3, 1) == 0 && KeysBetween(1, 3, 2) == 1 && KeysBetween(1, 3, 3) == 11;
  }

  /**
   A partition of makespan 11 exists, yet the planner can only return the cuts whose
   middle piece takes 50, whatever threshold the bisection tries.
   */
  lemma GreedyMissesOptimum()
    ensures ValidProblem(Uneven())
    ensures CutVector(Uneven(), [0, 1, 2, 4]) && Within(Uneven(), [0, 1, 2, 4], 11.0)
    ensures forall best :: Swept(Uneven(), best) && best.Some? ==>
              best.value == [0, 2, 3, 4] && CutVector(Uneven(), best.value)
              && forall bound :: Within(Uneven(), best.value, bound) ==> bound >= 50.0
  {
    hide Uneven, ValidProblem, Greedy, CutVector, Within;
    UnevenValid();
    EarlyCuts();
    forall best | Swept(Uneven(), best) && best.Some?
      ensures best.value == [0, 2, 3, 4]
    {
      var threshold :| Greedy(Uneven(), threshold) == best;
      SweepTakesLate(threshold);
    }
    LateCuts(0.0);
    forall bound | Within(Uneven(), [0, 2, 3, 4], bound)
      ensures bound >= 50.0
    {
      LateCuts(bound);
    }
  }

  lemma EarlyCuts()
    requires ValidProblem(Uneven())
    ensures CutVector(Uneven(), [0, 1, 2, 4]) && Within(Uneven(), [0, 1, 2, 4], 11.0)
  {
    UnevenKeys();
    UnevenCost(0, 0, 1);
    UnevenCost(1, 1, 2);
    UnevenCost(2, 2, 4);
    var p, cuts := Uneven(), [0, 1, 2, 4];
    hide ValidProblem, Seconds, KeysBetween;
    assert PieceWithin(p, cuts, 0, 11.0) && PieceWithin(p, cuts, 1, 11.0) && PieceWithin(p, cuts, 2, 11.0);
  }

  lemma LateCuts(bound: real)
    requires ValidProblem(Uneven())
    ensures CutVector(Uneven(), [0, 2, 3, 4]) && (Within(Uneven(), [0, 2, 3, 4], bound) ==> bound >= 50.0)
  {
    UnevenKeys();
    UnevenCost(1, 2, 3);
    var p, cuts := Uneven(), [0, 2, 3, 4];
    hide ValidProblem, Seconds, KeysBetween;
    if Within(p, cuts, bound) {
      assert PieceWithin(p, cuts, 1, bound);
    }
  }

  lemma SweepTakesLate(threshold: real)
    requires ValidProblem(Uneven()) && Greedy(Uneven(), threshold).Some?
    ensures Greedy(Uneven(), threshold).value == [0, 2, 3, 4]
  {
    hide ValidProblem, Seconds, KeysBetween;
    UnevenKeys();
    UnevenCost(0, 0, 1);
    UnevenCost(0, 0, 2);
    UnevenCost(1, 1, 2);
    UnevenCost(1, 1, 3);
    UnevenCost(1, 2, 3);
    UnevenCost(2, 2, 4);
    var p := Uneven();
    FurthestReaches(p, 0, 0, 2, threshold);
    var first := Furthest(p, 0, 0, 2, threshold);
    assert GreedyFrom(p, 0, 0, threshold).Some? && first.Some?;
    FurthestReaches(p, 1, first.value, 3, threshold);
    var second := Furthest(p, 1, first.value, 3, threshold);
    assert GreedyFrom(p, 1, first.value, threshold).Some? && second.Some?;
    assert GreedyFrom(p, 2, second.value, threshold) == Some([4]);
  }
}
