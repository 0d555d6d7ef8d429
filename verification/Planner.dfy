/** The static multi-device planner: candidate cuts, binary search, bisection of the threshold. */
module Planner {
  import opened Basics
  import opened QueryTasks
  import opened QueryTiling
  import opened RangeCost
  import opened Partition
  import opened Sorting

  // ----- Candidate cuts

  // A segment bound, or a multiple of the alignment inside a segment.
  ghost predicate Candidate(qBounds: seq<int>, alignment: nat, c: int) {
    c in qBounds || exists s, k: nat :: Inside(qBounds, alignment, c, s, k)
  }

  ghost predicate Inside(qBounds: seq<int>, alignment: nat, c: int, s: int, k: nat) {
    0 <= s < |qBounds| - 1 && k > 0 && c == qBounds[s] + k * alignment < qBounds[s + 1]
  }

  // The positions start + alignment, start + 2 * alignment, ... before the segment's end.
  method InnerCuts(qBounds: seq<int>, alignment: nat, s: nat) returns (inner: set<int>)
    requires s + 1 < |qBounds| && alignment > 0
    ensures forall c :: c in inner ==> exists k: nat :: Inside(qBounds, alignment, c, s, k)
    ensures forall c, k: nat :: Inside(qBounds, alignment, c, s, k) ==> c in inner
  {
    inner := {};
    var c, k := qBounds[s] + alignment, 1;
    while c < qBounds[s + 1]
      invariant c == qBounds[s] + k * alignment && k > 0
      invariant forall d :: d in inner ==> exists m: nat :: Inside(qBounds, alignment, d, s, m)
      invariant forall d, m: nat :: Inside(qBounds, alignment, d, s, m) && m < k ==> d in inner
      decreases qBounds[s + 1] - c
    {
      assert Inside(qBounds, alignment, c, s, k);
      inner := inner + {c};
      c, k := c + alignment, k + 1;
    }
    forall d, m: nat | Inside(qBounds, alignment, d, s, m)
      ensures d in inner
    {
      if m >= k {
        Scaled(k, m, alignment);
      }
    }
  }

  method CandidateCuts(qBounds: seq<int>, alignment: nat) returns (cuts: seq<int>)
    requires |qBounds| >= 2 && NonDecreasing(qBounds) && alignment > 0
    ensures forall x, y :: 0 <= x < y < |cuts| ==> cuts[x] < cuts[y]
    ensures forall c :: c in cuts <==> Candidate(qBounds, alignment, c)
    ensures |cuts| > 0 && cuts[0] == qBounds[0] && cuts[|cuts| - 1] == qBounds[|qBounds| - 1]
  {
    hide NonDecreasing, Inside;
    var found: set<int> := {qBounds[0], qBounds[|qBounds| - 1]};
    for s := 0 to |qBounds| - 1
      invariant forall c :: c in found ==> Candidate(qBounds, alignment, c)
      invariant forall r :: 0 <= r <= s ==> qBounds[r] in found
      invariant qBounds[|qBounds| - 1] in found
      invariant forall c, r, k: nat :: 0 <= r < s && Inside(qBounds, alignment, c, r, k) ==> c in found
    {
      var inner := InnerCuts(qBounds, alignment, s);
      found := found + {qBounds[s], qBounds[s + 1]} + inner;
    }
    InsideBounds(qBounds, alignment);
    assert forall c :: c in found <==> Candidate(qBounds, alignment, c);
    var before := (a: int, b: int) => a <= b;
    cuts := Arrange(found, before);
    assert forall i, j :: 0 <= i < j < |cuts| ==> before(cuts[i], cuts[j]);
    EndsAreBounds(qBounds, alignment, cuts);
  }

  lemma InsideBounds(qBounds: seq<int>, alignment: nat)
    ensures forall c, s, k: nat :: Inside(qBounds, alignment, c, s, k) ==> 0 <= s < |qBounds| - 1
  {
  }

  lemma EndsAreBounds(qBounds: seq<int>, alignment: nat, cuts: seq<int>)
    requires |qBounds| >= 2 && NonDecreasing(qBounds) && alignment > 0
    requires forall x, y :: 0 <= x < y < |cuts| ==> cuts[x] < cuts[y]
    requires forall c :: c in cuts ==> Candidate(qBounds, alignment, c)
    requires qBounds[0] in cuts && qBounds[|qBounds| - 1] in cuts
    ensures |cuts| > 0 && cuts[0] == qBounds[0] && cuts[|cuts| - 1] == qBounds[|qBounds| - 1]
  {
    forall c | c in cuts
      ensures qBounds[0] <= c <= qBounds[|qBounds| - 1]
    {
      assert Candidate(qBounds, alignment, c);
      if c !in qBounds {
        var s, k: nat :| Inside(qBounds, alignment, c, s, k);
        Scaled(0, k, alignment);
      }
    }
    var a :| 0 <= a < |cuts| && cuts[a] == qBounds[0];
    var b :| 0 <= b < |cuts| && cuts[b] == qBounds[|qBounds| - 1];
    assert cuts[0] in cuts && cuts[|cuts| - 1] in cuts;
  }

  // ----- Threshold search

  method RangeEstimate(p: Problem, i: nat, x: nat, y: nat) returns (seconds: real)
    requires ValidProblem(p) && i < |p.devices| && x <= y < |p.candidates|
    ensures seconds == Seconds(p, i, x, y)
  {
    var a, b := p.candidates[x], p.candidates[y];
    RangeInside(p, x, y);
    var device := p.devices[i];
    var tiling := BuildQueryTasks(p.qBounds, p.kBounds, device.chunk, a, b);
    var tasks := tiling.tasks;
    RangeTasksCost(p.qBounds, p.kBounds, a, b, |p.qBounds| - 1, p.shape, device);
    seconds := 0.0;
    for k := 0 to |tasks|
      invariant seconds + TotalSeconds(tasks[k..], p.shape, device) == TotalSeconds(tasks, p.shape, device)
    {
      hide ValidProblem, TaskSeconds;
      assert tasks[k..][1..] == tasks[k + 1..] && tasks[k] in tasks;
      seconds := seconds + TaskSeconds(tasks[k], p.shape, device);
    }
  }

  lemma RangeInside(p: Problem, x: nat, y: nat)
    requires ValidProblem(p) && x <= y < |p.candidates|
    ensures 0 <= p.candidates[x] <= p.candidates[y] <= p.qBounds[|p.qBounds| - 1]
    ensures KeysFor(p.qBounds, p.kBounds, p.candidates[x], p.candidates[y], |p.qBounds| - 1)
  {
    assert x == 0 || p.candidates[0] < p.candidates[x];
    assert y == |p.candidates| - 1 || p.candidates[y] < p.candidates[|p.candidates| - 1];
  }

  lemma FurthestIs(p: Problem, i: nat, start: nat, max: nat, threshold: real, best: Option<nat>)
    requires ValidProblem(p) && i < |p.devices| && start < |p.candidates| && max < |p.candidates|
    requires best.Some? ==> start < best.value <= max && Seconds(p, i, start, best.value) <= threshold
    requires forall y :: (if best.Some? then best.value else start) < y <= max ==> Seconds(p, i, start, y) > threshold
    ensures best == Furthest(p, i, start, max, threshold)
  {
    hide ValidProblem;
    FurthestReaches(p, i, start, max, threshold);
  }

  /** Binary search finds the furthest cut because estimates are monotone. */
  method FurthestCut(p: Problem, i: nat, start: nat, max: nat, threshold: real) returns (best: Option<nat>)
    requires ValidProblem(p) && i < |p.devices| && start < |p.candidates| && max < |p.candidates|
    ensures best == Furthest(p, i, start, max, threshold)
  {
    hide ValidProblem, Seconds;
    var low, high: int := start + 1, max;
    best := None;
    while low <= high
      invariant start + 1 <= low && high <= max
      invariant best.None? ==> low == start + 1
      invariant best.Some? ==> start < best.value == low - 1 <= max && Seconds(p, i, start, best.value) <= threshold
      invariant forall y: nat :: high < y <= max ==> Seconds(p, i, start, y) > threshold
      decreases high - low
    {
      var middle := (low + high) / 2;
      var seconds := RangeEstimate(p, i, start, middle);
      if seconds <= threshold {
        best := Some(middle);
        low := middle + 1;
      } else {
        forall y: nat | middle <= y <= max
          ensures Seconds(p, i, start, y) > threshold
        {
          SecondsMonotone(p, i, start, middle, start, y);
        }
        high := middle - 1;
      }
    }
    FurthestIs(p, i, start, max, threshold, best);
  }

  // Prefixing the cuts already chosen.
  function Joined(cuts: seq<nat>, rest: Option<seq<nat>>): Option<seq<nat>> {
    if rest.None? then None else Some(cuts + rest.value)
  }

  method PartitionForThreshold(p: Problem, threshold: real) returns (cuts: Option<seq<nat>>)
    requires ValidProblem(p)
    ensures cuts == Greedy(p, threshold)
  {
    hide ValidProblem, Seconds, Furthest;
    RoomForAll(p);
    var chosen: seq<nat>, current: nat := [0], 0;
    for i := 0 to |p.devices| - 1
      invariant current < |p.candidates|
      invariant Joined(chosen, GreedyFrom(p, i, current, threshold)) == Greedy(p, threshold)
    {
      var cut := FurthestCut(p, i, current, Last(p) - (|p.devices| - i - 1), threshold);
      if cut.None? {
        return None;
      }
      ghost var rest := GreedyFrom(p, i + 1, cut.value, threshold);
      if rest.Some? {
        assert chosen + ([cut.value] + rest.value) == chosen + [cut.value] + rest.value;
      }
      chosen := chosen + [cut.value];
      current := cut.value;
    }
    var seconds := RangeEstimate(p, |p.devices| - 1, current, Last(p));
    if current >= Last(p) || seconds > threshold {
      return None;
    }
    cuts := Some(chosen + [Last(p)]);
  }

  function Halved(x: real, k: nat): real {
    if k == 0 then x else Halved(x, k - 1) / 2.0
  }

  function Power(k: nat): real {
    if k == 0 then 1.0 else 2.0 * Power(k - 1)
  }

  // Halving k times divides by the k-th power of two.
  lemma {:induction false} HalvedTimes(x: real, k: nat)
    ensures Halved(x, k) * Power(k) == x
  {
    if k > 0 {
      HalvedTimes(x, k - 1);
      var h, q := Halved(x, k - 1), Power(k - 1);
      assert (h / 2.0) * (2.0 * q) == h * q;
    }
  }

  // The time the slowest device would need for everything.
  function Whole(p: Problem, n: nat): real
    requires ValidProblem(p) && n <= |p.devices|
  {
    if n == 0 then 0.0 else Larger(Whole(p, n - 1), Seconds(p, n - 1, 0, Last(p)))
  }

  // These cuts meet the threshold, and no middle device is too slow for a cell they leave to a later one.
  ghost predicate Attainable(p: Problem, cuts: seq<nat>, threshold: real)
    requires ValidProblem(p)
  {
    CutVector(p, cuts) && Within(p, cuts, threshold) && Unhindered(p, cuts, threshold)
  }

  // Each pair of neighbouring cuts as a query range.
  ghost predicate RangesOf(p: Problem, cuts: seq<nat>, ranges: seq<(int, int)>)
    requires ValidProblem(p) && CutVector(p, cuts)
  {
    |ranges| == |p.devices| &&
    forall i: nat :: i < |ranges| ==> RangeOf(p, cuts, ranges[i], i)
  }

  ghost predicate RangeOf(p: Problem, cuts: seq<nat>, range: (int, int), i: nat)
    requires ValidProblem(p) && CutVector(p, cuts) && i < |p.devices|
  {
    InRange(p, cuts, i);
    range == (p.candidates[cuts[i]], p.candidates[cuts[i + 1]])
  }

  // Nonempty, end to end, covering every query.
  ghost predicate SplitsQueries(p: Problem, ranges: seq<(int, int)>)
    requires ValidProblem(p)
  {
    && |ranges| == |p.devices| && ranges[0].0 == 0 && ranges[|ranges| - 1].1 == p.qBounds[|p.qBounds| - 1]
    && (forall i :: 0 <= i < |ranges| ==> ranges[i].0 < ranges[i].1)
    && forall i :: 0 <= i < |ranges| - 1 ==> Adjoin(ranges, i)
  }

  predicate Adjoin(ranges: seq<(int, int)>, i: nat)
    requires i + 1 < |ranges|
  {
    ranges[i].1 == ranges[i + 1].0
  }

  lemma RangesSplit(p: Problem, cuts: seq<nat>, ranges: seq<(int, int)>)
    requires ValidProblem(p) && CutVector(p, cuts) && RangesOf(p, cuts, ranges)
    ensures SplitsQueries(p, ranges)
  {
    forall i: nat | i < |ranges|
      ensures ranges[i].0 < ranges[i].1 && ranges[i] == (p.candidates[cuts[i]], p.candidates[cuts[i + 1]])
    {
      assert RangeOf(p, cuts, ranges[i], i);
      InRange(p, cuts, i);
    }
  }

  // A threshold at which the sweep fails is below every attainable one.
  lemma FailsBelow(p: Problem, lower: real, cuts: seq<nat>, threshold: real)
    requires ValidProblem(p) && Greedy(p, lower).None? && Attainable(p, cuts, threshold)
    ensures lower < threshold
  {
    if threshold <= lower {
      LooserWithin(p, cuts, threshold, lower);
      GreedyComplete(p, lower, cuts);
      assert false;
    }
  }

  lemma ThresholdNonNegative(p: Problem, cuts: seq<nat>, threshold: real)
    requires ValidProblem(p) && CutVector(p, cuts) && Within(p, cuts, threshold)
    ensures 0.0 <= threshold
  {
    WithinPiece(p, cuts, 0, threshold);
    InRange(p, cuts, 0);
    SecondsMonotone(p, 0, cuts[0], cuts[1], cuts[0], cuts[1]);
  }

  // The cuts come from the greedy sweep at some threshold.
  ghost predicate Swept(p: Problem, best: Option<seq<nat>>)
    requires ValidProblem(p)
  {
    best.None? || exists threshold :: Greedy(p, threshold) == best
  }

  // The bounds of the bisection after k rounds.
  ghost predicate Bracketed(p: Problem, k: nat, lower: real, upper: real, best: Option<seq<nat>>)
    requires ValidProblem(p)
  {
    && upper - lower == Halved(Whole(p, |p.devices|), k)
    && (lower == 0.0 || Greedy(p, lower).None?)
    && (best.None? ==> upper == Whole(p, |p.devices|))
    && (best.Some? ==> CutVector(p, best.value) && Within(p, best.value, upper)) && Swept(p, best)
  }

  lemma RoundBracketed(p: Problem, k: nat, lower: real, upper: real, best: Option<seq<nat>>)
    requires ValidProblem(p) && Bracketed(p, k, lower, upper, best)
    ensures var threshold := (lower + upper) / 2.0; var cuts := Greedy(p, threshold);
            if cuts.None? then Bracketed(p, k + 1, threshold, upper, best) else Bracketed(p, k + 1, lower, threshold, cuts)
  {
    hide ValidProblem, Greedy, Within;
    var threshold := (lower + upper) / 2.0;
    if Greedy(p, threshold).Some? {
      GreedySound(p, threshold);
    }
  }

  /** The bisection ends within Whole / 2^60 of every attainable threshold. */
  lemma BracketNear(p: Problem, lower: real, upper: real, best: Option<seq<nat>>, cuts: seq<nat>, threshold: real)
    requires ValidProblem(p) && Bracketed(p, 60, lower, upper, best) && Attainable(p, cuts, threshold)
    ensures Achieves(p, best, threshold)
  {
    hide ValidProblem, Greedy, Within, Halved, Unhindered;
    ThresholdNonNegative(p, cuts, threshold);
    if lower != 0.0 {
      FailsBelow(p, lower, cuts, threshold);
    }
    if best.Some? {
      LooserWithin(p, best.value, upper, threshold + Halved(Whole(p, |p.devices|), 60));
    }
  }

  // The best cuts meet the threshold up to the last gap of the bisection, or the threshold is no less than one device needs for everything.
  ghost predicate Achieves(p: Problem, best: Option<seq<nat>>, threshold: real)
    requires ValidProblem(p)
  {
    var slack := Halved(Whole(p, |p.devices|), 60);
    if best.Some? then CutVector(p, best.value) && Within(p, best.value, threshold + slack)
    else Whole(p, |p.devices|) - slack <= threshold
  }

  ghost predicate Near(p: Problem, best: Option<seq<nat>>)
    requires ValidProblem(p)
  {
    forall cuts, threshold :: Attainable(p, cuts, threshold) ==> Achieves(p, best, threshold)
  }

  // The ranges are those of these cuts, or both are missing.
  ghost predicate Answers(p: Problem, ranges: Option<seq<(int, int)>>, best: Option<seq<nat>>)
    requires ValidProblem(p)
  {
    Swept(p, best) &&
    if best.None? then ranges.None?
    else ranges.Some? && CutVector(p, best.value) && RangesOf(p, best.value, ranges.value)
  }

  /**
   Returns nonempty adjoining ranges, those of a greedy sweep, whose makespan is within
   Whole / 2^60 of every partition that leaves no cell to a later device on which a
   middle device would be slower than the whole partition.
   */
  method PartitionQueryRanges(p: Problem) returns (ranges: Option<seq<(int, int)>>)
    requires ValidProblem(p)
    ensures exists best :: Answers(p, ranges, best) && Near(p, best)
    ensures ranges.Some? ==> SplitsQueries(p, ranges.value)
  {
    hide ValidProblem, Greedy, Seconds, Within, Unhindered, Halved, RangesOf, SplitsQueries;
    RoomForAll(p);
    var lower, upper := 0.0, 0.0;
    for i := 0 to |p.devices|
      invariant upper == Whole(p, i)
    {
      var seconds := RangeEstimate(p, i, 0, Last(p));
      upper := Larger(upper, seconds);
    }
    var found: Option<seq<nat>> := None;
    assert Halved(upper, 0) == upper by { HalvedTimes(upper, 0); }
    for k := 0 to 60
      invariant Bracketed(p, k, lower, upper, found)
    {
      RoundBracketed(p, k, lower, upper, found);
      var threshold := (lower + upper) / 2.0;
      var cuts := PartitionForThreshold(p, threshold);
      if cuts.None? {
        lower := threshold;
      } else {
        upper := threshold;
        found := cuts;
      }
    }
    ghost var best := found;
    forall cuts, threshold | Attainable(p, cuts, threshold)
      ensures Achieves(p, best, threshold)
    {
      BracketNear(p, lower, upper, found, cuts, threshold);
    }
    if found.None? {
      ranges := None;
    } else {
      var pairs := CutPairs(p, found.value);
      ranges := Some(pairs);
    }
    assert Answers(p, ranges, best) && Near(p, best);
  }

  method CutPairs(p: Problem, cuts: seq<nat>) returns (ranges: seq<(int, int)>)
    requires ValidProblem(p) && CutVector(p, cuts)
    ensures RangesOf(p, cuts, ranges) && SplitsQueries(p, ranges)
  {
    ranges := [];
    for i := 0 to |p.devices|
      invariant |ranges| == i && forall j: nat :: j < i ==> RangeOf(p, cuts, ranges[j], j)
    {
      InRange(p, cuts, i);
      ranges := ranges + [(p.candidates[cuts[i]], p.candidates[cuts[i + 1]])];
    }
    RangesSplit(p, cuts, ranges);
  }

  /** With every middle device at most `extra` slower on a cell than the devices after it, no partition wins by more. */
  lemma NearlyOptimal(p: Problem, best: Option<seq<nat>>, cuts: seq<nat>, threshold: real, extra: real)
    requires ValidProblem(p) && 0.0 <= extra && NearlyFirst(p, extra) && Near(p, best)
    requires CutVector(p, cuts) && Within(p, cuts, threshold)
    ensures Achieves(p, best, threshold + extra)
  {
    PartitionBoundsCells(p, threshold, cuts, extra);
    assert Attainable(p, cuts, threshold + extra);
  }

  /** Middle devices no slower than later ones, as two devices or identical ones always are: no partition beats the planner. */
  lemma NearOptimal(p: Problem, best: Option<seq<nat>>, cuts: seq<nat>, threshold: real)
    requires ValidProblem(p) && MiddleFirst(p) && Near(p, best)
    requires CutVector(p, cuts) && Within(p, cuts, threshold)
    ensures Achieves(p, best, threshold)
  {
    NearlyOptimal(p, best, cuts, threshold, 0.0);
  }

  /** Any devices: the planner exceeds the optimum only up to the time a middle device takes for one cell. */
  lemma WithinSlowestCell(p: Problem, best: Option<seq<nat>>, cuts: seq<nat>, threshold: real, slowest: real)
    requires ValidProblem(p) && Near(p, best) && CutVector(p, cuts) && Within(p, cuts, threshold)
    requires forall i: nat, x: nat :: 0 < i < |p.devices| - 1 && x < Last(p) ==> Cell(p, i, x) <= slowest
    ensures Achieves(p, best, Larger(threshold, slowest))
  {
    var bound := Larger(threshold, slowest);
    LooserWithin(p, cuts, threshold, bound);
    hide ValidProblem, Within;
    assert Attainable(p, cuts, bound);
  }
}
