/** Devices out of order: batches on which every sweep misses a partition by any given time. */
module FleetGap {
  import opened Basics
  import opened QueryTiling
  import opened RangeCost
  import opened Partition
  import opened Planner
  import opened FleetOrder

  // Devices i and j out of order on blocks of q rows.
  datatype Order = Order(shape: Shape, devices: seq<Device>, i: nat, j: nat, q: nat)
  {
    ghost predicate Valid() {
      && ValidFleet(devices) && 0 < i < j < |devices| && q >= 1 && shape.qHeads > 0 && shape.headDim > 0
    }

    // Segments of the batch: one for each device, and j - i more.
    function Count(): nat
      requires i < j < |devices|
    {
      |devices| - i + j
    }

    function Rows(s: nat): nat { if s == j then q else 1 }

    // Position of segment x when segment j has `big` and the others one of something.
    function Bound(x: nat, big: nat): nat { if x <= j then x else x - 1 + big }

    function Bounds(big: nat): seq<int>
      requires i < j < |devices|
    {
      seq(Count() + 1, x requires 0 <= x => Bound(x, big))
    }

    // One-query segments with one key, around a segment j of q queries and k keys.
    function Lopsided(k: nat): Problem
      requires i < j < |devices|
    {
      Problem(Bounds(q), Bounds(k), Bounds(q), shape, devices)
    }
  }

  lemma LopsidedValid(o: Order, k: nat, alignment: nat)
    requires o.Valid() && k >= 1 && o.q <= alignment
    ensures ValidProblem(o.Lopsided(k)) && Batch(o.Lopsided(k), o.shape, o.devices, alignment)
    ensures Last(o.Lopsided(k)) == o.Count()
  {
    var p := o.Lopsided(k);
    forall c, s, m: nat
      ensures !Inside(p.qBounds, alignment, c, s, m)
    {
      if Inside(p.qBounds, alignment, c, s, m) {
        Scaled(1, m, alignment);
        assert false;
      }
    }
  }

  // ----- What the cells cost

  function Tiny(o: Order, d: nat): real
    requires o.Valid() && d < |o.devices|
  {
    SegmentSeconds(1, 1, o.shape, o.devices[d])
  }

  function Big(o: Order, k: nat, d: nat): real
    requires o.Valid() && d < |o.devices|
  {
    SegmentSeconds(o.q, k, o.shape, o.devices[d])
  }

  lemma TimesStep(n: nat, x: real)
    ensures Times(n + 1, x) == Times(n, x) + x && Times(0, x) == 0.0
  {
  }

  lemma TimesMonotone(n: nat, m: nat, x: real)
    requires n <= m && x >= 0.0
    ensures 0.0 <= Times(n, x) <= Times(m, x)
  {
    assert (m - n) as real * x >= 0.0 && n as real * x >= 0.0;
    assert m as real == n as real + (m - n) as real;
  }

  // Small cells among the first n segments between x and y.
  function Small(o: Order, x: nat, y: nat, n: nat): nat {
    if n == 0 then 0 else Small(o, x, y, n - 1) + if x <= n - 1 < y && n - 1 != o.j then 1 else 0
  }

  lemma {:induction false} SmallWithin(o: Order, x: nat, y: nat, n: nat)
    ensures Small(o, x, y, n) <= n
  {
    if n > 0 {
      SmallWithin(o, x, y, n - 1);
    }
  }

  lemma SegmentMet(o: Order, k: nat, x: nat, y: nat, s: nat)
    requires o.Valid() && k >= 1 && x <= y <= o.Count() && s < o.Count()
    ensures var p := o.Lopsided(k);
            && Met(p.qBounds, s, p.qBounds[x], p.qBounds[y]) == (if x <= s < y then o.Rows(s) else 0)
            && p.kBounds[s + 1] - p.kBounds[s] == if s == o.j then k else 1
  {
  }

  lemma {:induction false} RangeCells(o: Order, k: nat, d: nat, x: nat, y: nat, n: nat)
    requires o.Valid() && k >= 1 && ValidProblem(o.Lopsided(k)) && d < |o.devices| && x <= y <= o.Count() && n <= o.Count()
    ensures var p := o.Lopsided(k);
            RangeSeconds(p.qBounds, p.kBounds, p.qBounds[x], p.qBounds[y], n, p.shape, p.devices[d])
            == Times(Small(o, x, y, n), Tiny(o, d)) + if x <= o.j < y && o.j < n then Big(o, k, d) else 0.0
  {
    hide SegmentSeconds, Times, ValidProblem, Met;
    if n == 0 {
      TimesStep(0, Tiny(o, d));
    } else {
      RangeCells(o, k, d, x, y, n - 1);
      SegmentMet(o, k, x, y, n - 1);
      TimesStep(Small(o, x, y, n - 1), Tiny(o, d));
      NoRows(k, o.shape, o.devices[d]);
      NoRows(1, o.shape, o.devices[d]);
    }
  }

  // Every piece of small cells, on any device, takes at most this long.
  function SmallTotal(o: Order, n: nat): real
    requires o.Valid() && n <= |o.devices|
  {
    if n == 0 then 0.0 else SmallTotal(o, n - 1) + Times(o.Count(), Tiny(o, n - 1))
  }

  function Ceiling(o: Order): real
    requires o.Valid()
  {
    SmallTotal(o, |o.devices|)
  }

  lemma {:induction false} SmallInTotal(o: Order, d: nat, n: nat)
    requires o.Valid() && n <= |o.devices|
    ensures SmallTotal(o, n) >= 0.0
    ensures d < n ==> Times(o.Count(), Tiny(o, d)) <= SmallTotal(o, n)
  {
    if n > 0 {
      hide Times, Tiny;
      SmallInTotal(o, d, n - 1);
      TinyPositive(o, n - 1);
      TimesMonotone(0, o.Count(), Tiny(o, n - 1));
      TimesStep(0, Tiny(o, n - 1));
    }
  }

  lemma TinyPositive(o: Order, d: nat)
    requires o.Valid() && d < |o.devices|
    ensures Tiny(o, d) >= 0.0
  {
    SegmentMonotone(0, 1, 1, o.shape, o.devices[d]);
  }

  /** Seconds between two cuts: small cells stay below the ceiling, and cell j costs what it costs. */
  lemma PieceCost(o: Order, k: nat, d: nat, x: nat, y: nat)
    requires o.Valid() && k >= 1 && ValidProblem(o.Lopsided(k)) && d < |o.devices| && x <= y <= o.Count()
    ensures var p := o.Lopsided(k); var big := if x <= o.j < y then Big(o, k, d) else 0.0;
            x < |p.candidates| && y < |p.candidates| && big <= Seconds(p, d, x, y) <= big + Ceiling(o)
  {
    hide Times, Tiny, Big, SmallTotal, ValidProblem;
    RangeCells(o, k, d, x, y, o.Count());
    SmallWithin(o, x, y, o.Count());
    TinyPositive(o, d);
    TimesMonotone(0, Small(o, x, y, o.Count()), Tiny(o, d));
    TimesStep(0, Tiny(o, d));
    TimesMonotone(Small(o, x, y, o.Count()), o.Count(), Tiny(o, d));
    SmallInTotal(o, d, |o.devices|);
  }

  // ----- A partition that leaves cell j to device j

  function Fair(o: Order): seq<nat>
    requires o.Valid()
  {
    seq(|o.devices| + 1, d requires 0 <= d => if d <= o.j then d else d + o.j - o.i)
  }

  lemma FairWithin(o: Order, k: nat)
    requires o.Valid() && k >= 1 && ValidProblem(o.Lopsided(k))
    ensures CutVector(o.Lopsided(k), Fair(o)) && Within(o.Lopsided(k), Fair(o), Big(o, k, o.j) + Ceiling(o))
  {
    hide ValidProblem, Big, Seconds, SmallTotal;
    var p, cuts := o.Lopsided(k), Fair(o);
    BigPositive(o, k, o.j);
    SmallInTotal(o, 0, |o.devices|);
    assert CutVector(p, cuts);
    var bound := Big(o, k, o.j) + Ceiling(o);
    forall d: nat | d < |p.devices|
      ensures PieceWithin(p, cuts, d, bound)
    {
      PieceCost(o, k, d, cuts[d], cuts[d + 1]);
    }
  }

  lemma BigPositive(o: Order, k: nat, d: nat)
    requires o.Valid() && d < |o.devices|
    ensures Big(o, k, d) >= 0.0
  {
    SegmentMonotone(0, o.q, k, o.shape, o.devices[d]);
  }

  // ----- What the sweep does

  // Where the sweep stands before device d <= i, once it has time for all small cells.
  function Stand(o: Order, d: nat): nat
    requires o.i < o.j
  {
    if d == 0 then 0 else o.j - o.i + d
  }

  // Devices before i pass over every small cell, so the sweep's cut i is cell j.
  lemma {:induction false} SweepReachesBig(o: Order, k: nat, threshold: real, d: nat)
    requires o.Valid() && k >= 1 && ValidProblem(o.Lopsided(k)) && d <= o.i && threshold >= Ceiling(o)
    requires Stand(o, d) < |o.Lopsided(k).candidates| && GreedyFrom(o.Lopsided(k), d, Stand(o, d), threshold).Some?
    ensures var rest := GreedyFrom(o.Lopsided(k), d, Stand(o, d), threshold).value;
            |rest| == |o.devices| - d && (d < o.i ==> rest[o.i - d - 1] == o.j)
    decreases o.i - d
  {
    hide ValidProblem, Seconds, SmallTotal, Furthest;
    var p := o.Lopsided(k);
    GreedyTail(p, d, Stand(o, d), threshold);
    TailIsVector(p, d, Stand(o, d), GreedyFrom(p, d, Stand(o, d), threshold).value, threshold);
    if d < o.i {
      var max := Stand(o, d + 1);
      PieceCost(o, k, d, Stand(o, d), max);
      FurthestReaches(p, d, Stand(o, d), max, threshold);
      assert Furthest(p, d, Stand(o, d), max, threshold) == Some(max);
      SweepReachesBig(o, k, threshold, d + 1);
    }
  }

  /**
   Whatever the threshold, a successful sweep leaves cell j to a device that needs
   longer than the bound for it.
   */
  lemma SweepMisses(o: Order, k: nat, threshold: real, bound: real)
    requires o.Valid() && k >= 1 && ValidProblem(o.Lopsided(k)) && Greedy(o.Lopsided(k), threshold).Some?
    requires Big(o, k, o.i) > bound
    requires forall d :: 0 <= d < |o.devices| ==> Big(o, k, d) > Ceiling(o)
    ensures CutVector(o.Lopsided(k), Greedy(o.Lopsided(k), threshold).value)
    ensures !Within(o.Lopsided(k), Greedy(o.Lopsided(k), threshold).value, bound)
  {
    hide ValidProblem, Seconds, SmallTotal, Furthest, Big, Within;
    var p := o.Lopsided(k);
    var cuts := Greedy(p, threshold).value;
    GreedySound(p, threshold);
    RoomLeft(p, cuts, o.i);
    if threshold < Ceiling(o) {
      var d := HolderHasTime(p, cuts, threshold, o.j);
      PieceCost(o, k, d, o.j, o.j + 1);
      assert false;
    }
    SweepReachesBig(o, k, threshold, 0);
    assert cuts[o.i] == o.j;
    InRange(p, cuts, o.i);
    PieceCost(o, k, o.i, cuts[o.i], cuts[o.i + 1]);
    if Within(p, cuts, bound) {
      WithinPiece(p, cuts, o.i, bound);
    }
  }

  // ----- Enough keys

  // More keys than this take a positive slope past a bound.
  function KeysPast(bound: real, slope: real): (keys: nat)
    requires slope > 0.0
    ensures forall k :: k >= keys ==> Times(k, slope) > bound
  {
    var floor := (bound / slope).Floor;
    var keys := if floor < 0 then 0 else floor + 1;
    PastFloor(bound, slope, keys);
    keys
  }

  lemma PastFloor(bound: real, slope: real, keys: nat)
    requires slope > 0.0 && keys as real > bound / slope
    ensures forall k :: k >= keys ==> Times(k, slope) > bound
  {
    forall k | k >= keys
      ensures Times(k, slope) > bound
    {
      var x := bound / slope;
      assert x * slope == bound;
      assert (k as real - x) * slope > 0.0;
    }
  }

  // Enough keys for cell j to exceed the ceiling on each of the first n devices.
  function KeysForAll(o: Order, n: nat): (keys: nat)
    requires o.Valid() && n <= |o.devices|
    ensures forall k, d :: k >= keys && 0 <= d < n ==> Big(o, k, d) > Ceiling(o)
  {
    if n == 0 then 0
    else
      var before := KeysForAll(o, n - 1);
      SlopePositive(o, n - 1);
      var here := KeysPast(Ceiling(o), Slope(o.q, o.shape, o.devices[n - 1]));
      BigPast(o, n - 1, here, Ceiling(o));
      if before < here then here else before
  }

  lemma SlopePositive(o: Order, d: nat)
    requires o.Valid() && d < |o.devices|
    ensures Slope(o.q, o.shape, o.devices[d]) > 0.0
  {
    var device := o.devices[d];
    var q := Min(o.q, device.chunk);
    Regroup(4 * q, 1, o.shape.qHeads, o.shape.headDim);
    Scaled(1, o.shape.qHeads, o.shape.headDim);
    Scaled(1, 4 * q, o.shape.qHeads * o.shape.headDim);
    assert Flops(q, 1, o.shape) >= 1;
    Shrunk(1, Flops(q, 1, o.shape), device.flopsPerSecond);
    hide Flops;
    assert BlockSlope(q, o.shape, device) > 0.0;
    if o.q > device.chunk {
      SegmentLinear(o.q - device.chunk, 0, o.shape, device);
    }
  }

  lemma BigPast(o: Order, d: nat, keys: nat, bound: real)
    requires o.Valid() && d < |o.devices|
    requires forall k :: k >= keys ==> Times(k, Slope(o.q, o.shape, o.devices[d])) > bound
    ensures forall k :: k >= keys ==> Big(o, k, d) > bound
  {
    hide Slope, SegmentSeconds;
    forall k | k >= keys
      ensures Big(o, k, d) > bound
    {
      SegmentLinear(o.q, k, o.shape, o.devices[d]);
      assert Times(k, Slope(o.q, o.shape, o.devices[d])) > bound;
    }
  }

  // With enough keys device i falls behind device j by any given time.
  lemma FallsBehind(o: Order, behind: real) returns (keys: nat)
    requires o.Valid() && Slope(o.q, o.shape, o.devices[o.i]) > Slope(o.q, o.shape, o.devices[o.j])
    ensures forall k :: k >= keys ==> Big(o, k, o.i) > Big(o, k, o.j) + behind
  {
    hide Slope, Rest, SegmentSeconds;
    var steep, flat := Slope(o.q, o.shape, o.devices[o.i]), Slope(o.q, o.shape, o.devices[o.j]);
    keys := KeysPast(Rest(o.q, o.shape, o.devices[o.j]) + behind, steep - flat);
    forall k | k >= keys
      ensures Big(o, k, o.i) > Big(o, k, o.j) + behind
    {
      SegmentLinear(o.q, k, o.shape, o.devices[o.i]);
      SegmentLinear(o.q, k, o.shape, o.devices[o.j]);
      assert Times(k, steep - flat) > Rest(o.q, o.shape, o.devices[o.j]) + behind;
      TimesDifference(k, steep, flat);
    }
  }

  lemma TimesDifference(k: nat, x: real, y: real)
    ensures Times(k, x - y) == Times(k, x) - Times(k, y)
  {
  }

  // A partition in time at the threshold, and no result of a sweep, so nothing the
  // planner returns, within `gap` of it.
  ghost predicate Missed(p: Problem, cuts: seq<nat>, threshold: real, gap: real)
    requires ValidProblem(p)
  {
    && CutVector(p, cuts) && Within(p, cuts, threshold)
    && forall t :: Greedy(p, t).Some? ==> CutVector(p, Greedy(p, t).value) && !Within(p, Greedy(p, t).value, threshold + gap)
  }

  /** Devices out of order: for any gap there is a batch on which no sweep comes that close to the optimum. */
  lemma DisorderMisses(o: Order, alignment: nat, gap: real) returns (p: Problem, cuts: seq<nat>, threshold: real)
    requires o.Valid() && o.q <= alignment
    requires Slope(o.q, o.shape, o.devices[o.i]) > Slope(o.q, o.shape, o.devices[o.j])
    ensures Batch(p, o.shape, o.devices, alignment) && Missed(p, cuts, threshold, gap)
  {
    hide Slope, Big, SmallTotal, Within;
    var behind := FallsBehind(o, Ceiling(o) + gap);
    var k := behind + KeysForAll(o, |o.devices|) + 1;
    LopsidedValid(o, k, alignment);
    p, cuts, threshold := o.Lopsided(k), Fair(o), Big(o, k, o.j) + Ceiling(o);
    FairWithin(o, k);
    forall t | Greedy(p, t).Some?
      ensures CutVector(p, Greedy(p, t).value) && !Within(p, Greedy(p, t).value, threshold + gap)
    {
      SweepMisses(o, k, t, threshold + gap);
    }
  }

  // ----- The exact condition on the devices

  // For every batch, the sweep finds a partition within `gap` of any partition there is.
  ghost predicate CompleteWithin(shape: Shape, devices: seq<Device>, alignment: nat, gap: real) {
    forall p: Problem, cuts, threshold :: Batch(p, shape, devices, alignment) && CutVector(p, cuts) && Within(p, cuts, threshold)
      ==> Greedy(p, threshold + gap).Some?
  }

  ghost predicate Complete(shape: Shape, devices: seq<Device>, alignment: nat) {
    exists gap :: gap >= 0.0 && CompleteWithin(shape, devices, alignment, gap)
  }

  /**
   The sweep stays within a constant of the optimum on every batch exactly when, per
   key, no device between the first and the last is slower than a device after it.
   */
  lemma CompleteExactlyInOrder(shape: Shape, devices: seq<Device>, alignment: nat)
    requires ValidFleet(devices) && alignment > 0 && shape.qHeads > 0 && shape.headDim > 0
    ensures Complete(shape, devices, alignment) <==> MiddleFirstPerKey(shape, devices, alignment)
  {
    if MiddleFirstPerKey(shape, devices, alignment) {
      OrderedCompletes(shape, devices, alignment);
    } else if gap :| gap >= 0.0 && CompleteWithin(shape, devices, alignment, gap) {
      var i: nat, j: nat, q: nat :| 0 < i < j < |devices| && 1 <= q <= alignment
        && Slope(q, shape, devices[i]) > Slope(q, shape, devices[j]);
      var p, cuts, threshold := DisorderMisses(Order(shape, devices, i, j, q), alignment, gap);
      GreedySound(p, threshold + gap);
    }
  }

  lemma OrderedCompletes(shape: Shape, devices: seq<Device>, alignment: nat)
    requires ValidFleet(devices) && alignment > 0 && MiddleFirstPerKey(shape, devices, alignment)
    ensures Complete(shape, devices, alignment)
  {
    hide MiddleFirstPerKey, ValidProblem, Aligned, FleetRest, Within, Greedy;
    var gap := FleetRest(alignment, shape, devices, |devices|);
    RestInFleet(1, alignment, shape, devices, 0, |devices|);
    forall p: Problem, cuts, threshold | Batch(p, shape, devices, alignment) && CutVector(p, cuts) && Within(p, cuts, threshold)
      ensures Greedy(p, threshold + gap).Some?
    {
      OrderedIsNearlyFirst(p, shape, devices, alignment);
      PartitionBoundsCells(p, threshold, cuts, gap);
      GreedyComplete(p, threshold + gap, cuts);
    }
    assert CompleteWithin(shape, devices, alignment, gap);
  }
}
