/** Time per key of a row block, and device orders under which the sweep is complete up to a constant. */
module FleetOrder {
  import opened Basics
  import opened QueryTiling
  import opened RangeCost
  import opened Partition
  import opened Planner

  // ----- Seconds of a segment are linear in its keys, up to a constant

  // Seconds that one more key adds to a block of q rows.
  function BlockSlope(q: nat, shape: Shape, device: Device): real
    requires ValidDevice(device)
  {
    Larger(Flops(q, 1, shape) as real / device.flopsPerSecond, KvBytes(1, shape) as real / device.h2dBytesPerSecond)
  }

  // What a block costs besides its keys, at most.
  function BlockRest(q: nat, shape: Shape, device: Device): real
    requires ValidDevice(device)
  {
    QBytes(q, shape) as real / device.h2dBytesPerSecond + QBytes(q, shape) as real / device.d2hBytesPerSecond + device.overhead
  }

  // Seconds that one more key adds to `length` rows cut into the device's blocks.
  function Slope(length: nat, shape: Shape, device: Device): real
    requires ValidDevice(device)
    decreases length
  {
    if length == 0 then 0.0
    else if length <= device.chunk then BlockSlope(length, shape, device)
    else BlockSlope(device.chunk, shape, device) + Slope(length - device.chunk, shape, device)
  }

  function Rest(length: nat, shape: Shape, device: Device): real
    requires ValidDevice(device)
    decreases length
  {
    if length == 0 then 0.0
    else if length <= device.chunk then BlockRest(length, shape, device)
    else BlockRest(device.chunk, shape, device) + Rest(length - device.chunk, shape, device)
  }

  lemma WorkPerKey(q: nat, k: nat, shape: Shape)
    ensures Flops(q, k, shape) == k * Flops(q, 1, shape) && KvBytes(k, shape) == k * KvBytes(1, shape)
    ensures Flops(q, 1, shape) >= 0 && KvBytes(1, shape) >= 0 && QBytes(q, shape) >= 0
  {
    Regroup(4 * q, k, shape.qHeads, shape.headDim);
    Regroup(4 * q, 1, shape.qHeads, shape.headDim);
    Regroup(k, shape.qHeads, shape.headDim, 1);
    Regroup(q, shape.qHeads, shape.headDim, shape.elementSize);
    Regroup(2 * k, shape.kvHeads, shape.headDim, shape.elementSize);
    Regroup(2, shape.kvHeads, shape.headDim, shape.elementSize);
    var work, bytes := shape.qHeads * shape.headDim, shape.kvHeads * shape.headDim * shape.elementSize;
    assert 4 * q * (k * shape.qHeads * shape.headDim) == 4 * q * (k * work);
    assert 4 * q * (k * work) == k * (4 * q * work);
    assert 2 * k * bytes == k * (2 * bytes);
    Scaled(0, 4 * q, work);
  }

  function Times(k: nat, x: real): real { k as real * x }

  function Quotient(x: int, rate: real): real
    requires rate > 0.0
  {
    x as real / rate
  }

  lemma QuotientScales(k: nat, x: int, rate: real)
    requires rate > 0.0 && x >= 0
    ensures Quotient(k * x, rate) == Times(k, Quotient(x, rate)) >= 0.0 && Quotient(x, rate) >= 0.0
  {
    assert (k * x) as real == k as real * x as real;
  }

  lemma QuotientSum(x: int, y: int, rate: real)
    requires rate > 0.0
    ensures Quotient(x + y, rate) == Quotient(x, rate) + Quotient(y, rate)
  {
  }

  lemma LargerScales(k: nat, x: real, y: real)
    ensures Larger(Times(k, x), Times(k, y)) == Times(k, Larger(x, y))
  {
    hide Times;
    Steeper(k, x, y);
    Steeper(k, y, x);
  }

  lemma Steeper(k: nat, x: real, y: real)
    ensures x <= y ==> Times(k, x) <= Times(k, y)
  {
    assert Times(k, y) - Times(k, x) == k as real * (y - x);
  }

  lemma BlockLinear(q: nat, k: nat, shape: Shape, device: Device)
    requires ValidDevice(device)
    ensures BlockSlope(q, shape, device) >= 0.0 && BlockRest(q, shape, device) >= 0.0
    ensures Times(k, BlockSlope(q, shape, device)) <= BlockSeconds(q, k, shape, device)
                <= Times(k, BlockSlope(q, shape, device)) + BlockRest(q, shape, device)
  {
    hide Flops, KvBytes, QBytes, Quotient, Times, BlockSeconds, BlockSlope, BlockRest;
    WorkPerKey(q, k, shape);
    var flops, kv, bytes := Flops(q, 1, shape), KvBytes(1, shape), QBytes(q, shape);
    var c, h, d := device.flopsPerSecond, device.h2dBytesPerSecond, device.d2hBytesPerSecond;
    BlockParts(q, k, shape, device, flops, kv, bytes);
    QuotientScales(k, flops, c);
    QuotientScales(k, kv, h);
    QuotientScales(1, bytes, h);
    QuotientScales(1, bytes, d);
    QuotientSum(bytes, k * kv, h);
    LargerScales(k, Quotient(flops, c), Quotient(kv, h));
    SlowestPart(Quotient(k * flops, c), Quotient(k * kv, h), Quotient(bytes, h), Quotient(bytes, d));
  }

  lemma SlowestPart(a: real, b: real, u: real, v: real)
    requires a >= 0.0 && b >= 0.0 && u >= 0.0 && v >= 0.0
    ensures Larger(a, b) <= Larger(Larger(a, u + b), v) <= Larger(a, b) + u + v
  {
  }

  lemma BlockParts(q: nat, k: nat, shape: Shape, device: Device, flops: int, kv: int, bytes: int)
    requires ValidDevice(device) && flops == Flops(q, 1, shape) && kv == KvBytes(1, shape) && bytes == QBytes(q, shape)
    requires Flops(q, k, shape) == k * flops && KvBytes(k, shape) == k * kv
    ensures var c, h, d := device.flopsPerSecond, device.h2dBytesPerSecond, device.d2hBytesPerSecond;
            && BlockSlope(q, shape, device) == Larger(Quotient(flops, c), Quotient(kv, h))
            && BlockSeconds(q, k, shape, device)
               == Larger(Larger(Quotient(k * flops, c), Quotient(bytes + k * kv, h)), Quotient(bytes, d)) + device.overhead
            && BlockRest(q, shape, device) == Quotient(bytes, h) + Quotient(bytes, d) + device.overhead
  {
    hide Flops, KvBytes, QBytes;
  }

  lemma Distribute(k: nat, x: real, y: real)
    ensures Times(k, x + y) == Times(k, x) + Times(k, y)
  {
  }

  lemma {:induction false} SegmentLinear(length: nat, k: nat, shape: Shape, device: Device)
    requires ValidDevice(device)
    ensures Slope(length, shape, device) >= 0.0 && Rest(length, shape, device) >= 0.0
    ensures Times(k, Slope(length, shape, device)) <= SegmentSeconds(length, k, shape, device)
                <= Times(k, Slope(length, shape, device)) + Rest(length, shape, device)
    decreases length
  {
    hide BlockSeconds, BlockSlope, BlockRest, Times;
    if length == 0 {
      assert Times(k, 0.0) == 0.0 by { Distribute(k, 0.0, 0.0); }
    } else {
      BlockLinear(Min(length, device.chunk), k, shape, device);
      if length > device.chunk {
        SegmentLinear(length - device.chunk, k, shape, device);
        Distribute(k, BlockSlope(device.chunk, shape, device), Slope(length - device.chunk, shape, device));
      }
    }
  }

  // ----- Cells of an aligned batch

  predicate ValidFleet(devices: seq<Device>) {
    |devices| >= 2 && forall i :: 0 <= i < |devices| ==> ValidDevice(devices[i])
  }

  // A batch for these devices, with the candidate cuts of the planner.
  ghost predicate Batch(p: Problem, shape: Shape, devices: seq<Device>, alignment: nat) {
    ValidProblem(p) && p.shape == shape && p.devices == devices && Aligned(p, alignment)
  }

  ghost predicate Aligned(p: Problem, alignment: nat) {
    forall c :: c in p.candidates <==> Candidate(p.qBounds, alignment, c)
  }

  // The segment that holds position c.
  lemma {:induction false} SegmentOf(qBounds: seq<int>, c: int, n: nat) returns (s: nat)
    requires n < |qBounds| && qBounds[0] <= c < qBounds[n]
    ensures s < n && qBounds[s] <= c < qBounds[s + 1]
    decreases n
  {
    if qBounds[n - 1] <= c {
      s := n - 1;
    } else {
      s := SegmentOf(qBounds, c, n - 1);
    }
  }

  // A candidate is a whole number of alignments into its segment.
  lemma CandidateOffset(qBounds: seq<int>, alignment: nat, c: int, s: nat) returns (k: nat)
    requires NonDecreasing(qBounds) && s + 1 < |qBounds| && qBounds[s] <= c < qBounds[s + 1] && Candidate(qBounds, alignment, c)
    ensures c == qBounds[s] + k * alignment
  {
    if c in qBounds {
      var r :| 0 <= r < |qBounds| && qBounds[r] == c;
      assert r <= s || s + 1 <= r;
      k := 0;
    } else {
      var r, m: nat :| Inside(qBounds, alignment, c, r, m);
      Scaled(0, m, alignment);
      k := m;
    }
  }

  // Every cell lies in one segment and is no taller than the alignment.
  lemma CellInSegment(p: Problem, alignment: nat, x: nat) returns (s: nat)
    requires ValidProblem(p) && Aligned(p, alignment) && alignment > 0 && x < Last(p)
    ensures s + 1 < |p.qBounds| && p.qBounds[s] <= p.candidates[x] < p.candidates[x + 1] <= p.qBounds[s + 1]
    ensures p.candidates[x + 1] - p.candidates[x] <= alignment
  {
    var c, next := p.candidates[x], p.candidates[x + 1];
    var n := |p.qBounds| - 1;
    RangeInside(p, x, x + 1);
    s := SegmentOf(p.qBounds, c, n);
    assert c in p.candidates;
    var k := CandidateOffset(p.qBounds, alignment, c, s);
    var stop := p.qBounds[s + 1];
    assert stop in p.qBounds;
    NextCandidate(p, alignment, x, stop);
    if c + alignment < stop {
      assert (k + 1) * alignment == k * alignment + alignment;
      assert Inside(p.qBounds, alignment, c + alignment, s, k + 1);
      NextCandidate(p, alignment, x, c + alignment);
    }
  }

  lemma NextCandidate(p: Problem, alignment: nat, x: nat, c: int)
    requires ValidProblem(p) && Aligned(p, alignment) && x < Last(p) && p.candidates[x] < c && Candidate(p.qBounds, alignment, c)
    ensures p.candidates[x + 1] <= c
  {
    assert c in p.candidates;
    var y :| 0 <= y < |p.candidates| && p.candidates[y] == c;
    assert x + 1 < y ==> p.candidates[x + 1] < p.candidates[y];
  }

  // A range inside segment s costs its rows there.
  lemma {:induction false} RangeInOneSegment(p: Problem, i: nat, a: int, b: int, s: nat, n: nat)
    requires ValidProblem(p) && i < |p.devices| && n < |p.qBounds|
    requires s + 1 < |p.qBounds| && p.qBounds[s] <= a <= b <= p.qBounds[s + 1]
    ensures p.kBounds[s] <= p.kBounds[s + 1]
    ensures RangeSeconds(p.qBounds, p.kBounds, a, b, n, p.shape, p.devices[i])
         == if s < n then SegmentSeconds(b - a, p.kBounds[s + 1] - p.kBounds[s], p.shape, p.devices[i]) else 0.0
  {
    hide SegmentSeconds;
    if n > 0 {
      RangeInOneSegment(p, i, a, b, s, n - 1);
      assert n - 1 < s ==> p.qBounds[n] <= p.qBounds[s];
      assert s < n - 1 ==> p.qBounds[s + 1] <= p.qBounds[n - 1];
      assert Met(p.qBounds, n - 1, a, b) == if n - 1 == s then b - a else 0;
      NoRows(p.kBounds[n] - p.kBounds[n - 1], p.shape, p.devices[i]);
    }
  }

  // Seconds of a cell, as rows and keys that do not depend on the device.
  lemma CellRows(p: Problem, alignment: nat, x: nat) returns (rows: nat, keys: nat)
    requires ValidProblem(p) && Aligned(p, alignment) && alignment > 0 && x < Last(p)
    ensures 1 <= rows <= alignment
    ensures forall i: nat :: i < |p.devices| ==> Cell(p, i, x) == SegmentSeconds(rows, keys, p.shape, p.devices[i])
  {
    hide SegmentSeconds;
    var s := CellInSegment(p, alignment, x);
    rows, keys := p.candidates[x + 1] - p.candidates[x], p.kBounds[s + 1] - p.kBounds[s];
    forall i: nat | i < |p.devices|
      ensures Cell(p, i, x) == SegmentSeconds(rows, keys, p.shape, p.devices[i])
    {
      RangeInOneSegment(p, i, p.candidates[x], p.candidates[x + 1], s, |p.qBounds| - 1);
    }
  }

  // ----- Ordered fleets

  // Per key, each device between the first and the last is no slower than the devices
  // after it, on every block the planner may cut off.
  ghost predicate MiddleFirstPerKey(shape: Shape, devices: seq<Device>, alignment: nat)
    requires ValidFleet(devices)
  {
    forall i: nat, j: nat, q: nat :: 0 < i < j < |devices| && 1 <= q <= alignment ==>
      Slope(q, shape, devices[i]) <= Slope(q, shape, devices[j])
  }

  function RestUpTo(q: nat, shape: Shape, device: Device): real
    requires ValidDevice(device)
  {
    if q == 0 then 0.0 else RestUpTo(q - 1, shape, device) + Rest(q, shape, device)
  }

  // A constant above everything a block costs besides its keys.
  function FleetRest(q: nat, shape: Shape, devices: seq<Device>, n: nat): real
    requires ValidFleet(devices) && n <= |devices|
  {
    if n == 0 then 0.0 else FleetRest(q, shape, devices, n - 1) + RestUpTo(q, shape, devices[n - 1])
  }

  lemma {:induction false} RestWithin(q: nat, most: nat, shape: Shape, device: Device)
    requires ValidDevice(device)
    ensures RestUpTo(most, shape, device) >= 0.0
    ensures 1 <= q <= most ==> Rest(q, shape, device) <= RestUpTo(most, shape, device)
  {
    hide Rest, Slope, SegmentSeconds;
    if most > 0 {
      SegmentLinear(most, 0, shape, device);
      RestWithin(q, most - 1, shape, device);
    }
  }

  lemma {:induction false} RestInFleet(q: nat, most: nat, shape: Shape, devices: seq<Device>, i: nat, n: nat)
    requires ValidFleet(devices) && n <= |devices|
    ensures FleetRest(most, shape, devices, n) >= 0.0
    ensures i < n && 1 <= q <= most ==> Rest(q, shape, devices[i]) <= FleetRest(most, shape, devices, n)
  {
    if n > 0 {
      hide Rest, RestUpTo;
      RestWithin(q, most, shape, devices[n - 1]);
      RestInFleet(q, most, shape, devices, i, n - 1);
    }
  }

  /** In an ordered fleet no cell is slower on an earlier middle device by more than a constant. */
  lemma OrderedIsNearlyFirst(p: Problem, shape: Shape, devices: seq<Device>, alignment: nat)
    requires ValidFleet(devices) && MiddleFirstPerKey(shape, devices, alignment) && alignment > 0
    requires Batch(p, shape, devices, alignment)
    ensures NearlyFirst(p, FleetRest(alignment, shape, devices, |devices|))
  {
    hide ValidProblem, Aligned, Seconds, Slope, Rest, FleetRest, SegmentSeconds, Times;
    forall i: nat, j: nat, x: nat | 0 < i < j < |p.devices| && x < Last(p)
      ensures Cell(p, i, x) <= Cell(p, j, x) + FleetRest(alignment, shape, devices, |devices|)
    {
      var rows, keys := CellRows(p, alignment, x);
      SegmentLinear(rows, keys, shape, devices[i]);
      SegmentLinear(rows, keys, shape, devices[j]);
      RestInFleet(rows, alignment, shape, devices, i, |devices|);
      Steeper(keys, Slope(rows, shape, devices[i]), Slope(rows, shape, devices[j]));
    }
  }
}
