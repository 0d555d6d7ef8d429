/** Estimated seconds of a query range on one device, monotone in both ends. */
module RangeCost {
  import opened Basics
  import opened QueryTasks
  import opened QueryTiling

  // Heads, head width and element size of the attention call.
  datatype Shape = Shape(qHeads: nat, kvHeads: nat, headDim: nat, elementSize: nat)

  // Rates in work per second; the overhead is paid once per query block.
  datatype Device = Device(chunk: nat, flopsPerSecond: real, h2dBytesPerSecond: real, d2hBytesPerSecond: real, overhead: real)

  predicate ValidDevice(device: Device) {
    && device.chunk > 0 && device.flopsPerSecond > 0.0 && device.h2dBytesPerSecond > 0.0 && device.d2hBytesPerSecond > 0.0
    && device.overhead >= 0.0
  }

  function Larger(a: real, b: real): real { if a < b then b else a }

  function Flops(q: nat, k: nat, shape: Shape): int {
    4 * q * k * shape.qHeads * shape.headDim
  }

  function QBytes(q: nat, shape: Shape): int {
    q * shape.qHeads * shape.headDim * shape.elementSize
  }

  function KvBytes(k: nat, shape: Shape): int {
    2 * k * shape.kvHeads * shape.headDim * shape.elementSize
  }

  // The slowest of compute, upload and download, plus the block's overhead.
  function BlockSeconds(q: nat, k: nat, shape: Shape, device: Device): real
    requires ValidDevice(device)
  {
    var qBytes := QBytes(q, shape);
    Larger(Larger(Flops(q, k, shape) as real / device.flopsPerSecond,
                  (qBytes + KvBytes(k, shape)) as real / device.h2dBytesPerSecond),
           qBytes as real / device.d2hBytesPerSecond)
    + device.overhead
  }

  function TaskSeconds(task: QueryTask, shape: Shape, device: Device): real
    requires ValidDevice(device) && task.Validates()
  {
    BlockSeconds(task.QTokens(), task.KTokens(), shape, device)
  }

  function TotalSeconds(tasks: seq<QueryTask>, shape: Shape, device: Device): real
    requires ValidDevice(device) && forall n :: 0 <= n < |tasks| ==> tasks[n].Validates()
  {
    if tasks == [] then 0.0 else TaskSeconds(tasks[0], shape, device) + TotalSeconds(tasks[1..], shape, device)
  }

  // Seconds for `length` rows of one segment with k keys, cut into the device's blocks.
  function SegmentSeconds(length: nat, k: nat, shape: Shape, device: Device): real
    requires ValidDevice(device)
    decreases length
  {
    if length == 0 then 0.0
    else if length <= device.chunk then BlockSeconds(length, k, shape, device)
    else BlockSeconds(device.chunk, k, shape, device) + SegmentSeconds(length - device.chunk, k, shape, device)
  }

  // Rows of segment s that the range a..b meets.
  function Met(qBounds: seq<int>, s: nat, a: int, b: int): nat
    requires s + 1 < |qBounds|
  {
    Max(0, Min(qBounds[s + 1], b) - Max(qBounds[s], a))
  }

  function RangeSeconds(qBounds: seq<int>, kBounds: seq<int>, a: int, b: int, n: nat, shape: Shape, device: Device): real
    requires Packed(qBounds, kBounds) && n < |qBounds| && ValidDevice(device)
  {
    if n == 0 then 0.0
    else
      assert kBounds[n - 1] <= kBounds[n];
      RangeSeconds(qBounds, kBounds, a, b, n - 1, shape, device)
      + SegmentSeconds(Met(qBounds, n - 1, a, b), kBounds[n] - kBounds[n - 1], shape, device)
  }

  // ----- The closed form is the sum over the tasks

  lemma {:induction false} TotalConcat(x: seq<QueryTask>, y: seq<QueryTask>, shape: Shape, device: Device)
    requires ValidDevice(device)
    requires forall n :: 0 <= n < |x| ==> x[n].Validates()
    requires forall n :: 0 <= n < |y| ==> y[n].Validates()
    ensures TotalSeconds(x + y, shape, device) == TotalSeconds(x, shape, device) + TotalSeconds(y, shape, device)
  {
    if x == [] {
      assert x + y == y;
    } else {
      TotalConcat(x[1..], y, shape, device);
      assert (x + y)[1..] == x[1..] + y;
    }
  }

  lemma {:induction false} SegmentTasksCost(qBounds: seq<int>, kBounds: seq<int>, s: nat, start: int, stop: int,
                                            shape: Shape, device: Device)
    requires Packed(qBounds, kBounds) && s + 1 < |qBounds| && kBounds[s] < kBounds[s + 1] && ValidDevice(device)
    requires qBounds[s] <= start <= stop <= qBounds[s + 1]
    ensures forall t :: t in SegmentTasks(qBounds, kBounds, s, start, stop, device.chunk) ==> t.Validates()
    ensures TotalSeconds(SegmentTasks(qBounds, kBounds, s, start, stop, device.chunk), shape, device)
         == SegmentSeconds(stop - start, kBounds[s + 1] - kBounds[s], shape, device)
    decreases stop - start
  {
    hide BlockSeconds;
    if start < stop {
      SegmentTasksChain(qBounds, kBounds, s, start, stop, device.chunk);
      var next := Min(start + device.chunk, stop);
      SegmentTasksCost(qBounds, kBounds, s, next, stop, shape, device);
      var tile := Tile(qBounds, kBounds, s, start, next);
      var rest := SegmentTasks(qBounds, kBounds, s, next, stop, device.chunk);
      assert SegmentTasks(qBounds, kBounds, s, start, stop, device.chunk) == [tile] + rest;
      assert ([tile] + rest)[1..] == rest;
    }
  }

  /** The planner's estimate of a range is the sum of its tasks' estimates. */
  lemma {:induction false} RangeTasksCost(qBounds: seq<int>, kBounds: seq<int>, a: int, b: int, n: nat, shape: Shape, device: Device)
    requires Packed(qBounds, kBounds) && n < |qBounds| && ValidDevice(device)
    requires KeysFor(qBounds, kBounds, a, b, n)
    ensures forall t :: t in RangeTasks(qBounds, kBounds, a, b, device.chunk, n) ==> t.Validates()
    ensures TotalSeconds(RangeTasks(qBounds, kBounds, a, b, device.chunk, n), shape, device)
         == RangeSeconds(qBounds, kBounds, a, b, n, shape, device)
  {
    if n > 0 {
      hide BlockSeconds, SegmentSeconds, TaskSeconds;
      var start, stop := Max(qBounds[n - 1], a), Min(qBounds[n], b);
      RangeTasksCost(qBounds, kBounds, a, b, n - 1, shape, device);
      var before := RangeTasks(qBounds, kBounds, a, b, device.chunk, n - 1);
      var last := SegmentTasks(qBounds, kBounds, n - 1, start, stop, device.chunk);
      if start < stop {
        SegmentTasksCost(qBounds, kBounds, n - 1, start, stop, shape, device);
      } else {
        NoRows(kBounds[n] - kBounds[n - 1], shape, device);
      }
      TotalConcat(before, last, shape, device);
    }
  }

  lemma NoRows(k: nat, shape: Shape, device: Device)
    requires ValidDevice(device)
    ensures SegmentSeconds(0, k, shape, device) == 0.0
  {
  }

  // ----- Monotonicity

  lemma Scaled(q: nat, r: nat, c: nat)
    requires q <= r
    ensures 0 <= q * c <= r * c
  {
  }

  lemma Regroup(x: nat, a: nat, b: nat, c: nat)
    ensures x * a * b * c == x * (a * b * c) && a * b * c >= 0
  {
    assert x * a * b == x * (a * b);
    assert x * (a * b) * c == x * (a * b * c);
    Scaled(0, a, b);
    Scaled(0, a * b, c);
  }

  lemma WorkMonotone(q: nat, r: nat, k: nat, shape: Shape)
    requires q <= r
    ensures 0 <= Flops(q, k, shape) <= Flops(r, k, shape) && 0 <= QBytes(q, shape) <= QBytes(r, shape)
  {
    Regroup(4 * q, k, shape.qHeads, shape.headDim);
    Regroup(4 * r, k, shape.qHeads, shape.headDim);
    Scaled(4 * q, 4 * r, k * shape.qHeads * shape.headDim);
    Regroup(q, shape.qHeads, shape.headDim, shape.elementSize);
    Regroup(r, shape.qHeads, shape.headDim, shape.elementSize);
    Scaled(q, r, shape.qHeads * shape.headDim * shape.elementSize);
  }

  lemma Shrunk(x: int, y: int, rate: real)
    requires x <= y && rate > 0.0
    ensures x as real / rate <= y as real / rate
  {
  }

  lemma BlockMonotone(q: nat, r: nat, k: nat, shape: Shape, device: Device)
    requires ValidDevice(device) && q <= r
    ensures 0.0 <= BlockSeconds(q, k, shape, device) <= BlockSeconds(r, k, shape, device)
  {
    WorkMonotone(q, r, k, shape);
    hide Flops, QBytes, KvBytes;
    Shrunk(Flops(q, k, shape), Flops(r, k, shape), device.flopsPerSecond);
    Shrunk(QBytes(q, shape) + KvBytes(k, shape), QBytes(r, shape) + KvBytes(k, shape), device.h2dBytesPerSecond);
    Shrunk(QBytes(q, shape), QBytes(r, shape), device.d2hBytesPerSecond);
    Shrunk(0, QBytes(q, shape), device.d2hBytesPerSecond);
  }

  // More rows of a segment never take less time, wherever the blocks fall.
  lemma {:induction false} SegmentMonotone(short: nat, long: nat, k: nat, shape: Shape, device: Device)
    requires ValidDevice(device) && short <= long
    ensures 0.0 <= SegmentSeconds(short, k, shape, device) <= SegmentSeconds(long, k, shape, device)
    decreases long
  {
    hide BlockSeconds;
    if short > 0 {
      if long <= device.chunk {
        BlockMonotone(short, long, k, shape, device);
      } else if short <= device.chunk {
        BlockMonotone(short, device.chunk, k, shape, device);
        SegmentMonotone(0, long - device.chunk, k, shape, device);
      } else {
        BlockMonotone(0, device.chunk, k, shape, device);
        SegmentMonotone(short - device.chunk, long - device.chunk, k, shape, device);
      }
    } else if long > 0 {
      BlockMonotone(0, Min(long, device.chunk), k, shape, device);
      if long > device.chunk {
        SegmentMonotone(0, long - device.chunk, k, shape, device);
      }
    }
  }

  /** A range inside another never costs more: the estimate is monotone in both ends. */
  lemma {:induction false} RangeMonotone(qBounds: seq<int>, kBounds: seq<int>, a: int, b: int, c: int, d: int, n: nat,
                                         shape: Shape, device: Device)
    requires Packed(qBounds, kBounds) && n < |qBounds| && ValidDevice(device)
    requires c <= a && b <= d
    ensures 0.0 <= RangeSeconds(qBounds, kBounds, a, b, n, shape, device)
                <= RangeSeconds(qBounds, kBounds, c, d, n, shape, device)
  {
    hide SegmentSeconds;
    if n > 0 {
      RangeMonotone(qBounds, kBounds, a, b, c, d, n - 1, shape, device);
      assert kBounds[n - 1] <= kBounds[n];
      SegmentMonotone(Met(qBounds, n - 1, a, b), Met(qBounds, n - 1, c, d), kBounds[n] - kBounds[n - 1], shape, device);
    }
  }
}
