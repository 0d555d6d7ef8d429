/** Cutting a query range into tasks that respect packed segments. */
module QueryTiling {
  import opened Basics
  import opened QueryTasks

  datatype TilingError = NonPositiveChunk | BatchMismatch | RangeOutside | MissingKeys

  datatype Tiling = Tiles(tasks: seq<QueryTask>) | Refused(error: TilingError)

  predicate NonDecreasing(bounds: seq<int>) {
    forall i, j :: 0 <= i < j < |bounds| ==> bounds[i] <= bounds[j]
  }

  // The packed batch: both bound lists start at zero or later and never step back.
  predicate Packed(qBounds: seq<int>, kBounds: seq<int>) {
    && |qBounds| == |kBounds| >= 2
    && NonDecreasing(qBounds) && NonDecreasing(kBounds) && 0 <= qBounds[0] && 0 <= kBounds[0]
  }

  function Tile(qBounds: seq<int>, kBounds: seq<int>, s: nat, start: int, stop: int): QueryTask
    requires s + 1 < |qBounds| == |kBounds|
  {
    QueryTask(start, stop, kBounds[s], kBounds[s + 1], start - qBounds[s],
              (kBounds[s + 1] - kBounds[s]) - (qBounds[s + 1] - qBounds[s]), s)
  }

  // Tasks of at most `chunk` rows from start to stop inside segment s.
  function SegmentTasks(qBounds: seq<int>, kBounds: seq<int>, s: nat, start: int, stop: int, chunk: nat): seq<QueryTask>
    requires s + 1 < |qBounds| == |kBounds| && chunk > 0
    decreases stop - start
  {
    if start >= stop then []
    else
      [Tile(qBounds, kBounds, s, start, Min(start + chunk, stop))]
      + SegmentTasks(qBounds, kBounds, s, start + chunk, stop, chunk)
  }

  // Tasks of the range a..b in the first n segments.
  function RangeTasks(qBounds: seq<int>, kBounds: seq<int>, a: int, b: int, chunk: nat, n: nat): seq<QueryTask>
    requires n < |qBounds| == |kBounds| && chunk > 0
  {
    if n == 0 then []
    else
      RangeTasks(qBounds, kBounds, a, b, chunk, n - 1)
      + SegmentTasks(qBounds, kBounds, n - 1, Max(qBounds[n - 1], a), Min(qBounds[n], b), chunk)
  }

  // Every segment the range meets has keys.
  predicate KeysFor(qBounds: seq<int>, kBounds: seq<int>, a: int, b: int, n: nat)
    requires n < |qBounds| == |kBounds|
  {
    forall s :: 0 <= s < n && Max(qBounds[s], a) < Min(qBounds[s + 1], b) ==> kBounds[s] < kBounds[s + 1]
  }

  /** Refuses exactly the malformed requests; otherwise cuts every met segment into chunks. */
  method BuildQueryTasks(qBounds: seq<int>, kBounds: seq<int>, chunk: int, a: int, b: int) returns (tiling: Tiling)
    ensures tiling.Tiles? <==>
            && chunk > 0 && |qBounds| == |kBounds| >= 2 && 0 <= a <= b <= qBounds[|qBounds| - 1]
            && KeysFor(qBounds, kBounds, a, b, |qBounds| - 1)
    ensures tiling.Tiles? ==> tiling.tasks == RangeTasks(qBounds, kBounds, a, b, chunk, |qBounds| - 1)
  {
    if chunk <= 0 {
      return Refused(NonPositiveChunk);
    }
    if |qBounds| != |kBounds| || |qBounds| < 2 {
      return Refused(BatchMismatch);
    }
    if !(0 <= a <= b <= qBounds[|qBounds| - 1]) {
      return Refused(RangeOutside);
    }
    var tasks := [];
    for s := 0 to |qBounds| - 1
      invariant KeysFor(qBounds, kBounds, a, b, s)
      invariant tasks == RangeTasks(qBounds, kBounds, a, b, chunk, s)
    {
      var start, stop := Max(qBounds[s], a), Min(qBounds[s + 1], b);
      if start < stop {
        if kBounds[s + 1] - kBounds[s] <= 0 {
          return Refused(MissingKeys);
        }
        var cut := SegmentLoop(qBounds, kBounds, s, start, stop, chunk);
        tasks := tasks + cut;
      }
    }
    tiling := Tiles(tasks);
  }

  method SegmentLoop(qBounds: seq<int>, kBounds: seq<int>, s: nat, start: int, stop: int, chunk: nat) returns (tasks: seq<QueryTask>)
    requires s + 1 < |qBounds| == |kBounds| && chunk > 0
    ensures tasks == SegmentTasks(qBounds, kBounds, s, start, stop, chunk)
  {
    tasks := [];
    var at := start;
    while at < stop
      invariant tasks + SegmentTasks(qBounds, kBounds, s, at, stop, chunk) == SegmentTasks(qBounds, kBounds, s, start, stop, chunk)
      decreases stop - at
    {
      var tile := Tile(qBounds, kBounds, s, at, Min(at + chunk, stop));
      assert tasks + ([tile] + SegmentTasks(qBounds, kBounds, s, at + chunk, stop, chunk))
          == (tasks + [tile]) + SegmentTasks(qBounds, kBounds, s, at + chunk, stop, chunk);
      tasks := tasks + [tile];
      at := at + chunk;
    }
    assert tasks + [] == tasks;
  }

  // ----- What the tasks are good for

  // End to end, without gap or overlap, from a to b.
  ghost predicate Chain(tasks: seq<QueryTask>, a: int, b: int) {
    if tasks == [] then a == b
    else
      && tasks[0].qStart == a && tasks[|tasks| - 1].qStop == b
      && forall n :: 0 <= n < |tasks| - 1 ==> Meet(tasks, n)
  }

  predicate Meet(tasks: seq<QueryTask>, n: nat)
    requires n + 1 < |tasks|
  {
    tasks[n].qStop == tasks[n + 1].qStart
  }

  lemma ChainConcat(x: seq<QueryTask>, y: seq<QueryTask>, a: int, b: int, c: int)
    requires Chain(x, a, b) && Chain(y, b, c)
    ensures Chain(x + y, a, c)
  {
    if x == [] {
      assert x + y == y;
    } else if y == [] {
      assert x + y == x;
    } else {
      forall n | 0 <= n < |x + y| - 1
        ensures Meet(x + y, n)
      {
        if n < |x| - 1 {
          assert Meet(x, n);
        } else if n >= |x| {
          assert Meet(y, n - |x|);
        }
      }
    }
  }

  // What the runner checks before it executes a task.
  predicate RunnerAccepts(task: QueryTask, chunk: int) {
    && task.Validates() && task.QTokens() <= chunk
    && task.qLocalOffset + task.QTokens() <= task.KTokens() - task.causalShift
  }

  // A query task that lies in segment s and names that segment's keys.
  predicate InSegment(qBounds: seq<int>, kBounds: seq<int>, task: QueryTask) {
    var s := task.segmentId;
    && 0 <= s && s + 1 < |qBounds| == |kBounds|
    && qBounds[s] <= task.qStart && task.qStop <= qBounds[s + 1]
    && task.qLocalOffset == task.qStart - qBounds[s]
    && task.kStart == kBounds[s] && task.kStop == kBounds[s + 1]
    && task.causalShift == (kBounds[s + 1] - kBounds[s]) - (qBounds[s + 1] - qBounds[s])
  }

  ghost predicate Runnable(qBounds: seq<int>, kBounds: seq<int>, tasks: seq<QueryTask>, chunk: int) {
    forall n :: 0 <= n < |tasks| ==> RunnerAccepts(tasks[n], chunk) && InSegment(qBounds, kBounds, tasks[n])
  }

  // One tile: a chain of its own that the runner accepts.
  lemma TileStands(qBounds: seq<int>, kBounds: seq<int>, s: nat, start: int, stop: int, chunk: nat)
    requires Packed(qBounds, kBounds) && s + 1 < |qBounds| && kBounds[s] < kBounds[s + 1]
    requires qBounds[s] <= start < stop <= qBounds[s + 1] && stop - start <= chunk
    ensures Chain([Tile(qBounds, kBounds, s, start, stop)], start, stop)
    ensures Runnable(qBounds, kBounds, [Tile(qBounds, kBounds, s, start, stop)], chunk)
  {
    assert qBounds[0] <= qBounds[s] || s == 0;
    assert kBounds[0] <= kBounds[s] || s == 0;
  }

  lemma RunnableConcat(qBounds: seq<int>, kBounds: seq<int>, x: seq<QueryTask>, y: seq<QueryTask>, chunk: int)
    requires Runnable(qBounds, kBounds, x, chunk) && Runnable(qBounds, kBounds, y, chunk)
    ensures Runnable(qBounds, kBounds, x + y, chunk)
  {
  }

  lemma {:induction false} SegmentTasksChain(qBounds: seq<int>, kBounds: seq<int>, s: nat, start: int, stop: int, chunk: nat)
    requires Packed(qBounds, kBounds) && s + 1 < |qBounds| && chunk > 0
    requires qBounds[s] <= start < stop <= qBounds[s + 1] && kBounds[s] < kBounds[s + 1]
    ensures Chain(SegmentTasks(qBounds, kBounds, s, start, stop, chunk), start, stop)
    ensures Runnable(qBounds, kBounds, SegmentTasks(qBounds, kBounds, s, start, stop, chunk), chunk)
    decreases stop - start
  {
    var next := Min(start + chunk, stop);
    TileStands(qBounds, kBounds, s, start, next, chunk);
    hide Chain, Runnable, Packed;
    var tile := Tile(qBounds, kBounds, s, start, next);
    var rest := SegmentTasks(qBounds, kBounds, s, start + chunk, stop, chunk);
    if next < stop {
      SegmentTasksChain(qBounds, kBounds, s, next, stop, chunk);
      ChainConcat([tile], rest, start, next, stop);
      RunnableConcat(qBounds, kBounds, [tile], rest, chunk);
    } else {
      assert rest == [] && [tile] + rest == [tile];
    }
  }

  /** The tasks of a range tile it, stay inside their segments, and pass the runner's checks. */
  lemma {:induction false} RangeTasksChain(qBounds: seq<int>, kBounds: seq<int>, a: int, b: int, chunk: nat, n: nat)
    requires Packed(qBounds, kBounds) && n < |qBounds| && chunk > 0
    requires qBounds[0] <= a <= b && KeysFor(qBounds, kBounds, a, b, n)
    ensures Chain(RangeTasks(qBounds, kBounds, a, b, chunk, n), a, Max(a, Min(qBounds[n], b)))
    ensures Runnable(qBounds, kBounds, RangeTasks(qBounds, kBounds, a, b, chunk, n), chunk)
  {
    if n > 0 {
      RangeTasksChain(qBounds, kBounds, a, b, chunk, n - 1);
      var start, stop := Max(qBounds[n - 1], a), Min(qBounds[n], b);
      var last := SegmentTasks(qBounds, kBounds, n - 1, start, stop, chunk);
      assert qBounds[n - 1] <= qBounds[n];
      if start < stop {
        SegmentTasksChain(qBounds, kBounds, n - 1, start, stop, chunk);
        hide Chain, Runnable;
        ChainConcat(RangeTasks(qBounds, kBounds, a, b, chunk, n - 1), last, a, start, stop);
        RunnableConcat(qBounds, kBounds, RangeTasks(qBounds, kBounds, a, b, chunk, n - 1), last, chunk);
      } else {
        hide Chain, Runnable;
        assert RangeTasks(qBounds, kBounds, a, b, chunk, n - 1) + last == RangeTasks(qBounds, kBounds, a, b, chunk, n - 1);
      }
    }
  }

  // Chained tasks are in the order the executor requires.
  lemma {:induction false} ChainOrdered(tasks: seq<QueryTask>, a: int, b: int)
    requires Chain(tasks, a, b) && forall n :: 0 <= n < |tasks| ==> tasks[n].Validates()
    ensures Ordered(tasks)
    decreases |tasks|
  {
    if |tasks| > 1 {
      var init := tasks[..|tasks| - 1];
      assert forall n :: 0 <= n < |init| - 1 ==> Meet(tasks, n) ==> Meet(init, n);
      assert Meet(tasks, |init| - 1);
      ChainOrdered(init, a, tasks[|init|].qStart);
      forall m | 0 <= m < |init|
        ensures tasks[m].qStop <= tasks[|init|].qStart
      {
        assert init[m] == tasks[m];
        assert m < |init| - 1 ==> init[m].qStop <= init[|init| - 1].qStart;
      }
    }
  }

  // What the runner demands of a task list: each task acceptable, inside the tensors, after the one before.
  ghost predicate ListAccepted(tasks: seq<QueryTask>, qTokens: int, kTokens: int, chunk: int) {
    && (forall n :: 0 <= n < |tasks| ==> RunnerAccepts(tasks[n], chunk) && tasks[n].qStop <= qTokens && tasks[n].kStop <= kTokens)
    && Ordered(tasks)
  }

  /** The runner's input check decides exactly that. */
  method ValidateQueryTasks(tasks: seq<QueryTask>, qTokens: int, kTokens: int, chunk: int) returns (ok: bool)
    ensures ok <==> ListAccepted(tasks, qTokens, kTokens, chunk)
  {
    var previousStop := 0;
    for n := 0 to |tasks|
      invariant ListAccepted(tasks[..n], qTokens, kTokens, chunk)
      invariant previousStop == if n == 0 then 0 else tasks[n - 1].qStop
    {
      var task := tasks[n];
      if !task.Validates() || task.qStart < previousStop || task.qStop > qTokens || task.kStop > kTokens
         || task.QTokens() > chunk || task.qLocalOffset + task.QTokens() > task.KTokens() - task.causalShift {
        NotAccepted(tasks, qTokens, kTokens, chunk, n);
        return false;
      }
      AcceptedExtends(tasks, qTokens, kTokens, chunk, n);
      previousStop := task.qStop;
    }
    assert tasks[..|tasks|] == tasks;
    ok := true;
  }

  lemma NotAccepted(tasks: seq<QueryTask>, qTokens: int, kTokens: int, chunk: int, n: nat)
    requires n < |tasks|
    requires !RunnerAccepts(tasks[n], chunk) || tasks[n].qStop > qTokens || tasks[n].kStop > kTokens
             || (n > 0 && tasks[n].qStart < tasks[n - 1].qStop)
    ensures !ListAccepted(tasks, qTokens, kTokens, chunk)
  {
  }

  lemma AcceptedExtends(tasks: seq<QueryTask>, qTokens: int, kTokens: int, chunk: int, n: nat)
    requires n < |tasks| && ListAccepted(tasks[..n], qTokens, kTokens, chunk)
    requires RunnerAccepts(tasks[n], chunk) && tasks[n].qStop <= qTokens && tasks[n].kStop <= kTokens
    requires n > 0 ==> tasks[n - 1].qStop <= tasks[n].qStart
    ensures ListAccepted(tasks[..n + 1], qTokens, kTokens, chunk)
  {
    var before := tasks[..n];
    forall m | 0 <= m < n
      ensures tasks[m].qStop <= tasks[n].qStart
    {
      assert before[m] == tasks[m] && before[n - 1] == tasks[n - 1] && before[n - 1].Validates();
    }
    assert tasks[..n + 1] == before + [tasks[n]];
  }

  /** Every list the tiler builds passes the runner's check. */
  lemma BuiltTasksPass(qBounds: seq<int>, kBounds: seq<int>, a: int, b: int, chunk: nat)
    requires Packed(qBounds, kBounds) && chunk > 0 && qBounds[0] <= a <= b <= qBounds[|qBounds| - 1]
    requires KeysFor(qBounds, kBounds, a, b, |qBounds| - 1)
    ensures ListAccepted(RangeTasks(qBounds, kBounds, a, b, chunk, |qBounds| - 1), qBounds[|qBounds| - 1], kBounds[|kBounds| - 1], chunk)
  {
    var last := |qBounds| - 1;
    var tasks := RangeTasks(qBounds, kBounds, a, b, chunk, last);
    RangeTasksChain(qBounds, kBounds, a, b, chunk, last);
    hide Chain, RangeTasks;
    forall n | 0 <= n < |tasks|
      ensures RunnerAccepts(tasks[n], chunk) && tasks[n].qStop <= qBounds[last] && tasks[n].kStop <= kBounds[last]
    {
      assert InSegment(qBounds, kBounds, tasks[n]);
      var s := tasks[n].segmentId;
      assert s + 1 == last || qBounds[s + 1] <= qBounds[last];
      assert s + 1 == last || kBounds[s + 1] <= kBounds[last];
    }
    ChainOrdered(tasks, a, Max(a, Min(qBounds[last], b)));
  }
}
