/** The lock-protected query dispatcher: each call is one atomic step, in any interleaving. */
module Dispatcher {
  import opened Basics
  import opened Alignment
  import opened QueryTasks
  import opened QueryTiling

  // What one cursor hands out from: the packed bounds and the tail balance factor.
  datatype Batch = Batch(qBounds: seq<int>, kBounds: seq<int>, balance: real)

  datatype Cursor = Cursor(segmentId: nat, qOffset: int, remaining: int, activeWorkers: nat, retired: set<int>,
                           claimOrder: nat, cancelled: bool)

  datatype Outcome = Claimed(task: QueryTask) | Nothing | BadRequest | MissingKeys

  ghost predicate ValidBatch(b: Batch) {
    Packed(b.qBounds, b.kBounds) && b.balance > 0.0
  }

  function LastSegment(b: Batch): int { |b.qBounds| - 1 }

  function Initial(b: Batch, workers: nat): Cursor
    requires ValidBatch(b)
  {
    Cursor(0, b.qBounds[0], b.qBounds[LastSegment(b)] - b.qBounds[0], workers, {}, 0, false)
  }

  // Skips segments that are used up or empty.
  function Advance(b: Batch, c: Cursor): (at: Cursor)
    requires ValidBatch(b) && c.segmentId <= LastSegment(b)
    ensures c.segmentId <= at.segmentId <= LastSegment(b)
    decreases LastSegment(b) - c.segmentId
  {
    if c.segmentId >= LastSegment(b) || c.qOffset < b.qBounds[c.segmentId + 1] then c
    else
      var next := c.(segmentId := c.segmentId + 1);
      Advance(b, if next.segmentId < LastSegment(b) then next.(qOffset := b.qBounds[next.segmentId]) else next)
  }

  // Workers that can still expect a full request.
  function TailWorkers(workers: int, remaining: int, requested: int): int
    requires requested > 0
  {
    Min(Max(workers, 1), Max(1, Ceil(remaining as real / requested as real)))
  }

  // The share of what is left that one claim may take near the end.
  function TailLimit(workers: int, remaining: int, balance: real, requested: int): int
    requires requested > 0
  {
    Ceil(remaining as real / TailWorkers(workers, remaining, requested) as real * balance)
  }

  function Claim(b: Batch, c: Cursor, device: int, requested: int): (r: (Cursor, Outcome))
    requires ValidBatch(b) && c.segmentId <= LastSegment(b)
    ensures r.0.segmentId <= LastSegment(b)
  {
    if requested <= 0 then (c, BadRequest)
    else if c.cancelled || c.remaining <= 0 then (c, Nothing)
    else
      var at := Advance(b, c);
      if at.segmentId >= LastSegment(b) then (at, Nothing)
      else
        var s := at.segmentId;
        if b.kBounds[s + 1] <= b.kBounds[s] then (at, Outcome.MissingKeys)
        else
          var segmentRemaining := b.qBounds[s + 1] - at.qOffset;
          var tailLimit := TailLimit(at.activeWorkers, at.remaining, b.balance, requested);
          var actual := Min(Min(requested, segmentRemaining), Max(1, tailLimit));
          var task := Tile(b.qBounds, b.kBounds, s, at.qOffset, at.qOffset + actual).(
            deviceId := device, claimOrder := at.claimOrder, requestedQ := Requested(requested),
            segmentClamped := actual < requested && actual == segmentRemaining,
            tailClamped := actual < requested && actual == tailLimit);
          (at.(claimOrder := at.claimOrder + 1, qOffset := at.qOffset + actual, remaining := at.remaining - actual), Claimed(task))
  }

  function Retire(c: Cursor, device: int): Cursor {
    if device in c.retired then c
    else c.(retired := c.retired + {device}, activeWorkers := if c.activeWorkers == 0 then 0 else c.activeWorkers - 1)
  }

  datatype Call = ClaimCall(device: int, requested: int) | RetireCall(device: int) | CancelCall

  datatype Run = Run(cursor: Cursor, tasks: seq<QueryTask>, outcomes: seq<Outcome>)

  function Step(b: Batch, r: Run, call: Call): (next: Run)
    requires ValidBatch(b) && r.cursor.segmentId <= LastSegment(b)
    ensures next.cursor.segmentId <= LastSegment(b)
  {
    match call
    case ClaimCall(device, requested) =>
      var (next, outcome) := Claim(b, r.cursor, device, requested);
      Run(next, if outcome.Claimed? then r.tasks + [outcome.task] else r.tasks, r.outcomes + [outcome])
    case RetireCall(device) => r.(cursor := Retire(r.cursor, device))
    case CancelCall => r.(cursor := r.cursor.(cancelled := true))
  }

  // ----- What every run keeps

  // The offset is the frontier of what has been handed out, inside the current segment.
  ghost predicate Placed(b: Batch, c: Cursor)
    requires ValidBatch(b)
  {
    && c.segmentId <= LastSegment(b) && 0 <= c.remaining
    && c.qOffset == b.qBounds[LastSegment(b)] - c.remaining
    && b.qBounds[c.segmentId] <= c.qOffset
    && (c.segmentId < LastSegment(b) ==> c.qOffset <= b.qBounds[c.segmentId + 1])
  }

  lemma {:induction false} AdvanceMeans(b: Batch, c: Cursor)
    requires ValidBatch(b) && Placed(b, c)
    ensures var at := Advance(b, c);
            && Placed(b, at) && at == c.(segmentId := at.segmentId) && c.segmentId <= at.segmentId
            && (at.segmentId < LastSegment(b) ==> at.qOffset < b.qBounds[at.segmentId + 1])
            && (at.segmentId == LastSegment(b) ==> at.remaining == 0)
    decreases LastSegment(b) - c.segmentId
  {
    if c.segmentId < LastSegment(b) && c.qOffset >= b.qBounds[c.segmentId + 1] {
      var next := c.(segmentId := c.segmentId + 1);
      assert next.segmentId < LastSegment(b) ==> b.qBounds[next.segmentId] <= b.qBounds[next.segmentId + 1];
      AdvanceMeans(b, if next.segmentId < LastSegment(b) then next.(qOffset := b.qBounds[next.segmentId]) else next);
    }
  }

  // A claimed task starts at the frontier, stays in one segment, and passes the runner's checks.
  lemma ClaimMeans(b: Batch, c: Cursor, device: int, requested: int)
    requires ValidBatch(b) && Placed(b, c)
    ensures var (next, outcome) := Claim(b, c, device, requested);
            && Placed(b, next) && next.cancelled == c.cancelled
            && next.claimOrder == c.claimOrder + (if outcome.Claimed? then 1 else 0)
            && (outcome.Claimed? ==>
                  && outcome.task.qStart == c.qOffset && outcome.task.qStop == next.qOffset
                  && RunnerAccepts(outcome.task, requested) && InSegment(b.qBounds, b.kBounds, outcome.task)
                  && outcome.task.deviceId == device && outcome.task.claimOrder == c.claimOrder
                  && outcome.task.requestedQ == Requested(requested))
            && (!outcome.Claimed? ==> next.qOffset == c.qOffset && next.remaining == c.remaining)
  {
    if requested > 0 && !c.cancelled && c.remaining > 0 {
      AdvanceMeans(b, c);
      var at := Advance(b, c);
      var s := at.segmentId;
      if s < LastSegment(b) {
        assert 0 <= b.kBounds[0] <= b.kBounds[s] && 0 <= b.qBounds[0] <= b.qBounds[s];
        assert b.qBounds[s + 1] <= b.qBounds[LastSegment(b)];
      }
    }
  }

  ghost predicate AllKeyed(b: Batch)
    requires ValidBatch(b)
  {
    forall s :: 0 <= s < LastSegment(b) && b.qBounds[s] < b.qBounds[s + 1] ==> b.kBounds[s] < b.kBounds[s + 1]
  }

  /** With keys for every nonempty segment, a positive request is refused only when cancelled or all is handed out. */
  lemma ClaimServes(b: Batch, c: Cursor, device: int, requested: int)
    requires ValidBatch(b) && Placed(b, c) && AllKeyed(b) && requested > 0
    ensures var (_, outcome) := Claim(b, c, device, requested);
            && (outcome.Claimed? || outcome.Nothing?)
            && (outcome.Nothing? <==> c.cancelled || c.qOffset == b.qBounds[LastSegment(b)])
  {
    AdvanceMeans(b, c);
  }

  ghost predicate GoodRun(b: Batch, r: Run)
    requires ValidBatch(b)
  {
    && Placed(b, r.cursor) && r.cursor.claimOrder == |r.tasks|
    && Chain(r.tasks, b.qBounds[0], r.cursor.qOffset)
    && (forall n :: 0 <= n < |r.tasks| ==> GoodTask(b, r.tasks[n], n))
  }

  ghost predicate GoodTask(b: Batch, task: QueryTask, n: int) {
    && task.claimOrder == n && task.requestedQ.Requested?
    && RunnerAccepts(task, task.requestedQ.tokens) && InSegment(b.qBounds, b.kBounds, task)
  }

  function Replay(b: Batch, workers: nat, calls: seq<Call>): (r: Run)
    requires ValidBatch(b)
    ensures r.cursor.segmentId <= LastSegment(b)
  {
    if calls == [] then Run(Initial(b, workers), [], [])
    else Step(b, Replay(b, workers, calls[..|calls| - 1]), calls[|calls| - 1])
  }

  lemma StepGood(b: Batch, r: Run, call: Call)
    requires ValidBatch(b) && GoodRun(b, r)
    ensures GoodRun(b, Step(b, r, call))
  {
    hide Claim, RunnerAccepts, InSegment;
    if call.ClaimCall? {
      ClaimMeans(b, r.cursor, call.device, call.requested);
      var (next, outcome) := Claim(b, r.cursor, call.device, call.requested);
      if outcome.Claimed? {
        ChainConcat(r.tasks, [outcome.task], b.qBounds[0], r.cursor.qOffset, next.qOffset);
      }
    }
  }

  /**
   Whatever the interleaving of claims, retirements and cancellation, the tasks
   handed out tile a prefix of the query range in claim order, none crosses a
   segment, and each passes the runner's checks.
   */
  lemma {:induction false} TasksTileAPrefix(b: Batch, workers: nat, calls: seq<Call>)
    requires ValidBatch(b)
    ensures GoodRun(b, Replay(b, workers, calls)) && Ordered(Replay(b, workers, calls).tasks)
    decreases |calls|
  {
    var r := Replay(b, workers, calls);
    if calls != [] {
      TasksTileAPrefix(b, workers, calls[..|calls| - 1]);
      StepGood(b, Replay(b, workers, calls[..|calls| - 1]), calls[|calls| - 1]);
    } else {
      assert b.qBounds[0] <= b.qBounds[1] && b.qBounds[0] <= b.qBounds[LastSegment(b)];
    }
    ChainOrdered(r.tasks, b.qBounds[0], r.cursor.qOffset);
  }

  // ----- One worker

  // The static cut of everything from the frontier on.
  function Rest(b: Batch, s: nat, offset: int, chunk: nat): seq<QueryTask>
    requires ValidBatch(b) && s <= LastSegment(b) && chunk > 0
    decreases LastSegment(b) - s
  {
    if s == LastSegment(b) then []
    else SegmentTasks(b.qBounds, b.kBounds, s, offset, b.qBounds[s + 1], chunk) + Rest(b, s + 1, b.qBounds[s + 1], chunk)
  }

  function RestOf(b: Batch, c: Cursor, chunk: nat): seq<QueryTask>
    requires ValidBatch(b) && c.segmentId <= LastSegment(b) && chunk > 0
  {
    Rest(b, c.segmentId, c.qOffset, chunk)
  }

  // A task without the dispatcher's annotations.
  function Plain(task: QueryTask): QueryTask {
    QueryTask(task.qStart, task.qStop, task.kStart, task.kStop, task.qLocalOffset, task.causalShift, task.segmentId)
  }

  function Plains(tasks: seq<QueryTask>): (plains: seq<QueryTask>)
    ensures |plains| == |tasks| && forall n :: 0 <= n < |tasks| ==> plains[n] == Plain(tasks[n])
  {
    seq(|tasks|, n requires 0 <= n < |tasks| => Plain(tasks[n]))
  }

  lemma {:induction false} AdvanceRest(b: Batch, c: Cursor, chunk: nat)
    requires ValidBatch(b) && Placed(b, c) && chunk > 0
    ensures RestOf(b, Advance(b, c), chunk) == RestOf(b, c, chunk)
    decreases LastSegment(b) - c.segmentId
  {
    if c.segmentId < LastSegment(b) && c.qOffset >= b.qBounds[c.segmentId + 1] {
      var next := c.(segmentId := c.segmentId + 1);
      assert next.segmentId < LastSegment(b) ==> b.qBounds[next.segmentId] <= b.qBounds[next.segmentId + 1];
      AdvanceRest(b, if next.segmentId < LastSegment(b) then next.(qOffset := b.qBounds[next.segmentId]) else next, chunk);
    }
  }

  // A lone worker's tail share never cuts below what is left.
  lemma LoneTail(b: Batch, c: Cursor, requested: int)
    requires requested > 0 && c.activeWorkers <= 1 && b.balance >= 1.0 && c.remaining >= 0
    ensures TailLimit(c.activeWorkers, c.remaining, b.balance, requested) >= c.remaining
  {
    assert TailWorkers(c.activeWorkers, c.remaining, requested) == 1;
    var share := c.remaining as real / 1.0 * b.balance;
    assert share >= c.remaining as real by { Stretch(c.remaining as real, b.balance); }
    CeilBounds(share);
  }

  lemma Stretch(x: real, factor: real)
    requires x >= 0.0 && factor >= 1.0
    ensures x * factor >= x
  {
    assert x * (factor - 1.0) >= 0.0;
  }

  lemma LoneClaim(b: Batch, c: Cursor, device: int, chunk: nat)
    requires ValidBatch(b) && Placed(b, c) && AllKeyed(b) && chunk > 0 && b.balance >= 1.0
    requires c.activeWorkers <= 1 && !c.cancelled
    ensures var (next, outcome) := Claim(b, c, device, chunk);
            && next.activeWorkers == c.activeWorkers && !next.cancelled
            && RestOf(b, c, chunk) == (if outcome.Claimed? then [Plain(outcome.task)] + RestOf(b, next, chunk) else [])
            && (!outcome.Claimed? ==> RestOf(b, next, chunk) == [])
  {
    AdvanceMeans(b, c);
    AdvanceRest(b, c, chunk);
    ClaimServes(b, c, device, chunk);
    var at := Advance(b, c);
    if c.remaining > 0 {
      LoneTail(b, at, chunk);
      hide TailLimit;
      var s := at.segmentId;
      assert b.qBounds[s + 1] <= b.qBounds[LastSegment(b)];
      var actual := Min(chunk, b.qBounds[s + 1] - at.qOffset);
      assert SegmentTasks(b.qBounds, b.kBounds, s, at.qOffset + chunk, b.qBounds[s + 1], chunk)
          == SegmentTasks(b.qBounds, b.kBounds, s, at.qOffset + actual, b.qBounds[s + 1], chunk);
    } else {
      NothingLeft(b, c, chunk);
    }
  }

  lemma {:induction false} NothingLeft(b: Batch, c: Cursor, chunk: nat)
    requires ValidBatch(b) && Placed(b, c) && chunk > 0 && c.remaining == 0
    ensures RestOf(b, c, chunk) == []
    decreases LastSegment(b) - c.segmentId
  {
    if c.segmentId < LastSegment(b) {
      var next := c.(segmentId := c.segmentId + 1);
      assert b.qBounds[c.segmentId + 1] <= b.qBounds[LastSegment(b)];
      assert next.segmentId < LastSegment(b) ==> b.qBounds[next.segmentId] <= b.qBounds[next.segmentId + 1];
      NothingLeft(b, next, chunk);
    }
  }

  lemma {:induction false} RestCompletes(b: Batch, chunk: nat, n: nat)
    requires ValidBatch(b) && chunk > 0 && n <= LastSegment(b)
    ensures var first, last := b.qBounds[0], b.qBounds[LastSegment(b)];
            RangeTasks(b.qBounds, b.kBounds, first, last, chunk, n) + Rest(b, n, b.qBounds[n], chunk)
            == RangeTasks(b.qBounds, b.kBounds, first, last, chunk, LastSegment(b))
    decreases LastSegment(b) - n
  {
    var first, last := b.qBounds[0], b.qBounds[LastSegment(b)];
    if n < LastSegment(b) {
      RestCompletes(b, chunk, n + 1);
      assert b.qBounds[0] <= b.qBounds[n] && b.qBounds[n + 1] <= b.qBounds[LastSegment(b)];
      assert RangeTasks(b.qBounds, b.kBounds, first, last, chunk, n + 1)
          == RangeTasks(b.qBounds, b.kBounds, first, last, chunk, n)
             + SegmentTasks(b.qBounds, b.kBounds, n, b.qBounds[n], b.qBounds[n + 1], chunk);
    }
  }

  function Repeated(device: int, chunk: int, n: nat): (calls: seq<Call>)
    ensures |calls| == n
  {
    seq(n, i => ClaimCall(device, chunk))
  }

  lemma {:induction false} LoneRun(b: Batch, device: int, chunk: nat, n: nat)
    requires ValidBatch(b) && AllKeyed(b) && chunk > 0 && b.balance >= 1.0
    ensures var r := Replay(b, 1, Repeated(device, chunk, n));
            && r.cursor.activeWorkers == 1 && !r.cursor.cancelled
            && Plains(r.tasks) + RestOf(b, r.cursor, chunk) == Rest(b, 0, b.qBounds[0], chunk)
            && (|r.tasks| == n || RestOf(b, r.cursor, chunk) == [])
  {
    hide Claim, GoodRun, Rest, Placed, ValidBatch, Advance;
    if n > 0 {
      LoneRun(b, device, chunk, n - 1);
      var calls := Repeated(device, chunk, n - 1);
      assert Repeated(device, chunk, n)[..n - 1] == calls;
      var before := Replay(b, 1, calls);
      TasksTileAPrefix(b, 1, calls);
      GoodPlaced(b, before);
      LoneStep(b, before, device, chunk);
    } else {
      assert Plains([]) == [];
    }
  }

  lemma LoneStep(b: Batch, r: Run, device: int, chunk: nat)
    requires ValidBatch(b) && Placed(b, r.cursor) && AllKeyed(b) && chunk > 0 && b.balance >= 1.0
    requires r.cursor.activeWorkers <= 1 && !r.cursor.cancelled
    ensures var next := Step(b, r, ClaimCall(device, chunk));
            && next.cursor.activeWorkers == r.cursor.activeWorkers && !next.cursor.cancelled
            && Plains(next.tasks) + RestOf(b, next.cursor, chunk) == Plains(r.tasks) + RestOf(b, r.cursor, chunk)
            && (RestOf(b, r.cursor, chunk) == [] ==> RestOf(b, next.cursor, chunk) == [])
            && (|next.tasks| == |r.tasks| + 1 || RestOf(b, next.cursor, chunk) == [])
  {
    hide Claim, Rest, ValidBatch, AllKeyed, Plain;
    LoneClaim(b, r.cursor, device, chunk);
    var (next, outcome) := Claim(b, r.cursor, device, chunk);
    if outcome.Claimed? {
      assert Plains(r.tasks + [outcome.task]) == Plains(r.tasks) + [Plain(outcome.task)];
    }
  }

  lemma GoodPlaced(b: Batch, r: Run)
    requires ValidBatch(b) && GoodRun(b, r)
    ensures Placed(b, r.cursor)
  {
  }

  /** One worker with a balance factor of at least one claims exactly the static tasks, in order. */
  lemma OneWorkerIsStatic(b: Batch, device: int, chunk: nat, n: nat)
    requires ValidBatch(b) && AllKeyed(b) && chunk > 0 && b.balance >= 1.0
    ensures var all := RangeTasks(b.qBounds, b.kBounds, b.qBounds[0], b.qBounds[LastSegment(b)], chunk, LastSegment(b));
            Plains(Replay(b, 1, Repeated(device, chunk, n)).tasks) == all[..Min(n, |all|)]
  {
    LoneRun(b, device, chunk, n);
    RestCompletes(b, chunk, 0);
    var r := Replay(b, 1, Repeated(device, chunk, n));
    TasksAtMost(b, device, chunk, n);
    var all := Rest(b, 0, b.qBounds[0], chunk);
    assert RangeTasks(b.qBounds, b.kBounds, b.qBounds[0], b.qBounds[LastSegment(b)], chunk, 0) + all == all;
    assert all[..|r.tasks|] == Plains(r.tasks);
  }

  lemma {:induction false} TasksAtMost(b: Batch, device: int, chunk: int, n: nat)
    requires ValidBatch(b)
    ensures |Replay(b, 1, Repeated(device, chunk, n)).tasks| <= n
  {
    if n > 0 {
      assert Repeated(device, chunk, n)[..n - 1] == Repeated(device, chunk, n - 1);
      TasksAtMost(b, device, chunk, n - 1);
    }
  }
}
