/**
 What the pipeline's symbolic buffer contents mean numerically, and the end-to-end
 result: every interleaving leaves one-shot attention in every delivered row.
 */
module AttentionPipeline {
  import Basics
  import opened CommandStreams
  import opened StreamClocks
  import opened RingProtocol
  import opened QueryTasks
  import opened StreamProgram
  import opened RunProgram
  import Executor
  import Softmax
  import AttentionKernel
  import opened AttentionFormula
  import opened AttentionReference
  import QueryTiling

  // What device buffers hold besides what was just copied or computed: anything.
  datatype Leftover = Leftover(key: (Val, nat, nat) -> Softmax.Vec, value: (Val, nat, nat) -> Softmax.Vec,
                               state: (Val, nat) -> Softmax.State)

  ghost predicate LeftShaped(left: Leftover, p: AttentionKernel.Problem) {
    && (forall v, h, x :: |left.key(v, h, x)| == p.dim && |left.value(v, h, x)| == p.dim)
    && (forall v, i :: |left.state(v, i).acc| == p.dim)
  }

  // How a kernel reads host tensors: the problem, its block size and the exponential.
  datatype Kernel = Kernel(e: real -> real, p: AttentionKernel.Problem, blockN: nat, left: Leftover) {
    ghost predicate Valid() {
      Softmax.Exponential(e) && p.Valid() && blockN > 0 && LeftShaped(left, p)
    }
  }

  // The K/V slot holds a tile of the host tensors.
  predicate HoldsTile(p: AttentionKernel.Problem, kv: Val) {
    kv.KVTile? && 0 <= kv.start <= kv.stop <= |p.k|
  }

  // Row x of the K/V slot that command v reads: a row of the tile copied last, or what was there before.
  ghost function SlotItem(p: AttentionKernel.Problem, left: Leftover, w: AttentionKernel.View, v: Val, kv: Val, x: nat): (item: Softmax.Item)
    requires w.Fits(p) && LeftShaped(left, p) && HoldsTile(p, kv)
    ensures |item.value| == p.dim
  {
    if x < kv.stop - kv.start then AttentionKernel.KeyItem(p, w, kv.start, x)
    else
      Softmax.Item(if AttentionKernel.Visible(w.causal, w.kPos + x, w.qPos, w.shift)
                   then Softmax.Fin(AttentionKernel.Dot(p.q[w.row][w.head], left.key(v, w.head, x)) * p.scale)
                   else Softmax.NegInf, 1.0, left.value(v, w.head, x))
  }

  // The rows the command folds: as many as it is told to.
  ghost function SlotItems(p: AttentionKernel.Problem, left: Leftover, w: AttentionKernel.View, v: Val, kv: Val, kvTokens: nat): (items: seq<Softmax.Item>)
    requires w.Fits(p) && LeftShaped(left, p) && HoldsTile(p, kv)
    ensures Softmax.Shaped(items, p.dim)
  {
    seq(kvTokens, x requires 0 <= x < kvTokens => SlotItem(p, left, w, v, kv, x))
  }

  // Row i of the Q buffer is a row of the host tensor.
  predicate HoldsRow(p: AttentionKernel.Problem, q: Val, i: nat) {
    q.QTile? && i < q.stop - q.start && 0 <= q.start && q.stop <= |p.q|
  }

  // The update reads row i of a query tile and a K/V tile inside the host tensors.
  predicate Readable(m: Kernel, i: nat, v: Val) {
    v.Updated? && HoldsRow(m.p, v.q, i) && HoldsTile(m.p, v.kv) && v.args.kvTokens >= 0
  }

  // The running state a symbolic value stands for, at row i of its query tile.  The
  // kernel leaves the rows from its query count on as they were.
  ghost function Denote(m: Kernel, h: nat, i: nat, v: Val): (s: Softmax.State)
    requires m.Valid() && h < m.p.heads
    ensures |s.acc| == m.p.dim
  {
    if v.Updated? && i >= v.args.qTokens then
      if v.state.NewState? then m.left.state(v, i) else Denote(m, h, i, v.state)
    else if Readable(m, i, v) then
      var w := AttentionKernel.View(h, v.q.start + i, v.args.qLocalOffset + i, v.args.kvLocalOffset,
                                    v.args.causalShift, v.args.causal);
      AttentionKernel.FoldTile(m.e, Denote(m, h, i, v.state), SlotItems(m.p, m.left, w, v, v.kv, v.args.kvTokens),
                               m.blockN, 0)
    else if v.NewState? then Softmax.InitialState(m.p.dim)
    else m.left.state(v, i)
  }

  // The row vector a delivered symbolic row stands for, if the kernel finalized it.
  ghost function RowMeaning(m: Kernel, h: nat, v: Val): Softmax.Vec
    requires m.Valid() && h < m.p.heads
  {
    if v.Row? && v.tile.Finalized? && 0 <= v.index < v.tile.qTokens
    then Softmax.FinalizeRow(Denote(m, h, v.index, v.tile.state)) else []
  }

  // Told the size of the tile, a command folds exactly the tile.
  lemma WholeTile(p: AttentionKernel.Problem, left: Leftover, w: AttentionKernel.View, v: Val, kv: Val)
    requires w.Fits(p) && LeftShaped(left, p) && HoldsTile(p, kv)
    ensures SlotItems(p, left, w, v, kv, kv.stop - kv.start) == AttentionKernel.RowItems(p, w, kv.start, kv.stop)
  {
  }

  ghost predicate InRange(t: QueryTask, m: Kernel) {
    t.Validates() && t.qStop <= |m.p.q| && t.kStop <= |m.p.k|
  }

  function TaskView(t: QueryTask, causal: bool, h: nat, r: int): AttentionKernel.View
    requires t.Validates() && Covers(t, r)
  {
    AttentionKernel.View(h, r, t.qLocalOffset + (r - t.qStart), 0, t.causalShift, causal)
  }

  function Reach(t: QueryTask, plan: Plan, n: nat): int {
    Basics.Min(TileStart(t, plan, n), t.kStop)
  }

  /** After n tiles the symbolic state stands for the keys of the first n tiles. */
  lemma {:induction false} FoldedStreams(m: Kernel, t: QueryTask, plan: Plan, causal: bool, h: nat, r: int, n: nat)
    requires m.Valid() && plan.Valid() && InRange(t, m) && h < m.p.heads && Covers(t, r)
    requires n <= TileCount(t, plan)
    ensures t.kStart <= Reach(t, plan, n) <= t.kStop
    ensures Streamed(m.e, m.p, Denote(m, h, r - t.qStart, Folded(t, plan, causal, n)),
                     TaskView(t, causal, h, r), t.kStart, Reach(t, plan, n))
    decreases n
  {
    hide Streamed, AttentionKernel.FoldTile, TileStart, TileStop, Denote;
    var w := TaskView(t, causal, h, r);
    if n == 0 {
      NothingFolded(m, t, plan, causal, h, r);
      StartStreams(m, w, t.kStart);
    } else {
      FoldedStreams(m, t, plan, causal, h, r, n - 1);
      TileReach(t, plan, n - 1);
      var start, stop := TileStart(t, plan, n - 1), TileStop(t, plan, n - 1);
      TileExtends(m.e, m.p, Denote(m, h, r - t.qStart, Folded(t, plan, causal, n - 1)), w, t.kStart, start, stop, m.blockN);
      FoldedTile(m, t, plan, causal, h, r, n);
    }
  }

  lemma NothingFolded(m: Kernel, t: QueryTask, plan: Plan, causal: bool, h: nat, r: int)
    requires m.Valid() && plan.Valid() && InRange(t, m) && h < m.p.heads && Covers(t, r)
    ensures Reach(t, plan, 0) == t.kStart && Denote(m, h, r - t.qStart, Folded(t, plan, causal, 0)) == Softmax.InitialState(m.p.dim)
  {
  }

  // The n-th update folds the n-th tile as the query task's view places it, into what was folded before.
  lemma FoldedTile(m: Kernel, t: QueryTask, plan: Plan, causal: bool, h: nat, r: int, n: nat)
    requires m.Valid() && plan.Valid() && InRange(t, m) && h < m.p.heads && Covers(t, r)
    requires 0 < n <= TileCount(t, plan)
    requires t.kStart <= TileStart(t, plan, n - 1) < TileStop(t, plan, n - 1) <= t.kStop
    ensures var i, start, stop := r - t.qStart, TileStart(t, plan, n - 1), TileStop(t, plan, n - 1);
            var w := TaskView(t, causal, h, r).(kPos := start - t.kStart);
            Denote(m, h, i, Folded(t, plan, causal, n)) ==
            AttentionKernel.FoldTile(m.e, Denote(m, h, i, Folded(t, plan, causal, n - 1)),
                                     AttentionKernel.RowItems(m.p, w, start, stop), m.blockN, 0)
  {
    hide AttentionKernel.FoldTile, AttentionKernel.RowItems, SlotItems, TileStart, TileStop;
    var i, start := r - t.qStart, TileStart(t, plan, n - 1);
    var w := TaskView(t, causal, h, r).(kPos := start - t.kStart);
    assert AttentionKernel.View(h, t.qStart + i, t.qLocalOffset + i, start - t.kStart, t.causalShift, causal) == w;
    WholeTile(m.p, m.left, w, Folded(t, plan, causal, n), Folded(t, plan, causal, n).kv);
  }

  lemma StartStreams(m: Kernel, w: AttentionKernel.View, start: nat)
    requires m.Valid() && w.Fits(m.p) && start <= |m.p.k|
    ensures Streamed(m.e, m.p, Softmax.InitialState(m.p.dim), w, start, start)
  {
    assert AttentionKernel.RowItems(m.p, w, start, start) == [];
    Softmax.InitialRepresents(m.e, m.p.dim);
  }

  // Tile n starts where the first n tiles reach and ends where the first n + 1 reach.
  lemma TileReach(t: QueryTask, plan: Plan, n: nat)
    requires plan.Valid() && t.Validates() && n < TileCount(t, plan)
    ensures TileStart(t, plan, n) == Reach(t, plan, n) && TileStop(t, plan, n) == Reach(t, plan, n + 1)
    ensures t.kStart <= TileStart(t, plan, n) < TileStop(t, plan, n) <= t.kStop
  {
    ProductMonotone(n, TileCount(t, plan) - 1, plan.kvChunkTokens);
    ProductMonotone(0, n, plan.kvChunkTokens);
  }

  // The query task lies in this packed segment, as the tiler builds it.
  ghost predicate TaskOf(t: QueryTask, s: Span) {
    && s.qStart <= t.qStart && t.qStop <= s.qStop && t.kStart == s.kStart && t.kStop == s.kStop
    && t.qLocalOffset == t.qStart - s.qStart && t.causalShift == (s.kStop - s.kStart) - (s.qStop - s.qStart)
  }

  // The row holds attention over its query task's keys: the formula of the segment it lies in.
  ghost predicate Attends(m: Kernel, row: Softmax.Vec, t: QueryTask, causal: bool, h: nat, r: int)
    requires m.Valid() && InRange(t, m) && h < m.p.heads && Covers(t, r)
  {
    && IsAttention(m.e, m.p, row, TaskView(t, causal, h, r), t.kStart, t.kStop)
    && forall s :: TaskOf(t, s) ==> IsFormula(m.e, m.p, row, s, causal, h, r)
  }

  lemma AttendsByFormula(m: Kernel, row: Softmax.Vec, t: QueryTask, causal: bool, h: nat, r: int)
    requires m.Valid() && InRange(t, m) && h < m.p.heads && Covers(t, r)
    requires IsAttention(m.e, m.p, row, TaskView(t, causal, h, r), t.kStart, t.kStop)
    ensures Attends(m, row, t, causal, h, r)
  {
    hide Softmax.Attention, Formula;
    forall s, c | TaskOf(t, s) && 0 <= c < m.p.dim
      ensures row[c] == Formula(m.e, m.p, s, causal, h, r, c)
    {
      AttentionIsFormula(m.e, m.p, TaskView(t, causal, h, r), s, c);
    }
  }

  // The attention of a task, before any transform.
  function AttentionValue(t: QueryTask, plan: Plan, causal: bool): Val
    requires plan.Valid() && t.Validates()
  {
    TaskValue(t, plan, causal, ToHost)
  }

  /** What a task computes is one-shot attention of its rows over its whole segment. */
  lemma TaskValueIsAttention(m: Kernel, t: QueryTask, plan: Plan, causal: bool, h: nat, r: int)
    requires m.Valid() && plan.Valid() && InRange(t, m) && h < m.p.heads && Covers(t, r)
    ensures Attends(m, RowMeaning(m, h, Row(AttentionValue(t, plan, causal), r - t.qStart)), t, causal, h, r)
  {
    hide Attends, IsAttention, Streamed, Folded;
    var n := TileCount(t, plan);
    FoldedStreams(m, t, plan, causal, h, r, n);
    FinalizedIsAttention(m.e, m.p, Denote(m, h, r - t.qStart, Folded(t, plan, causal, n)),
                         TaskView(t, causal, h, r), t.kStart, t.kStop);
    AttendsByFormula(m, RowMeaning(m, h, Row(AttentionValue(t, plan, causal), r - t.qStart)), t, causal, h, r);
  }

  // Row r of the delivered output: the attention row itself, or row r of the transform
  // of a tile all of whose rows hold attention.
  ghost predicate DeliversAttention(m: Kernel, v: Val, t: QueryTask, causal: bool, output: Output, h: nat, r: int)
    requires m.Valid() && InRange(t, m) && h < m.p.heads && Covers(t, r)
  {
    if output.ToTransform? then
      && v.Row? && v.index == r - t.qStart && v.tile.Transformed? && v.tile.start == t.qStart && v.tile.stop == t.qStop
      && forall x :: Covers(t, x) ==> Attends(m, RowMeaning(m, h, Row(v.tile.input, x - t.qStart)), t, causal, h, x)
    else Attends(m, RowMeaning(m, h, v), t, causal, h, r)
  }

  /**
   End to end: for every task list, ring size, chunking and interleaving of the
   streams, and whatever the buffers held before, each delivered row holds exact
   attention over its own segment, or comes from the transform of such rows.
   */
  lemma PipelineComputesAttention(m: Kernel, w: Snapshot, tasks: seq<QueryTask>, plan: Plan, causal: bool,
                                  output: Output, actions: seq<Action>, s: Machine, n: nat, h: nat, r: int)
    requires m.Valid() && h < m.p.heads
    requires plan.Valid() && Sound(w) && Drained(w.log) && w.hostOutput == plan.hostOutput
    requires Ordered(tasks) && output.Allowed(plan) && AllAccepted(output, |tasks|)
    requires var log := Finish(TaskList(w, tasks, plan, causal, output, |tasks|), output).log;
             Reached(log, actions, s) && |log| - 1 in s.done
    requires n < |tasks| && Covers(tasks[n], r) && InRange(tasks[n], m)
    ensures DeliversAttention(m, s.mem(output.Destination(r)), tasks[n], causal, output, h, r)
  {
    hide Attends, RowMeaning, Sound, Drained, Reached, TaskList, Finish, Folded;
    Executor.InterleavingDelivers(w, tasks, plan, causal, output, actions, s, n, r);
    forall x | Covers(tasks[n], x)
      ensures Attends(m, RowMeaning(m, h, Row(AttentionValue(tasks[n], plan, causal), x - tasks[n].qStart)), tasks[n], causal, h, x)
    {
      TaskValueIsAttention(m, tasks[n], plan, causal, h, x);
    }
  }

  // ----- From packed bounds

  lemma {:induction false} ChainReaches(tasks: seq<QueryTask>, a: int, b: int, r: int) returns (n: nat)
    requires QueryTiling.Chain(tasks, a, b) && a <= r < b
    ensures n < |tasks| && Covers(tasks[n], r)
    decreases |tasks|
  {
    if tasks[|tasks| - 1].qStart <= r {
      n := |tasks| - 1;
    } else {
      var init := tasks[..|tasks| - 1];
      forall k | 0 <= k < |init| - 1
        ensures QueryTiling.Meet(init, k)
      {
        assert QueryTiling.Meet(tasks, k);
      }
      assert |tasks| > 1 ==> QueryTiling.Meet(tasks, |tasks| - 2);
      n := ChainReaches(init, a, tasks[|tasks| - 1].qStart, r);
    }
  }

  // The segment of packed bounds as a span.
  function Segment(qBounds: seq<int>, kBounds: seq<int>, s: nat): Span
    requires s + 1 < |qBounds| == |kBounds|
  {
    Span(qBounds[s], qBounds[s + 1], kBounds[s], kBounds[s + 1])
  }

  // The tasks the tiler cuts from a whole batch.
  function BatchTasks(qBounds: seq<int>, kBounds: seq<int>, chunk: nat): seq<QueryTask>
    requires QueryTiling.Packed(qBounds, kBounds) && chunk > 0
  {
    QueryTiling.RangeTasks(qBounds, kBounds, 0, qBounds[|qBounds| - 1], chunk, |qBounds| - 1)
  }

  ghost predicate Batch(m: Kernel, qBounds: seq<int>, kBounds: seq<int>) {
    && QueryTiling.Packed(qBounds, kBounds) && qBounds[0] == 0
    && qBounds[|qBounds| - 1] <= |m.p.q| && kBounds[|kBounds| - 1] <= |m.p.k|
    && QueryTiling.KeysFor(qBounds, kBounds, 0, qBounds[|qBounds| - 1], |qBounds| - 1)
  }

  lemma BatchOrdered(m: Kernel, qBounds: seq<int>, kBounds: seq<int>, chunk: nat)
    requires Batch(m, qBounds, kBounds) && chunk > 0
    ensures Ordered(BatchTasks(qBounds, kBounds, chunk))
  {
    QueryTiling.BuiltTasksPass(qBounds, kBounds, 0, qBounds[|qBounds| - 1], chunk);
  }

  // Row r of segment z lies in a task of that segment.
  lemma BatchTask(m: Kernel, qBounds: seq<int>, kBounds: seq<int>, chunk: nat, z: nat, r: int) returns (n: nat)
    requires Batch(m, qBounds, kBounds) && chunk > 0
    requires z + 1 < |qBounds| && qBounds[z] <= r < qBounds[z + 1]
    ensures var tasks := BatchTasks(qBounds, kBounds, chunk);
            && n < |tasks| && Covers(tasks[n], r) && InRange(tasks[n], m) && TaskOf(tasks[n], Segment(qBounds, kBounds, z))
  {
    hide QueryTiling.Chain, QueryTiling.RangeTasks, QueryTiling.InSegment, QueryTiling.KeysFor, TaskOf;
    var tasks, last := BatchTasks(qBounds, kBounds, chunk), |qBounds| - 1;
    QueryTiling.BuiltTasksPass(qBounds, kBounds, 0, qBounds[last], chunk);
    QueryTiling.RangeTasksChain(qBounds, kBounds, 0, qBounds[last], chunk, last);
    assert qBounds[0] <= qBounds[z] || z == 0;
    assert qBounds[z + 1] <= qBounds[last] || z + 1 == last;
    n := ChainReaches(tasks, 0, qBounds[last], r);
    InOneSegment(qBounds, kBounds, tasks[n], z, r);
  }

  lemma InOneSegment(qBounds: seq<int>, kBounds: seq<int>, t: QueryTask, z: nat, r: int)
    requires QueryTiling.Packed(qBounds, kBounds) && QueryTiling.InSegment(qBounds, kBounds, t) && Covers(t, r)
    requires z + 1 < |qBounds| && qBounds[z] <= r < qBounds[z + 1]
    ensures TaskOf(t, Segment(qBounds, kBounds, z))
  {
    assert t.segmentId == z;
  }

  /** From packed bounds to rows: each row of each segment ends up holding the attention formula of that segment. */
  lemma BatchComputesAttention(m: Kernel, w: Snapshot, qBounds: seq<int>, kBounds: seq<int>, chunk: nat, plan: Plan, causal: bool,
                               output: Output, actions: seq<Action>, s: Machine, h: nat, z: nat, r: int)
    requires m.Valid() && h < m.p.heads && Batch(m, qBounds, kBounds) && chunk > 0 && !output.ToTransform?
    requires plan.Valid() && Sound(w) && Drained(w.log) && w.hostOutput == plan.hostOutput && output.Allowed(plan)
    requires var tasks := BatchTasks(qBounds, kBounds, chunk);
             && AllAccepted(output, |tasks|) && Ordered(tasks)
             && var log := Finish(TaskList(w, tasks, plan, causal, output, |tasks|), output).log;
             Reached(log, actions, s) && |log| - 1 in s.done
    requires z + 1 < |qBounds| && qBounds[z] <= r < qBounds[z + 1]
    ensures IsFormula(m.e, m.p, RowMeaning(m, h, s.mem(output.Destination(r))), Segment(qBounds, kBounds, z), causal, h, r)
  {
    hide IsFormula, IsAttention, RowMeaning, Reached, TaskList, Finish, Sound, Drained, QueryTiling.RangeTasks, BatchTasks;
    var n := BatchTask(m, qBounds, kBounds, chunk, z, r);
    PipelineComputesAttention(m, w, BatchTasks(qBounds, kBounds, chunk), plan, causal, output, actions, s, n, h, r);
  }
}
