/** The flash-split pipeline end to end: symbolic merges mean one-shot attention. */
module SplitPipeline {
  import opened CommandStreams
  import opened StreamClocks
  import opened RingProtocol
  import opened QueryTasks
  import opened StreamProgram
  import opened RunProgram
  import opened SplitProgram
  import Softmax
  import SplitSoftmax
  import AttentionKernel
  import opened AttentionFormula
  import opened AttentionReference
  import opened AttentionPipeline

  // As for the fused kernel, with the logarithm, and partial results left over in the buffers.
  datatype SplitKernel = SplitKernel(e: real -> real, ln: real -> real, p: AttentionKernel.Problem,
                                     left: Leftover, leftPartial: (Val, nat) -> SplitSoftmax.Partial) {
    ghost predicate Valid() {
      && Softmax.Exponential(e) && SplitSoftmax.Logarithm(e, ln) && p.Valid() && LeftShaped(left, p)
      && forall v, i :: |leftPartial(v, i).out| == p.dim
    }
  }

  // Every key is visible: the split executor refuses causal calls.
  function DenseView(h: nat, row: nat): AttentionKernel.View {
    AttentionKernel.View(h, row, 0, 0, 0, false)
  }

  // The partial result a symbolic partial stands for, at row i of its query tile.
  ghost function DenotePartial(m: SplitKernel, h: nat, i: nat, v: Val): (s: SplitSoftmax.Partial)
    requires m.Valid() && h < m.p.heads
    ensures |s.out| == m.p.dim
  {
    if v.Partial? && i < v.qTokens && v.kvTokens >= 0 && HoldsRow(m.p, v.q, i) && HoldsTile(m.p, v.kv) then
      var items := SlotItems(m.p, m.left, DenseView(h, v.q.start + i), v, v.kv, v.kvTokens);
      SplitSoftmax.PartialOf(m.e, m.ln, items, m.p.dim)
    else m.leftPartial(v, i)
  }

  // The running partial result; rows from the query count on keep what was there.
  ghost function DenoteMerged(m: SplitKernel, h: nat, i: nat, v: Val): (s: SplitSoftmax.Partial)
    requires m.Valid() && h < m.p.heads
    ensures |s.out| == m.p.dim
  {
    if !v.Merged? then m.leftPartial(v, i)
    else if i >= v.qTokens then
      if v.state.NewState? then m.leftPartial(v, i) else DenoteMerged(m, h, i, v.state)
    else if v.state.NewState? then DenotePartial(m, h, i, v.part)
    else SplitSoftmax.Merge(m.e, m.ln, DenoteMerged(m, h, i, v.state), DenotePartial(m, h, i, v.part))
  }

  ghost function SplitMeaning(m: SplitKernel, h: nat, v: Val): Softmax.Vec
    requires m.Valid() && h < m.p.heads
  {
    if v.Row? && v.tile.Copied? && 0 <= v.index < v.tile.qTokens then DenoteMerged(m, h, v.index, v.tile.state).out else []
  }

  ghost predicate Fits(t: QueryTask, m: SplitKernel) {
    t.Validates() && t.qStop <= |m.p.q| && t.kStop <= |m.p.k|
  }

  // Without causality the position of the first key does not matter.
  lemma DensePosition(p: AttentionKernel.Problem, w: AttentionKernel.View, kPos: int, start: nat, stop: nat)
    requires w.Fits(p) && !w.causal && start <= stop <= |p.k|
    ensures AttentionKernel.RowItems(p, w.(kPos := kPos), start, stop) == AttentionKernel.RowItems(p, w, start, stop)
  {
    forall i | 0 <= i < stop - start
      ensures AttentionKernel.KeyItem(p, w.(kPos := kPos), start, i) == AttentionKernel.KeyItem(p, w, start, i)
    {
      var x, y := AttentionKernel.KeyItem(p, w.(kPos := kPos), start, i), AttentionKernel.KeyItem(p, w, start, i);
      assert x.score == y.score && x.value == y.value;
    }
  }

  lemma {:induction false} MergedStands(m: SplitKernel, t: QueryTask, plan: Plan, h: nat, r: int, n: nat)
    requires m.Valid() && plan.Valid() && Fits(t, m) && h < m.p.heads && Covers(t, r)
    requires 0 < n <= TileCount(t, plan)
    ensures t.kStart <= Reach(t, plan, n) <= t.kStop
    ensures SplitSoftmax.Stands(m.e, DenoteMerged(m, h, r - t.qStart, MergedTiles(t, plan, n)),
              AttentionKernel.RowItems(m.p, DenseView(h, r), t.kStart, Reach(t, plan, n)))
    decreases n
  {
    hide SplitSoftmax.Stands, SplitSoftmax.Merge, SplitSoftmax.PartialOf, SlotItems;
    var w, i := DenseView(h, r), r - t.qStart;
    TileReach(t, plan, n - 1);
    var start, stop := TileStart(t, plan, n - 1), TileStop(t, plan, n - 1);
    var items := AttentionKernel.RowItems(m.p, w, start, stop);
    SplitSoftmax.PartialStands(m.e, m.ln, items, m.p.dim);
    var part := MergedTiles(t, plan, n).part;
    WholeTile(m.p, m.left, w, part, part.kv);
    if n == 1 {
      assert start == t.kStart;
      assert MergedTiles(t, plan, 0) == NewState;
    } else {
      var seen := AttentionKernel.RowItems(m.p, w, t.kStart, start);
      MergedStands(m, t, plan, h, r, n - 1);
      AttentionKernel.RowItemsConcat(m.p, w, t.kStart, start, stop);
      DensePosition(m.p, w, w.kPos + start - t.kStart, start, stop);
      SplitSoftmax.MergeStands(m.e, m.ln, DenoteMerged(m, h, i, MergedTiles(t, plan, n - 1)),
                               SplitSoftmax.PartialOf(m.e, m.ln, items, m.p.dim), seen, items);
    }
  }

  // Dense attention of the row over its task's keys: the formula without causality.
  ghost predicate SplitAttends(m: SplitKernel, row: Softmax.Vec, t: QueryTask, h: nat, r: int)
    requires m.Valid() && Fits(t, m) && h < m.p.heads && Covers(t, r)
  {
    && IsAttention(m.e, m.p, row, DenseView(h, r), t.kStart, t.kStop)
    && forall s: Span :: s.kStart == t.kStart && s.kStop == t.kStop ==> IsFormula(m.e, m.p, row, s, false, h, r)
  }

  /** Every interleaving of a flash-split call, whatever the buffers held, leaves dense one-shot attention in each row. */
  lemma SplitPipelineComputesAttention(m: SplitKernel, w: Snapshot, tasks: seq<QueryTask>, plan: Plan,
                                       actions: seq<Action>, s: Machine, n: nat, h: nat, r: int)
    requires m.Valid() && h < m.p.heads
    requires plan.Valid() && Sound(w) && Drained(w.log) && w.hostOutput == plan.hostOutput == true
    requires Ordered(tasks)
    requires var log := Finish(SplitList(w, tasks, plan, |tasks|), ToHost).log;
             Reached(log, actions, s) && |log| - 1 in s.done
    requires n < |tasks| && Covers(tasks[n], r) && Fits(tasks[n], m)
    ensures SplitAttends(m, SplitMeaning(m, h, s.mem(HostRow(r))), tasks[n], h, r)
  {
    hide Sound, Drained, Reached, SplitList, Finish, Mem, SplitAttends;
    SplitInterleavingDelivers(w, tasks, plan, actions, s, n, r);
    SplitValueIsAttention(m, tasks[n], plan, h, r);
  }

  lemma SplitValueIsAttention(m: SplitKernel, t: QueryTask, plan: Plan, h: nat, r: int)
    requires m.Valid() && plan.Valid() && Fits(t, m) && h < m.p.heads && Covers(t, r)
    ensures SplitAttends(m, SplitMeaning(m, h, Row(SplitValue(t, plan), r - t.qStart)), t, h, r)
  {
    hide Softmax.Attention, Formula, SplitSoftmax.Stands, MergedTiles;
    var n := TileCount(t, plan);
    var w := DenseView(h, r);
    var items := AttentionKernel.RowItems(m.p, w, t.kStart, t.kStop);
    var merged := DenoteMerged(m, h, r - t.qStart, MergedTiles(t, plan, n));
    MergedStands(m, t, plan, h, r, n);
    forall c | 0 <= c < m.p.dim
      ensures merged.out[c] == Softmax.Attention(m.e, items, c)
    {
      SplitSoftmax.StandsIsAttention(m.e, merged, items, c);
    }
    forall s: Span, c | s.kStart == t.kStart && s.kStop == t.kStop && 0 <= c < m.p.dim
      ensures merged.out[c] == Formula(m.e, m.p, s, false, h, r, c)
    {
      AttentionIsFormula(m.e, m.p, w, s, c);
    }
  }
}
