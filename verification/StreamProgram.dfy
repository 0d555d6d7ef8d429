/**
 What the executor enqueues for one query task, as a function of the workspace
 snapshot, and why it is race free and computes each query task's own result.
 */
module StreamProgram {
  import opened Basics
  import opened CommandStreams
  import opened StreamClocks
  import opened RingProtocol
  import opened QueryTasks

  datatype Plan = Plan(hostOutput: bool, kvChunkTokens: int, kvBuffers: nat, outputBuffers: nat) {
    predicate Valid() {
      kvChunkTokens > 0 && kvBuffers > 0 && outputBuffers > 0
    }
  }

  datatype TransformResult = TransformResult(inPlace: bool, accepted: bool)

  // Where finalized rows go: straight to host rows, through a device transform and
  // then to host rows, or to a consumer that owns its own copy-out.
  datatype Output =
    | ToHost
    | ToTransform(result: nat -> TransformResult)
    | ToConsumer(accepts: nat -> bool)
  {
    predicate Accepts(n: nat) {
      match this
      case ToHost => true
      case ToTransform(result) => result(n).accepted
      case ToConsumer(accepts) => accepts(n)
    }

    predicate Allowed(plan: Plan) {
      ToHost? ==> plan.hostOutput
    }

    function Destination(row: int): Loc {
      if ToConsumer? then SinkRow(row) else HostRow(row)
    }
  }

  // ----- The value a task must deliver

  function TileStart(t: QueryTask, plan: Plan, n: nat): int {
    t.kStart + n * plan.kvChunkTokens
  }

  function TileStop(t: QueryTask, plan: Plan, n: nat): int {
    Min(TileStart(t, plan, n) + plan.kvChunkTokens, t.kStop)
  }

  function TileCount(t: QueryTask, plan: Plan): (n: nat)
    requires plan.Valid() && t.Validates()
    ensures n > 0 && TileStart(t, plan, n - 1) < t.kStop <= TileStart(t, plan, n)
  {
    (t.KTokens() + plan.kvChunkTokens - 1) / plan.kvChunkTokens
  }

  lemma TileCountUnique(t: QueryTask, plan: Plan, m: nat)
    requires plan.Valid() && t.Validates()
    requires m > 0 && TileStart(t, plan, m - 1) < t.kStop <= TileStart(t, plan, m)
    ensures m == TileCount(t, plan)
  {
    var n, c := TileCount(t, plan), plan.kvChunkTokens;
    if m < n {
      ProductMonotone(m, n - 1, c);
      assert false;
    } else if n < m {
      ProductMonotone(n, m - 1, c);
      assert false;
    }
  }

  lemma ProductMonotone(a: int, b: int, c: int)
    requires a <= b && 0 <= c
    ensures a * c <= b * c
  {
  }

  function TileArgs(t: QueryTask, plan: Plan, causal: bool, n: nat): UpdateArgs {
    UpdateArgs(t.QTokens(), TileStop(t, plan, n) - TileStart(t, plan, n), t.qLocalOffset,
               TileStart(t, plan, n) - t.kStart, t.causalShift, causal)
  }

  // One update with K/V tile n.
  function FoldTile(state: Val, q: Val, t: QueryTask, plan: Plan, causal: bool, n: nat): Val {
    Updated(state, q, KVTile(TileStart(t, plan, n), TileStop(t, plan, n)), TileArgs(t, plan, causal, n))
  }

  // The state after folding a query task's first n K/V tiles into a new state.
  function Folded(t: QueryTask, plan: Plan, causal: bool, n: nat): Val {
    if n == 0 then NewState
    else FoldTile(Folded(t, plan, causal, n - 1), QTile(t.qStart, t.qStop), t, plan, causal, n - 1)
  }

  function TaskValue(t: QueryTask, plan: Plan, causal: bool, output: Output): Val
    requires plan.Valid() && t.Validates()
  {
    var attention := Finalized(Folded(t, plan, causal, TileCount(t, plan)), t.QTokens());
    if output.ToTransform? then Transformed(attention, t.qStart, t.qStop) else attention
  }

  // ----- What the executor enqueues

  function LoadQ(w: Snapshot, t: QueryTask): Snapshot {
    Load(w, Q, CopyQ(t.qStart, t.qStop), QReady)
  }

  function LoadKV(w: Snapshot, slot: nat, start: int, stop: int): Snapshot {
    Load(w, KV(slot), CopyKV(slot, start, stop), KVReady(slot))
  }

  function Tile(w: Snapshot, t: QueryTask, plan: Plan, causal: bool, n: nat): Snapshot
    requires plan.Valid()
  {
    var slot := n % plan.kvBuffers;
    var loaded := LoadKV(w, slot, TileStart(t, plan, n), TileStop(t, plan, n));
    var updated := Push(loaded, Compute, Update(slot, n == 0, TileArgs(t, plan, causal, n)));
    Release(updated, Compute, KV(slot))
  }

  function Tiles(w: Snapshot, t: QueryTask, plan: Plan, causal: bool, n: nat): Snapshot
    requires plan.Valid()
  {
    if n == 0 then LoadQ(w, t) else Tile(Tiles(w, t, plan, causal, n - 1), t, plan, causal, n - 1)
  }

  // Enqueues the copy of `src` to host rows and the events around it.
  function CopyToHost(w: Snapshot, t: QueryTask, slot: nat, src: Loc): Snapshot {
    var ready := WaitOn(RecordOn(w, Compute, OutReady(slot)), D2H, OutReady(slot));
    var copied := Release(Push(ready, D2H, CopyOut(src, t.qStart, t.qStop)), D2H, Out(slot));
    if src == Q then Release(copied, D2H, Q) else copied
  }

  // Runs the user's transform on the compute stream; yields where its result lives.
  function ApplyTransform(w: Snapshot, t: QueryTask, src: Loc, result: TransformResult): (Snapshot, Loc) {
    if result.inPlace then (Push(w, Compute, Transform(src, src, t.qStart, t.qStop)), src)
    else
      var dst := Fresh(w.tensors);
      (Push(w.(tensors := w.tensors + 1), Compute, Transform(src, dst, t.qStart, t.qStop)), dst)
  }

  function FinalizeInto(w: Snapshot, t: QueryTask, plan: Plan, output: Output, slot: nat): (Snapshot, Loc) {
    var reuse := !output.ToHost? && !plan.hostOutput;
    var released := if reuse then w else Release(w, Compute, Q);
    var acquired := if !output.ToConsumer? && !reuse then Acquire(released, Out(slot)) else released;
    var dst := if reuse then Q else Out(slot);
    (Push(acquired, Compute, Finalize(dst, t.QTokens())), dst)
  }

  function Deliver(w: Snapshot, t: QueryTask, plan: Plan, output: Output, index: nat): Snapshot
    requires plan.Valid()
  {
    var slot := index % plan.outputBuffers;
    var (finalized, dst) := FinalizeInto(w, t, plan, output, slot);
    match output
    case ToHost => CopyToHost(finalized, t, slot, dst)
    case ToConsumer(accepts) =>
      var consumed := Push(finalized, Compute, Consume(dst, t.qStart, t.qStop));
      if accepts(index) then Release(consumed, Compute, Q) else consumed
    case ToTransform(result) =>
      var (transformed, src) := ApplyTransform(finalized, t, dst, result(index));
      if !result(index).accepted then transformed
      else
        var freed := if dst == Q && src != Q then Release(transformed, Compute, Q) else transformed;
        CopyToHost(freed, t, slot, src)
  }

  function Task(w: Snapshot, t: QueryTask, plan: Plan, causal: bool, output: Output, index: nat): Snapshot
    requires plan.Valid() && t.Validates()
  {
    Deliver(Tiles(w, t, plan, causal, TileCount(t, plan)), t, plan, output, index)
  }

  // ----- Buffers only one stream ever touches

  lemma PrivateReady(w: Snapshot, s: Stream, l: Loc)
    requires Sound(w)
    requires match l
             case Carry => s == Compute
             case SinkRow(_) => s == Compute
             case HostRow(_) => s == D2H
             case _ => false
    ensures Ready(w, s, l)
  {
    forall i | 0 <= i < |w.log| && Touches(w.log[i].op, l)
      ensures i < Known(w.log, s).At(w.log[i].stream)
    {
      assert Placed(w.log[i]);
      KnowsItself(w.log, i);
    }
  }

  lemma UnusedReady(w: Snapshot, s: Stream, l: Loc)
    requires Sound(w) && Unused(w, l)
    ensures Ready(w, s, l)
    ensures l.Out? ==> Safe(w, l)
  {
  }

  // ----- Loading a buffer

  predicate Loads(l: Loc, op: Op, ready: Event) {
    || (l == Q && op.CopyQ? && ready == QReady)
    || (l.KV? && op.CopyKV? && op.slot == l.slot && ready == KVReady(l.slot))
  }

  lemma CopyKeeps(a: Snapshot, l: Loc, op: Op, ready: Event)
    requires Sound(a) && Ready(a, H2D, l) && Loads(l, op, ready)
    ensures Keeps(a, Push(a, H2D, op), H2D, op)
    ensures forall k :: Mem(Push(a, H2D, op).log, k) ==
              if k == l then Result(op, l, j => Unset) else Mem(a.log, k)
  {
    assert forall k :: Touches(op, k) <==> k == l;
    PushKeeps(a, H2D, op);
    PushMem(a, H2D, op);
  }

  lemma AnnounceKeeps(b: Snapshot, l: Loc, ready: Event)
    requires Sound(b) && Ready(b, H2D, l) && (ready.QReady? || ready.KVReady?)
    ensures var v := WaitOn(RecordOn(b, H2D, ready), Compute, ready);
            Steady(b, v) && Ready(v, Compute, l)
  {
    var c := RecordOn(b, H2D, ready);
    RecordKeeps(b, H2D, ready);
    RecordSignal(b, H2D, ready);
    WaitKeeps(c, Compute, ready);
    WaitReady(c, Compute, ready, l);
  }

  lemma LoadKeeps(w: Snapshot, l: Loc, op: Op, ready: Event)
    requires Sound(w) && Safe(w, l) && Loads(l, op, ready)
    ensures var v := Load(w, l, op, ready);
            && Sound(v) && Ready(v, Compute, l)
            && (forall k :: Safe(w, k) ==> Safe(v, k))
            && (forall t, k :: k != l && Ready(w, t, k) ==> Ready(v, t, k))
            && (forall k :: Mem(v.log, k) == if k == l then Result(op, l, j => Unset) else Mem(w.log, k))
  {
    hide Sound, Safe, Ready, Mem, Acquire, RecordOn, WaitOn;
    var a := Acquire(w, l);
    AcquireKeeps(w, l);
    CopyKeeps(a, l, op, ready);
    AnnounceKeeps(Push(a, H2D, op), l, ready);
  }

  lemma LoadCaughtUp(w: Snapshot, l: Loc, op: Op, ready: Event)
    requires Sound(w) && Safe(w, l) && Writer(l) == H2D && Sound(Push(Acquire(w, l), H2D, op))
    ensures CaughtUp(Load(w, l, op, ready), H2D)
    ensures CaughtUp(w, D2H) ==> CaughtUp(Load(w, l, op, ready), D2H)
  {
    var a := Acquire(w, l);
    var b := Push(a, H2D, op);
    var c := RecordOn(b, H2D, ready);
    RecordSignal(b, H2D, ready);
    RecordedSound(Push(b, H2D, Record), ready) by {
      PushQuietKeeps(b, H2D, Record);
    }
    WaitKeeps(c, Compute, ready);
    KnownAppend(c.log, Entry(Compute, Wait(c.recorded[ready])), H2D);
    if CaughtUp(w, D2H) {
      if l in w.pending && FreeEvent(l) in w.recorded {
        PushCaughtUp(w, H2D, Wait(w.recorded[FreeEvent(l)]), D2H);
      }
      PushCaughtUp(a, H2D, op, D2H);
      PushCaughtUp(b, H2D, Record, D2H);
      PushCaughtUp(c, Compute, Wait(c.recorded[ready]), D2H);
    }
  }

  // ----- The tile loop

  // Invariant of the tile loop: every buffer but Q may be reused, and the compute
  // stream may read Q.
  ghost predicate Attending(w: Snapshot) {
    Sound(w) && AllSafe(w, {Q}) && Ready(w, Compute, Q) && CaughtUp(w, H2D)
  }

  lemma UpdateKeeps(w: Snapshot, slot: nat, initialize: bool, args: UpdateArgs)
    requires Attending(w) && Ready(w, Compute, KV(slot))
    ensures var v := Release(Push(w, Compute, Update(slot, initialize, args)), Compute, KV(slot));
            && Sound(v) && Ready(v, Compute, Q)
            && (forall l :: l != Q && Safe(w, l) ==> Safe(v, l))
            && (forall l :: l != Carry ==> Mem(v.log, l) == Mem(w.log, l))
            && Mem(v.log, Carry) ==
               Updated(if initialize then NewState else Mem(w.log, Carry), Mem(w.log, Q), Mem(w.log, KV(slot)), args)
  {
    hide Sound, Mem, Release, CaughtUp;
    var op := Update(slot, initialize, args);
    var u := Push(w, Compute, op);
    PrivateReady(w, Compute, Carry);
    PushKeeps(w, Compute, op);
    PushMem(w, Compute, op);
    assert Ready(u, Compute, KV(slot)) && Ready(u, Compute, Q);
    ReleaseKeeps(u, Compute, KV(slot));
    forall l | l != Q && Safe(w, l)
      ensures Safe(Release(u, Compute, KV(slot)), l)
    {
      if l != KV(slot) {
        assert Touches(op, l) ==> Compute == Writer(l);
      }
    }
  }

  lemma LoadKVKeeps(w: Snapshot, slot: nat, start: int, stop: int)
    requires Attending(w)
    ensures var v := LoadKV(w, slot, start, stop);
            && Attending(v) && Ready(v, Compute, KV(slot))
            && (CaughtUp(w, D2H) ==> CaughtUp(v, D2H))
            && (forall l: Loc :: Mem(v.log, l) == if l == KV(slot) then KVTile(start, stop) else Mem(w.log, l))
  {
    var copy, ready := CopyKV(slot, start, stop), KVReady(slot);
    assert Safe(w, KV(slot));
    LoadKeeps(w, KV(slot), copy, ready);
    CopyKeepsSound(w, KV(slot), copy, ready);
    LoadCaughtUp(w, KV(slot), copy, ready);
  }

  lemma UpdateAttends(w: Snapshot, slot: nat, initialize: bool, args: UpdateArgs)
    requires Attending(w) && Ready(w, Compute, KV(slot))
    ensures var v := Release(Push(w, Compute, Update(slot, initialize, args)), Compute, KV(slot));
            Attending(v) && (CaughtUp(w, D2H) ==> CaughtUp(v, D2H))
  {
    UpdateKeeps(w, slot, initialize, args);
    ComputeCaughtUp(w, Update(slot, initialize, args), KV(slot), H2D);
    if CaughtUp(w, D2H) {
      ComputeCaughtUp(w, Update(slot, initialize, args), KV(slot), D2H);
    }
  }

  lemma TileKeeps(w: Snapshot, t: QueryTask, plan: Plan, causal: bool, n: nat)
    requires plan.Valid() && Attending(w)
    ensures var v := Tile(w, t, plan, causal, n);
            && Attending(v)
            && (CaughtUp(w, D2H) ==> CaughtUp(v, D2H))
            && (forall l: Loc :: l != Carry && !l.KV? ==> Mem(v.log, l) == Mem(w.log, l))
            && Mem(v.log, Carry) ==
               FoldTile(if n == 0 then NewState else Mem(w.log, Carry), Mem(w.log, Q), t, plan, causal, n)
  {
    hide Sound, AllSafe, Ready, CaughtUp, Mem, TileStart, TileStop, Load, Release;
    var slot := n % plan.kvBuffers;
    var args := TileArgs(t, plan, causal, n);
    var loaded := LoadKV(w, slot, TileStart(t, plan, n), TileStop(t, plan, n));
    LoadKVKeeps(w, slot, TileStart(t, plan, n), TileStop(t, plan, n));
    UpdateAttends(loaded, slot, n == 0, args);
    UpdateKeeps(loaded, slot, n == 0, args);
  }

  lemma CopyKeepsSound(w: Snapshot, l: Loc, op: Op, ready: Event)
    requires Sound(w) && Safe(w, l) && Loads(l, op, ready)
    ensures Sound(Push(Acquire(w, l), H2D, op))
  {
    AcquireKeeps(w, l);
    CopyKeeps(Acquire(w, l), l, op, ready);
  }

  lemma ComputeCaughtUp(w: Snapshot, op: Op, l: Loc, s: Stream)
    requires CaughtUp(w, s) && (s == H2D || s == D2H) && Ring(l)
    ensures CaughtUp(Release(Push(w, Compute, op), Compute, l), s)
  {
    PushCaughtUp(w, Compute, op, s);
    PushCaughtUp(Push(w, Compute, op), Compute, Record, s);
  }

  lemma LoadQKeeps(w: Snapshot, t: QueryTask)
    requires Sound(w) && AllSafe(w, {})
    ensures var v := LoadQ(w, t);
            && Attending(v) && AllSafe(v, {})
            && (CaughtUp(w, D2H) ==> CaughtUp(v, D2H))
            && (forall l: Loc :: Mem(v.log, l) == if l == Q then QTile(t.qStart, t.qStop) else Mem(w.log, l))
  {
    var copy := CopyQ(t.qStart, t.qStop);
    assert Safe(w, Q);
    LoadKeeps(w, Q, copy, QReady);
    CopyKeepsSound(w, Q, copy, QReady);
    LoadCaughtUp(w, Q, copy, QReady);
  }

  // What holds after a query task's Q and its first n tiles have been enqueued.
  ghost predicate Attended(w: Snapshot, v: Snapshot, t: QueryTask, plan: Plan, causal: bool, n: nat) {
    && Attending(v) && v.hostOutput == w.hostOutput
    && (CaughtUp(w, D2H) ==> CaughtUp(v, D2H))
    && Mem(v.log, Q) == QTile(t.qStart, t.qStop)
    && (n > 0 ==> Mem(v.log, Carry) == Folded(t, plan, causal, n))
    && (forall l: Loc :: l.HostRow? || l.SinkRow? ==> Mem(v.log, l) == Mem(w.log, l))
  }

  lemma AttendedStart(w: Snapshot, v: Snapshot, t: QueryTask, plan: Plan, causal: bool)
    requires Sound(w) && AllSafe(w, {}) && v == LoadQ(w, t)
    ensures Attended(w, v, t, plan, causal, 0)
  {
    LoadQKeeps(w, t);
  }

  lemma AttendedTile(w: Snapshot, u: Snapshot, v: Snapshot, t: QueryTask, plan: Plan, causal: bool, n: nat)
    requires plan.Valid() && Attended(w, u, t, plan, causal, n) && v == Tile(u, t, plan, causal, n)
    ensures Attended(w, v, t, plan, causal, n + 1)
  {
    TileKeeps(u, t, plan, causal, n);
  }

  lemma {:induction false} TilesKeep(w: Snapshot, v: Snapshot, t: QueryTask, plan: Plan, causal: bool, n: nat)
    requires plan.Valid() && Sound(w) && AllSafe(w, {}) && v == Tiles(w, t, plan, causal, n)
    ensures Attended(w, v, t, plan, causal, n)
    decreases n
  {
    hide Tile, LoadQ, Attending, Sound, AllSafe, Mem, CaughtUp;
    if n == 0 {
      AttendedStart(w, v, t, plan, causal);
    } else {
      var u := Tiles(w, t, plan, causal, n - 1);
      TilesKeep(w, u, t, plan, causal, n - 1);
      AttendedTile(w, u, v, t, plan, causal, n - 1);
    }
  }

  // ----- Finalizing and delivering

  // Invariant between two tasks.
  ghost predicate Between(w: Snapshot, plan: Plan, output: Output) {
    && Sound(w) && AllSafe(w, {}) && CaughtUp(w, H2D)
    && (output.ToConsumer? ==> CaughtUp(w, D2H))
    && w.hostOutput == plan.hostOutput
  }

  // Once the compute stream has caught up with both copy streams it may touch anything.
  lemma CaughtUpReady(w: Snapshot, l: Loc)
    requires Sound(w) && CaughtUp(w, H2D) && CaughtUp(w, D2H)
    ensures Ready(w, Compute, l)
  {
    forall i | 0 <= i < |w.log| && Touches(w.log[i].op, l)
      ensures i < Known(w.log, Compute).At(w.log[i].stream)
    {
      assert Placed(w.log[i]);
      KnowsItself(w.log, i);
    }
  }

  // `dst` holds finalized rows and the compute stream may use it.
  ghost predicate Finalizing(w: Snapshot, plan: Plan, output: Output, slot: nat, dst: Loc) {
    && Sound(w) && AllSafe(w, {Q}) && CaughtUp(w, H2D) && w.hostOutput == plan.hostOutput
    && (output.ToConsumer? ==> CaughtUp(w, D2H))
    && Ready(w, Compute, Q) && Ready(w, Compute, Out(slot))
    && Holder(dst) && !Unused(w, dst) && Ready(w, Compute, dst)
    && (dst == Q || Safe(w, Q))
  }

  lemma ComputeKeeps(w: Snapshot, op: Op, plan: Plan, output: Output, slot: nat, dst: Loc)
    requires Finalizing(w, plan, output, slot, dst) && Placed(Entry(Compute, op))
    requires forall l: Loc :: Touches(op, l) ==> !Unused(w, l) && Ready(w, Compute, l) && !l.KV?
    requires Touches(op, Q) ==> dst == Q
    ensures Finalizing(Push(w, Compute, op), plan, output, slot, dst)
  {
    PushKeeps(w, Compute, op);
    PushCaughtUp(w, Compute, op, H2D);
    if output.ToConsumer? {
      PushCaughtUp(w, Compute, op, D2H);
    }
    forall l | Ring(l) && l != Q
      ensures Safe(Push(w, Compute, op), l)
    {
      assert Safe(w, l);
    }
  }

  lemma BeforeFinalize(w: Snapshot, plan: Plan, output: Output, slot: nat)
    requires Attending(w) && w.hostOutput == plan.hostOutput && output.Allowed(plan)
    requires output.ToConsumer? ==> CaughtUp(w, D2H)
    ensures var reuse := !output.ToHost? && !plan.hostOutput;
            var released := if reuse then w else Release(w, Compute, Q);
            var acquired := if !output.ToConsumer? && !reuse then Acquire(released, Out(slot)) else released;
            Finalizing(acquired, plan, output, slot, if reuse then Q else Out(slot))
            && (forall l :: Mem(acquired.log, l) == Mem(w.log, l))
  {
    var reuse := !output.ToHost? && !plan.hostOutput;
    if reuse {
      UnusedReady(w, Compute, Out(slot));
    } else {
      var released := Release(w, Compute, Q);
      ReleaseKeeps(w, Compute, Q);
      PushCaughtUp(w, Compute, Record, H2D);
      assert AllSafe(released, {});
      if output.ToConsumer? {
        PushCaughtUp(w, Compute, Record, D2H);
        CaughtUpReady(released, Out(slot));
      } else {
        assert Safe(released, Out(slot));
        AcquireKeeps(released, Out(slot));
        if Out(slot) in released.pending {
          PushCaughtUp(released, Compute, Wait(released.recorded[OutFree(slot)]), H2D);
        }
      }
    }
  }

  lemma FinalizeKeeps(w: Snapshot, t: QueryTask, plan: Plan, output: Output, slot: nat)
    requires Attending(w) && w.hostOutput == plan.hostOutput && output.Allowed(plan)
    requires output.ToConsumer? ==> CaughtUp(w, D2H)
    ensures var (v, dst) := FinalizeInto(w, t, plan, output, slot);
            && (dst == Q || dst == Out(slot)) && Finalizing(v, plan, output, slot, dst)
            && Mem(v.log, dst) == Finalized(Mem(w.log, Carry), t.QTokens())
            && (forall l: Loc :: l.HostRow? || l.SinkRow? ==> Mem(v.log, l) == Mem(w.log, l))
  {
    var reuse := !output.ToHost? && !plan.hostOutput;
    var released := if reuse then w else Release(w, Compute, Q);
    var u := if !output.ToConsumer? && !reuse then Acquire(released, Out(slot)) else released;
    var dst := if reuse then Q else Out(slot);
    BeforeFinalize(w, plan, output, slot);
    PrivateReady(u, Compute, Carry);
    ComputeKeeps(u, Finalize(dst, t.QTokens()), plan, output, slot, dst);
    PushMem(u, Compute, Finalize(dst, t.QTokens()));
  }

  // The D2H stream may read whatever the compute stream had finished with.
  lemma AwaitOutput(w: Snapshot, slot: nat)
    requires Sound(w)
    ensures var v := WaitOn(RecordOn(w, Compute, OutReady(slot)), D2H, OutReady(slot));
            Steady(w, v) && forall l :: Ready(w, Compute, l) ==> Ready(v, D2H, l)
    ensures CaughtUp(w, H2D) ==> CaughtUp(WaitOn(RecordOn(w, Compute, OutReady(slot)), D2H, OutReady(slot)), H2D)
  {
    var ready := OutReady(slot);
    var c := RecordOn(w, Compute, ready);
    RecordKeeps(w, Compute, ready);
    RecordSignal(w, Compute, ready);
    WaitKeeps(c, D2H, ready);
    forall l | Ready(w, Compute, l)
      ensures Ready(WaitOn(c, D2H, ready), D2H, l)
    {
      assert Ready(c, Compute, l);
      WaitReady(c, D2H, ready, l);
    }
    if CaughtUp(w, H2D) {
      PushCaughtUp(w, Compute, Record, H2D);
      PushCaughtUp(c, D2H, Wait(c.recorded[ready]), H2D);
    }
  }

  // The rows of `t` moved from `src` to the host, and nothing else changed there.
  ghost predicate Copied(before: seq<Entry>, after: seq<Entry>, t: QueryTask, src: Loc) {
    && (forall r :: t.qStart <= r < t.qStop ==> Mem(after, HostRow(r)) == Row(Mem(before, src), r - t.qStart))
    && (forall r :: !(t.qStart <= r < t.qStop) ==> Mem(after, HostRow(r)) == Mem(before, HostRow(r)))
    && (forall r :: Mem(after, SinkRow(r)) == Mem(before, SinkRow(r)))
  }

  // The state after the copy, before its buffers are handed back.
  ghost predicate CopyDone(c: Snapshot, slot: nat, src: Loc) {
    && Sound(c) && CaughtUp(c, H2D) && AllSafe(c, {Q, Out(slot)})
    && (src == Q || Safe(c, Q))
    && Ready(c, D2H, Q) && Ready(c, D2H, Out(slot))
  }

  lemma CopyOutMem(b: Snapshot, t: QueryTask, src: Loc)
    ensures Copied(b.log, Push(b, D2H, CopyOut(src, t.qStart, t.qStop)).log, t, src)
  {
    PushMem(b, D2H, CopyOut(src, t.qStart, t.qStop));
  }

  lemma CopyOutKeeps(b: Snapshot, t: QueryTask, slot: nat, src: Loc)
    requires Sound(b) && CaughtUp(b, H2D) && AllSafe(b, {Q}) && (src == Q || Safe(b, Q))
    requires Ready(b, D2H, Q) && Ready(b, D2H, Out(slot)) && Ready(b, D2H, src) && Holder(src) && !Unused(b, src)
    requires src.Out? ==> src == Out(slot)
    ensures var c := Push(b, D2H, CopyOut(src, t.qStart, t.qStop));
            CopyDone(c, slot, src)
  {
    var op := CopyOut(src, t.qStart, t.qStop);
    forall l | Touches(op, l)
      ensures Ready(b, D2H, l) && !Unused(b, l)
    {
      if l.HostRow? {
        PrivateReady(b, D2H, l);
      }
    }
    PushKeeps(b, D2H, op);
    PushCaughtUp(b, D2H, op, H2D);
  }

  lemma HandBackKeeps(c: Snapshot, slot: nat, src: Loc)
    requires CopyDone(c, slot, src)
    ensures var d := Release(c, D2H, Out(slot));
            var v := if src == Q then Release(d, D2H, Q) else d;
            && Sound(v) && AllSafe(v, {}) && CaughtUp(v, H2D)
            && forall l :: Mem(v.log, l) == Mem(c.log, l)
  {
    var d := Release(c, D2H, Out(slot));
    ReleaseKeeps(c, D2H, Out(slot));
    PushCaughtUp(c, D2H, Record, H2D);
    forall l | Ring(l) && l != Q
      ensures Safe(d, l)
    {
      assert l == Out(slot) || Safe(c, l);
    }
    if src == Q {
      ReleaseKeeps(d, D2H, Q);
      PushCaughtUp(d, D2H, Record, H2D);
    }
  }

  lemma CopyToHostKeeps(w: Snapshot, t: QueryTask, plan: Plan, output: Output, slot: nat, src: Loc)
    requires Finalizing(w, plan, output, slot, src) && !output.ToConsumer?
    requires src.Out? ==> src == Out(slot)
    ensures var v := CopyToHost(w, t, slot, src);
            Between(v, plan, output) && Copied(w.log, v.log, t, src)
  {
    var b := WaitOn(RecordOn(w, Compute, OutReady(slot)), D2H, OutReady(slot));
    AwaitOutput(w, slot);
    assert Sound(b) && CaughtUp(b, H2D) && AllSafe(b, {Q}) && (src == Q || Safe(b, Q));
    CopyOutKeeps(b, t, slot, src);
    CopyOutMem(b, t, src);
    HandBackKeeps(Push(b, D2H, CopyOut(src, t.qStart, t.qStop)), slot, src);
  }

  // ----- One task

  // Rows reach their destination; every other delivered row stays.
  ghost predicate Delivered(before: seq<Entry>, after: seq<Entry>, t: QueryTask, output: Output, value: Val) {
    && (forall r :: t.qStart <= r < t.qStop ==> Mem(after, output.Destination(r)) == Row(value, r - t.qStart))
    && (forall r :: !(t.qStart <= r < t.qStop) ==>
          Mem(after, output.Destination(r)) == Mem(before, output.Destination(r)))
    && (forall r :: Mem(after, if output.ToConsumer? then HostRow(r) else SinkRow(r)) ==
                    Mem(before, if output.ToConsumer? then HostRow(r) else SinkRow(r)))
  }

  lemma ConsumeMem(w: Snapshot, t: QueryTask, output: Output, dst: Loc)
    requires output.ToConsumer?
    ensures Delivered(w.log, Push(w, Compute, Consume(dst, t.qStart, t.qStop)).log, t, output, Mem(w.log, dst))
  {
    var e := Entry(Compute, Consume(dst, t.qStart, t.qStop));
    forall r: int
      ensures Mem(w.log + [e], SinkRow(r)) ==
              if t.qStart <= r < t.qStop then Row(Mem(w.log, dst), r - t.qStart) else Mem(w.log, SinkRow(r))
      ensures Mem(w.log + [e], HostRow(r)) == Mem(w.log, HostRow(r))
    {
      MemAppend(w.log, e, SinkRow(r));
      MemAppend(w.log, e, HostRow(r));
    }
  }

  lemma ConsumeKeeps(w: Snapshot, t: QueryTask, plan: Plan, output: Output, slot: nat, dst: Loc)
    requires Finalizing(w, plan, output, slot, dst) && output.ToConsumer?
    ensures var u := Push(w, Compute, Consume(dst, t.qStart, t.qStop));
            var v := Release(u, Compute, Q);
            Sound(u) && Between(v, plan, output) && forall l :: Mem(v.log, l) == Mem(u.log, l)
  {
    var op := Consume(dst, t.qStart, t.qStop);
    var u := Push(w, Compute, op);
    forall l | Touches(op, l)
      ensures Ready(w, Compute, l) && !Unused(w, l)
    {
      if l.SinkRow? {
        PrivateReady(w, Compute, l);
      }
    }
    ComputeKeeps(w, op, plan, output, slot, dst);
    ReleaseKeeps(u, Compute, Q);
    PushCaughtUp(u, Compute, Record, H2D);
    PushCaughtUp(u, Compute, Record, D2H);
  }

  lemma AllocateKeeps(w: Snapshot, plan: Plan, output: Output, slot: nat, dst: Loc)
    requires Finalizing(w, plan, output, slot, dst)
    ensures var u := w.(tensors := w.tensors + 1);
            Finalizing(u, plan, output, slot, dst) && Ready(u, Compute, Fresh(w.tensors))
  {
    var u := w.(tensors := w.tensors + 1);
    UnusedReady(w, Compute, Fresh(w.tensors));
    forall i, l | 0 <= i < |u.log| && Unused(u, l)
      ensures !Touches(u.log[i].op, l)
    {
      assert Unused(w, l);
    }
    forall l | Safe(w, l)
      ensures Safe(u, l)
    {
      assert View(u, l) == View(w, l);
    }
  }

  lemma TransformMem(w: Snapshot, t: QueryTask, dst: Loc, result: TransformResult)
    requires Holder(dst)
    ensures var (v, src) := ApplyTransform(w, t, dst, result);
            && Mem(v.log, src) == Transformed(Mem(w.log, dst), t.qStart, t.qStop)
            && (forall l: Loc :: l.HostRow? || l.SinkRow? ==> Mem(v.log, l) == Mem(w.log, l))
  {
    var (v, src) := ApplyTransform(w, t, dst, result);
    var e := Entry(Compute, Transform(dst, src, t.qStart, t.qStop));
    MemAppend(w.log, e, src);
    forall l: Loc | l.HostRow? || l.SinkRow?
      ensures Mem(v.log, l) == Mem(w.log, l)
    {
      MemAppend(w.log, e, l);
    }
  }

  lemma TransformKeeps(w: Snapshot, t: QueryTask, plan: Plan, output: Output, slot: nat, dst: Loc, result: TransformResult)
    requires Finalizing(w, plan, output, slot, dst)
    ensures var (v, src) := ApplyTransform(w, t, dst, result);
            && Finalizing(v, plan, output, slot, dst)
            && (src == dst || (src.Fresh? && Ready(v, Compute, src) && !Unused(v, src)))
  {
    hide Sound, AllSafe, CaughtUp, Ready;
    if result.inPlace {
      ComputeKeeps(w, Transform(dst, dst, t.qStart, t.qStop), plan, output, slot, dst);
    } else {
      var u, src := w.(tensors := w.tensors + 1), Fresh(w.tensors);
      var op := Transform(dst, src, t.qStart, t.qStop);
      AllocateKeeps(w, plan, output, slot, dst);
      ComputeKeeps(u, op, plan, output, slot, dst);
      PushReady(u, Compute, op, Compute, src);
    }
  }

  // When the result is a fresh tensor, Q is free again as soon as the transform has run.
  lemma FreeQKeeps(w: Snapshot, plan: Plan, output: Output, slot: nat, dst: Loc, src: Loc)
    requires Finalizing(w, plan, output, slot, dst) && !output.ToConsumer?
    requires src == dst || (src.Fresh? && Ready(w, Compute, src) && !Unused(w, src))
    ensures var v := if dst == Q && src != Q then Release(w, Compute, Q) else w;
            Finalizing(v, plan, output, slot, src) && forall l :: Mem(v.log, l) == Mem(w.log, l)
  {
    if dst == Q && src != Q {
      ReleaseKeeps(w, Compute, Q);
      PushCaughtUp(w, Compute, Record, H2D);
    }
  }
}
