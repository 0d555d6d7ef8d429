/**
 The flash-split variant: output slots double as scratch for partial results,
 which are merged into a running normalized state.
 */
module SplitProgram {
  import opened CommandStreams
  import opened StreamClocks
  import opened RingProtocol
  import opened QueryTasks
  import opened StreamProgram
  import opened RunProgram

  // ----- The value a task must deliver

  function MergeTile(state: Val, q: Val, t: QueryTask, plan: Plan, n: nat): Val {
    Merged(state, Partial(q, KVTile(TileStart(t, plan, n), TileStop(t, plan, n)), t.QTokens(), TileStop(t, plan, n) - TileStart(t, plan, n)),
           t.QTokens())
  }

  function MergedTiles(t: QueryTask, plan: Plan, n: nat): Val {
    if n == 0 then NewState
    else MergeTile(MergedTiles(t, plan, n - 1), QTile(t.qStart, t.qStop), t, plan, n - 1)
  }

  function SplitValue(t: QueryTask, plan: Plan): Val
    requires plan.Valid() && t.Validates()
  {
    Val.Copied(MergedTiles(t, plan, TileCount(t, plan)), t.QTokens())
  }

  // ----- What the executor enqueues

  // The partial forward pass over tile n.
  function Forward(t: QueryTask, plan: Plan, kv: nat, slot: nat, n: nat): Op {
    PartialForward(kv, slot, t.QTokens(), TileStop(t, plan, n) - TileStart(t, plan, n))
  }

  function SplitTile(w: Snapshot, t: QueryTask, plan: Plan, slot: nat, n: nat): Snapshot
    requires plan.Valid()
  {
    var kv := n % plan.kvBuffers;
    var loaded := LoadKV(w, kv, TileStart(t, plan, n), TileStop(t, plan, n));
    var partial := Push(loaded, Compute, Forward(t, plan, kv, slot, n));
    Release(Push(partial, Compute, MergeSplit(n == 0, slot, t.QTokens())), Compute, KV(kv))
  }

  function SplitTiles(w: Snapshot, t: QueryTask, plan: Plan, slot: nat, n: nat): Snapshot
    requires plan.Valid()
  {
    if n == 0 then Acquire(LoadQ(w, t), Out(slot))
    else SplitTile(SplitTiles(w, t, plan, slot, n - 1), t, plan, slot, n - 1)
  }

  function SplitTask(w: Snapshot, t: QueryTask, plan: Plan, index: nat): Snapshot
    requires plan.Valid() && t.Validates()
  {
    var slot := index % plan.outputBuffers;
    var merged := SplitTiles(w, t, plan, slot, TileCount(t, plan));
    CopyToHost(Push(Release(merged, Compute, Q), Compute, CopyState(slot, t.QTokens())), t, slot, Out(slot))
  }

  // ----- The tile loop

  // The compute stream may use Q, its output slot and one K/V slot.
  ghost predicate Merging(w: Snapshot, slot: nat, kv: nat) {
    && Sound(w) && AllSafe(w, {Q, KV(kv)}) && CaughtUp(w, H2D) && w.hostOutput
    && Ready(w, Compute, Q) && Ready(w, Compute, KV(kv)) && Ready(w, Compute, Out(slot))
  }

  lemma MergingPush(w: Snapshot, op: Op, slot: nat, kv: nat)
    requires Merging(w, slot, kv)
    requires (op.PartialForward? && op.slot == kv && op.out == slot) || (op.MergeSplit? && op.out == slot)
    ensures Merging(Push(w, Compute, op), slot, kv)
  {
    hide Sound, Ready, Safe, CaughtUp;
    MergingAdmissible(w, op, slot, kv);
    PushKeeps(w, Compute, op);
    PushCaughtUp(w, Compute, op, H2D);
  }

  lemma MergingAdmissible(w: Snapshot, op: Op, slot: nat, kv: nat)
    requires Merging(w, slot, kv)
    requires (op.PartialForward? && op.slot == kv && op.out == slot) || (op.MergeSplit? && op.out == slot)
    ensures Admissible(w, Compute, op)
  {
    PrivateReady(w, Compute, Carry);
    hide Sound, Ready, Safe, CaughtUp;
  }

  // Between tiles every K/V slot may be reused.
  ghost predicate Partway(w: Snapshot, slot: nat) {
    Attending(w) && w.hostOutput && Ready(w, Compute, Out(slot))
  }

  lemma SplitTileKeeps(w: Snapshot, v: Snapshot, t: QueryTask, plan: Plan, slot: nat, n: nat)
    requires plan.Valid() && Partway(w, slot) && v == SplitTile(w, t, plan, slot, n)
    ensures Partway(v, slot)
  {
    var kv := n % plan.kvBuffers;
    var start, stop := TileStart(t, plan, n), TileStop(t, plan, n);
    hide TileStart, TileStop;
    var loaded := LoadKV(w, kv, start, stop);
    LoadKVKeeps(w, kv, start, stop);
    LoadKVOthers(w, kv, start, stop, slot);
    MergingPush(loaded, Forward(t, plan, kv, slot, n), slot, kv);
    var partial := Push(loaded, Compute, Forward(t, plan, kv, slot, n));
    MergingPush(partial, MergeSplit(n == 0, slot, t.QTokens()), slot, kv);
    MergedRelease(Push(partial, Compute, MergeSplit(n == 0, slot, t.QTokens())), slot, kv);
  }

  lemma LoadKVOthers(w: Snapshot, kv: nat, start: int, stop: int, slot: nat)
    requires Attending(w) && Ready(w, Compute, Out(slot))
    ensures Ready(LoadKV(w, kv, start, stop), Compute, Out(slot))
  {
    assert Safe(w, KV(kv));
    LoadKeeps(w, KV(kv), CopyKV(kv, start, stop), KVReady(kv));
  }

  lemma MergedRelease(w: Snapshot, slot: nat, kv: nat)
    requires Merging(w, slot, kv)
    ensures Partway(Release(w, Compute, KV(kv)), slot)
  {
    ReleaseKeeps(w, Compute, KV(kv));
    PushCaughtUp(w, Compute, Record, H2D);
  }

  lemma SplitTileMem(w: Snapshot, v: Snapshot, t: QueryTask, plan: Plan, slot: nat, n: nat)
    requires plan.Valid() && Partway(w, slot) && v == SplitTile(w, t, plan, slot, n)
    ensures Mem(v.log, Q) == Mem(w.log, Q)
    ensures Mem(v.log, Carry) ==
            MergeTile(if n == 0 then NewState else Mem(w.log, Carry), Mem(w.log, Q), t, plan, n)
    ensures forall l: Loc :: l.HostRow? || l.SinkRow? ==> Mem(v.log, l) == Mem(w.log, l)
  {
    hide TileStart, TileStop, Mem, Attending, LoadKV, Release, Push, Ready;
    var kv := n % plan.kvBuffers;
    var start, stop := TileStart(t, plan, n), TileStop(t, plan, n);
    LoadKVKeeps(w, kv, start, stop);
    MergeMem(LoadKV(w, kv, start, stop), slot, kv, n == 0, t.QTokens(), stop - start);
  }

  lemma MergeMem(w: Snapshot, slot: nat, kv: nat, initialize: bool, qTokens: int, kvTokens: int)
    ensures var v := Release(Push(Push(w, Compute, PartialForward(kv, slot, qTokens, kvTokens)), Compute, MergeSplit(initialize, slot, qTokens)), Compute, KV(kv));
            && Mem(v.log, Carry) ==
               Merged(if initialize then NewState else Mem(w.log, Carry), Partial(Mem(w.log, Q), Mem(w.log, KV(kv)), qTokens, kvTokens), qTokens)
            && forall l: Loc :: l != Carry && !l.Out? ==> Mem(v.log, l) == Mem(w.log, l)
  {
    hide Mem;
    var e, f, g := Entry(Compute, PartialForward(kv, slot, qTokens, kvTokens)), Entry(Compute, MergeSplit(initialize, slot, qTokens)), Entry(Compute, Record);
    forall l: Loc
      ensures Mem(w.log + [e], l) == if l == Out(slot) then Partial(Mem(w.log, Q), Mem(w.log, KV(kv)), qTokens, kvTokens) else Mem(w.log, l)
      ensures l != Carry ==> Mem(w.log + [e] + [f], l) == Mem(w.log + [e], l)
      ensures Mem(w.log + [e] + [f] + [g], l) == Mem(w.log + [e] + [f], l)
    {
      MemAppend(w.log, e, l);
      MemAppend(w.log + [e], f, l);
      MemAppend(w.log + [e] + [f], g, l);
    }
    MemAppend(w.log + [e], f, Carry);
  }

  ghost predicate SplitAttended(w: Snapshot, v: Snapshot, t: QueryTask, plan: Plan, slot: nat, n: nat) {
    && Partway(v, slot)
    && Mem(v.log, Q) == QTile(t.qStart, t.qStop)
    && (n > 0 ==> Mem(v.log, Carry) == MergedTiles(t, plan, n))
    && (forall l: Loc :: l.HostRow? || l.SinkRow? ==> Mem(v.log, l) == Mem(w.log, l))
  }

  lemma SplitStart(w: Snapshot, v: Snapshot, t: QueryTask, plan: Plan, slot: nat)
    requires Sound(w) && AllSafe(w, {}) && w.hostOutput && v == Acquire(LoadQ(w, t), Out(slot))
    ensures SplitAttended(w, v, t, plan, slot, 0)
  {
    var u := LoadQ(w, t);
    LoadQKeeps(w, t);
    assert Safe(u, Out(slot));
    AcquireKeeps(u, Out(slot));
    if Out(slot) in u.pending {
      PushCaughtUp(u, Compute, Wait(u.recorded[OutFree(slot)]), H2D);
    }
  }

  lemma {:induction false} SplitTilesKeep(w: Snapshot, v: Snapshot, t: QueryTask, plan: Plan, slot: nat, n: nat)
    requires plan.Valid() && Sound(w) && AllSafe(w, {}) && w.hostOutput && v == SplitTiles(w, t, plan, slot, n)
    ensures SplitAttended(w, v, t, plan, slot, n)
    decreases n
  {
    hide SplitTile, LoadQ, Acquire, Sound, AllSafe, Attending, Partway, MergeTile;
    if n == 0 {
      SplitStart(w, v, t, plan, slot);
    } else {
      var u := SplitTiles(w, t, plan, slot, n - 1);
      SplitTilesKeep(w, u, t, plan, slot, n - 1);
      SplitTileKeeps(u, v, t, plan, slot, n - 1);
      SplitTileMem(u, v, t, plan, slot, n - 1);
      assert Mem(v.log, Carry) == MergedTiles(t, plan, n);
    }
  }

  // ----- One task and a whole run

  lemma CopyStateKeeps(w: Snapshot, t: QueryTask, plan: Plan, slot: nat)
    requires Partway(w, slot) && plan.hostOutput
    ensures var v := Push(Release(w, Compute, Q), Compute, CopyState(slot, t.QTokens()));
            && Finalizing(v, plan, ToHost, slot, Out(slot))
            && Mem(v.log, Out(slot)) == Val.Copied(Mem(w.log, Carry), t.QTokens())
            && forall l: Loc :: l != Out(slot) ==> Mem(v.log, l) == Mem(w.log, l)
  {
    var u := Release(w, Compute, Q);
    ReleaseKeeps(w, Compute, Q);
    PushCaughtUp(w, Compute, Record, H2D);
    PrivateReady(u, Compute, Carry);
    ComputeKeeps(u, CopyState(slot, t.QTokens()), plan, ToHost, slot, Out(slot));
    forall l: Loc
      ensures Mem(Push(u, Compute, CopyState(slot, t.QTokens())).log, l) ==
              if l == Out(slot) then Val.Copied(Mem(u.log, Carry), t.QTokens()) else Mem(u.log, l)
    {
      MemAppend(u.log, Entry(Compute, CopyState(slot, t.QTokens())), l);
    }
  }

  /** One flash-split task: its rows get the merge of its own tiles. */
  lemma SplitTaskKeeps(w: Snapshot, v: Snapshot, t: QueryTask, plan: Plan, index: nat)
    requires plan.Valid() && t.Validates() && Between(w, plan, ToHost) && plan.hostOutput
    requires v == SplitTask(w, t, plan, index)
    ensures Between(v, plan, ToHost) && Delivered(w.log, v.log, t, ToHost, SplitValue(t, plan))
  {
    hide SplitTiles, Mem, Sound, CaughtUp, MergedTiles, CopyToHost, Attending, Partway;
    var slot := index % plan.outputBuffers;
    var u := SplitTiles(w, t, plan, slot, TileCount(t, plan));
    SplitTilesKeep(w, u, t, plan, slot, TileCount(t, plan));
    CopyStateKeeps(u, t, plan, slot);
    CopyToHostKeeps(Push(Release(u, Compute, Q), Compute, CopyState(slot, t.QTokens())), t, plan, ToHost, slot, Out(slot));
  }

  function SplitList(w: Snapshot, tasks: seq<QueryTask>, plan: Plan, n: nat): Snapshot
    requires plan.Valid() && n <= |tasks| && forall m :: 0 <= m < n ==> tasks[m].Validates()
  {
    if n == 0 then w else SplitTask(SplitList(w, tasks, plan, n - 1), tasks[n - 1], plan, n - 1)
  }

  function SplitValues(tasks: seq<QueryTask>, plan: Plan): (values: seq<Val>)
    requires plan.Valid() && forall m :: 0 <= m < |tasks| ==> tasks[m].Validates()
    ensures |values| == |tasks|
  {
    seq(|tasks|, m requires 0 <= m < |tasks| => SplitValue(tasks[m], plan))
  }

  lemma {:induction false} SplitListKeeps(w: Snapshot, v: Snapshot, tasks: seq<QueryTask>, plan: Plan, n: nat)
    requires plan.Valid() && Ordered(tasks) && n <= |tasks| && plan.hostOutput
    requires Between(w, plan, ToHost) && v == SplitList(w, tasks, plan, n)
    ensures Between(v, plan, ToHost)
    ensures RunDelivered(w.log, v.log, tasks, SplitValues(tasks, plan), ToHost, n)
    decreases n
  {
    hide SplitTask, Mem, SplitValue, Sound, AllSafe, CaughtUp;
    if n > 0 {
      var u := SplitList(w, tasks, plan, n - 1);
      SplitListKeeps(w, u, tasks, plan, n - 1);
      SplitTaskKeeps(u, v, tasks[n - 1], plan, n - 1);
      RunDeliveredStep(w.log, u.log, v.log, tasks, SplitValues(tasks, plan), ToHost, n - 1);
    }
  }

  /** Every interleaving of a flash-split call leaves each row the merge of its own task's tiles. */
  lemma SplitInterleavingDelivers(w: Snapshot, tasks: seq<QueryTask>, plan: Plan,
                                  actions: seq<Action>, s: Machine, m: nat, r: int)
    requires plan.Valid() && Sound(w) && Drained(w.log) && w.hostOutput == plan.hostOutput == true
    requires Ordered(tasks)
    requires var log := Finish(SplitList(w, tasks, plan, |tasks|), ToHost).log;
             Reached(log, actions, s) && |log| - 1 in s.done
    requires m < |tasks| && Covers(tasks[m], r)
    ensures s.mem(HostRow(r)) == Row(SplitValue(tasks[m], plan), r - tasks[m].qStart)
  {
    hide Between, Mem, SplitValue, SplitTask, SplitList, Sound, Reached, Finish, RaceFree, RunDelivered, Drained;
    var u := SplitList(w, tasks, plan, |tasks|);
    var log := Finish(u, ToHost).log;
    DrainedStarts(w, plan, ToHost);
    SplitListKeeps(w, u, tasks, plan, |tasks|);
    FinishDrains(u, plan, ToHost);
    SoundRaceFree(Finish(u, ToHost));
    DeliveredStays(w.log, u.log, log, tasks, SplitValues(tasks, plan), ToHost);
    DeliveredRow(w.log, log, tasks, SplitValues(tasks, plan), ToHost, actions, s, m, r);
  }
}
