/**
 A flash-split call that raises part way.  The call has no recovery of its own, so
 the flags are left as they are; this is exactly when the next call is still safe.
 */
module SplitInterruption {
  import opened CommandStreams
  import opened StreamClocks
  import opened RaceWitness
  import opened RingProtocol
  import opened QueryTasks
  import opened StreamProgram
  import opened RunProgram
  import opened SplitProgram

  // Tile n has been loaded, and its partial forward pass raises, or the merge after it does.
  function Interrupted(w: Snapshot, t: QueryTask, plan: Plan, slot: nat, n: nat, launched: bool): Snapshot
    requires plan.Valid()
  {
    var kv := n % plan.kvBuffers;
    var loaded := LoadKV(SplitTiles(w, t, plan, slot, n), kv, TileStart(t, plan, n), TileStop(t, plan, n));
    if launched then Push(loaded, Compute, Forward(t, plan, kv, slot, n)) else loaded
  }

  // ----- Safe interruptions

  lemma ReadyIsSafe(w: Snapshot, l: Loc)
    requires Ring(l) && Ready(w, Writer(l), l)
    ensures Safe(w, l)
  {
    JoinAbove(Known(w.log, Writer(l)), Signal(w, FreeEvent(l)));
    CoveredBelow(w.log, Known(w.log, Writer(l)), View(w, l), l);
  }

  // Nothing has read Q yet.
  lemma UnreadIsSafe(w: Snapshot, t: QueryTask, plan: Plan, slot: nat)
    requires plan.Valid() && Between(w, plan, ToHost) && plan.hostOutput
    ensures Between(Interrupted(w, t, plan, slot, 0, false), plan, ToHost)
  {
    hide Sound, Ready, Safe, CaughtUp, TileStart, TileStop;
    var q, v := LoadQ(w, t), SplitTiles(w, t, plan, slot, 0);
    var start, stop := TileStart(t, plan, 0), TileStop(t, plan, 0);
    LoadQKeeps(w, t);
    AcquireKeeps(q, Out(slot));
    SplitTilesKeep(w, v, t, plan, slot, 0);
    LoadKVKeeps(v, 0, start, stop);
    LoadKeeps(v, KV(0), CopyKV(0, start, stop), KVReady(0));
    assert AllSafe(v, {});
  }

  // With one K/V slot the load of the next tile waits for the last read of Q.
  lemma OneSlotIsSafe(w: Snapshot, t: QueryTask, plan: Plan, slot: nat, n: nat)
    requires plan.Valid() && Between(w, plan, ToHost) && plan.hostOutput && plan.kvBuffers == 1 && n > 0
    ensures Between(Interrupted(w, t, plan, slot, n, false), plan, ToHost)
  {
    hide Sound, Safe, Ready, CaughtUp, TileStart, TileStop, Known, Signal, Mem;
    var v := SplitTiles(w, t, plan, slot, n);
    var start, stop := TileStart(t, plan, n), TileStop(t, plan, n);
    SplitTilesKeep(w, v, t, plan, slot, n);
    LoadKVKeeps(v, 0, start, stop);
    LoadKeeps(v, KV(0), CopyKV(0, start, stop), KVReady(0));
    ReleasedSignal(w, t, plan, slot, n);
    LoadLearnsReads(v, start, stop);
    ReadyIsSafe(Interrupted(w, t, plan, slot, n, false), Q);
  }

  lemma LoadLearnsReads(v: Snapshot, start: int, stop: int)
    requires Sound(v) && Ready(v, Compute, Q) && KV(0) in v.pending && KVFree(0) in v.recorded
    requires Signal(v, KVFree(0)) == Known(v.log, Compute)
    ensures Ready(LoadKV(v, 0, start, stop), H2D, Q)
  {
    hide Sound, Known, After, Covered;
    var a := Acquire(v, KV(0));
    WaitReady(v, H2D, KVFree(0), Q);
    PushReady(a, H2D, CopyKV(0, start, stop), H2D, Q);
    var b := Push(a, H2D, CopyKV(0, start, stop));
    PushReady(b, H2D, Record, H2D, Q);
    var c := RecordOn(b, H2D, KVReady(0));
    PushReady(c, Compute, Wait(c.recorded[KVReady(0)]), H2D, Q);
  }

  // The free event of the last tile's slot stands for all the compute stream has done.
  lemma ReleasedSignal(w: Snapshot, t: QueryTask, plan: Plan, slot: nat, n: nat)
    requires plan.Valid() && n > 0
    ensures var v, kv := SplitTiles(w, t, plan, slot, n), (n - 1) % plan.kvBuffers;
            KV(kv) in v.pending && KVFree(kv) in v.recorded && Signal(v, KVFree(kv)) == Known(v.log, Compute)
  {
    hide LoadKV, Known, After;
    var kv := (n - 1) % plan.kvBuffers;
    var loaded := LoadKV(SplitTiles(w, t, plan, slot, n - 1), kv, TileStart(t, plan, n - 1), TileStop(t, plan, n - 1));
    var p := Push(Push(loaded, Compute, Forward(t, plan, kv, slot, n - 1)), Compute, MergeSplit(n - 1 == 0, slot, t.QTokens()));
    RecordSignal(p, Compute, KVFree(kv));
  }

  // ----- Unsafe interruptions

  // The copy stream knows nothing of compute commands from position i on.
  ghost predicate Unaware(log: seq<Entry>, i: nat) {
    Known(log, H2D).compute <= i
  }

  lemma StaysUnaware(log: seq<Entry>, e: Entry, i: nat)
    requires Unaware(log, i) && e.stream != Host && !e.op.Sync?
    requires e.stream == H2D && e.op.Wait? ==> e.op.target < i && e.op.target < |log|
    ensures Unaware(log + [e], i)
  {
    hide Known, After;
    KnownAppend(log, e, H2D);
    if e.stream == H2D {
      if e.op.Wait? {
        AfterWait(log, e);
        AfterBounded(log[..e.op.target + 1]);
      } else {
        AfterPlain(log, e);
      }
    }
  }

  // A forward pass at position i reads Q, and neither the copy stream nor Q's free event knows.
  ghost predicate Overlooked(u: Snapshot, i: nat) {
    && i < |u.log| && u.log[i].stream == Compute && u.log[i].op.PartialForward? && Unaware(u.log, i)
    && (QFree in u.recorded ==> u.recorded[QFree] < i)
  }

  lemma OverlookedIsUnsafe(u: Snapshot, i: nat)
    requires Overlooked(u, i)
    ensures !Safe(u, Q)
  {
    hide Known, After;
    if QFree in u.recorded {
      AfterBounded(u.log[..u.recorded[QFree] + 1]);
    }
    assert View(u, Q).At(Compute) <= i;
    assert Touches(u.log[i].op, Q);
  }

  // The forward pass whose merge raises is the last command, so nothing can know it.
  lemma LaunchOverlooked(u: Snapshot, forward: Op)
    requires Sound(u) && forward.PartialForward?
    ensures Overlooked(Push(u, Compute, forward), |u.log|)
  {
    hide Known, After;
    KnownBounded(u.log, H2D);
    StaysUnaware(u.log, Entry(Compute, forward), |u.log|);
  }

  // With more slots the next load waits for an older tile, if at all.
  lemma LastTileOverlooked(m: Snapshot, kv: nat, next: nat, forward: Op, merge: Op, start: int, stop: int)
    requires Sound(m) && kv != next && forward.PartialForward? && merge.MergeSplit?
    ensures var v := Release(Push(Push(m, Compute, forward), Compute, merge), Compute, KV(kv));
            Overlooked(LoadKV(v, next, start, stop), |m.log|)
  {
    hide Known, After, RaceFree, Unaware;
    var i := |m.log|;
    assert Unaware(m.log, i) by { KnownBounded(m.log, H2D); assert Known(m.log, H2D).compute <= i; UnawareMeans(m.log, i); }
    StaysUnaware(m.log, Entry(Compute, forward), i);
    var p := Push(m, Compute, forward);
    StaysUnaware(p.log, Entry(Compute, merge), i);
    var q := Push(p, Compute, merge);
    StaysUnaware(q.log, Entry(Compute, Record), i);
    var v := Release(q, Compute, KV(kv));
    var a := Acquire(v, KV(next));
    if KV(next) in v.pending && KVFree(next) in v.recorded {
      StaysUnaware(v.log, Entry(H2D, Wait(v.recorded[KVFree(next)])), i);
    }
    StaysUnaware(a.log, Entry(H2D, CopyKV(next, start, stop)), i);
    var b := Push(a, H2D, CopyKV(next, start, stop));
    StaysUnaware(b.log, Entry(H2D, Record), i);
    var c := RecordOn(b, H2D, KVReady(next));
    StaysUnaware(c.log, Entry(Compute, Wait(c.recorded[KVReady(next)])), i);
  }

  lemma UnawareMeans(log: seq<Entry>, i: nat)
    ensures Unaware(log, i) <==> Known(log, H2D).compute <= i
  {
  }

  lemma InterruptedOverlooks(w: Snapshot, t: QueryTask, plan: Plan, slot: nat, n: nat, launched: bool) returns (i: nat)
    requires plan.Valid() && Between(w, plan, ToHost) && plan.hostOutput && (launched || (n > 0 && plan.kvBuffers > 1))
    ensures Overlooked(Interrupted(w, t, plan, slot, n, launched), i)
  {
    hide Sound, Safe, CaughtUp, Ready, TileStart, TileStop, LoadKV, Overlooked, Mem;
    var kv := n % plan.kvBuffers;
    if launched {
      SplitTilesKeep(w, SplitTiles(w, t, plan, slot, n), t, plan, slot, n);
      LoadKVKeeps(SplitTiles(w, t, plan, slot, n), kv, TileStart(t, plan, n), TileStop(t, plan, n));
      var u := Interrupted(w, t, plan, slot, n, false);
      LaunchOverlooked(u, Forward(t, plan, kv, slot, n));
      i := |u.log|;
    } else {
      var x, last := SplitTiles(w, t, plan, slot, n - 1), (n - 1) % plan.kvBuffers;
      SplitTilesKeep(w, x, t, plan, slot, n - 1);
      LoadKVKeeps(x, last, TileStart(t, plan, n - 1), TileStop(t, plan, n - 1));
      NeighboursDiffer(n - 1, plan.kvBuffers);
      var m := LoadKV(x, last, TileStart(t, plan, n - 1), TileStop(t, plan, n - 1));
      LastTileOverlooked(m, last, kv, Forward(t, plan, last, slot, n - 1), MergeSplit(n - 1 == 0, slot, t.QTokens()),
                         TileStart(t, plan, n), TileStop(t, plan, n));
      i := |m.log|;
    }
  }

  lemma NeighboursDiffer(n: nat, size: nat)
    requires size > 1
    ensures n % size != (n + 1) % size
  {
    var p, q := (n + 1) / size, n / size;
    if (n + 1) % size == n % size {
      assert (p - q) * size == 1;
      NoUnit(p - q, size);
      assert false;
    }
  }

  lemma NoUnit(k: int, size: nat)
    requires size > 1
    ensures k * size != 1
  {
    if k > 0 {
      assert k * size >= size;
    }
  }

  // An interleaving of the next call's first copy in which Q is overwritten before the
  // interrupted call's forward pass at position i has read it.
  ghost predicate Overwritten(u: Snapshot, next: QueryTask, i: nat, actions: seq<Action>, s: Machine) {
    && i < |u.log| && u.log[i].op.PartialForward? && Reached(LoadQ(u, next).log, actions, s)
    && i !in s.done && s.mem(Q) == QTile(next.qStart, next.qStop)
  }

  lemma OverlookedIsOverwritten(u: Snapshot, next: QueryTask, i: nat) returns (actions: seq<Action>, s: Machine)
    requires Overlooked(u, i)
    ensures Overwritten(u, next, i, actions, s)
  {
    hide Known, After, Unaware, Reached;
    var a, copy := Acquire(u, Q), CopyQ(next.qStart, next.qStop);
    if Q in u.pending && QFree in u.recorded {
      StaysUnaware(u.log, Entry(H2D, Wait(u.recorded[QFree])), i);
    }
    var log, j := LoadQ(u, next).log, |a.log|;
    assert log[..j] == a.log && log[j] == Entry(H2D, copy) && log[i] == u.log[i];
    UnawareMeans(a.log, i);
    var found;
    actions, s, found := RunsEarly(log, i, j);
  }

  /**
   A call that raises in task t's tile n leaves the state the next call needs exactly
   when no forward pass of this task has been launched, or there is one K/V slot and
   the failing tile's own pass has not.  Otherwise, whatever comes next, its first
   copy may overwrite Q before a forward pass already launched has read it.
   */
  lemma InterruptedExactly(w: Snapshot, t: QueryTask, plan: Plan, index: nat, n: nat, launched: bool, next: QueryTask)
    requires plan.Valid() && t.Validates() && Between(w, plan, ToHost) && plan.hostOutput && n < TileCount(t, plan)
    ensures var u := Interrupted(w, t, plan, index % plan.outputBuffers, n, launched);
            var safe := !launched && (n == 0 || plan.kvBuffers == 1);
            && (Between(u, plan, ToHost) <==> safe)
            && (!safe ==> exists i, actions, s :: Overwritten(u, next, i, actions, s))
  {
    hide Between, Overwritten, Overlooked, Interrupted;
    var slot := index % plan.outputBuffers;
    if !launched && n == 0 {
      UnreadIsSafe(w, t, plan, slot);
    } else if !launched && plan.kvBuffers == 1 {
      OneSlotIsSafe(w, t, plan, slot, n);
    } else {
      var u := Interrupted(w, t, plan, slot, n, launched);
      var i := InterruptedOverlooks(w, t, plan, slot, n, launched);
      OverlookedIsNotBetween(u, plan, i);
      var actions, s := OverlookedIsOverwritten(u, next, i);
    }
  }

  lemma OverlookedIsNotBetween(u: Snapshot, plan: Plan, i: nat)
    requires Overlooked(u, i)
    ensures !Between(u, plan, ToHost)
  {
    OverlookedIsUnsafe(u, i);
    assert Ring(Q);
  }
}
