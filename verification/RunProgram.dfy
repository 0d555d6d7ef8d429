/**
 A whole run: the tasks of one call, the closing synchronization, and recovery
 after an exception.
 */
module RunProgram {
  import opened CommandStreams
  import opened StreamClocks
  import opened RingProtocol
  import opened QueryTasks
  import opened StreamProgram

  // The finalized value of the state `v` holds, after the optional transform.
  function Finished(carry: Val, t: QueryTask, output: Output): Val {
    if output.ToTransform? then Transformed(Finalized(carry, t.QTokens()), t.qStart, t.qStop) else Finalized(carry, t.QTokens())
  }

  // The contract of `Deliver`, by kind of output.
  ghost predicate DeliversTask(w: Snapshot, v: Snapshot, t: QueryTask, plan: Plan, output: Output, index: nat) {
    && Sound(v)
    && (output.Accepts(index) ==>
          Between(v, plan, output) && Delivered(w.log, v.log, t, output, Finished(Mem(w.log, Carry), t, output)))
  }

  ghost predicate MayDeliver(w: Snapshot, plan: Plan, output: Output) {
    && plan.Valid() && Attending(w) && w.hostOutput == plan.hostOutput && output.Allowed(plan)
    && (output.ToConsumer? ==> CaughtUp(w, D2H))
  }

  lemma DeliverToHost(w: Snapshot, v: Snapshot, t: QueryTask, plan: Plan, output: Output, index: nat)
    requires MayDeliver(w, plan, output) && output.ToHost?
    requires v == Deliver(w, t, plan, output, index)
    ensures DeliversTask(w, v, t, plan, output, index)
  {
    hide FinalizeInto, CopyToHost, Mem, Sound, AllSafe, CaughtUp, Ready;
    var slot := index % plan.outputBuffers;
    var (u, dst) := FinalizeInto(w, t, plan, output, slot);
    FinalizeKeeps(w, t, plan, output, slot);
    CopyToHostKeeps(u, t, plan, output, slot, dst);
  }

  lemma DeliverToTransform(w: Snapshot, v: Snapshot, t: QueryTask, plan: Plan, output: Output, index: nat)
    requires MayDeliver(w, plan, output) && output.ToTransform?
    requires v == Deliver(w, t, plan, output, index)
    ensures DeliversTask(w, v, t, plan, output, index)
  {
    hide FinalizeInto, ApplyTransform, CopyToHost, Release, Mem, Sound, AllSafe, CaughtUp, Ready;
    var slot := index % plan.outputBuffers;
    var (u, dst) := FinalizeInto(w, t, plan, output, slot);
    FinalizeKeeps(w, t, plan, output, slot);
    var (x, src) := ApplyTransform(u, t, dst, output.result(index));
    TransformKeeps(u, t, plan, output, slot, dst, output.result(index));
    TransformMem(u, t, dst, output.result(index));
    if output.Accepts(index) {
      FreeQKeeps(x, plan, output, slot, dst, src);
      var y := if dst == Q && src != Q then Release(x, Compute, Q) else x;
      CopyToHostKeeps(y, t, plan, output, slot, src);
    }
  }

  lemma DeliverToConsumer(w: Snapshot, v: Snapshot, t: QueryTask, plan: Plan, output: Output, index: nat)
    requires MayDeliver(w, plan, output) && output.ToConsumer?
    requires v == Deliver(w, t, plan, output, index)
    ensures DeliversTask(w, v, t, plan, output, index)
  {
    hide FinalizeInto, Mem, Sound, AllSafe, CaughtUp, Ready;
    var slot := index % plan.outputBuffers;
    var (u, dst) := FinalizeInto(w, t, plan, output, slot);
    FinalizeKeeps(w, t, plan, output, slot);
    ConsumeKeeps(u, t, plan, output, slot, dst);
    ConsumeMem(u, t, output, dst);
  }

  /** One task: its rows get its own attention value, whatever else is in flight. */
  lemma TaskKeeps(w: Snapshot, v: Snapshot, t: QueryTask, plan: Plan, causal: bool, output: Output, index: nat)
    requires plan.Valid() && t.Validates() && Between(w, plan, output) && output.Allowed(plan)
    requires v == Task(w, t, plan, causal, output, index)
    ensures Sound(v)
    ensures output.Accepts(index) ==>
              Between(v, plan, output) && Delivered(w.log, v.log, t, output, TaskValue(t, plan, causal, output))
  {
    hide Deliver, Tiles, Sound, AllSafe, Attending, CaughtUp, Mem, Folded;
    var n := TileCount(t, plan);
    var u := Tiles(w, t, plan, causal, n);
    TilesKeep(w, u, t, plan, causal, n);
    DeliveryKeeps(u, v, t, plan, output, index);
  }

  lemma DeliveryKeeps(w: Snapshot, v: Snapshot, t: QueryTask, plan: Plan, output: Output, index: nat)
    requires MayDeliver(w, plan, output) && v == Deliver(w, t, plan, output, index)
    ensures DeliversTask(w, v, t, plan, output, index)
  {
    match output {
      case ToHost => DeliverToHost(w, v, t, plan, output, index);
      case ToTransform(_) => DeliverToTransform(w, v, t, plan, output, index);
      case ToConsumer(_) => DeliverToConsumer(w, v, t, plan, output, index);
    }
  }

  // ----- All tasks of a call

  function TaskList(w: Snapshot, tasks: seq<QueryTask>, plan: Plan, causal: bool, output: Output, n: nat): Snapshot
    requires plan.Valid() && n <= |tasks| && forall m :: 0 <= m < n ==> tasks[m].Validates()
  {
    if n == 0 then w
    else Task(TaskList(w, tasks, plan, causal, output, n - 1), tasks[n - 1], plan, causal, output, n - 1)
  }

  ghost predicate AllAccepted(output: Output, n: nat) {
    forall m: nat :: m < n ==> output.Accepts(m)
  }

  predicate Covers(t: QueryTask, r: int) {
    t.qStart <= r < t.qStop
  }

  // What each task must deliver.
  function TaskValues(tasks: seq<QueryTask>, plan: Plan, causal: bool, output: Output): (values: seq<Val>)
    requires plan.Valid() && forall m :: 0 <= m < |tasks| ==> tasks[m].Validates()
    ensures |values| == |tasks|
  {
    seq(|tasks|, m requires 0 <= m < |tasks| => TaskValue(tasks[m], plan, causal, output))
  }

  // The first n tasks have delivered their rows and no other row changed.
  ghost predicate RunDelivered(before: seq<Entry>, after: seq<Entry>, tasks: seq<QueryTask>,
                               values: seq<Val>, output: Output, n: nat)
    requires n <= |tasks| == |values|
  {
    && (forall m, r :: 0 <= m < n && Covers(tasks[m], r) ==>
          Mem(after, output.Destination(r)) == Row(values[m], r - tasks[m].qStart))
    && (forall r :: (forall m :: 0 <= m < n ==> !Covers(tasks[m], r)) ==>
          Mem(after, output.Destination(r)) == Mem(before, output.Destination(r)))
  }

  lemma RunDeliveredStep(w: seq<Entry>, u: seq<Entry>, v: seq<Entry>, tasks: seq<QueryTask>,
                         values: seq<Val>, output: Output, n: nat)
    requires Ordered(tasks) && n < |tasks| == |values|
    requires RunDelivered(w, u, tasks, values, output, n)
    requires Delivered(u, v, tasks[n], output, values[n])
    ensures RunDelivered(w, v, tasks, values, output, n + 1)
  {
    hide Mem;
    forall m, r | 0 <= m < n + 1 && Covers(tasks[m], r)
      ensures Mem(v, output.Destination(r)) == Row(values[m], r - tasks[m].qStart)
    {
      if m < n {
        assert tasks[m].qStop <= tasks[n].qStart;
      }
    }
    forall r | forall m :: 0 <= m < n + 1 ==> !Covers(tasks[m], r)
      ensures Mem(v, output.Destination(r)) == Mem(w, output.Destination(r))
    {
      assert !Covers(tasks[n], r);
    }
  }

  lemma {:induction false} TaskListKeeps(w: Snapshot, v: Snapshot, tasks: seq<QueryTask>,
                                         plan: Plan, causal: bool, output: Output, n: nat)
    requires plan.Valid() && Ordered(tasks) && n <= |tasks| && output.Allowed(plan)
    requires Between(w, plan, output) && v == TaskList(w, tasks, plan, causal, output, n)
    requires n > 0 ==> AllAccepted(output, n - 1)
    ensures Sound(v)
    ensures AllAccepted(output, n) ==>
              Between(v, plan, output) && RunDelivered(w.log, v.log, tasks, TaskValues(tasks, plan, causal, output), output, n)
    decreases n
  {
    hide Task, Mem, TaskValue, Sound, AllSafe, CaughtUp;
    if n > 0 {
      var u := TaskList(w, tasks, plan, causal, output, n - 1);
      TaskListKeeps(w, u, tasks, plan, causal, output, n - 1);
      TaskKeeps(u, v, tasks[n - 1], plan, causal, output, n - 1);
      if AllAccepted(output, n) {
        assert output.Accepts(n - 1);
        RunDeliveredStep(w.log, u.log, v.log, tasks, TaskValues(tasks, plan, causal, output), output, n - 1);
      }
    } else {
      assert Between(w, plan, output) ==> Sound(w);
    }
  }

  // ----- Synchronizing with the host

  function Finish(w: Snapshot, output: Output): Snapshot {
    Push(if output.ToConsumer? then w else Push(w, Host, Sync(D2H)), Host, Sync(Compute))
  }

  function Recovered(w: Snapshot): Snapshot {
    Push(Push(Push(w, Host, Sync(H2D)), Host, Sync(Compute)), Host, Sync(D2H)).(pending := {})
  }

  // The host's last synchronize vouches for everything stream s had been given.
  ghost predicate Vouched(log: seq<Entry>, s: Stream) {
    log != [] && log[|log| - 1].stream == Host && Seen(log, After(log), s)
  }

  lemma SyncVouches(log: seq<Entry>, t: Stream, s: Stream)
    requires t != Host && s != Host
    requires s == t || Vouched(log, s)
    ensures Vouched(log + [Entry(Host, Sync(t))], s)
  {
    var e := Entry(Host, Sync(t));
    KnownAppend(log, e, s);
    AfterAppend(log, e);
    if s != t {
      var before, last := log[..|log| - 1], log[|log| - 1];
      assert log == before + [last];
      KnownGrows(before, last, Host);
    }
  }

  lemma SyncCaughtUp(log: seq<Entry>, t: Stream, s: Stream)
    requires t != Host && s != Host && Seen(log, Known(log, Compute), s)
    ensures var grown := log + [Entry(Host, Sync(t))]; Seen(grown, Known(grown, Compute), s)
    ensures t == Compute ==> Vouched(log + [Entry(Host, Sync(t))], s)
  {
    var e := Entry(Host, Sync(t));
    KnownAppend(log, e, s);
    KnownAppend(log, e, Compute);
    AfterAppend(log, e);
  }

  lemma SyncSteady(w: Snapshot, t: Stream)
    requires Sound(w) && t != Host
    ensures Steady(w, Push(w, Host, Sync(t)))
  {
    PushQuietKeeps(w, Host, Sync(t));
  }

  /** When a run returns, the host has waited for everything it enqueued. */
  lemma FinishDrains(w: Snapshot, plan: Plan, output: Output)
    requires Between(w, plan, output)
    ensures Sound(Finish(w, output)) && Drained(Finish(w, output).log)
    ensures forall l :: Mem(Finish(w, output).log, l) == Mem(w.log, l)
  {
    hide Mem, AllSafe, Known, After;
    var u := if output.ToConsumer? then w else Push(w, Host, Sync(D2H));
    if !output.ToConsumer? {
      SyncSteady(w, D2H);
      SyncVouches(w.log, D2H, D2H);
      SyncCaughtUp(w.log, D2H, H2D);
      SyncVouches(u.log, Compute, D2H);
    } else {
      SyncCaughtUp(u.log, Compute, D2H);
    }
    SyncSteady(u, Compute);
    SyncVouches(u.log, Compute, Compute);
    SyncCaughtUp(u.log, Compute, H2D);
  }

  // What was delivered stays when no location changes.
  lemma DeliveredStays(before: seq<Entry>, u: seq<Entry>, v: seq<Entry>, tasks: seq<QueryTask>, values: seq<Val>, output: Output)
    requires |values| == |tasks| && RunDelivered(before, u, tasks, values, output, |tasks|)
    requires forall l :: Mem(v, l) == Mem(u, l)
    ensures RunDelivered(before, v, tasks, values, output, |tasks|)
  {
    hide Mem;
  }

  /** Recovery is safe after any sound prefix of a run, whatever the flags say. */
  lemma RecoveryDrains(w: Snapshot)
    requires Sound(w)
    ensures Sound(Recovered(w)) && Drained(Recovered(w).log)
    ensures forall l :: Mem(Recovered(w).log, l) == Mem(w.log, l)
  {
    var a := Push(w, Host, Sync(H2D));
    var b := Push(a, Host, Sync(Compute));
    var c := Push(b, Host, Sync(D2H));
    SyncSteady(w, H2D);
    SyncSteady(a, Compute);
    SyncSteady(b, D2H);
    SyncVouches(w.log, H2D, H2D);
    SyncVouches(a.log, Compute, H2D);
    SyncVouches(a.log, Compute, Compute);
    SyncVouches(b.log, D2H, H2D);
    SyncVouches(b.log, D2H, Compute);
    SyncVouches(b.log, D2H, D2H);
    ForgetFlags(c);
  }

  lemma ForgetFlags(c: Snapshot)
    requires Sound(c)
    ensures Sound(c.(pending := {}))
  {
    var v := c.(pending := {});
    forall i, l | 0 <= i < |v.log| && Unused(v, l)
      ensures !Touches(v.log[i].op, l)
    {
      assert Unused(c, l);
    }
  }

  /** Every prefix of a sound log can be recovered: the failure may strike anywhere. */
  lemma RecoverAnywhere(w: Snapshot, n: nat, recorded: map<Event, nat>, pending: set<Loc>)
    requires Sound(w) && n <= |w.log|
    requires forall ev :: ev in recorded ==> recorded[ev] < n
    requires forall l :: Ring(l) && l in pending ==> FreeEvent(l) in recorded
    ensures var v := Recovered(w.(log := w.log[..n], recorded := recorded, pending := pending));
            Sound(v) && Drained(v.log)
  {
    var u := w.(log := w.log[..n], recorded := recorded, pending := pending);
    RaceFreePrefix(w.log, n);
    forall i, l | 0 <= i < |u.log| && Unused(u, l)
      ensures !Touches(u.log[i].op, l)
    {
      assert Unused(w, l);
    }
    RecoveryDrains(u);
  }

  /** A drained workspace may start any run, whatever its flags say. */
  lemma DrainedStarts(w: Snapshot, plan: Plan, output: Output)
    requires Sound(w) && Drained(w.log) && w.hostOutput == plan.hostOutput
    ensures Between(w, plan, output)
  {
    assert forall i :: 0 <= i < |w.log| && w.log[i].stream == Host ==> w.log[i].op.Sync?;
    forall l | Ring(l)
      ensures Safe(w, l)
    {
      DrainedCovers(w.log, Writer(l), l);
      JoinAbove(Known(w.log, Writer(l)), Signal(w, FreeEvent(l)));
      CoveredBelow(w.log, Known(w.log, Writer(l)), View(w, l), l);
    }
    if w.log != [] {
      var before, last := w.log[..|w.log| - 1], w.log[|w.log| - 1];
      assert w.log == before + [last];
      KnownAppend(before, last, Compute);
      JoinAbove(Known(before, Compute), After(w.log));
      assert Seen(w.log, After(w.log), H2D) && Seen(w.log, After(w.log), D2H);
    }
  }

  // Every interleaving of a drained, race-free call ends with the rows the program delivers.
  lemma DeliveredRow(before: seq<Entry>, log: seq<Entry>, tasks: seq<QueryTask>, values: seq<Val>, output: Output,
                     actions: seq<Action>, s: Machine, m: nat, r: int)
    requires |values| == |tasks| && RunDelivered(before, log, tasks, values, output, |tasks|)
    requires RaceFree(log) && Drained(log) && Reached(log, actions, s) && (log != [] ==> |log| - 1 in s.done)
    requires m < |tasks| && Covers(tasks[m], r)
    ensures s.mem(output.Destination(r)) == Row(values[m], r - tasks[m].qStart)
  {
    hide RaceFree, Drained, Reached, Mem;
    ReachedInvariant(log, actions, s);
    DrainedMeansDone(log, s);
    InterleavingWritesSequentialValues(log, actions, s, output.Destination(r));
  }

  lemma SoundRaceFree(w: Snapshot)
    requires Sound(w)
    ensures RaceFree(w.log)
  {
  }
}
