/** The streaming executor: enqueues query tasks, synchronizes, and recovers. */
module Executor {
  import opened Basics
  import opened CommandStreams
  import opened StreamClocks
  import opened RingProtocol
  import opened QueryTasks
  import opened StreamProgram
  import opened RunProgram
  import opened SplitProgram
  import opened Workspace

  class TritonExecutor {
    const plan: Plan
    const workspace: CudaWorkspace
    const source: HostQKVTileSource

    constructor (plan: Plan)
      requires plan.Valid()
      ensures Ready() && fresh(workspace) && this.plan == plan
      ensures workspace.log == []
    {
      this.plan := plan;
      var w := new CudaWorkspace(plan);
      workspace := w;
      source := new HostQKVTileSource(w);
    }

    // Between two calls: everything enqueued so far is race free and has finished.
    ghost predicate Ready()
      reads this, workspace
    {
      && source.workspace == workspace && workspace.Suits(plan)
      && Sound(workspace.Model()) && Drained(workspace.log)
    }

    // Loads one K/V tile into its ring slot, folds it in and hands the slot back.
    method StreamTile(task: QueryTask, causal: bool, index: nat, start: int, initialize: bool)
      requires workspace.Suits(plan) && source.workspace == workspace
      requires start == TileStart(task, plan, index) && (initialize <==> index == 0)
      modifies workspace
      ensures workspace.Suits(plan)
      ensures workspace.Model() == Tile(old(workspace.Model()), task, plan, causal, index)
    {
      hide Load, Push, Release, TileStart;
      var stop := Min(start + plan.kvChunkTokens, task.kStop);
      var slot := index % plan.kvBuffers;
      source.LoadKV(slot, start, stop);
      workspace.Enqueue(Compute, Update(slot, initialize,
        UpdateArgs(task.QTokens(), stop - start, task.qLocalOffset, start - task.kStart, task.causalShift, causal)));
      source.ReleaseKV(slot, Compute);
    }

    method AttendTask(task: QueryTask, causal: bool)
      requires workspace.Suits(plan) && source.workspace == workspace && task.Validates()
      modifies workspace
      ensures workspace.Suits(plan)
      ensures workspace.Model() == Tiles(old(workspace.Model()), task, plan, causal, TileCount(task, plan))
    {
      hide Tile, TileCount, Load;
      source.LoadQ(task.qStart, task.qStop);
      var initialize := true;
      var index := 0;
      var start := task.kStart;
      while start < task.kStop
        invariant workspace.Suits(plan)
        invariant start == TileStart(task, plan, index)
        invariant index > 0 ==> TileStart(task, plan, index - 1) < task.kStop
        invariant initialize <==> index == 0
        invariant workspace.Model() == Tiles(old(workspace.Model()), task, plan, causal, index)
        decreases task.kStop - start
      {
        StreamTile(task, causal, index, start, initialize);
        initialize := false;
        start := start + plan.kvChunkTokens;
        index := index + 1;
      }
      TileCountUnique(task, plan, index);
    }

    method CopyOutput(task: QueryTask, slot: nat, output: Loc)
      requires workspace.Suits(plan) && source.workspace == workspace && slot < plan.outputBuffers
      modifies workspace
      ensures workspace.Suits(plan)
      ensures workspace.Model() == CopyToHost(old(workspace.Model()), task, slot, output)
    {
      workspace.Record(Compute, OutReady(slot));
      workspace.WaitEvent(D2H, OutReady(slot));
      workspace.Enqueue(D2H, CopyOut(output, task.qStart, task.qStop));
      workspace.Record(D2H, OutFree(slot));
      ghost var copied := workspace.Model();
      if output == Q {
        source.ReleaseQ(D2H);
        assert copied.pending + {Q} + {Out(slot)} == copied.pending + {Out(slot)} + {Q};
      }
      workspace.MarkOutputPending(slot);
    }

    // Finalizes the running state into Q or an output slot.
    method FinalizeTask(task: QueryTask, output: Output, slot: nat) returns (finalized: Loc)
      requires workspace.Suits(plan) && source.workspace == workspace && slot < plan.outputBuffers
      modifies workspace
      ensures workspace.Suits(plan)
      ensures (workspace.Model(), finalized) == FinalizeInto(old(workspace.Model()), task, plan, output, slot)
    {
      var reuseQ := !output.ToHost? && !plan.hostOutput;
      if !reuseQ {
        source.ReleaseQ(Compute);
      }
      if !output.ToConsumer? && !reuseQ {
        workspace.WaitForOutputSlot(slot);
      }
      finalized := if reuseQ then Q else Out(slot);
      workspace.Enqueue(Compute, Finalize(finalized, task.QTokens()));
    }

    // Runs the transform on the finalized rows, in place or into a fresh tensor.
    method TransformTask(task: QueryTask, finalized: Loc, result: TransformResult) returns (transformed: Loc)
      requires workspace.Suits(plan) && source.workspace == workspace
      modifies workspace
      ensures workspace.Suits(plan)
      ensures (workspace.Model(), transformed) == ApplyTransform(old(workspace.Model()), task, finalized, result)
    {
      transformed := finalized;
      if !result.inPlace {
        transformed := Fresh(workspace.tensors);
        workspace.tensors := workspace.tensors + 1;
      }
      workspace.Enqueue(Compute, Transform(finalized, transformed, task.qStart, task.qStop));
    }

    // False when the transform's result is rejected or the consumer raises.
    method DeliverTask(task: QueryTask, output: Output, index: nat) returns (ok: bool)
      requires workspace.Suits(plan) && source.workspace == workspace
      modifies workspace
      ensures workspace.Suits(plan)
      ensures workspace.Model() == Deliver(old(workspace.Model()), task, plan, output, index)
      ensures ok <==> output.Accepts(index)
    {
      hide CopyToHost, ApplyTransform;
      var slot := index % plan.outputBuffers;
      var finalized := FinalizeTask(task, output, slot);
      match output {
        case ToHost =>
          CopyOutput(task, slot, finalized);
        case ToConsumer(accepts) =>
          workspace.Enqueue(Compute, Consume(finalized, task.qStart, task.qStop));
          if !accepts(index) {
            return false;
          }
          source.ReleaseQ(Compute);
        case ToTransform(result) =>
          var transformed := TransformTask(task, finalized, result(index));
          if !result(index).accepted {
            return false;
          }
          if finalized == Q && transformed != Q {
            source.ReleaseQ(Compute);
          }
          CopyOutput(task, slot, transformed);
      }
      return true;
    }

    method RunOnce(tasks: seq<QueryTask>, causal: bool, output: Output) returns (ok: bool)
      requires Ready() && Ordered(tasks) && output.Allowed(plan)
      modifies workspace
      ensures source.workspace == workspace && workspace.Suits(plan) && Sound(workspace.Model())
      ensures ok <==> AllAccepted(output, |tasks|)
      ensures ok ==> workspace.Model() == Finish(TaskList(old(workspace.Model()), tasks, plan, causal, output, |tasks|), output)
      ensures ok ==> Ready() && RunDelivered(old(workspace.log), workspace.log, tasks,
                                             TaskValues(tasks, plan, causal, output), output, |tasks|)
    {
      hide Deliver, Tiles, Between, Sound, RunDelivered;
      ghost var w := workspace.Model();
      DrainedStarts(w, plan, output);
      for n := 0 to |tasks|
        invariant workspace.Suits(plan)
        invariant AllAccepted(output, n)
        invariant workspace.Model() == TaskList(w, tasks, plan, causal, output, n)
      {
        AttendTask(tasks[n], causal);
        var accepted := DeliverTask(tasks[n], output, n);
        if !accepted {
          TaskListKeeps(w, workspace.Model(), tasks, plan, causal, output, n + 1);
          return false;
        }
      }
      TaskListKeeps(w, workspace.Model(), tasks, plan, causal, output, |tasks|);
      ghost var u := workspace.Model();
      FinishDrains(u, plan, output);
      if !output.ToConsumer? {
        workspace.Synchronize(D2H);
      }
      workspace.Synchronize(Compute);
      DeliveredStays(w.log, u.log, workspace.log, tasks, TaskValues(tasks, plan, causal, output), output);
      return true;
    }

    /** Runs the tasks, or recovers the workspace and reports the exception. */
    method Run(tasks: seq<QueryTask>, causal: bool, output: Output) returns (ok: bool)
      requires Ready() && Ordered(tasks) && output.Allowed(plan)
      modifies workspace
      ensures Ready()
      ensures ok <==> AllAccepted(output, |tasks|)
      ensures ok ==> workspace.Model() == Finish(TaskList(old(workspace.Model()), tasks, plan, causal, output, |tasks|), output)
      ensures ok ==> RunDelivered(old(workspace.log), workspace.log, tasks,
                                TaskValues(tasks, plan, causal, output), output, |tasks|)
    {
      ok := RunOnce(tasks, causal, output);
      if !ok {
        RecoveryDrains(workspace.Model());
        workspace.Recover();
      }
    }
  }

  /** The flash-split executor over the same workspace; it has no failing step of its own. */
  class FlashSplitExecutor {
    const plan: Plan
    const workspace: CudaWorkspace
    const source: HostQKVTileSource

    constructor (workspace: CudaWorkspace, source: HostQKVTileSource, plan: Plan)
      requires source.workspace == workspace && workspace.Suits(plan) && plan.hostOutput
      ensures this.workspace == workspace && this.source == source && this.plan == plan
    {
      this.workspace := workspace;
      this.source := source;
      this.plan := plan;
    }

    ghost predicate Bound()
      reads this, workspace
    {
      source.workspace == workspace && workspace.Suits(plan) && plan.hostOutput
    }

    method MergeTileInto(task: QueryTask, output: nat, index: nat, start: int, initialize: bool)
      requires Bound() && start == TileStart(task, plan, index) && (initialize <==> index == 0)
      modifies workspace
      ensures Bound() && workspace.Model() == SplitTile(old(workspace.Model()), task, plan, output, index)
    {
      hide Load, Push, Release, TileStart;
      var stop := Min(start + plan.kvChunkTokens, task.kStop);
      var slot := index % plan.kvBuffers;
      source.LoadKV(slot, start, stop);
      workspace.Enqueue(Compute, PartialForward(slot, output, task.QTokens(), stop - start));
      workspace.Enqueue(Compute, MergeSplit(initialize, output, task.QTokens()));
      source.ReleaseKV(slot, Compute);
    }

    method RunTask(task: QueryTask, index: nat)
      requires Bound() && task.Validates()
      modifies workspace
      ensures Bound() && workspace.Model() == SplitTask(old(workspace.Model()), task, plan, index)
    {
      hide SplitTile, TileCount, Load, Acquire;
      var output := index % plan.outputBuffers;
      source.LoadQ(task.qStart, task.qStop);
      workspace.WaitForOutputSlot(output);
      var initialize := true;
      var tile := 0;
      var start := task.kStart;
      while start < task.kStop
        invariant Bound() && start == TileStart(task, plan, tile)
        invariant tile > 0 ==> TileStart(task, plan, tile - 1) < task.kStop
        invariant initialize <==> tile == 0
        invariant workspace.Model() == SplitTiles(old(workspace.Model()), task, plan, output, tile)
        decreases task.kStop - start
      {
        MergeTileInto(task, output, tile, start, initialize);
        initialize := false;
        start := start + plan.kvChunkTokens;
        tile := tile + 1;
      }
      TileCountUnique(task, plan, tile);
      Emit(task, output);
    }

    method Emit(task: QueryTask, output: nat)
      requires Bound() && output < plan.outputBuffers
      modifies workspace
      ensures Bound()
      ensures workspace.Model() ==
              CopyToHost(Push(Release(old(workspace.Model()), Compute, Q), Compute, CopyState(output, task.QTokens())), task, output, Out(output))
    {
      source.ReleaseQ(Compute);
      workspace.Enqueue(Compute, CopyState(output, task.QTokens()));
      workspace.Record(Compute, OutReady(output));
      workspace.WaitEvent(D2H, OutReady(output));
      workspace.Enqueue(D2H, CopyOut(Out(output), task.qStart, task.qStop));
      workspace.Record(D2H, OutFree(output));
      workspace.MarkOutputPending(output);
    }

    method Run(tasks: seq<QueryTask>)
      requires Bound() && Ordered(tasks) && Sound(workspace.Model()) && Drained(workspace.log)
      modifies workspace
      ensures Bound() && Sound(workspace.Model()) && Drained(workspace.log)
      ensures workspace.Model() == Finish(SplitList(old(workspace.Model()), tasks, plan, |tasks|), ToHost)
      ensures RunDelivered(old(workspace.log), workspace.log, tasks, SplitValues(tasks, plan), ToHost, |tasks|)
    {
      hide SplitTask, Between, Sound, RunDelivered;
      ghost var w := workspace.Model();
      DrainedStarts(w, plan, ToHost);
      for n := 0 to |tasks|
        invariant Bound()
        invariant workspace.Model() == SplitList(w, tasks, plan, n)
      {
        RunTask(tasks[n], n);
      }
      ghost var u := workspace.Model();
      SplitListKeeps(w, u, tasks, plan, |tasks|);
      FinishDrains(u, plan, ToHost);
      workspace.Synchronize(D2H);
      workspace.Synchronize(Compute);
      DeliveredStays(w.log, u.log, workspace.log, tasks, SplitValues(tasks, plan), ToHost);
    }
  }

  /**
   Once the call has returned, every interleaving of the three streams has left
   the value of its own task, and of no other, in each delivered row.
   */
  lemma InterleavingDelivers(w: Snapshot, tasks: seq<QueryTask>, plan: Plan, causal: bool, output: Output,
                             actions: seq<Action>, s: Machine, m: nat, r: int)
    requires plan.Valid() && Sound(w) && Drained(w.log) && w.hostOutput == plan.hostOutput
    requires Ordered(tasks) && output.Allowed(plan) && AllAccepted(output, |tasks|)
    requires var log := Finish(TaskList(w, tasks, plan, causal, output, |tasks|), output).log;
             Reached(log, actions, s) && |log| - 1 in s.done
    requires m < |tasks| && Covers(tasks[m], r)
    ensures s.mem(output.Destination(r)) == Row(TaskValue(tasks[m], plan, causal, output), r - tasks[m].qStart)
  {
    hide Between, Mem, TaskValue, Task, TaskList, Sound, Reached, Finish, RaceFree, RunDelivered, Drained;
    var u := TaskList(w, tasks, plan, causal, output, |tasks|);
    var log := Finish(u, output).log;
    DrainedStarts(w, plan, output);
    TaskListKeeps(w, u, tasks, plan, causal, output, |tasks|);
    FinishDrains(u, plan, output);
    SoundRaceFree(Finish(u, output));
    DeliveredStays(w.log, u.log, log, tasks, TaskValues(tasks, plan, causal, output), output);
    DeliveredRow(w.log, log, tasks, TaskValues(tasks, plan, causal, output), output, actions, s, m, r);
  }

  /** The pipeline cannot deadlock: until the last command has run, some step is enabled. */
  lemma PipelineProgresses(w: Snapshot, tasks: seq<QueryTask>, plan: Plan, causal: bool, output: Output,
                           actions: seq<Action>, s: Machine)
    requires plan.Valid() && Sound(w) && Drained(w.log) && w.hostOutput == plan.hostOutput
    requires Ordered(tasks) && output.Allowed(plan) && AllAccepted(output, |tasks|)
    requires var log := Finish(TaskList(w, tasks, plan, causal, output, |tasks|), output).log;
             Reached(log, actions, s) && |log| - 1 !in s.done
    ensures exists a :: Enabled(Finish(TaskList(w, tasks, plan, causal, output, |tasks|), output).log, s, a)
  {
    hide Between, Mem, TaskValue, Task;
    var u := TaskList(w, tasks, plan, causal, output, |tasks|);
    var log := Finish(u, output).log;
    DrainedStarts(w, plan, output);
    TaskListKeeps(w, u, tasks, plan, causal, output, |tasks|);
    FinishDrains(u, plan, output);
    assert 0 <= |log| - 1 < |log|;
    Progress(log, actions, s);
  }
}
