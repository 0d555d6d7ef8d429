/**
 The reusable device workspace and the host tile source that drives its events.
 Every method is specified by the snapshot function of the call it makes.
 */
module Workspace {
  import opened CommandStreams
  import opened RingProtocol
  import opened StreamProgram
  import opened RunProgram

  class CudaWorkspace {
    const kvBuffers: nat
    const outputBuffers: nat
    const hostOutput: bool
    var log: seq<Entry>                    // every command enqueued so far
    var recorded: map<Event, nat>          // the command that last recorded each event
    var qHasPendingCompute: bool
    var kvHasPendingCompute: seq<bool>
    var outputHasPendingCopy: seq<bool>
    var tensors: nat                       // tensors allocated by output transforms

    constructor (plan: Plan)
      ensures kvBuffers == plan.kvBuffers && outputBuffers == plan.outputBuffers && hostOutput == plan.hostOutput
      ensures Shaped() && Model() == Snapshot([], map[], {}, plan.hostOutput, 0)
    {
      kvBuffers := plan.kvBuffers;
      outputBuffers := plan.outputBuffers;
      hostOutput := plan.hostOutput;
      log := [];
      recorded := map[];
      qHasPendingCompute := false;
      kvHasPendingCompute := seq(plan.kvBuffers, _ => false);
      outputHasPendingCopy := seq(plan.outputBuffers, _ => false);
      tensors := 0;
    }

    ghost predicate Shaped()
      reads this
    {
      |kvHasPendingCompute| == kvBuffers && |outputHasPendingCopy| == outputBuffers
    }

    ghost predicate Suits(plan: Plan)
      reads this
    {
      && plan.Valid() && Shaped()
      && kvBuffers == plan.kvBuffers && outputBuffers == plan.outputBuffers && hostOutput == plan.hostOutput
    }

    ghost function Pending(): set<Loc>
      reads this
    {
      (if qHasPendingCompute then {Q} else {})
      + (set i: nat | i < |kvHasPendingCompute| && kvHasPendingCompute[i] :: KV(i))
      + (set i: nat | i < |outputHasPendingCopy| && outputHasPendingCopy[i] :: Out(i))
    }

    ghost function Model(): Snapshot
      reads this
    {
      Snapshot(log, recorded, Pending(), hostOutput, tensors)
    }

    method Enqueue(s: Stream, op: Op)
      modifies this`log
      ensures Model() == Push(old(Model()), s, op)
    {
      log := log + [Entry(s, op)];
    }

    method Record(s: Stream, ev: Event)
      modifies this`log, this`recorded
      ensures Model() == RecordOn(old(Model()), s, ev)
    {
      recorded := recorded[ev := |log|];
      Enqueue(s, Op.Record);
    }

    method WaitEvent(s: Stream, ev: Event)
      modifies this`log
      ensures Model() == WaitOn(old(Model()), s, ev)
    {
      if ev in recorded {
        Enqueue(s, Wait(recorded[ev]));
      }
    }

    // `wait_event` guarded by the slot's pending flag.
    method WaitForOutputSlot(slot: nat)
      requires Shaped() && slot < outputBuffers
      modifies this`log
      ensures Shaped() && Model() == Acquire(old(Model()), Out(slot))
    {
      if outputHasPendingCopy[slot] {
        WaitEvent(Compute, OutFree(slot));
      }
    }

    method MarkQPending()
      modifies this`qHasPendingCompute
      ensures Model() == old(Model()).(pending := old(Pending()) + {Q})
    {
      qHasPendingCompute := true;
    }

    method MarkKVPending(slot: nat)
      requires Shaped() && slot < kvBuffers
      modifies this`kvHasPendingCompute
      ensures Shaped() && Model() == old(Model()).(pending := old(Pending()) + {KV(slot)})
    {
      kvHasPendingCompute := kvHasPendingCompute[slot := true];
      forall l
        ensures l in Pending() <==> l in old(Pending()) + {KV(slot)}
      {
      }
    }

    method MarkOutputPending(slot: nat)
      requires Shaped() && slot < outputBuffers
      modifies this`outputHasPendingCopy
      ensures Shaped() && Model() == old(Model()).(pending := old(Pending()) + {Out(slot)})
    {
      outputHasPendingCopy := outputHasPendingCopy[slot := true];
      forall l
        ensures l in Pending() <==> l in old(Pending()) + {Out(slot)}
      {
      }
    }

    method Synchronize(s: Stream)
      modifies this`log
      ensures Model() == Push(old(Model()), Host, Sync(s))
    {
      Enqueue(Host, Sync(s));
    }

    method Recover()
      requires Shaped()
      modifies this
      ensures Shaped() && Model() == Recovered(old(Model()))
    {
      Synchronize(H2D);
      Synchronize(Compute);
      Synchronize(D2H);
      qHasPendingCompute := false;
      kvHasPendingCompute := seq(kvBuffers, _ => false);
      outputHasPendingCopy := seq(outputBuffers, _ => false);
      assert Pending() == {};
    }
  }

  class HostQKVTileSource {
    const workspace: CudaWorkspace

    constructor (workspace: CudaWorkspace)
      ensures this.workspace == workspace
    {
      this.workspace := workspace;
    }

    method LoadQ(start: int, stop: int)
      requires workspace.Shaped()
      modifies workspace
      ensures workspace.Shaped()
      ensures workspace.Model() == Load(old(workspace.Model()), Q, CopyQ(start, stop), QReady)
    {
      if workspace.qHasPendingCompute {
        workspace.WaitEvent(H2D, QFree);
      }
      workspace.Enqueue(H2D, CopyQ(start, stop));
      workspace.Record(H2D, QReady);
      workspace.WaitEvent(Compute, QReady);
    }

    method LoadKV(slot: nat, start: int, stop: int)
      requires workspace.Shaped() && slot < workspace.kvBuffers
      modifies workspace
      ensures workspace.Shaped()
      ensures workspace.Model() == Load(old(workspace.Model()), KV(slot), CopyKV(slot, start, stop), KVReady(slot))
    {
      if workspace.kvHasPendingCompute[slot] {
        workspace.WaitEvent(H2D, KVFree(slot));
      }
      workspace.Enqueue(H2D, CopyKV(slot, start, stop));
      workspace.Record(H2D, KVReady(slot));
      workspace.WaitEvent(Compute, KVReady(slot));
    }

    method ReleaseQ(s: Stream)
      requires workspace.Shaped()
      modifies workspace
      ensures workspace.Shaped()
      ensures workspace.Model() == Release(old(workspace.Model()), s, Q)
    {
      workspace.Record(s, QFree);
      workspace.MarkQPending();
    }

    method ReleaseKV(slot: nat, s: Stream)
      requires workspace.Shaped() && slot < workspace.kvBuffers
      modifies workspace
      ensures workspace.Shaped()
      ensures workspace.Model() == Release(old(workspace.Model()), s, KV(slot))
    {
      workspace.Record(s, KVFree(slot));
      workspace.MarkKVPending(slot);
    }
  }
}
