/** The dispatcher as the object the workers share; its lock makes every method one atomic step. */
module DynamicCursor {
  import opened Basics
  import opened QueryTasks
  import opened QueryTiling
  import opened Dispatcher

  class DynamicQueryCursor {
    const batch: Batch
    var segmentId: nat
    var qOffset: int
    var remaining: int
    var activeWorkers: nat
    var retired: set<int>
    var claimOrder: nat
    var cancelled: bool

    ghost function State(): Cursor
      reads this
    {
      Cursor(segmentId, qOffset, remaining, activeWorkers, retired, claimOrder, cancelled)
    }

    ghost predicate Valid()
      reads this
    {
      ValidBatch(batch) && Placed(batch, State())
    }

    constructor (qBounds: seq<int>, kBounds: seq<int>, workers: nat, balance: real)
      requires Packed(qBounds, kBounds) && workers > 0 && balance > 0.0
      ensures Valid() && batch == Batch(qBounds, kBounds, balance) && State() == Initial(batch, workers)
    {
      batch := Batch(qBounds, kBounds, balance);
      segmentId := 0;
      qOffset := qBounds[0];
      remaining := qBounds[|qBounds| - 1] - qBounds[0];
      activeWorkers := workers;
      retired := {};
      claimOrder := 0;
      cancelled := false;
      new;
      assert qBounds[0] <= qBounds[1] && qBounds[0] <= qBounds[|qBounds| - 1];
    }

    method Cancel()
      requires Valid()
      modifies `cancelled
      ensures Valid() && State() == old(State()).(cancelled := true)
    {
      cancelled := true;
    }

    method Retire(device: int)
      requires Valid()
      modifies `retired, `activeWorkers
      ensures Valid() && State() == Dispatcher.Retire(old(State()), device)
    {
      if device !in retired {
        retired := retired + {device};
        if activeWorkers > 0 {
          activeWorkers := activeWorkers - 1;
        }
      }
    }

    method AdvanceEmptySegments()
      requires Valid()
      modifies `segmentId, `qOffset
      ensures Valid() && State() == Advance(batch, old(State()))
    {
      AdvanceMeans(batch, State());
      var last := |batch.qBounds| - 1;
      while segmentId < last
        invariant ValidBatch(batch) && segmentId <= last && Advance(batch, State()) == Advance(batch, old(State()))
        decreases last - segmentId
      {
        if qOffset < batch.qBounds[segmentId + 1] {
          break;
        }
        segmentId := segmentId + 1;
        if segmentId < last {
          qOffset := batch.qBounds[segmentId];
        }
      }
    }

    /** One claim: the next rows of the current segment, within the request and the tail share. */
    method Claim(device: int, requested: int) returns (outcome: Outcome)
      requires Valid()
      modifies `segmentId, `qOffset, `claimOrder, `remaining
      ensures Valid() && (State(), outcome) == Dispatcher.Claim(batch, old(State()), device, requested)
    {
      hide Placed, RunnerAccepts, InSegment, TailLimit, Advance;
      ClaimMeans(batch, State(), device, requested);
      if requested <= 0 {
        return BadRequest;
      }
      if cancelled || remaining <= 0 {
        return Nothing;
      }
      AdvanceEmptySegments();
      if segmentId >= |batch.qBounds| - 1 {
        return Nothing;
      }
      var segmentStart, segmentStop := batch.qBounds[segmentId], batch.qBounds[segmentId + 1];
      var kStart, kStop := batch.kBounds[segmentId], batch.kBounds[segmentId + 1];
      if kStop <= kStart {
        return Outcome.MissingKeys;
      }
      var segmentRemaining := segmentStop - qOffset;
      var tailLimit := TailLimit(activeWorkers, remaining, batch.balance, requested);
      var actual := Min(Min(requested, segmentRemaining), Max(1, tailLimit));
      var qStart, qStop := qOffset, qOffset + actual;
      var segmentClamped := actual < requested && actual == segmentRemaining;
      var tailClamped := actual < requested && actual == tailLimit;
      outcome := Claimed(QueryTask(qStart, qStop, kStart, kStop, qStart - segmentStart,
                                   (kStop - kStart) - (segmentStop - segmentStart), segmentId, device, claimOrder,
                                   Requested(requested), segmentClamped, tailClamped));
      claimOrder := claimOrder + 1;
      qOffset := qStop;
      remaining := remaining - actual;
    }
  }
}
