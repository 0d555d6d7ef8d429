/** The predicted trace of a specification: its schedule and the lifetimes of its buffers. */
module ExecutionTrace {
  import opened Basics
  import opened Alignment
  import opened Calendar
  import opened Intervals
  import opened Lifetimes
  import opened Schedule
  import opened Scheduler
  import opened ScheduleProperties
  import opened MemorySweep

  // Operations, the allocation alignment of each pool, and the buffers placed in them.
  datatype Spec = Spec(ops: seq<Operation>, pools: seq<nat>, buffers: seq<Buffer>)

  ghost predicate WellFormedSpec(spec: Spec) {
    && WellFormed(spec.ops)
    && (forall k :: 0 <= k < |spec.pools| ==> spec.pools[k] > 0)
    && (forall b :: 0 <= b < |spec.buffers| ==> WellDeclared(spec.buffers[b], |spec.ops|) && spec.buffers[b].pool < |spec.pools|)
  }

  datatype Trace = Trace(events: seq<Interval>, lifetimes: seq<Lifetime>)

  datatype Prediction = Predicted(trace: Trace) | CycleFound | UseUncovered

  function Duration(events: seq<Interval>): real {
    Makespan(events, |events|)
  }

  // Every buffer's declared ends take in its uses.
  ghost predicate AllCovered(spec: Spec, events: seq<Interval>)
    requires WellFormedSpec(spec) && |events| == |spec.ops|
  {
    forall b :: 0 <= b < |spec.buffers| ==> Covered(spec.buffers[b], events, Duration(events))
  }

  ghost predicate DescribesBuffer(spec: Spec, events: seq<Interval>, b: nat, life: Lifetime)
    requires WellFormedSpec(spec) && |events| == |spec.ops| && b < |spec.buffers|
  {
    Describes(spec.buffers[b], events, Duration(events), spec.pools[spec.buffers[b].pool], life)
  }

  // One lifetime for each buffer, as declared.
  ghost predicate AllDescribed(spec: Spec, events: seq<Interval>, lives: seq<Lifetime>)
    requires WellFormedSpec(spec) && |events| == |spec.ops|
  {
    |lives| == |spec.buffers| && forall b: nat :: b < |lives| ==> DescribesBuffer(spec, events, b, lives[b])
  }

  /** Lifetimes of all buffers, refused exactly when some use lies outside its buffer's declared ends. */
  method ComputeLifetimes(spec: Spec, events: seq<Interval>) returns (lives: Option<seq<Lifetime>>)
    requires WellFormedSpec(spec) && |events| == |spec.ops| && Forward(events)
    ensures lives.Some? <==> AllCovered(spec, events)
    ensures lives.Some? ==> AllDescribed(spec, events, lives.value)
  {
    hide Covered, Describes, WellFormed, WellDeclared;
    var duration := 0.0;
    for i := 0 to |events|
      invariant duration == Makespan(events, i)
    {
      duration := if duration < events[i].right then events[i].right else duration;
    }
    var found := [];
    for b := 0 to |spec.buffers|
      invariant |found| == b && forall a: nat :: a < b ==> DescribesBuffer(spec, events, a, found[a])
      invariant forall a :: 0 <= a < b ==> Covered(spec.buffers[a], events, Duration(events))
    {
      var buffer := spec.buffers[b];
      var life := ComputeLifetime(buffer, events, duration, spec.pools[buffer.pool]);
      if life.None? {
        return None;
      }
      found := found + [life.value];
    }
    lives := Some(found);
  }

  /** The declaration and the events determine the lifetimes. */
  lemma LifetimesAreUnique(spec: Spec, events: seq<Interval>, one: seq<Lifetime>, other: seq<Lifetime>)
    requires WellFormedSpec(spec) && |events| == |spec.ops|
    requires AllDescribed(spec, events, one) && AllDescribed(spec, events, other)
    ensures one == other
  {
    hide Describes, WellFormed, WellDeclared;
    forall b: nat | b < |one|
      ensures one[b] == other[b]
    {
      var buffer := spec.buffers[b];
      assert DescribesBuffer(spec, events, b, one[b]) && DescribesBuffer(spec, events, b, other[b]);
      DescribesUnique(buffer, events, Duration(events), spec.pools[buffer.pool], one[b], other[b]);
    }
  }

  /** Lifetimes of a trace are what the memory sweep expects: inside the window, uses inside the lifetime. */
  lemma LifetimesAreTraced(spec: Spec, events: seq<Interval>, lives: seq<Lifetime>)
    requires WellFormedSpec(spec) && |events| == |spec.ops| && AllDescribed(spec, events, lives)
    requires forall i :: 0 <= i < |events| ==> 0.0 <= events[i].left
    ensures Traced(lives, Duration(events))
  {
    MakespanIsLatest(events, |events|);
    hide WellFormed, Separated, SameUnion, Makespan;
    forall b: nat | b < |lives|
      ensures TracedOne(lives[b], Duration(events))
    {
      assert DescribesBuffer(spec, events, b, lives[b]);
    }
  }

  // The scheduler's own times leave no use outside its buffer.
  ghost predicate PredictionCovers(spec: Spec, chronological: bool)
    requires WellFormedSpec(spec)
  {
    forall events :: Schedules(spec.ops, events, chronological) ==> |events| == |spec.ops| && AllCovered(spec, events)
  }

  lemma ValidIsForward(ops: seq<Operation>, events: seq<Interval>)
    requires WellFormed(ops) && Valid(ops, events)
    ensures Forward(events) && forall i :: 0 <= i < |events| ==> 0.0 <= events[i].left
  {
  }

  /**
   The predicted trace.  Refused exactly for cyclic dependencies, or when the schedule
   leaves a use outside its buffer's declared ends.
   */
  method ScheduleExecution(spec: Spec, chronological: bool) returns (prediction: Prediction)
    requires WellFormedSpec(spec)
    ensures prediction.CycleFound? <==> Cyclic(spec.ops)
    ensures prediction.Predicted? <==> !Cyclic(spec.ops) && PredictionCovers(spec, chronological)
    ensures prediction.Predicted? ==>
              var trace := prediction.trace;
              && Schedules(spec.ops, trace.events, chronological) && Valid(spec.ops, trace.events)
              && Bounded(spec.ops, Duration(trace.events))
              && AllDescribed(spec, trace.events, trace.lifetimes) && Traced(trace.lifetimes, Duration(trace.events))
  {
    var outcome := ScheduleOperations(spec.ops, chronological);
    hide Cyclic, Schedules, Covered, Describes, Bounded, WellDeclared;
    if outcome.Cycle? {
      return CycleFound;
    }
    ValidIsForward(spec.ops, outcome.events);
    var lives := ComputeLifetimes(spec, outcome.events);
    PredictionDecides(spec, outcome.events, chronological);
    if lives.None? {
      return UseUncovered;
    }
    LifetimesAreTraced(spec, outcome.events, lives.value);
    prediction := Predicted(Trace(outcome.events, lives.value));
  }

  // One schedule decides, because there is no other.
  lemma PredictionDecides(spec: Spec, events: seq<Interval>, chronological: bool)
    requires WellFormedSpec(spec) && |events| == |spec.ops| && Schedules(spec.ops, events, chronological)
    ensures PredictionCovers(spec, chronological) <==> AllCovered(spec, events)
  {
    hide Schedules, Covered, WellDeclared, WellFormed;
    if AllCovered(spec, events) {
      forall others | Schedules(spec.ops, others, chronological)
        ensures others == events
      {
        ScheduleIsUnique(spec.ops, events, others, chronological);
      }
    }
  }
}
