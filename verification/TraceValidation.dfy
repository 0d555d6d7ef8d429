/** Binding measured timings to a specification and its buffers. */
module TraceValidation {
  import opened Basics
  import opened Calendar
  import opened Schedule
  import opened Scheduler
  import opened ScheduleRun
  import opened ScheduleProperties
  import opened ExecutionTrace
  import opened Lifetimes
  import opened MemorySweep
  import opened Sorting
  import opened Intervals

  datatype Verdict =
    | Accepted(trace: Trace)
    | CyclicDependencies
    | LifetimeUncovered
    | WrongOperations
    | NegativeTime
    | NegativeDuration
    | EmptyOperation
    | LongMilestone
    | DependencyViolated
    | ResourceOverlap

  predicate WellTimed(ops: seq<Operation>, timings: seq<Interval>, i: nat)
    requires i < |ops| == |timings|
  {
    0.0 <= timings[i].left && if ops[i].resources == [] then timings[i].left == timings[i].right
                              else timings[i].left < timings[i].right
  }

  predicate AfterDependencies(ops: seq<Operation>, timings: seq<Interval>, i: nat)
    requires i < |ops| == |timings|
  {
    forall d :: d in ops[i].deps ==> d < |ops| ==> timings[d].right <= timings[i].left
  }

  // No two operations hold r at once.
  ghost predicate ExclusiveOn(ops: seq<Operation>, timings: seq<Interval>, r: Resource)
    requires |ops| == |timings|
  {
    forall i: nat, j: nat :: Uses(ops, i, r) && Uses(ops, j, r) && i != j ==> !Overlap(timings[i], timings[j])
  }

  predicate Uses(ops: seq<Operation>, i: nat, r: Resource) {
    i < |ops| && r in ops[i].resources
  }

  // What a measurement must satisfy, whatever the durations.
  ghost predicate Consistent(ops: seq<Operation>, timings: seq<Interval>) {
    && |timings| == |ops|
    && (forall i: nat :: i < |ops| ==> WellTimed(ops, timings, i))
    && (forall i: nat :: i < |ops| ==> AfterDependencies(ops, timings, i))
    && (forall r :: ExclusiveOn(ops, timings, r))
  }

  lemma ScheduleIsConsistent(ops: seq<Operation>, events: seq<Interval>)
    requires WellFormed(ops) && Valid(ops, events)
    ensures Consistent(ops, events)
  {
    forall r, i: nat, j: nat | Uses(ops, i, r) && Uses(ops, j, r) && i != j
      ensures !Overlap(events[i], events[j])
    {
      assert Shares(ops, i, j);
    }
  }

  // The operations with the durations that were measured.
  function Retimed(ops: seq<Operation>, timings: seq<Interval>): seq<Operation>
    requires |timings| == |ops|
  {
    seq(|ops|, i requires 0 <= i < |ops| => ops[i].(duration := timings[i].right - timings[i].left))
  }

  /** A measurement is consistent exactly when it is a schedule of well-formed operations that last as measured. */
  lemma ConsistentIsSchedule(ops: seq<Operation>, timings: seq<Interval>)
    requires WellFormed(ops) && |timings| == |ops|
    ensures Consistent(ops, timings) <==> WellFormed(Retimed(ops, timings)) && Valid(Retimed(ops, timings), timings)
  {
    var timed := Retimed(ops, timings);
    forall i | 0 <= i < |ops|
      ensures timings[i] == At(timed, i, timings[i].left)
      ensures timed[i].resources == ops[i].resources && timed[i].deps == ops[i].deps
    {
    }
    if Consistent(ops, timings) {
      RetimedValid(ops, timings);
    } else if WellFormed(timed) && Valid(timed, timings) {
      ScheduleIsConsistent(timed, timings);
      ConsistentIgnoresDurations(ops, timed, timings);
      assert false;
    }
  }

  lemma ConsistentIgnoresDurations(ops: seq<Operation>, timed: seq<Operation>, timings: seq<Interval>)
    requires |timed| == |ops| && Consistent(timed, timings)
    requires forall i :: 0 <= i < |ops| ==> timed[i].resources == ops[i].resources && timed[i].deps == ops[i].deps
    ensures Consistent(ops, timings)
  {
    forall i: nat | i < |ops|
      ensures WellTimed(ops, timings, i) && AfterDependencies(ops, timings, i)
    {
      assert WellTimed(timed, timings, i) && AfterDependencies(timed, timings, i);
    }
    forall r
      ensures ExclusiveOn(ops, timings, r)
    {
      assert ExclusiveOn(timed, timings, r);
      assert forall i: nat :: Uses(ops, i, r) <==> Uses(timed, i, r);
    }
  }

  lemma RetimedValid(ops: seq<Operation>, timings: seq<Interval>)
    requires WellFormed(ops) && Consistent(ops, timings)
    ensures WellFormed(Retimed(ops, timings)) && Valid(Retimed(ops, timings), timings)
  {
    var timed := Retimed(ops, timings);
    forall i | 0 <= i < |ops|
      ensures 0.0 <= timings[i].left && timings[i] == At(timed, i, timings[i].left)
      ensures if timed[i].resources == [] then timed[i].duration == 0.0 else timed[i].duration > 0.0
      ensures Distinct(timed[i].resources) && Distinct(timed[i].deps)
      ensures forall d :: d in timed[i].deps ==> d < |timed| && timings[d].right <= timings[i].left
    {
      var n: nat := i;
      assert WellTimed(ops, timings, n) && AfterDependencies(ops, timings, n);
    }
    forall i, j | 0 <= i < |ops| && 0 <= j < |ops| && i != j && Shares(timed, i, j)
      ensures !Overlap(timings[i], timings[j])
    {
      var r :| r in timed[i].resources && r in timed[j].resources;
      assert ExclusiveOn(ops, timings, r);
      assert Uses(ops, i, r) && Uses(ops, j, r);
    }
  }

  // ----- Exclusive resources, by sorting and comparing neighbours

  function Users(users: map<Resource, seq<nat>>, r: Resource): seq<nat> {
    if r in users then users[r] else []
  }

  // Exactly the first k operations that use r, each once.
  ghost predicate UsersOf(ops: seq<Operation>, list: seq<nat>, r: Resource, k: nat) {
    Distinct(list) && forall i: nat :: i in list <==> i < k && Uses(ops, i, r)
  }

  lemma UserAppended(ops: seq<Operation>, before: seq<nat>, after: seq<nat>, r: Resource, k: nat)
    requires k < |ops| && UsersOf(ops, before, r, k)
    requires after == before + if r in ops[k].resources then [k] else []
    ensures UsersOf(ops, after, r, k + 1)
  {
    assert k !in before;
    assert forall i :: 0 <= i < |before| ==> before[i] in before;
  }

  lemma NoUsers(ops: seq<Operation>)
    ensures forall r :: UsersOf(ops, [], r, 0)
  {
  }

  lemma NotYetWanted(ops: seq<Operation>, k: nat, m: nat)
    requires WellFormed(ops) && k < |ops| && m < |ops[k].resources|
    ensures ops[k].resources[m] !in ops[k].resources[..m]
  {
  }

  method CollectUsers(ops: seq<Operation>) returns (users: map<Resource, seq<nat>>)
    requires WellFormed(ops)
    ensures forall r :: UsersOf(ops, Users(users, r), r, |ops|)
  {
    hide Distinct;
    users := map[];
    NoUsers(ops);
    for k := 0 to |ops|
      invariant forall r :: UsersOf(ops, Users(users, r), r, k)
    {
      ghost var before := users;
      var wanted := ops[k].resources;
      for m := 0 to |wanted|
        invariant forall r :: Users(users, r) == Users(before, r) + if r in wanted[..m] then [k] else []
      {
        hide UsersOf;
        var r := wanted[m];
        NotYetWanted(ops, k, m);
        assert wanted[..m + 1] == wanted[..m] + [r];
        users := users[r := Users(users, r) + [k]];
      }
      assert wanted[..|wanted|] == wanted;
      forall r
        ensures UsersOf(ops, Users(users, r), r, k + 1)
      {
        UserAppended(ops, Users(before, r), Users(users, r), r, k);
      }
    }
  }

  function TimeOf(timings: seq<Interval>, i: nat): Interval {
    if i < |timings| then timings[i] else Interval(0.0, 0.0)
  }

  lemma ByTimeIsTotal(timings: seq<Interval>)
    ensures TotalOrder((i: nat, j: nat) => Earlier(TimeOf(timings, i), TimeOf(timings, j)))
  {
  }

  // The k-th operation in time order ends before the next one starts.
  predicate Precedes(timings: seq<Interval>, sorted: seq<nat>, k: nat)
    requires k < |sorted| - 1
  {
    TimeOf(timings, sorted[k]).right <= TimeOf(timings, sorted[k + 1]).left
  }

  ghost predicate InTimeOrder(timings: seq<Interval>, sorted: seq<nat>) {
    forall k, m :: 0 <= k < m < |sorted| ==> Earlier(TimeOf(timings, sorted[k]), TimeOf(timings, sorted[m]))
  }

  lemma NeighboursSuffice(timings: seq<Interval>, sorted: seq<nat>, k: nat, m: nat)
    requires InTimeOrder(timings, sorted) && k < m < |sorted|
    requires forall n :: 0 <= n < |sorted| - 1 ==> Precedes(timings, sorted, n)
    ensures TimeOf(timings, sorted[k]).right <= TimeOf(timings, sorted[m]).left
  {
    assert Precedes(timings, sorted, k);
    assert k + 1 < m ==> Earlier(TimeOf(timings, sorted[k + 1]), TimeOf(timings, sorted[m]));
  }

  // Neighbours in time order decide exclusiveness.
  lemma NeighboursDecide(ops: seq<Operation>, timings: seq<Interval>, sorted: seq<nat>, r: Resource)
    requires |ops| == |timings| && UsersOf(ops, sorted, r, |ops|) && InTimeOrder(timings, sorted)
    requires forall i: nat :: Uses(ops, i, r) ==> timings[i].left < timings[i].right
    ensures ExclusiveOn(ops, timings, r) <==> forall k :: 0 <= k < |sorted| - 1 ==> Precedes(timings, sorted, k)
  {
    assert forall k :: 0 <= k < |sorted| ==> sorted[k] in sorted && Uses(ops, sorted[k], r);
    if forall k :: 0 <= k < |sorted| - 1 ==> Precedes(timings, sorted, k) {
      forall i: nat, j: nat | Uses(ops, i, r) && Uses(ops, j, r) && i != j
        ensures !Overlap(timings[i], timings[j])
      {
        assert i in sorted && j in sorted;
        var k :| 0 <= k < |sorted| && sorted[k] == i;
        var m :| 0 <= m < |sorted| && sorted[m] == j;
        if k < m {
          NeighboursSuffice(timings, sorted, k, m);
        } else {
          NeighboursSuffice(timings, sorted, m, k);
        }
      }
    }
    if ExclusiveOn(ops, timings, r) {
      forall k | 0 <= k < |sorted| - 1
        ensures Precedes(timings, sorted, k)
      {
        var i, j := sorted[k], sorted[k + 1];
        assert i != j && Uses(ops, i, r) && Uses(ops, j, r);
        assert !Overlap(timings[i], timings[j]);
        assert Earlier(TimeOf(timings, i), TimeOf(timings, j));
      }
    }
  }

  lemma SortedByTime(ops: seq<Operation>, timings: seq<Interval>, users: seq<nat>, r: Resource)
    requires UsersOf(ops, users, r, |ops|)
    ensures var sorted := Sort(users, (i: nat, j: nat) => Earlier(TimeOf(timings, i), TimeOf(timings, j)));
            UsersOf(ops, sorted, r, |ops|) && InTimeOrder(timings, sorted)
  {
    var before := (i: nat, j: nat) => Earlier(TimeOf(timings, i), TimeOf(timings, j));
    ByTimeIsTotal(timings);
    SortSorts(users, before);
    var sorted := Sort(users, before);
    hide TotalOrder, Sort;
    RearrangedDistinct(users, sorted);
    assert forall k, m :: 0 <= k < m < |sorted| ==> before(sorted[k], sorted[m]);
  }

  lemma UsersTake(ops: seq<Operation>, timings: seq<Interval>, r: Resource)
    requires WellFormed(ops) && |ops| == |timings| && forall i: nat :: i < |ops| ==> WellTimed(ops, timings, i)
    ensures forall i: nat :: Uses(ops, i, r) ==> timings[i].left < timings[i].right
  {
    forall i: nat | Uses(ops, i, r)
      ensures timings[i].left < timings[i].right
    {
      assert WellTimed(ops, timings, i);
    }
  }

  method CheckResource(ops: seq<Operation>, timings: seq<Interval>, users: seq<nat>, r: Resource) returns (exclusive: bool)
    requires WellFormed(ops) && |ops| == |timings| && UsersOf(ops, users, r, |ops|)
    requires forall i: nat :: i < |ops| ==> WellTimed(ops, timings, i)
    ensures exclusive <==> ExclusiveOn(ops, timings, r)
  {
    hide UsersOf, Precedes, Sorted, TotalOrder, ExclusiveOn;
    var before := (i: nat, j: nat) => Earlier(TimeOf(timings, i), TimeOf(timings, j));
    var sorted := Sort(users, before);
    SortedByTime(ops, timings, users, r);
    UsersTake(ops, timings, r);
    NeighboursDecide(ops, timings, sorted, r);
    for k := 0 to if sorted == [] then 0 else |sorted| - 1
      invariant forall m :: 0 <= m < k ==> Precedes(timings, sorted, m)
    {
      if !Precedes(timings, sorted, k) {
        return false;
      }
    }
    exclusive := true;
  }

  method CheckResources(ops: seq<Operation>, timings: seq<Interval>) returns (exclusive: bool)
    requires WellFormed(ops) && |ops| == |timings|
    requires forall i: nat :: i < |ops| ==> WellTimed(ops, timings, i)
    ensures exclusive <==> forall r :: ExclusiveOn(ops, timings, r)
  {
    var users := CollectUsers(ops);
    var rest := users.Keys;
    forall r | r !in users
      ensures ExclusiveOn(ops, timings, r)
    {
      assert Users(users, r) == [];
      assert UsersOf(ops, [], r, |ops|);
    }
    while rest != {}
      invariant rest <= users.Keys && forall r :: r in users && r !in rest ==> ExclusiveOn(ops, timings, r)
      decreases rest
    {
      var r :| r in rest;
      var alone := CheckResource(ops, timings, Users(users, r), r);
      if !alone {
        return false;
      }
      rest := rest - {r};
    }
    exclusive := true;
  }

  /**
   Accepts exactly the timings that could be a run of the specification: every
   operation timed, after its dependencies and alone on its resources, and every
   buffer's declared ends around its uses, at the measured times and as predicted.
   */
  method TraceFromMeasurements(spec: Spec, timings: seq<Interval>, chronological: bool) returns (verdict: Verdict)
    requires WellFormedSpec(spec)
    ensures verdict.CyclicDependencies? <==> Cyclic(spec.ops)
    ensures verdict.Accepted? <==> !Cyclic(spec.ops) && PredictionCovers(spec, chronological)
                                   && Consistent(spec.ops, timings) && AllCovered(spec, timings)
    ensures verdict.LifetimeUncovered? <==> !Cyclic(spec.ops) && (!PredictionCovers(spec, chronological) ||
                                            (Consistent(spec.ops, timings) && !AllCovered(spec, timings)))
    ensures !Cyclic(spec.ops) && PredictionCovers(spec, chronological) && !Consistent(spec.ops, timings) ==>
              Complains(spec.ops, timings, verdict)
    ensures verdict.Accepted? ==>
              var trace := verdict.trace;
              && trace.events == timings && AllDescribed(spec, timings, trace.lifetimes)
              && Traced(trace.lifetimes, Duration(timings))
  {
    hide Cyclic, PredictionCovers, Complains, AllDescribed, ScheduleProperties.Schedules, Bounded, WellFormed, WellDeclared, Covered;
    var predicted := ScheduleExecution(spec, chronological);
    if predicted.CycleFound? {
      return CyclicDependencies;
    }
    if predicted.UseUncovered? {
      return LifetimeUncovered;
    }
    var fault := CheckTimings(spec.ops, timings);
    if fault.Some? {
      return fault.value;
    }
    ConsistentIsForward(spec.ops, timings);
    var lives := ComputeLifetimes(spec, timings);
    if lives.None? {
      return LifetimeUncovered;
    }
    LifetimesAreTraced(spec, timings, lives.value);
    verdict := Accepted(Trace(timings, lives.value));
  }

  // What each complaint about the timings says; an earlier kind of complaint is made first.
  ghost predicate Complains(ops: seq<Operation>, timings: seq<Interval>, verdict: Verdict) {
    match verdict
    case WrongOperations => |timings| != |ops|
    case NegativeTime => |timings| == |ops| && exists i: nat :: i < |ops| && Negative(timings[i])
    case NegativeDuration => |timings| == |ops| && exists i: nat :: i < |ops| && timings[i].left > timings[i].right
    case EmptyOperation => Timely(ops, timings)
      && exists i: nat :: i < |ops| && ops[i].resources != [] && timings[i].left == timings[i].right
    case LongMilestone => Timely(ops, timings)
      && exists i: nat :: i < |ops| && ops[i].resources == [] && timings[i].left != timings[i].right
    case DependencyViolated => Timely(ops, timings) && exists i: nat :: i < |ops| && !AfterDependencies(ops, timings, i)
    case ResourceOverlap => Timely(ops, timings)
      && (forall i: nat :: i < |ops| ==> WellTimed(ops, timings, i) && AfterDependencies(ops, timings, i))
      && exists r :: !ExclusiveOn(ops, timings, r)
    case _ => false
  }

  predicate IsFault(verdict: Verdict) {
    !verdict.Accepted? && !verdict.CyclicDependencies? && !verdict.LifetimeUncovered?
  }

  predicate Negative(timing: Interval) {
    timing.left < 0.0 || timing.right < 0.0
  }

  ghost predicate Timely(ops: seq<Operation>, timings: seq<Interval>) {
    |timings| == |ops| && forall i :: 0 <= i < |ops| ==> 0.0 <= timings[i].left <= timings[i].right
  }

  // The first thing wrong with the timings themselves.
  method CheckTimings(ops: seq<Operation>, timings: seq<Interval>) returns (fault: Option<Verdict>)
    requires WellFormed(ops)
    ensures fault.None? <==> Consistent(ops, timings)
    ensures fault.Some? ==> IsFault(fault.value) && Complains(ops, timings, fault.value)
  {
    if |timings| != |ops| {
      return Some(WrongOperations);
    }
    hide WellFormed;
    for i := 0 to |ops|
      invariant forall j :: 0 <= j < i ==> 0.0 <= timings[j].left <= timings[j].right
    {
      if timings[i].left < 0.0 || timings[i].right < 0.0 {
        assert !WellTimed(ops, timings, i);
        return Some(NegativeTime);
      }
      if timings[i].left > timings[i].right {
        assert !WellTimed(ops, timings, i);
        return Some(NegativeDuration);
      }
    }
    for i := 0 to |ops|
      invariant forall j: nat :: j < i ==> WellTimed(ops, timings, j) && AfterDependencies(ops, timings, j)
    {
      if ops[i].resources != [] && timings[i].left == timings[i].right {
        assert !WellTimed(ops, timings, i);
        return Some(EmptyOperation);
      }
      if ops[i].resources == [] && timings[i].left != timings[i].right {
        assert !WellTimed(ops, timings, i);
        return Some(LongMilestone);
      }
      if !AfterDependencies(ops, timings, i) {
        return Some(DependencyViolated);
      }
    }
    var exclusive := CheckResources(ops, timings);
    if !exclusive {
      return Some(ResourceOverlap);
    }
    fault := None;
  }

  lemma ConsistentIsForward(ops: seq<Operation>, timings: seq<Interval>)
    requires Consistent(ops, timings)
    ensures Forward(timings) && |timings| == |ops| && forall i :: 0 <= i < |timings| ==> 0.0 <= timings[i].left
  {
    forall i: nat | i < |timings|
      ensures 0.0 <= timings[i].left <= timings[i].right
    {
      assert WellTimed(ops, timings, i);
    }
  }

  /**
   The scheduler's own times pass as a measurement whenever they made a predicted
   trace, and the measured trace then has the predicted lifetimes.
   */
  lemma PredictionIsAccepted(spec: Spec, predicted: Trace, chronological: bool, lives: seq<Lifetime>)
    requires WellFormedSpec(spec) && Schedules(spec.ops, predicted.events, chronological) && |predicted.events| == |spec.ops|
    requires AllDescribed(spec, predicted.events, predicted.lifetimes)
    ensures !Cyclic(spec.ops) && PredictionCovers(spec, chronological)
    ensures Consistent(spec.ops, predicted.events) && AllCovered(spec, predicted.events)
    ensures AllDescribed(spec, predicted.events, lives) ==> lives == predicted.lifetimes
  {
    var ops, events := spec.ops, predicted.events;
    var order :| Explains(ops, events, order, chronological);
    JustifiedOrdering(ops, Table(events), order);
    OrderedIsAcyclic(ops, Table(events), order);
    ScheduleIsValid(ops, events, order);
    ScheduleIsConsistent(ops, events);
    ConsistentIsForward(ops, events);
    hide Justified, WellFormed, Consistent, Cyclic, Covered, Describes, WellDeclared;
    forall b | 0 <= b < |spec.buffers|
      ensures Covered(spec.buffers[b], events, Duration(events))
    {
      var buffer, life := spec.buffers[b], predicted.lifetimes[b];
      assert DescribesBuffer(spec, events, b, life);
      DescribedIsCovered(buffer, events, Duration(events), spec.pools[buffer.pool], life);
    }
    PredictionDecides(spec, events, chronological);
    if AllDescribed(spec, events, lives) {
      LifetimesAreUnique(spec, events, lives, predicted.lifetimes);
    }
  }
}
