/** What every returned schedule promises, and when the scheduler reports a cycle. */
module ScheduleProperties {
  import opened Basics
  import opened Calendar
  import opened Schedule
  import opened Scheduler
  import opened ScheduleRun

  // ----- Dependency cycles

  // Each operation of the path depends on the next one.
  ghost predicate Path(ops: seq<Operation>, path: seq<nat>) {
    && (forall k :: 0 <= k < |path| ==> path[k] < |ops|)
    && (forall k :: 0 <= k < |path| - 1 ==> Linked(ops, path, k))
  }

  predicate Linked(ops: seq<Operation>, path: seq<nat>, k: nat)
    requires k < |path| - 1 && path[k] < |ops|
  {
    path[k + 1] in ops[path[k]].deps
  }

  ghost predicate IsCycle(ops: seq<Operation>, path: seq<nat>) {
    |path| >= 2 && Path(ops, path) && path[0] == path[|path| - 1]
  }

  ghost predicate Cyclic(ops: seq<Operation>) {
    exists path :: IsCycle(ops, path)
  }

  // A path out of the first n committed operations goes strictly down the order.
  lemma {:induction false} PathDescends(ops: seq<Operation>, events: Events, order: seq<nat>, path: seq<nat>, n: nat, j: nat)
    requires Ordering(ops, events, order) && Path(ops, path) && n <= |order|
    requires j < |path| && path[0] in order[..n]
    ensures j < n && path[j] in order[..n - j]
  {
    if j > 0 {
      PathDescends(ops, events, order, path, n, j - 1);
      var k :| 0 <= k < n - (j - 1) && order[k] == path[j - 1];
      assert Linked(ops, path, j - 1);
      assert path[j] in order[..k];
      assert order[..k] <= order[..n - j];
    }
  }

  lemma SubPath(ops: seq<Operation>, path: seq<nat>, a: nat, b: nat)
    requires Path(ops, path) && a <= b <= |path|
    ensures Path(ops, path[a..b])
  {
    forall k | 0 <= k < |path[a..b]| - 1
      ensures Linked(ops, path[a..b], k)
    {
      assert Linked(ops, path, a + k);
    }
  }

  lemma OrderedIsAcyclic(ops: seq<Operation>, events: Events, order: seq<nat>)
    requires Ordering(ops, events, order) && forall i :: 0 <= i < |ops| ==> i in events
    ensures !Cyclic(ops)
  {
    forall path | IsCycle(ops, path)
      ensures false
    {
      assert path[0] in events;
      var k :| 0 <= k < |order| && order[k] == path[0];
      assert path[0] in order[..k + 1];
      PathDescends(ops, events, order, path, k + 1, |path| - 1);
    }
  }

  // No uncommitted operation is ready.
  ghost predicate Stuck(ops: seq<Operation>, events: Events) {
    forall i: nat {:trigger Waits(ops, events, i)} :: i < |ops| && i !in events ==> Waits(ops, events, i)
  }

  ghost predicate Waits(ops: seq<Operation>, events: Events, i: nat)
    requires i < |ops|
  {
    exists d :: Missing(ops, events, i, d)
  }

  ghost predicate KnownDeps(ops: seq<Operation>) {
    forall i, d :: 0 <= i < |ops| && d in ops[i].deps ==> d < |ops|
  }

  ghost predicate Missing(ops: seq<Operation>, events: Events, i: nat, d: nat)
    requires i < |ops|
  {
    d in ops[i].deps && d !in events
  }

  // From a stuck operation, a path of any length through stuck operations.
  lemma {:induction false} StuckPath(ops: seq<Operation>, events: Events, i: nat, n: nat) returns (path: seq<nat>)
    requires KnownDeps(ops) && Stuck(ops, events) && i < |ops| && i !in events
    ensures |path| == n + 1 && path[0] == i && Path(ops, path)
    decreases n
  {
    if n == 0 {
      path := [i];
    } else {
      assert Waits(ops, events, i);
      var d :| Missing(ops, events, i, d);
      var rest := StuckPath(ops, events, d, n - 1);
      path := [i] + rest;
      forall k | 0 <= k < |path| - 1
        ensures Linked(ops, path, k)
      {
        if k > 0 {
          assert Linked(ops, rest, k - 1);
        }
      }
    }
  }

  lemma StuckIsCyclic(ops: seq<Operation>, events: Events, i: nat)
    requires KnownDeps(ops) && Stuck(ops, events) && i < |ops| && i !in events
    ensures Cyclic(ops)
  {
    var path := StuckPath(ops, events, i, |ops|);
    if Distinct(path) {
      Pigeonhole(path, |ops|);
      assert false;
    }
    var a, b :| 0 <= a < b < |path| && path[a] == path[b];
    SubPath(ops, path, a, b + 1);
    assert IsCycle(ops, path[a..b + 1]);
  }

  // ----- What a complete schedule satisfies

  // The returned events, by position.
  ghost function Table(events: seq<Interval>): Events {
    map i: nat | i < |events| :: events[i]
  }

  // Every operation runs for its duration, after its dependencies, alone on its resources.
  ghost predicate Valid(ops: seq<Operation>, events: seq<Interval>) {
    && |events| == |ops|
    && (forall i :: 0 <= i < |ops| ==> 0.0 <= events[i].left && events[i] == At(ops, i, events[i].left))
    && (forall i, d :: 0 <= i < |ops| && d in ops[i].deps ==> d < |ops| && events[d].right <= events[i].left)
    && (forall i, j :: 0 <= i < |ops| && 0 <= j < |ops| && i != j && Shares(ops, i, j) ==> !Overlap(events[i], events[j]))
  }

  lemma ScheduleIsValid(ops: seq<Operation>, events: seq<Interval>, order: seq<nat>)
    requires |events| == |ops| && Justified(ops, Table(events), order)
    ensures Valid(ops, events)
  {
    var table := Table(events);
    forall i | 0 <= i < |ops|
      ensures 0.0 <= events[i].left && events[i] == At(ops, i, events[i].left)
      ensures forall d :: d in ops[i].deps ==> d < |ops| && events[d].right <= events[i].left
    {
      assert i in table;
      var k :| 0 <= k < |order| && order[k] == i;
      assert LeastAt(ops, table, order, k);
      MaxEndAttained(table, ops[i].deps, |ops[i].deps|);
      assert ops[i].deps[..|ops[i].deps|] == ops[i].deps;
    }
    forall i, j | 0 <= i < |ops| && 0 <= j < |ops| && i != j && Shares(ops, i, j)
      ensures !Overlap(events[i], events[j])
    {
      assert i in table && j in table;
      var k :| 0 <= k < |order| && order[k] == i;
      var m :| 0 <= m < |order| && order[m] == j;
      if k < m {
        LaterAvoids(ops, table, order, k, m);
      } else {
        LaterAvoids(ops, table, order, m, k);
      }
    }
  }

  lemma LaterAvoids(ops: seq<Operation>, events: Events, order: seq<nat>, k: nat, m: nat)
    requires Justified(ops, events, order) && k < m < |order| && Shares(ops, order[m], order[k])
    ensures !Overlap(events[order[m]], events[order[k]])
  {
    assert LeastAt(ops, events, order, m);
    assert order[k] in order[..m];
  }

  // ----- No back-filling under chronological dispatch

  // The k-th commitment starts exactly when its last dependency or the last earlier
  // commitment on one of its resources ends.
  ghost predicate StartsWhenFree(ops: seq<Operation>, events: Events, order: seq<nat>, k: nat)
    requires Ordering(ops, events, order) && k < |order| && DepsCommitted(ops, events, order[k])
  {
    var o, start := order[k], events[order[k]].left;
    && Earliest(ops, events, o) <= start
    && (forall j :: 0 <= j < k && Shares(ops, o, order[j]) ==> events[order[j]].right <= start)
    && (start == Earliest(ops, events, o) || exists j :: EndsAt(ops, events, order, k, j, start))
  }

  ghost predicate EndsAt(ops: seq<Operation>, events: Events, order: seq<nat>, k: nat, j: nat, t: real)
    requires Ordering(ops, events, order) && k < |order|
  {
    j < k && Shares(ops, order[k], order[j]) && events[order[j]].right == t
  }

  // The latest end among the first n commitments that share a resource with the k-th, or `floor`.
  lemma {:induction false} LatestShared(ops: seq<Operation>, events: Events, order: seq<nat>, k: nat, n: nat, floor: real) returns (t: real)
    requires Ordering(ops, events, order) && n <= k < |order|
    ensures floor <= t && forall j :: 0 <= j < n && Shares(ops, order[k], order[j]) ==> events[order[j]].right <= t
    ensures t == floor || exists j :: EndsAt(ops, events, order, k, j, t)
  {
    t := floor;
    if n > 0 {
      t := LatestShared(ops, events, order, k, n - 1, floor);
      if Shares(ops, order[k], order[n - 1]) && t < events[order[n - 1]].right {
        t := events[order[n - 1]].right;
        assert EndsAt(ops, events, order, k, n - 1, t);
      }
    }
  }

  /** Chronological dispatch never fills a gap left behind a later reservation. */
  lemma NoBackfill(ops: seq<Operation>, events: Events, order: seq<nat>, k: nat)
    requires WellFormed(ops) && Justified(ops, events, order) && Chronological(ops, events, order) && k < |order|
    ensures DepsCommitted(ops, events, order[k]) && StartsWhenFree(ops, events, order, k)
  {
    hide FirstAt;
    var o, start := order[k], events[order[k]].left;
    assert LeastAt(ops, events, order, k);
    forall j | 0 <= j < k && Shares(ops, o, order[j])
      ensures events[order[j]].right <= start
    {
      assert order[j] in order[..k];
      assert events[order[j]].left <= start;
    }
    var t := LatestShared(ops, events, order, k, k, Earliest(ops, events, o));
    forall j | j in order[..k] && Shares(ops, o, j)
      ensures !Overlap(At(ops, o, t), events[j])
    {
      var n :| 0 <= n < k && order[n] == j;
    }
    assert Fits(ops, events, order[..k], o, t);
  }

  // ----- Bounds on the makespan

  function PathWork(ops: seq<Operation>, path: seq<nat>): real
    requires forall k :: 0 <= k < |path| ==> path[k] < |ops|
  {
    if path == [] then 0.0 else ops[path[0]].duration + PathWork(ops, path[1..])
  }

  // The first operation of a dependency path ends no sooner than the path takes.
  lemma {:induction false} PathFits(ops: seq<Operation>, events: seq<Interval>, path: seq<nat>)
    requires Valid(ops, events) && Path(ops, path) && path != []
    ensures PathWork(ops, path) <= events[path[0]].right
  {
    if |path| > 1 {
      assert Linked(ops, path, 0);
      SubPath(ops, path, 1, |path|);
      assert path[1..|path|] == path[1..];
      PathFits(ops, events, path[1..]);
    } else {
      assert path[1..] == [];
    }
  }

  // Total work that the first n operations put on a resource.
  function ResourceWork(ops: seq<Operation>, r: Resource, n: nat): real
    requires n <= |ops|
  {
    if n == 0 then 0.0 else ResourceWork(ops, r, n - 1) + if r in ops[n - 1].resources then ops[n - 1].duration else 0.0
  }

  function TotalWork(ops: seq<Operation>, n: nat): real
    requires n <= |ops|
  {
    if n == 0 then 0.0 else TotalWork(ops, n - 1) + ops[n - 1].duration
  }

  lemma {:induction false} LoadRemove(ops: seq<Operation>, order: seq<nat>, r: Resource, k: nat)
    requires k < |order| && forall m :: 0 <= m < |order| ==> order[m] < |ops|
    ensures LoadOn(ops, order, r) == LoadOn(ops, order[..k] + order[k + 1..], r)
                                     + if r in ops[order[k]].resources then ops[order[k]].duration else 0.0
    ensures Total(ops, order) == Total(ops, order[..k] + order[k + 1..]) + ops[order[k]].duration
    decreases |order|
  {
    var init := order[..|order| - 1];
    var less := order[..k] + order[k + 1..];
    if k < |order| - 1 {
      LoadRemove(ops, init, r, k);
      assert less[..|less| - 1] == init[..k] + init[k + 1..];
      assert less[|less| - 1] == order[|order| - 1];
    } else {
      assert less == init;
    }
  }

  // Summed over any order of all positions, work does not depend on the order.
  lemma {:induction false} WorkAnyOrder(ops: seq<Operation>, order: seq<nat>, r: Resource, n: nat)
    requires Distinct(order) && n <= |ops| && forall i: nat :: i in order <==> i < n
    ensures forall k :: 0 <= k < |order| ==> order[k] < |ops|
    ensures LoadOn(ops, order, r) == ResourceWork(ops, r, n) && Total(ops, order) == TotalWork(ops, n)
  {
    assert forall k :: 0 <= k < |order| ==> order[k] in order;
    if n == 0 {
      Pigeonhole(order, n);
    } else {
      assert n - 1 in order;
      var k :| 0 <= k < |order| && order[k] == n - 1;
      var less := order[..k] + order[k + 1..];
      LoadRemove(ops, order, r, k);
      hide LoadOn, Total;
      forall i: nat
        ensures i in less <==> i < n - 1
      {
        if i in order && i != n - 1 {
          var m :| 0 <= m < |order| && order[m] == i;
          assert less[if m < k then m else m - 1] == i;
        }
      }
      WorkAnyOrder(ops, less, r, n - 1);
    }
  }

  // The schedule's length: the latest end, zero for none.
  function Makespan(events: seq<Interval>, n: nat): real
    requires n <= |events|
  {
    if n == 0 then 0.0
    else
      var rest := Makespan(events, n - 1);
      if rest < events[n - 1].right then events[n - 1].right else rest
  }

  lemma {:induction false} MakespanIsLatest(events: seq<Interval>, n: nat)
    requires n <= |events|
    ensures 0.0 <= Makespan(events, n) && forall i :: 0 <= i < n ==> events[i].right <= Makespan(events, n)
    ensures Makespan(events, n) == 0.0 || exists i :: 0 <= i < n && events[i].right == Makespan(events, n)
  {
    if n > 0 {
      MakespanIsLatest(events, n - 1);
    }
  }

  ghost predicate Bounded(ops: seq<Operation>, duration: real) {
    && (forall path :: Path(ops, path) ==> PathWork(ops, path) <= duration)
    && (forall r :: ResourceWork(ops, r, |ops|) <= duration)
    && duration <= TotalWork(ops, |ops|)
  }

  lemma ResourceFits(ops: seq<Operation>, events: seq<Interval>, order: seq<nat>, calendars: Calendars, r: Resource)
    requires |events| == |ops| && Ledger(ops, Table(events), order, calendars)
    ensures ResourceWork(ops, r, |ops|) <= Makespan(events, |events|)
  {
    hide Justified, WellFormed, Within;
    JustifiedOrdering(ops, Table(events), order);
    assert forall i: nat :: i in order <==> i in Table(events);
    WorkAnyOrder(ops, order, r, |ops|);
    var calendar := Entries(calendars, r);
    MakespanIsLatest(events, |events|);
    CalendarWork(ops, Table(events), order, calendars, r);
    if calendar != [] {
      var last := calendar[|calendar| - 1];
      assert last in calendar;
      var i :| Holder(ops, Table(events), i, r, last);
    }
  }

  lemma CalendarWork(ops: seq<Operation>, events: Events, order: seq<nat>, calendars: Calendars, r: Resource)
    requires Ordering(ops, events, order) && Booked(ops, events, calendars) && Loaded(ops, order, calendars)
    ensures var calendar := Entries(calendars, r);
            if calendar == [] then LoadOn(ops, order, r) == 0.0 else LoadOn(ops, order, r) <= calendar[|calendar| - 1].right
  {
    var calendar := Entries(calendars, r);
    forall k | 0 <= k < |calendar|
      ensures 0.0 <= calendar[k].left
    {
      assert calendar[k] in calendar;
      var i :| Holder(ops, events, i, r, calendar[k]);
    }
    WorkFits(calendar);
    assert Work(calendar) == LoadOn(ops, order, r);
  }

  /** Neither policy beats a dependency path or a resource's work, nor exceeds serial execution. */
  lemma MakespanBounds(ops: seq<Operation>, events: seq<Interval>, order: seq<nat>, calendars: Calendars)
    requires |events| == |ops| && Ledger(ops, Table(events), order, calendars)
    ensures Bounded(ops, Makespan(events, |events|))
  {
    ScheduleIsValid(ops, events, order);
    MakespanIsLatest(events, |events|);
    forall path | Path(ops, path)
      ensures PathWork(ops, path) <= Makespan(events, |events|)
    {
      if path != [] {
        PathFits(ops, events, path);
      }
    }
    forall r
      ensures ResourceWork(ops, r, |ops|) <= Makespan(events, |events|)
    {
      ResourceFits(ops, events, order, calendars, r);
    }
    WithinTotal(ops, events, order);
  }

  lemma WithinTotal(ops: seq<Operation>, events: seq<Interval>, order: seq<nat>)
    requires |events| == |ops| && Ordering(ops, Table(events), order) && Within(ops, Table(events), order)
    ensures Makespan(events, |events|) <= TotalWork(ops, |ops|)
  {
    assert forall i: nat :: i in order <==> i in Table(events);
    WorkAnyOrder(ops, order, "", |ops|);
    MakespanIsLatest(events, |events|);
    assert forall i :: 0 <= i < |events| ==> i in Table(events) && Table(events)[i] == events[i];
  }

  // ----- The scheduler

  // The commitments, in the order they were made, that explain a returned schedule.
  ghost predicate Explains(ops: seq<Operation>, events: seq<Interval>, order: seq<nat>, chronological: bool) {
    && |events| == |ops| && Justified(ops, Table(events), order)
    && (chronological ==> Chronological(ops, Table(events), order))
    && (!chronological ==> InputOrder(ops, order))
  }

  ghost predicate Schedules(ops: seq<Operation>, events: seq<Interval>, chronological: bool) {
    exists order :: Explains(ops, events, order, chronological)
  }

  // Two explained schedules after the same n commitments.
  ghost predicate AgreeUpTo(events: Events, order: seq<nat>, others: Events, otherOrder: seq<nat>, n: nat) {
    && n <= |order| && n <= |otherOrder| && order[..n] == otherOrder[..n]
    && forall i :: i in order[..n] ==> i in events && i in others && events[i] == others[i]
  }

  lemma {:induction false} SameEarliest(events: Events, others: Events, deps: seq<nat>, k: nat)
    requires k <= |deps| && forall d :: d in deps ==> d in events && d in others && events[d] == others[d]
    ensures MaxEnd(events, deps, k) == MaxEnd(others, deps, k)
  {
    if k > 0 {
      SameEarliest(events, others, deps, k - 1);
    }
  }

  // What could go next, and when, depends on the commitments so far alone.
  lemma SameFeasible(ops: seq<Operation>, events: Events, order: seq<nat>, others: Events, otherOrder: seq<nat>, n: nat, i: nat, s: real)
    requires Ordering(ops, events, order) && Ordering(ops, others, otherOrder) && AgreeUpTo(events, order, others, otherOrder, n)
    requires WasReady(ops, order, n, i)
    ensures WasReady(ops, otherOrder, n, i)
    ensures Feasible(ops, events, order, n, i, s) <==> Feasible(ops, others, otherOrder, n, i, s)
  {
    SameEarliest(events, others, ops[i].deps, |ops[i].deps|);
  }

  lemma CommittedWasReady(ops: seq<Operation>, events: Events, order: seq<nat>, n: nat)
    requires Ordering(ops, events, order) && n < |order|
    ensures WasReady(ops, order, n, order[n])
  {
  }

  lemma CommittedIsFeasible(ops: seq<Operation>, events: Events, order: seq<nat>, n: nat)
    requires Justified(ops, events, order) && n < |order|
    ensures Feasible(ops, events, order, n, order[n], events[order[n]].left)
    ensures forall s :: Feasible(ops, events, order, n, order[n], s) ==> events[order[n]].left <= s
  {
    assert LeastAt(ops, events, order, n);
  }

  lemma FirstBefore(ops: seq<Operation>, events: Events, order: seq<nat>, n: nat, i: nat, s: real)
    requires Ordering(ops, events, order) && n < |order| && FirstAt(ops, events, order, n)
    requires WasReady(ops, order, n, i) && i != order[n] && Feasible(ops, events, order, n, i, s)
    ensures Before(events[order[n]].left, order[n], s, i)
  {
  }

  // Both commit the same operation next, at the same time.
  lemma SameNext(ops: seq<Operation>, events: Events, order: seq<nat>, others: Events, otherOrder: seq<nat>, n: nat, chronological: bool)
    requires Justified(ops, events, order) && Justified(ops, others, otherOrder)
    requires if chronological then Chronological(ops, events, order) && Chronological(ops, others, otherOrder)
             else InputOrder(ops, order) && InputOrder(ops, otherOrder)
    requires n < |order| && n < |otherOrder| && AgreeUpTo(events, order, others, otherOrder, n)
    ensures AgreeUpTo(events, order, others, otherOrder, n + 1)
  {
    JustifiedOrdering(ops, events, order);
    JustifiedOrdering(ops, others, otherOrder);
    var a, b := order[n], otherOrder[n];
    var s, t := events[a].left, others[b].left;
    CommittedWasReady(ops, events, order, n);
    CommittedWasReady(ops, others, otherOrder, n);
    CommittedIsFeasible(ops, events, order, n);
    CommittedIsFeasible(ops, others, otherOrder, n);
    assert AgreeUpTo(others, otherOrder, events, order, n);
    SameFeasible(ops, others, otherOrder, events, order, n, b, t);
    SameFeasible(ops, events, order, others, otherOrder, n, a, s);
    hide Justified, Feasible, WasReady, FirstAt;
    if chronological && a != b {
      FirstBefore(ops, events, order, n, b, t);
      FirstBefore(ops, others, otherOrder, n, a, s);
      assert false;
    }
    SameFeasible(ops, others, otherOrder, events, order, n, a, s);
    assert s == t;
    assert order[..n + 1] == order[..n] + [a] && otherOrder[..n + 1] == otherOrder[..n] + [a];
  }

  lemma {:induction false} AgreeAlways(ops: seq<Operation>, events: seq<Interval>, order: seq<nat>, others: seq<Interval>, otherOrder: seq<nat>,
                                       n: nat, chronological: bool)
    requires Explains(ops, events, order, chronological) && Explains(ops, others, otherOrder, chronological)
    requires n <= |order| && n <= |otherOrder|
    ensures AgreeUpTo(Table(events), order, Table(others), otherOrder, n)
  {
    if n > 0 {
      hide Justified, Chronological, InputOrder;
      AgreeAlways(ops, events, order, others, otherOrder, n - 1, chronological);
      SameNext(ops, Table(events), order, Table(others), otherOrder, n - 1, chronological);
    }
  }

  /** The operations and the policy determine the schedule. */
  lemma ScheduleIsUnique(ops: seq<Operation>, events: seq<Interval>, others: seq<Interval>, chronological: bool)
    requires Schedules(ops, events, chronological) && Schedules(ops, others, chronological)
    ensures events == others
  {
    var order :| Explains(ops, events, order, chronological);
    var otherOrder :| Explains(ops, others, otherOrder, chronological);
    JustifiedOrdering(ops, Table(events), order);
    JustifiedOrdering(ops, Table(others), otherOrder);
    var n := if |order| <= |otherOrder| then |order| else |otherOrder|;
    AgreeAlways(ops, events, order, others, otherOrder, n, chronological);
    hide Explains;
    forall i | 0 <= i < |events|
      ensures events[i] == others[i]
    {
      assert i in Table(events) && i in Table(others);
      assert i in order && i in otherOrder;
      assert order[..n] == order || otherOrder[..n] == otherOrder;
      assert Table(events)[i] == Table(others)[i];
    }
  }

  /**
   Fails exactly on cyclic dependencies.  Otherwise every start is the least one
   given the commitments made before it, and the policy decides that order.
   */
  method ScheduleOperations(ops: seq<Operation>, chronological: bool) returns (outcome: Outcome)
    requires WellFormed(ops)
    ensures outcome.Cycle? <==> Cyclic(ops)
    ensures outcome.Scheduled? ==> Schedules(ops, outcome.events, chronological) && Valid(ops, outcome.events)
    ensures outcome.Scheduled? ==> Bounded(ops, Makespan(outcome.events, |outcome.events|))
  {
    var events, order, calendars := Dispatch(ops, chronological);
    LedgerOrdering(ops, events, order, calendars);
    if |events| != |ops| {
      MissingIsCyclic(ops, events);
      return Cycle;
    }
    AllCommitted(events, |ops|);
    var ordered := seq(|ops|, i requires 0 <= i < |ops| => events[i]);
    assert Table(ordered) == events;
    OrderedIsAcyclic(ops, events, order);
    ScheduleIsValid(ops, ordered, order);
    MakespanBounds(ops, ordered, order, calendars);
    assert Explains(ops, ordered, order, chronological);
    outcome := Scheduled(ordered);
  }

  lemma LedgerOrdering(ops: seq<Operation>, events: Events, order: seq<nat>, calendars: Calendars)
    requires Ledger(ops, events, order, calendars)
    ensures Justified(ops, events, order) && Ordering(ops, events, order)
    ensures forall i :: i in events ==> i < |ops|
  {
  }

  lemma MissingIsCyclic(ops: seq<Operation>, events: Events)
    requires WellFormed(ops) && Queued(ops, events, map[]) && |events| != |ops|
    requires forall i :: i in events ==> i < |ops|
    ensures Cyclic(ops)
  {
    if forall i :: 0 <= i < |ops| ==> i in events {
      KeysFill(events, |ops|);
      assert false;
    }
    var i :| 0 <= i < |ops| && i !in events;
    forall j | 0 <= j < |ops| && j !in events
      ensures Waits(ops, events, j)
    {
      assert !DepsCommitted(ops, events, j);
      var d :| d in ops[j].deps && d !in events;
      assert Missing(ops, events, j, d);
    }
    assert KnownDeps(ops);
    hide WellFormed, Queued, DepsCommitted;
    StuckIsCyclic(ops, events, i);
  }

  // A table on all positions below n has n entries.
  lemma {:induction false} KeysFill(events: Events, n: nat)
    requires forall i: nat :: i in events <==> i < n
    ensures |events| == n
  {
    if n > 0 {
      KeysFill(events - {n - 1}, n - 1);
      assert events.Keys == (events - {n - 1}).Keys + {n - 1};
      assert |events| == |events.Keys| && |events - {n - 1}| == |(events - {n - 1}).Keys|;
    } else {
      assert events == map[];
    }
  }

  // A table of n entries, all below n, has every position.
  lemma {:induction false} AllCommitted(events: Events, n: nat)
    requires |events| == n && forall i :: i in events ==> i < n
    ensures forall i :: 0 <= i < n ==> i in events
  {
    if n > 0 {
      if n - 1 in events {
        assert events.Keys == (events - {n - 1}).Keys + {n - 1};
        assert |events| == |events.Keys| && |events - {n - 1}| == |(events - {n - 1}).Keys|;
        AllCommitted(events - {n - 1}, n - 1);
      } else {
        FewKeys(events, n - 1);
        assert false;
      }
    }
  }

  lemma {:induction false} FewKeys(events: Events, n: nat)
    requires forall i :: i in events ==> i < n
    ensures |events| <= n
  {
    if n == 0 {
      assert events == map[];
    } else {
      FewKeys(events - {n - 1}, n - 1);
      assert events.Keys <= (events - {n - 1}).Keys + {n - 1};
      assert |events| == |events.Keys| && |events - {n - 1}| == |(events - {n - 1}).Keys|;
    }
  }
}
