/** The scheduling loop, and what holds of every schedule it returns. */
module ScheduleRun {
  import opened Basics
  import opened Calendar
  import opened Schedule
  import opened Scheduler

  // Sum of the durations of the given operations.
  function Total(ops: seq<Operation>, order: seq<nat>): real
    requires forall k :: 0 <= k < |order| ==> order[k] < |ops|
  {
    if order == [] then 0.0 else Total(ops, order[..|order| - 1]) + ops[order[|order| - 1]].duration
  }

  // No end lies beyond the total work committed so far.
  ghost predicate Within(ops: seq<Operation>, events: Events, order: seq<nat>)
    requires forall k :: 0 <= k < |order| ==> order[k] < |ops|
  {
    Total(ops, order) >= 0.0 && forall i :: i in events ==> events[i].right <= Total(ops, order)
  }

  ghost predicate Ledger(ops: seq<Operation>, events: Events, order: seq<nat>, calendars: Calendars) {
    && WellFormed(ops) && Justified(ops, events, order) && Booked(ops, events, calendars)
    && Loaded(ops, order, calendars) && Within(ops, events, order)
  }

  lemma MaxEndAttained(events: Events, deps: seq<nat>, k: nat)
    requires k <= |deps| && forall d :: d in deps ==> d in events
    ensures MaxEnd(events, deps, k) >= 0.0
    ensures forall d :: d in deps[..k] ==> events[d].right <= MaxEnd(events, deps, k)
    ensures MaxEnd(events, deps, k) == 0.0 || exists d :: d in deps && events[d].right == MaxEnd(events, deps, k)
  {
    if k > 0 {
      MaxEndAttained(events, deps, k - 1);
      assert deps[..k] == deps[..k - 1] + [deps[k - 1]];
    }
  }

  lemma CommitLoaded(ops: seq<Operation>, order: seq<nat>, calendars: Calendars, booked: Calendars, o: nat, entry: Interval)
    requires o < |ops| && forall k :: 0 <= k < |order| ==> order[k] < |ops|
    requires Loaded(ops, order, calendars) && entry.right - entry.left == ops[o].duration
    requires Reserved(calendars, booked, ops[o].resources, |ops[o].resources|, entry)
    ensures Loaded(ops, order + [o], booked)
  {
    hide Work;
    assert ops[o].resources[..|ops[o].resources|] == ops[o].resources;
    assert (order + [o])[..|order|] == order;
    forall r
      ensures Work(Entries(booked, r)) == LoadOn(ops, order + [o], r)
    {
      if r in ops[o].resources {
        assert Extended(Entries(calendars, r), Entries(booked, r), entry);
      }
    }
  }

  // A least free start is zero or the end of an earlier commitment.
  lemma CommitWithin(ops: seq<Operation>, events: Events, order: seq<nat>, calendars: Calendars, o: nat, start: real)
    requires WellFormed(ops) && Ordering(ops, events, order) && Booked(ops, events, calendars) && Within(ops, events, order)
    requires o < |ops| && o !in events && DepsCommitted(ops, events, o)
    requires start == Earliest(ops, events, o) || exists r, i :: r in ops[o].resources && 0 <= i < |Entries(calendars, r)|
                                                             && Entries(calendars, r)[i].right == start
    ensures Within(ops, events[o := At(ops, o, start)], order + [o])
  {
    assert (order + [o])[..|order|] == order;
    MaxEndAttained(events, ops[o].deps, |ops[o].deps|);
    if start != Earliest(ops, events, o) {
      var r, i :| r in ops[o].resources && 0 <= i < |Entries(calendars, r)| && Entries(calendars, r)[i].right == start;
      assert Entries(calendars, r)[i] in Entries(calendars, r);
      var j :| Holder(ops, events, j, r, Entries(calendars, r)[i]);
    }
  }

  // ----- Chronological dispatch

  // No feasible start of a ready operation lies before its key.
  ghost predicate LowerBound(ops: seq<Operation>, events: Events, calendars: Calendars, i: nat, key: real)
    requires i < |ops| && DepsCommitted(ops, events, i)
  {
    forall s :: Earliest(ops, events, i) <= s < key ==> !Free(calendars, ops[i].resources, s, ops[i].duration)
  }

  // Operation i could have been committed k-th: its dependencies were, and it was not.
  ghost predicate WasReady(ops: seq<Operation>, order: seq<nat>, k: nat, i: nat)
    requires k <= |order|
  {
    i < |ops| && i !in order[..k] && forall d :: d in ops[i].deps ==> d in order[..k]
  }

  // The k-th commitment starts no later than any other ready operation could,
  // and wins ties by position.
  ghost predicate FirstAt(ops: seq<Operation>, events: Events, order: seq<nat>, k: nat)
    requires Ordering(ops, events, order) && k < |order|
  {
    forall i: nat, s :: WasReady(ops, order, k, i) && i != order[k] && Feasible(ops, events, order, k, i, s)
      ==> Before(events[order[k]].left, order[k], s, i)
  }

  // A start for i that respects its dependencies and the first k commitments.
  ghost predicate Feasible(ops: seq<Operation>, events: Events, order: seq<nat>, k: nat, i: nat, s: real)
    requires Ordering(ops, events, order) && k <= |order|
  {
    && i < |ops| && DepsCommitted(ops, events, i) && Earliest(ops, events, i) <= s
    && Fits(ops, events, order[..k], i, s)
  }

  ghost predicate Chronological(ops: seq<Operation>, events: Events, order: seq<nat>) {
    && Ordering(ops, events, order)
    && (forall k :: 0 <= k < |order| ==> FirstAt(ops, events, order, k))
    && (forall k, m :: 0 <= k < m < |order| ==> events[order[k]].left <= events[order[m]].left)
  }

  // Under input order the lowest ready position goes first.
  ghost predicate InputOrder(ops: seq<Operation>, order: seq<nat>) {
    forall k: nat, i: nat :: 0 <= k < |order| && WasReady(ops, order, k, i) ==> order[k] <= i
  }

  // What the heap keys promise under either policy.
  ghost predicate Keyed(ops: seq<Operation>, events: Events, order: seq<nat>, calendars: Calendars,
                        heap: Heap, chronological: bool)
  {
    && Queued(ops, events, heap)
    && (forall i :: i in heap ==>
          if chronological
          then LowerBound(ops, events, calendars, i, heap[i]) && (order != [] ==> order[|order| - 1] in events && events[order[|order| - 1]].left <= heap[i])
          else heap[i] == i as real)
  }

  // Earlier commitments are judged the same after a later one.
  lemma FirstAtExtends(ops: seq<Operation>, events: Events, order: seq<nat>, o: nat, start: real, k: nat)
    requires WellFormed(ops) && Ordering(ops, events, order) && o < |ops| && o !in events && k < |order|
    requires Ordering(ops, events[o := At(ops, o, start)], order + [o])
    requires FirstAt(ops, events, order, k)
    ensures FirstAt(ops, events[o := At(ops, o, start)], order + [o], k)
  {
    var grown, longer := events[o := At(ops, o, start)], order + [o];
    assert longer[..k] == order[..k];
    forall i: nat, s | WasReady(ops, longer, k, i) && i != longer[k] && Feasible(ops, grown, longer, k, i, s)
      ensures Before(grown[longer[k]].left, longer[k], s, i)
    {
      assert WasReady(ops, order, k, i);
      assert forall d :: d in ops[i].deps ==> d in order;
      MaxEndExtends(events, grown, ops[i].deps, |ops[i].deps|);
      assert Feasible(ops, events, order, k, i, s);
    }
  }

  // The new commitment comes first among the operations that were ready.
  lemma FirstAtCommit(ops: seq<Operation>, events: Events, order: seq<nat>, calendars: Calendars,
                      heap: Heap, o: nat, start: real)
    requires WellFormed(ops) && Ordering(ops, events, order) && Booked(ops, events, calendars)
    requires o < |ops| && o !in events && o !in heap
    requires Keyed(ops, events, order, calendars, heap + map[o := start], true)
    requires forall i :: i in heap ==> Before(start, o, heap[i], i)
    requires Ordering(ops, events[o := At(ops, o, start)], order + [o])
    ensures FirstAt(ops, events[o := At(ops, o, start)], order + [o], |order|)
  {
    var grown, longer, k := events[o := At(ops, o, start)], order + [o], |order|;
    assert longer[..k] == order && order[..k] == order;
    forall i: nat, s | WasReady(ops, longer, k, i) && i != o && Feasible(ops, grown, longer, k, i, s)
      ensures Before(start, o, s, i)
    {
      var all := heap + map[o := start];
      assert DepsCommitted(ops, events, i) && i !in events;
      assert i in all;
      MaxEndExtends(events, grown, ops[i].deps, |ops[i].deps|);
      assert Fits(ops, events, order, i, s);
      FreeIsFits(ops, events, order, calendars, i, s);
      assert LowerBound(ops, events, calendars, i, heap[i]);
    }
  }

  lemma CommitChronological(ops: seq<Operation>, events: Events, order: seq<nat>, calendars: Calendars,
                            heap: Heap, o: nat, start: real)
    requires WellFormed(ops) && Chronological(ops, events, order) && Booked(ops, events, calendars)
    requires o < |ops| && o !in events && o !in heap && 0.0 <= start && DepsCommitted(ops, events, o)
    requires Keyed(ops, events, order, calendars, heap + map[o := start], true)
    requires forall i :: i in heap ==> Before(start, o, heap[i], i)
    ensures Chronological(ops, events[o := At(ops, o, start)], order + [o])
  {
    var grown, longer := events[o := At(ops, o, start)], order + [o];
    CommitOrdering(ops, events, order, o, start);
    hide FirstAt, Ordering, Keyed;
    forall k | 0 <= k < |longer|
      ensures FirstAt(ops, grown, longer, k)
    {
      if k < |order| {
        FirstAtExtends(ops, events, order, o, start, k);
      } else {
        FirstAtCommit(ops, events, order, calendars, heap, o, start);
      }
    }
    StartsGrow(ops, events, order, calendars, heap, o, start);
  }

  lemma StartsGrow(ops: seq<Operation>, events: Events, order: seq<nat>, calendars: Calendars,
                   heap: Heap, o: nat, start: real)
    requires Chronological(ops, events, order) && o < |ops| && o !in events && o !in heap
    requires Keyed(ops, events, order, calendars, heap + map[o := start], true)
    ensures var grown, longer := events[o := At(ops, o, start)], order + [o];
            forall k, m :: 0 <= k < m < |longer| ==>
              longer[k] in grown && longer[m] in grown && grown[longer[k]].left <= grown[longer[m]].left
  {
    assert o in heap + map[o := start];
    assert forall k :: 0 <= k < |order| ==> order[k] in events;
  }

  lemma CommitInputOrder(ops: seq<Operation>, events: Events, order: seq<nat>, calendars: Calendars, heap: Heap, o: nat)
    requires Ordering(ops, events, order) && InputOrder(ops, order)
    requires Keyed(ops, events, order, calendars, heap, false) && Top(heap, o)
    ensures InputOrder(ops, order + [o])
  {
    var longer := order + [o];
    forall k: nat, i: nat | 0 <= k < |longer| && WasReady(ops, longer, k, i)
      ensures longer[k] <= i
    {
      assert longer[..k] == order[..k];
      if k < |order| {
        assert WasReady(ops, order, k, i);
      } else {
        assert order[..k] == order;
        assert DepsCommitted(ops, events, i) && i !in events;
        assert i in heap;
      }
    }
  }

  // Keys stay lower bounds when reservations are added and children queued.
  lemma CommitKeyed(ops: seq<Operation>, events: Events, order: seq<nat>, calendars: Calendars, booked: Calendars,
                    heap: Heap, queue: Heap, o: nat, start: real, chronological: bool)
    requires WellFormed(ops) && Ordering(ops, events, order) && o < |ops| && o !in events && o !in heap
    requires Keyed(ops, events, order, calendars, heap + map[o := if chronological then start else o as real], chronological)
    requires chronological ==> forall i :: i in heap ==> start <= heap[i]
    requires Reserved(calendars, booked, ops[o].resources, |ops[o].resources|, At(ops, o, start))
    requires var grown := events[o := At(ops, o, start)];
             Queued(ops, grown, queue) && Refilled(ops, grown, chronological, o, heap, queue)
    ensures Keyed(ops, events[o := At(ops, o, start)], order + [o], booked, queue, chronological)
  {
    var grown := events[o := At(ops, o, start)];
    if chronological {
      forall i | i in queue
        ensures LowerBound(ops, grown, booked, i, queue[i]) && start <= queue[i]
      {
        if i in heap {
          OldKeyBounds(ops, events, order, calendars, booked, heap, o, start, i);
        } else {
          MaxEndAttained(grown, ops[i].deps, |ops[i].deps|);
          assert ops[i].deps[..|ops[i].deps|] == ops[i].deps;
        }
      }
    } else {
      forall i | i in queue
        ensures queue[i] == i as real
      {
        if i in heap {
          assert i in heap + map[o := o as real];
        }
      }
    }
  }

  lemma OldKeyBounds(ops: seq<Operation>, events: Events, order: seq<nat>, calendars: Calendars, booked: Calendars,
                     heap: Heap, o: nat, start: real, i: nat)
    requires WellFormed(ops) && Ordering(ops, events, order) && o < |ops| && o !in events && i in heap && i != o
    requires Keyed(ops, events, order, calendars, heap + map[o := start], true)
    requires Reserved(calendars, booked, ops[o].resources, |ops[o].resources|, At(ops, o, start))
    ensures i < |ops| && DepsCommitted(ops, events[o := At(ops, o, start)], i)
    ensures LowerBound(ops, events[o := At(ops, o, start)], booked, i, heap[i])
  {
    var grown := events[o := At(ops, o, start)];
    assert i in heap + map[o := start];
    assert LowerBound(ops, events, calendars, i, heap[i]);
    MaxEndExtends(events, grown, ops[i].deps, |ops[i].deps|);
    forall s | Earliest(ops, grown, i) <= s < heap[i]
      ensures !Free(booked, ops[i].resources, s, ops[i].duration)
    {
      if Free(booked, ops[i].resources, s, ops[i].duration) {
        FreeShrinks(calendars, booked, ops[o].resources, At(ops, o, start), ops[i].resources, s, ops[i].duration);
      }
    }
  }

  lemma FreeShrinks(calendars: Calendars, booked: Calendars, resources: seq<Resource>, entry: Interval,
                    wanted: seq<Resource>, s: real, duration: real)
    requires Reserved(calendars, booked, resources, |resources|, entry)
    requires Free(booked, wanted, s, duration)
    ensures Free(calendars, wanted, s, duration)
  {
    hide Work;
    assert resources[..|resources|] == resources;
    forall r | r in wanted
      ensures Clear(Entries(calendars, r), s, duration)
    {
      forall i | 0 <= i < |Entries(calendars, r)|
        ensures Entries(calendars, r)[i].right <= s || s + duration <= Entries(calendars, r)[i].left
      {
        assert Entries(calendars, r)[i] in Entries(calendars, r);
        assert Entries(calendars, r)[i] in Entries(booked, r);
      }
    }
  }

  // ----- The loop

  // Heap entries whose key is not yet the operation's exact least start.
  ghost function Stale(ops: seq<Operation>, events: Events, calendars: Calendars, heap: Heap): set<nat>
    requires Queued(ops, events, heap)
  {
    set i | i in heap &&
            !LeastFree(calendars, ops[i].resources, Earliest(ops, events, i), ops[i].duration, heap[i])
  }

  // Latest end among the dependencies, as the loop computes it.
  method LatestEnd(events: Events, deps: seq<nat>) returns (end: real)
    requires forall d :: d in deps ==> d in events
    ensures end == MaxEnd(events, deps, |deps|)
  {
    end := 0.0;
    for k := 0 to |deps|
      invariant end == MaxEnd(events, deps, k)
    {
      if end < events[deps[k]].right {
        end := events[deps[k]].right;
      }
    }
  }

  lemma InitialLedger(ops: seq<Operation>, heap: Heap, chronological: bool)
    requires WellFormed(ops)
    requires forall i: nat :: i in heap <==> i < |ops| && ops[i].deps == []
    requires forall i :: i in heap ==> heap[i] == if chronological then 0.0 else i as real
    ensures Ledger(ops, map[], [], map[]) && Chronological(ops, map[], []) && InputOrder(ops, [])
    ensures Keyed(ops, map[], [], map[], heap, chronological)
  {
    forall i | 0 <= i < |ops|
      ensures DepsCommitted(ops, map[], i) <==> ops[i].deps == []
    {
      if ops[i].deps != [] {
        assert ops[i].deps[0] in ops[i].deps;
      }
    }
  }

  method InitialHeap(ops: seq<Operation>, chronological: bool) returns (heap: Heap, pending: seq<nat>)
    requires WellFormed(ops)
    ensures forall i: nat :: i in heap <==> i < |ops| && ops[i].deps == []
    ensures forall i :: i in heap ==> heap[i] == if chronological then 0.0 else i as real
    ensures Counts(ops, map[], pending)
  {
    heap, pending := map[], [];
    for i := 0 to |ops|
      invariant |pending| == i && forall j :: 0 <= j < i ==> pending[j] == |ops[j].deps|
      invariant forall j: nat :: j in heap <==> j < i && ops[j].deps == []
      invariant forall j :: j in heap ==> heap[j] == if chronological then 0.0 else j as real
    {
      pending := pending + [|ops[i].deps|];
      if |ops[i].deps| == 0 {
        heap := heap[i := if chronological then 0.0 else i as real];
      }
    }
    forall i | 0 <= i < |ops|
      ensures pending[i] == Waiting(map[], ops[i].deps, |ops[i].deps|)
    {
      AllWaiting(ops[i].deps, |ops[i].deps|);
    }
  }

  lemma {:induction false} AllWaiting(deps: seq<nat>, k: nat)
    requires k <= |deps|
    ensures Waiting(map[], deps, k) == k
  {
    if k > 0 {
      AllWaiting(deps, k - 1);
    }
  }

  // What one commitment leaves behind.
  lemma CommitLedger(ops: seq<Operation>, events: Events, order: seq<nat>, calendars: Calendars, booked: Calendars, o: nat, start: real)
    requires Ledger(ops, events, order, calendars)
    requires o < |ops| && o !in events && DepsCommitted(ops, events, o)
    requires LeastFree(calendars, ops[o].resources, Earliest(ops, events, o), ops[o].duration, start)
    requires start == Earliest(ops, events, o) || exists r, i :: r in ops[o].resources && 0 <= i < |Entries(calendars, r)|
                                                             && Entries(calendars, r)[i].right == start
    requires Reserved(calendars, booked, ops[o].resources, |ops[o].resources|, At(ops, o, start))
    ensures 0.0 <= start && Ledger(ops, events[o := At(ops, o, start)], order + [o], booked)
  {
    hide LeastFree, Reserved, Loaded, Within, Booked;
    MaxEndAttained(events, ops[o].deps, |ops[o].deps|);
    StartNonNegative(ops, events, calendars, o, start);
    CommitJustified(ops, events, order, calendars, o, start);
    CommitBooked(ops, events, calendars, booked, o, start);
    CommitLoaded(ops, order, calendars, booked, o, At(ops, o, start));
    CommitWithin(ops, events, order, calendars, o, start);
  }

  lemma StartNonNegative(ops: seq<Operation>, events: Events, calendars: Calendars, o: nat, start: real)
    requires o < |ops| && DepsCommitted(ops, events, o) && Earliest(ops, events, o) >= 0.0
    requires LeastFree(calendars, ops[o].resources, Earliest(ops, events, o), ops[o].duration, start)
    ensures 0.0 <= start
  {
  }

  // Everything a returned schedule satisfies.
  ghost predicate Complete(ops: seq<Operation>, events: Events, order: seq<nat>, calendars: Calendars, chronological: bool) {
    && Ledger(ops, events, order, calendars)
    && (chronological ==> Chronological(ops, events, order))
    && (!chronological ==> InputOrder(ops, order))
  }

  // The key of a popped operation, refreshed to its least start, is still a valid key.
  lemma RefreshKeyed(ops: seq<Operation>, events: Events, order: seq<nat>, calendars: Calendars, heap: Heap, o: nat, start: real)
    requires Keyed(ops, events, order, calendars, heap, true) && o in heap
    requires LeastFree(calendars, ops[o].resources, Earliest(ops, events, o), ops[o].duration, start)
    ensures heap[o] <= start
    ensures Keyed(ops, events, order, calendars, (heap - {o})[o := start], true)
  {
  }

  // An operation overtaken by the rest of the heap had a stale key.
  lemma RefreshFreshens(ops: seq<Operation>, events: Events, calendars: Calendars, heap: Heap, o: nat, top: nat, start: real)
    requires Queued(ops, events, heap) && Top(heap, o) && top in heap && top != o
    requires Queued(ops, events, (heap - {o})[o := start])
    requires LeastFree(calendars, ops[o].resources, Earliest(ops, events, o), ops[o].duration, start)
    requires Before(heap[top], top, start, o)
    ensures Stale(ops, events, calendars, (heap - {o})[o := start]) < Stale(ops, events, calendars, heap)
  {
    var resources, earliest, duration := ops[o].resources, Earliest(ops, events, o), ops[o].duration;
    if LeastFree(calendars, resources, earliest, duration, heap[o]) {
      LeastFreeUnique(calendars, resources, earliest, duration, heap[o], start);
      assert false;
    }
    hide LeastFree;
    assert o in Stale(ops, events, calendars, heap);
    assert o !in Stale(ops, events, calendars, (heap - {o})[o := start]);
  }

  // Everything the loop keeps.
  ghost predicate Running(ops: seq<Operation>, chronological: bool, events: Events, order: seq<nat>, booked: Calendars,
                          pending: seq<nat>, heap: Heap)
  {
    && Ledger(ops, events, order, booked) && Counts(ops, events, pending)
    && Keyed(ops, events, order, booked, heap, chronological)
    && (chronological ==> Chronological(ops, events, order))
    && (!chronological ==> InputOrder(ops, order))
  }

  // What the policy asks of the operation about to be committed.
  ghost predicate Chosen(chronological: bool, heap: Heap, o: nat, start: real) {
    && Top(heap, o)
    && (chronological ==> forall i :: i in heap && i != o ==> Before(start, o, heap[i], i))
  }

  // The policy's promise survives committing `o`.
  lemma CommitPolicy(ops: seq<Operation>, chronological: bool, events: Events, order: seq<nat>, calendars: Calendars,
                     pending: seq<nat>, heap: Heap, o: nat, start: real)
    requires Running(ops, chronological, events, order, calendars, pending, heap)
    requires Chosen(chronological, heap, o, start) && 0.0 <= start
    requires LeastFree(calendars, ops[o].resources, Earliest(ops, events, o), ops[o].duration, start)
    ensures chronological ==> Chronological(ops, events[o := At(ops, o, start)], order + [o])
    ensures !chronological ==> InputOrder(ops, order + [o])
  {
    hide Chronological, InputOrder, LeastFree, Ordering, Booked, Loaded, Within, LowerBound, Counts;
    if chronological {
      RefreshKeyed(ops, events, order, calendars, heap, o, start);
      var rest := heap - {o};
      assert rest + map[o := start] == rest[o := start];
      CommitChronological(ops, events, order, calendars, rest, o, start);
    } else {
      CommitInputOrder(ops, events, order, calendars, heap, o);
    }
  }

  // The keys of the refilled heap after committing `o`.
  lemma CommitQueue(ops: seq<Operation>, chronological: bool, events: Events, order: seq<nat>, calendars: Calendars,
                    booked: Calendars, heap: Heap, queue: Heap, o: nat, start: real)
    requires WellFormed(ops) && Ordering(ops, events, order) && Keyed(ops, events, order, calendars, heap, chronological)
    requires Chosen(chronological, heap, o, start)
    requires LeastFree(calendars, ops[o].resources, Earliest(ops, events, o), ops[o].duration, start)
    requires Reserved(calendars, booked, ops[o].resources, |ops[o].resources|, At(ops, o, start))
    requires Queued(ops, events[o := At(ops, o, start)], queue)
    requires Refilled(ops, events[o := At(ops, o, start)], chronological, o, heap - {o}, queue)
    ensures Keyed(ops, events[o := At(ops, o, start)], order + [o], booked, queue, chronological)
  {
    var rest := heap - {o};
    var key := if chronological then start else o as real;
    if chronological {
      RefreshKeyed(ops, events, order, calendars, heap, o, start);
    } else {
      assert rest[o := key] == heap;
    }
    hide LeastFree, LowerBound, Reserved, Refilled, Queued, Ordering;
    assert rest + map[o := key] == rest[o := key];
    CommitKeyed(ops, events, order, calendars, booked, rest, queue, o, start, chronological);
  }

  // Books the chosen operation and queues the children it releases.
  method Commit(ops: seq<Operation>, chronological: bool, children: seq<nat>, events: Events, order: seq<nat>,
                calendars: Calendars, pending: seq<nat>, heap: Heap, o: nat, start: real)
      returns (grown: Events, booked: Calendars, counts: seq<nat>, queue: Heap)
    requires Running(ops, chronological, events, order, calendars, pending, heap)
    requires Chosen(chronological, heap, o, start)
    requires Distinct(children) && forall c: nat :: c in children <==> DependsOn(ops, c, o)
    requires LeastFree(calendars, ops[o].resources, Earliest(ops, events, o), ops[o].duration, start)
    requires start == Earliest(ops, events, o) || exists r, i :: r in ops[o].resources && 0 <= i < |Entries(calendars, r)|
                                                             && Entries(calendars, r)[i].right == start
    ensures Running(ops, chronological, grown, order + [o], booked, counts, queue)
  {
    hide Chronological, InputOrder, LowerBound, Loaded, Within, Refilled, Justified, Counts, Orderly;
    booked := Reserve(calendars, ops[o].resources, At(ops, o, start));
    CommitLedger(ops, events, order, calendars, booked, o, start);
    CommitPolicy(ops, chronological, events, order, calendars, pending, heap, o, start);
    grown := events[o := At(ops, o, start)];
    assert Ordering(ops, events, order) by { JustifiedOrdering(ops, events, order); }
    assert forall i :: i in grown && i < |ops| ==> DepsCommitted(ops, events, i) by {
      EarlierDeps(ops, events, order);
    }
    hide Booked, LeastFree, Reserved, Ordering;
    assert Queued(ops, events, (heap - {o}) + map[o := 0.0]);
    counts, queue := ReleaseChildren(ops, children, events, grown, o, chronological, pending, heap - {o});
    hide Queued, Keyed, Chosen, WellFormed;
    CommitQueue(ops, chronological, events, order, calendars, booked, heap, queue, o, start);
  }

  lemma JustifiedOrdering(ops: seq<Operation>, events: Events, order: seq<nat>)
    requires Justified(ops, events, order)
    ensures Ordering(ops, events, order)
  {
  }

  lemma EarlierDeps(ops: seq<Operation>, events: Events, order: seq<nat>)
    requires Ordering(ops, events, order)
    ensures forall i :: i in events ==> i < |ops| && DepsCommitted(ops, events, i)
  {
    forall i | i in events
      ensures i < |ops| && DepsCommitted(ops, events, i)
    {
      var k :| 0 <= k < |order| && order[k] == i;
      forall d | d in ops[i].deps
        ensures d in events
      {
        assert d in order[..k];
      }
    }
  }

  // Distinct positions below n are at most n.
  lemma {:induction false} Pigeonhole(s: seq<nat>, n: nat)
    requires Distinct(s) && forall k :: 0 <= k < |s| ==> s[k] < n
    ensures |s| <= n
  {
    assert |s| > 0 ==> s[0] < n;
    if n > 0 {
      assert forall k :: 0 <= k < |s| ==> s[k] in s;
      if n - 1 in s {
        var k :| 0 <= k < |s| && s[k] == n - 1;
        Pigeonhole(s[..k] + s[k + 1..], n - 1);
      } else {
        Pigeonhole(s, n - 1);
      }
    }
  }

  // An operation that is not overtaken by the rest of the heap is the policy's choice.
  lemma TopChosen(chronological: bool, heap: Heap, o: nat, start: real)
    requires Top(heap, o)
    requires chronological && heap - {o} != map[] ==> exists top :: Top(heap - {o}, top) && !Before(heap[top], top, start, o)
    ensures Chosen(chronological, heap, o, start)
  {
    if chronological && heap - {o} == map[] {
      assert forall i :: i in heap && i != o ==> i in heap - {o};
    } else if chronological {
      var top :| Top(heap - {o}, top) && !Before(heap[top], top, start, o);
      forall i | i in heap && i != o
        ensures Before(start, o, heap[i], i)
      {
        assert i in heap - {o};
      }
    }
  }

  lemma ChildrenOf(ops: seq<Operation>, children: seq<seq<nat>>, o: nat)
    requires Children(ops, children) && o < |ops|
    ensures Distinct(children[o]) && forall c: nat :: c in children[o] <==> DependsOn(ops, c, o)
  {
  }

  // The least start of a ready operation: zero, a dependency's end or a reservation's end.
  method LeastStart(ops: seq<Operation>, events: Events, calendars: Calendars, o: nat) returns (start: real)
    requires WellFormed(ops) && Booked(ops, events, calendars) && o < |ops| && DepsCommitted(ops, events, o)
    ensures LeastFree(calendars, ops[o].resources, Earliest(ops, events, o), ops[o].duration, start)
    ensures start == Earliest(ops, events, o) || exists r, i :: r in ops[o].resources && 0 <= i < |Entries(calendars, r)|
                                                            && Entries(calendars, r)[i].right == start
  {
    var earliest := LatestEnd(events, ops[o].deps);
    start := FirstGap(calendars, ops[o].resources, earliest, ops[o].duration);
  }

  /**
   List scheduling.  The loop ends because a refreshed key is exact: popped again
   before any commitment, it is committed.
   */
  method Dispatch(ops: seq<Operation>, chronological: bool)
      returns (events: Events, order: seq<nat>, ghost calendars: Calendars)
    requires WellFormed(ops)
    ensures Complete(ops, events, order, calendars, chronological)
    ensures Queued(ops, events, map[])
  {
    hide Chronological, InputOrder, LowerBound, Booked, Loaded, Within, Justified, LeastFree, Reserved, Orderly, Clear, Children, Counts, WellFormed;
    var children := BuildChildren(ops);
    var heap, pending := InitialHeap(ops, chronological);
    InitialLedger(ops, heap, chronological);
    events, order := map[], [];
    var booked: Calendars := map[];
    while heap != map[]
      invariant Running(ops, chronological, events, order, booked, pending, heap)
      invariant |order| <= |ops|
      decreases |ops| - |order|, Stale(ops, events, booked, heap)
    {
      var o := Peek(heap);
      var rest := heap - {o};
      var start := LeastStart(ops, events, booked, o);
      if chronological && rest != map[] {
        var top := Peek(rest);
        if Before(rest[top], top, start, o) {
          RefreshKeyed(ops, events, order, booked, heap, o, start);
          RefreshFreshens(ops, events, booked, heap, o, top, start);
          heap := rest[o := start];
          continue;
        }
      }
      TopChosen(chronological, heap, o, start);
      ChildrenOf(ops, children, o);
      events, booked, pending, heap := Commit(ops, chronological, children[o], events, order, booked, pending, heap, o, start);
      order := order + [o];
      CommittedOnce(ops, events, order);
    }
    calendars := booked;
  }

  lemma CommittedOnce(ops: seq<Operation>, events: Events, order: seq<nat>)
    requires Justified(ops, events, order)
    ensures |order| <= |ops|
  {
    Pigeonhole(order, |ops|);
  }
}
