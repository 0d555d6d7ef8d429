/**
 The list scheduler: a lazily refreshed heap of ready operations, gap search in
 the calendars, and cycle detection.
 */
module Scheduler {
  import opened Basics
  import opened Calendar
  import opened Schedule

  datatype Outcome = Cycle | Scheduled(events: seq<Interval>)

  // Ready operations with their heap keys; the heap's top is the least (key, index).
  type Heap = map<nat, real>

  predicate Before(a: real, i: nat, b: real, j: nat) {
    a < b || (a == b && i < j)
  }

  ghost predicate Top(heap: Heap, i: nat) {
    i in heap && forall j :: j in heap && j != i ==> Before(heap[i], i, heap[j], j)
  }

  method Peek(heap: Heap) returns (top: nat)
    requires heap != map[]
    ensures Top(heap, top)
  {
    top :| top in heap;
    var rest := heap.Keys - {top};
    while rest != {}
      invariant top in heap && rest <= heap.Keys
      invariant forall j :: j in heap && j !in rest && j != top ==> Before(heap[top], top, heap[j], j)
      decreases rest
    {
      var j :| j in rest;
      if Before(heap[j], j, heap[top], top) {
        top := j;
      }
      rest := rest - {j};
    }
  }

  // ----- Reservations

  function LoadOn(ops: seq<Operation>, order: seq<nat>, r: Resource): real
    requires forall k :: 0 <= k < |order| ==> order[k] < |ops|
  {
    if order == [] then 0.0
    else
      var o := order[|order| - 1];
      LoadOn(ops, order[..|order| - 1], r) + if r in ops[o].resources then ops[o].duration else 0.0
  }

  ghost predicate Loaded(ops: seq<Operation>, order: seq<nat>, calendars: Calendars)
    requires forall k :: 0 <= k < |order| ==> order[k] < |ops|
  {
    forall r :: Work(Entries(calendars, r)) == LoadOn(ops, order, r)
  }

  // The calendars after booking `entry` on the first k resources.
  ghost predicate Reserved(calendars: Calendars, booked: Calendars, resources: seq<Resource>, k: nat, entry: Interval)
    requires k <= |resources|
  {
    && AllOrderly(booked)
    && (forall r :: r !in resources[..k] ==> Entries(booked, r) == Entries(calendars, r))
    && (forall r :: r in resources[..k] ==> Extended(Entries(calendars, r), Entries(booked, r), entry))
  }

  ghost predicate Extended(before: seq<Interval>, after: seq<Interval>, entry: Interval) {
    && (forall e :: e in after <==> e in before || e == entry)
    && Work(after) == Work(before) + (entry.right - entry.left)
  }

  // Books `entry` on every resource of the operation.
  method Reserve(calendars: Calendars, resources: seq<Resource>, entry: Interval) returns (booked: Calendars)
    requires AllOrderly(calendars) && Distinct(resources)
    requires resources != [] ==> entry.left < entry.right
    requires Free(calendars, resources, entry.left, entry.right - entry.left)
    ensures Reserved(calendars, booked, resources, |resources|, entry)
  {
    booked := calendars;
    for k := 0 to |resources|
      invariant Reserved(calendars, booked, resources, k, entry)
    {
      hide Clear, Orderly, Work;
      var r := resources[k];
      assert r !in resources[..k];
      assert Clear(Entries(calendars, r), entry.left, entry.right - entry.left);
      EntriesOrderly(booked, r);
      var extended := Insort(Entries(booked, r), entry);
      ReservedStep(calendars, booked, resources, k, entry, extended);
      booked := booked[r := extended];
    }
  }

  lemma EntriesOrderly(calendars: Calendars, r: Resource)
    requires AllOrderly(calendars)
    ensures Orderly(Entries(calendars, r))
  {
  }

  lemma ReservedStep(calendars: Calendars, booked: Calendars, resources: seq<Resource>, k: nat, entry: Interval,
                     extended: seq<Interval>)
    requires Distinct(resources) && k < |resources| && Reserved(calendars, booked, resources, k, entry)
    requires Orderly(extended) && Extended(Entries(booked, resources[k]), extended, entry)
    ensures Reserved(calendars, booked[resources[k] := extended], resources, k + 1, entry)
  {
    hide Extended, Orderly;
    assert resources[..k + 1] == resources[..k] + [resources[k]];
    assert resources[k] !in resources[..k];
  }

  lemma CommitBooked(ops: seq<Operation>, events: Events, calendars: Calendars, booked: Calendars, o: nat, start: real)
    requires Booked(ops, events, calendars) && o < |ops| && o !in events
    requires Reserved(calendars, booked, ops[o].resources, |ops[o].resources|, At(ops, o, start))
    ensures Booked(ops, events[o := At(ops, o, start)], booked)
  {
    hide Work;
    var grown := events[o := At(ops, o, start)];
    assert ops[o].resources[..|ops[o].resources|] == ops[o].resources;
    forall r, e | e in Entries(booked, r)
      ensures exists i :: Holder(ops, grown, i, r, e)
    {
      if e in Entries(calendars, r) {
        var i :| Holder(ops, events, i, r, e);
        assert Holder(ops, grown, i, r, e);
      } else {
        assert Holder(ops, grown, o, r, e);
      }
    }
  }

  // ----- Pending counts and the ready heap

  // Dependencies among the first k that are not committed.
  function Waiting(events: Events, deps: seq<nat>, k: nat): nat
    requires k <= |deps|
  {
    if k == 0 then 0 else Waiting(events, deps, k - 1) + if deps[k - 1] in events then 0 else 1
  }

  lemma {:induction false} NothingWaiting(events: Events, deps: seq<nat>, k: nat)
    requires k <= |deps|
    ensures Waiting(events, deps, k) == 0 <==> forall d :: d in deps[..k] ==> d in events
  {
    if k > 0 {
      NothingWaiting(events, deps, k - 1);
      assert deps[..k] == deps[..k - 1] + [deps[k - 1]];
    }
  }

  // Committing o takes it off exactly those operations that wait for it.
  lemma {:induction false} WaitingAfter(events: Events, grown: Events, deps: seq<nat>, k: nat, o: nat)
    requires k <= |deps| && Distinct(deps) && o !in events && grown.Keys == events.Keys + {o}
    ensures Waiting(grown, deps, k) == Waiting(events, deps, k) - if o in deps[..k] then 1 else 0
    ensures o in deps[..k] ==> Waiting(events, deps, k) > 0
  {
    if k > 0 {
      WaitingAfter(events, grown, deps, k - 1, o);
      assert deps[..k] == deps[..k - 1] + [deps[k - 1]];
      if deps[k - 1] == o && o in deps[..k - 1] {
        assert false;
      }
    }
  }

  ghost predicate Counts(ops: seq<Operation>, events: Events, pending: seq<nat>) {
    |pending| == |ops| && forall i :: 0 <= i < |ops| ==> pending[i] == Waiting(events, ops[i].deps, |ops[i].deps|)
  }

  // The heap holds exactly the uncommitted operations whose dependencies are committed.
  ghost predicate Queued(ops: seq<Operation>, events: Events, heap: Heap) {
    && (forall i :: i in heap ==> i < |ops| && i !in events && DepsCommitted(ops, events, i))
    && (forall i :: 0 <= i < |ops| && i !in events && DepsCommitted(ops, events, i) ==> i in heap)
  }

  predicate DependsOn(ops: seq<Operation>, c: nat, d: nat) {
    c < |ops| && d in ops[c].deps
  }

  ghost predicate Children(ops: seq<Operation>, children: seq<seq<nat>>) {
    |children| == |ops| &&
    forall d :: 0 <= d < |ops| ==> Distinct(children[d]) && forall c: nat :: c in children[d] <==> DependsOn(ops, c, d)
  }

  method BuildChildren(ops: seq<Operation>) returns (children: seq<seq<nat>>)
    requires WellFormed(ops)
    ensures Children(ops, children)
  {
    children := seq(|ops|, d => []);
    assert forall d :: 0 <= d < |ops| ==> children[d] == [];
    for c := 0 to |ops|
      invariant |children| == |ops|
      invariant forall d :: 0 <= d < |ops| ==>
                  Distinct(children[d]) && forall b: nat :: b in children[d] <==> b < c && DependsOn(ops, b, d)
    {
      ghost var before := children;
      for k := 0 to |ops[c].deps|
        invariant |children| == |ops|
        invariant forall d :: 0 <= d < |ops| ==>
                    children[d] == before[d] + if d in ops[c].deps[..k] then [c] else []
      {
        var d := ops[c].deps[k];
        assert d in ops[c].deps && d !in ops[c].deps[..k];
        assert ops[c].deps[..k + 1] == ops[c].deps[..k] + [d];
        children := children[d := children[d] + [c]];
      }
      assert ops[c].deps[..|ops[c].deps|] == ops[c].deps;
      forall d | 0 <= d < |ops|
        ensures Distinct(children[d]) && forall b: nat :: b in children[d] <==> b < c + 1 && DependsOn(ops, b, d)
      {
        ChildAppended(ops, before[d], children[d], c, d);
      }
    }
  }

  lemma ChildAppended(ops: seq<Operation>, before: seq<nat>, after: seq<nat>, c: nat, d: nat)
    requires c < |ops| && after == before + if d in ops[c].deps then [c] else []
    requires Distinct(before) && forall b: nat :: b in before <==> b < c && DependsOn(ops, b, d)
    ensures Distinct(after) && forall b: nat :: b in after <==> b < c + 1 && DependsOn(ops, b, d)
  {
    assert c !in before;
    assert forall i :: 0 <= i < |before| ==> before[i] in before;
  }

  // Key under which a newly ready operation enters the heap.
  function EntryKey(ops: seq<Operation>, events: Events, chronological: bool, i: nat): real
    requires i < |ops| && DepsCommitted(ops, events, i)
  {
    if chronological then Earliest(ops, events, i) else i as real
  }

  // The old entries, plus those operations the commitment of `o` made ready.
  ghost predicate Refilled(ops: seq<Operation>, grown: Events, chronological: bool, o: nat, before: Heap, after: Heap) {
    && (forall i :: i in before ==> i in after && after[i] == before[i])
    && (forall i :: i in after && i !in before ==>
          i < |ops| && o in ops[i].deps && DepsCommitted(ops, grown, i) && after[i] == EntryKey(ops, grown, chronological, i))
  }

  // Takes `o` off its children's pending counts and queues those that became ready.
  method ReleaseChildren(ops: seq<Operation>, children: seq<nat>, ghost events: Events, grown: Events, o: nat,
                         chronological: bool, pending: seq<nat>, heap: Heap)
      returns (counts: seq<nat>, queue: Heap)
    requires WellFormed(ops) && o < |ops| && o !in events && grown.Keys == events.Keys + {o}
    requires Distinct(children) && forall c: nat :: c in children <==> DependsOn(ops, c, o)
    requires forall i :: i in grown && i < |ops| ==> DepsCommitted(ops, events, i)
    requires Counts(ops, events, pending) && Queued(ops, events, heap + map[o := 0.0]) && o !in heap
    ensures Counts(ops, grown, counts) && Queued(ops, grown, queue)
    ensures Refilled(ops, grown, chronological, o, heap, queue)
  {
    hide Waiting, Refilled, Queued, DepsCommitted, WellFormed;
    counts, queue := pending, heap;
    PendingDrops(ops, children, events, grown, o, pending);
    RefilledSelf(ops, grown, chronological, o, heap);
    for k := 0 to |children|
      invariant |counts| == |ops|
      invariant forall i :: 0 <= i < |ops| ==> counts[i] + (if i in children[..k] then 1 else 0) == pending[i]
      invariant forall i: nat :: i in queue <==> i in heap || (i < |ops| && i in children[..k] && counts[i] == 0)
      invariant Refilled(ops, grown, chronological, o, heap, queue)
    {
      var c := children[k];
      assert c in children && c !in children[..k];
      assert children[..k + 1] == children[..k] + [c];
      counts := counts[c := counts[c] - 1];
      if counts[c] == 0 {
        WaitingZero(ops, grown, c);
        NotQueued(ops, events, heap, o, c);
        RefilledMore(ops, grown, chronological, o, heap, queue, c);
        queue := queue[c := EntryKey(ops, grown, chronological, c)];
      }
    }
    assert children[..|children|] == children;
    QueueComplete(ops, events, grown, o, children, heap, queue, counts);
  }

  // What is left to wait for once `o` is committed.
  lemma PendingDrops(ops: seq<Operation>, children: seq<nat>, events: Events, grown: Events, o: nat, pending: seq<nat>)
    requires WellFormed(ops) && o !in events && grown.Keys == events.Keys + {o} && Counts(ops, events, pending)
    requires forall c: nat :: c in children <==> DependsOn(ops, c, o)
    ensures forall i :: 0 <= i < |ops| ==> Waiting(grown, ops[i].deps, |ops[i].deps|) + (if i in children then 1 else 0) == pending[i]
    ensures forall i :: 0 <= i < |ops| && i in children ==> pending[i] > 0
  {
    forall i | 0 <= i < |ops|
      ensures Waiting(grown, ops[i].deps, |ops[i].deps|) + (if i in children then 1 else 0) == pending[i]
      ensures i in children ==> pending[i] > 0
    {
      WaitingAfter(events, grown, ops[i].deps, |ops[i].deps|, o);
      assert ops[i].deps[..|ops[i].deps|] == ops[i].deps;
    }
  }

  lemma RefilledSelf(ops: seq<Operation>, grown: Events, chronological: bool, o: nat, heap: Heap)
    ensures Refilled(ops, grown, chronological, o, heap, heap)
  {
  }

  lemma RefilledMore(ops: seq<Operation>, grown: Events, chronological: bool, o: nat, before: Heap, after: Heap, c: nat)
    requires Refilled(ops, grown, chronological, o, before, after) && c < |ops| && o in ops[c].deps && c !in before
    requires DepsCommitted(ops, grown, c)
    ensures Refilled(ops, grown, chronological, o, before, after[c := EntryKey(ops, grown, chronological, c)])
  {
  }

  lemma WaitingZero(ops: seq<Operation>, grown: Events, i: nat)
    requires i < |ops|
    ensures Waiting(grown, ops[i].deps, |ops[i].deps|) == 0 <==> DepsCommitted(ops, grown, i)
  {
    NothingWaiting(grown, ops[i].deps, |ops[i].deps|);
    assert ops[i].deps[..|ops[i].deps|] == ops[i].deps;
  }

  // A child of an uncommitted operation is not ready.
  lemma NotQueued(ops: seq<Operation>, events: Events, heap: Heap, o: nat, c: nat)
    requires Queued(ops, events, heap + map[o := 0.0]) && o !in events && c < |ops| && o in ops[c].deps
    ensures c !in heap
  {
    assert c in heap ==> c in heap + map[o := 0.0];
  }

  lemma QueueComplete(ops: seq<Operation>, events: Events, grown: Events, o: nat, children: seq<nat>,
                      heap: Heap, queue: Heap, counts: seq<nat>)
    requires WellFormed(ops) && o < |ops| && o !in events && grown.Keys == events.Keys + {o} && o !in heap
    requires forall c: nat :: c in children <==> DependsOn(ops, c, o)
    requires forall i :: i in grown && i < |ops| ==> DepsCommitted(ops, events, i)
    requires Queued(ops, events, heap + map[o := 0.0]) && Counts(ops, grown, counts)
    requires forall i: nat :: i in queue <==> i in heap || (i < |ops| && i in children && counts[i] == 0)
    ensures Queued(ops, grown, queue)
  {
    forall i | i in queue
      ensures i < |ops| && i !in grown && DepsCommitted(ops, grown, i)
    {
      if i in heap {
        assert i in heap + map[o := 0.0];
      } else {
        WaitingZero(ops, grown, i);
      }
    }
    forall i | 0 <= i < |ops| && i !in grown && DepsCommitted(ops, grown, i)
      ensures i in queue
    {
      WaitingZero(ops, grown, i);
      if i !in children {
        assert DepsCommitted(ops, events, i);
        assert i in heap + map[o := 0.0];
      }
    }
  }
}
