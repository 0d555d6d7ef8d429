/**
 What a committed schedule must satisfy, stated on the events alone, and the
 lemma that one more commitment keeps it.
 */
module Schedule {
  import opened Basics
  import opened Calendar

  // Operations are identified by their position; control milestones take no time
  // and no resource, all other operations take both.
  datatype Operation = Operation(duration: real, resources: seq<Resource>, deps: seq<nat>)

  type Events = map<nat, Interval>

  ghost predicate WellFormed(ops: seq<Operation>) {
    && ops != []
    && forall i :: 0 <= i < |ops| ==>
         && (if ops[i].resources == [] then ops[i].duration == 0.0 else ops[i].duration > 0.0)
         && Distinct(ops[i].resources) && Distinct(ops[i].deps)
         && forall d :: d in ops[i].deps ==> d < |ops|
  }

  predicate Shares(ops: seq<Operation>, i: nat, j: nat)
    requires i < |ops| && j < |ops|
  {
    exists r :: r in ops[i].resources && r in ops[j].resources
  }

  predicate Overlap(a: Interval, b: Interval) {
    a.left < b.right && b.left < a.right
  }

  // Latest end among the first k dependencies, zero when there is none.
  function MaxEnd(events: Events, deps: seq<nat>, k: nat): real
    requires k <= |deps| && forall d :: d in deps ==> d in events
  {
    if k == 0 then 0.0
    else
      var rest := MaxEnd(events, deps, k - 1);
      var end := events[deps[k - 1]].right;
      if rest < end then end else rest
  }

  function Earliest(ops: seq<Operation>, events: Events, i: nat): real
    requires i < |ops| && forall d :: d in ops[i].deps ==> d in events
  {
    MaxEnd(events, ops[i].deps, |ops[i].deps|)
  }

  // Interval of operation i if it started at s.
  function At(ops: seq<Operation>, i: nat, s: real): Interval
    requires i < |ops|
  {
    Interval(s, s + ops[i].duration)
  }

  // Starting i at s meets none of the given operations on a shared resource.
  ghost predicate Fits(ops: seq<Operation>, events: Events, others: seq<nat>, i: nat, s: real)
    requires i < |ops| && forall j :: j in others ==> j < |ops| && j in events
  {
    forall j :: j in others && Shares(ops, i, j) ==> !Overlap(At(ops, i, s), events[j])
  }

  // Dependencies come earlier in the order, and every operation once.
  ghost predicate Ordering(ops: seq<Operation>, events: Events, order: seq<nat>) {
    && Distinct(order)
    && (forall i :: i in events <==> i in order)
    && (forall k :: 0 <= k < |order| ==> order[k] < |ops| && events[order[k]] == At(ops, order[k], events[order[k]].left))
    && (forall k, d :: 0 <= k < |order| && d in ops[order[k]].deps ==> d in order[..k])
    && (forall i :: i in events ==> 0.0 <= events[i].left)
  }

  // Each start is the least one that respects dependencies and earlier commitments.
  ghost predicate LeastAt(ops: seq<Operation>, events: Events, order: seq<nat>, k: nat)
    requires Ordering(ops, events, order) && k < |order|
  {
    var o := order[k];
    var start := events[o].left;
    && DepsCommitted(ops, events, o)
    && Earliest(ops, events, o) <= start
    && Fits(ops, events, order[..k], o, start)
    && forall s :: Earliest(ops, events, o) <= s < start ==> !Fits(ops, events, order[..k], o, s)
  }

  predicate DepsCommitted(ops: seq<Operation>, events: Events, i: nat)
    requires i < |ops|
  {
    forall d :: d in ops[i].deps ==> d in events
  }

  ghost predicate Justified(ops: seq<Operation>, events: Events, order: seq<nat>) {
    Ordering(ops, events, order) && forall k :: 0 <= k < |order| ==> LeastAt(ops, events, order, k)
  }

  // ----- Calendars that mirror the events

  ghost predicate Booked(ops: seq<Operation>, events: Events, calendars: Calendars) {
    && AllOrderly(calendars)
    && (forall i, r :: i in events && i < |ops| && r in ops[i].resources ==> events[i] in Entries(calendars, r))
    && (forall r, e :: e in Entries(calendars, r) ==> exists i :: Holder(ops, events, i, r, e))
  }

  ghost predicate Holder(ops: seq<Operation>, events: Events, i: nat, r: Resource, e: Interval) {
    i in events && i < |ops| && r in ops[i].resources && events[i] == e
  }

  lemma FreeFits(ops: seq<Operation>, events: Events, order: seq<nat>, calendars: Calendars, i: nat, s: real)
    requires WellFormed(ops) && Ordering(ops, events, order) && Booked(ops, events, calendars) && i < |ops|
    requires Free(calendars, ops[i].resources, s, ops[i].duration)
    ensures Fits(ops, events, order, i, s)
  {
    forall j | j in order && Shares(ops, i, j)
      ensures !Overlap(At(ops, i, s), events[j])
    {
      var r :| r in ops[i].resources && r in ops[j].resources;
      assert Clear(Entries(calendars, r), s, ops[i].duration) && events[j] in Entries(calendars, r);
    }
  }

  lemma FitsClear(ops: seq<Operation>, events: Events, order: seq<nat>, calendars: Calendars, i: nat, s: real, r: Resource)
    requires WellFormed(ops) && Ordering(ops, events, order) && Booked(ops, events, calendars) && i < |ops|
    requires Fits(ops, events, order, i, s) && r in ops[i].resources
    ensures Clear(Entries(calendars, r), s, ops[i].duration)
  {
    hide Ordering, AllOrderly;
    forall k | 0 <= k < |Entries(calendars, r)|
      ensures Entries(calendars, r)[k].right <= s || s + ops[i].duration <= Entries(calendars, r)[k].left
    {
      var e := Entries(calendars, r)[k];
      assert e in Entries(calendars, r);
      var j :| Holder(ops, events, j, r, e);
      InOrder(ops, events, order, j);
      assert Shares(ops, i, j);
    }
  }

  lemma InOrder(ops: seq<Operation>, events: Events, order: seq<nat>, j: nat)
    requires Ordering(ops, events, order) && j in events
    ensures j in order && j < |ops|
  {
  }

  // A start is free in the calendars exactly when it fits all committed operations.
  lemma FreeIsFits(ops: seq<Operation>, events: Events, order: seq<nat>, calendars: Calendars, i: nat, s: real)
    requires WellFormed(ops) && Ordering(ops, events, order) && Booked(ops, events, calendars) && i < |ops|
    ensures Free(calendars, ops[i].resources, s, ops[i].duration) <==> Fits(ops, events, order, i, s)
  {
    hide Booked;
    if Free(calendars, ops[i].resources, s, ops[i].duration) {
      FreeFits(ops, events, order, calendars, i, s);
    }
    if Fits(ops, events, order, i, s) {
      forall r | r in ops[i].resources
        ensures Clear(Entries(calendars, r), s, ops[i].duration)
      {
        FitsClear(ops, events, order, calendars, i, s, r);
      }
    }
  }

  // ----- One more commitment

  lemma MaxEndExtends(events: Events, grown: Events, deps: seq<nat>, k: nat)
    requires k <= |deps| && forall d :: d in deps ==> d in events && d in grown && grown[d] == events[d]
    ensures MaxEnd(grown, deps, k) == MaxEnd(events, deps, k)
  {
  }

  // Committing `o` at `start`.
  lemma CommitOrdering(ops: seq<Operation>, events: Events, order: seq<nat>, o: nat, start: real)
    requires WellFormed(ops) && Ordering(ops, events, order) && o < |ops| && o !in events && 0.0 <= start
    requires DepsCommitted(ops, events, o)
    ensures Ordering(ops, events[o := At(ops, o, start)], order + [o])
  {
    var grown, longer := events[o := At(ops, o, start)], order + [o];
    forall k, d | 0 <= k < |longer| && d in ops[longer[k]].deps
      ensures d in longer[..k]
    {
      assert longer[..k] == order[..k];
    }
  }

  lemma CommitJustified(ops: seq<Operation>, events: Events, order: seq<nat>, calendars: Calendars, o: nat, start: real)
    requires WellFormed(ops) && Justified(ops, events, order) && Booked(ops, events, calendars)
    requires o < |ops| && o !in events && DepsCommitted(ops, events, o)
    requires LeastFree(calendars, ops[o].resources, Earliest(ops, events, o), ops[o].duration, start) && 0.0 <= start
    ensures Justified(ops, events[o := At(ops, o, start)], order + [o])
  {
    var grown, longer := events[o := At(ops, o, start)], order + [o];
    CommitOrdering(ops, events, order, o, start);
    forall k | 0 <= k < |longer|
      ensures LeastAt(ops, grown, longer, k)
    {
      assert longer[..k] == order[..k];
      if k < |order| {
        LeastAtExtends(ops, events, grown, order, longer, k);
      } else {
        LastIsLeast(ops, events, order, calendars, o, start);
      }
    }
  }

  lemma LeastAtExtends(ops: seq<Operation>, events: Events, grown: Events, order: seq<nat>, longer: seq<nat>, k: nat)
    requires Ordering(ops, events, order) && Ordering(ops, grown, longer) && k < |order| <= |longer|
    requires LeastAt(ops, events, order, k) && longer[k] == order[k] && longer[..k] == order[..k]
    requires forall i :: i in events ==> i in grown && grown[i] == events[i]
    ensures LeastAt(ops, grown, longer, k)
  {
    MaxEndExtends(events, grown, ops[order[k]].deps, |ops[order[k]].deps|);
    forall s
      ensures Fits(ops, events, order[..k], order[k], s) <==> Fits(ops, grown, order[..k], order[k], s)
    {
    }
  }

  lemma LastIsLeast(ops: seq<Operation>, events: Events, order: seq<nat>, calendars: Calendars, o: nat, start: real)
    requires WellFormed(ops) && Ordering(ops, events, order) && Booked(ops, events, calendars)
    requires o < |ops| && o !in events && DepsCommitted(ops, events, o)
    requires LeastFree(calendars, ops[o].resources, Earliest(ops, events, o), ops[o].duration, start) && 0.0 <= start
    requires Ordering(ops, events[o := At(ops, o, start)], order + [o])
    ensures LeastAt(ops, events[o := At(ops, o, start)], order + [o], |order|)
  {
    var grown, longer := events[o := At(ops, o, start)], order + [o];
    assert longer[..|order|] == order;
    MaxEndExtends(events, grown, ops[o].deps, |ops[o].deps|);
    forall s
      ensures Fits(ops, grown, order, o, s) <==> Free(calendars, ops[o].resources, s, ops[o].duration)
    {
      FreeIsFits(ops, events, order, calendars, o, s);
      assert forall j :: j in order ==> grown[j] == events[j];
    }
  }
}
