/** When each buffer is allocated, released and in use. */
module Lifetimes {
  import opened Basics
  import opened Alignment
  import opened Calendar
  import opened Intervals

  datatype Buffer = Buffer(bytes: nat, pool: nat, component: string, owner: string, uses: seq<nat>, persistent: bool,
                           allocateBefore: Option<nat>, releaseAfter: Option<nat>)

  datatype Lifetime = Lifetime(bytes: nat, pool: nat, component: string, owner: string, persistent: bool,
                               left: real, right: real, active: seq<Interval>)

  // References name operations, and a transient buffer has something to anchor it.
  ghost predicate WellDeclared(buffer: Buffer, n: nat) {
    && (forall u :: u in buffer.uses ==> u < n)
    && (buffer.allocateBefore.Some? ==> buffer.allocateBefore.value < n)
    && (buffer.releaseAfter.Some? ==> buffer.releaseAfter.value < n)
    && (buffer.persistent ==> buffer.allocateBefore.None? && buffer.releaseAfter.None?)
    && (buffer.uses == [] ==> buffer.persistent || (buffer.allocateBefore.Some? && buffer.releaseAfter.Some?))
  }

  function UseIntervals(buffer: Buffer, events: seq<Interval>): (intervals: seq<Interval>)
    requires WellDeclared(buffer, |events|)
    ensures |intervals| == |buffer.uses|
    ensures forall i :: 0 <= i < |intervals| ==> buffer.uses[i] in buffer.uses && intervals[i] == events[buffer.uses[i]]
  {
    seq(|buffer.uses|, i requires 0 <= i < |buffer.uses| => assert buffer.uses[i] in buffer.uses; events[buffer.uses[i]])
  }

  // `left` is the anchor's start, or the first use's.
  ghost predicate StartsAt(buffer: Buffer, events: seq<Interval>, left: real)
    requires WellDeclared(buffer, |events|)
  {
    if buffer.persistent then left == 0.0
    else if buffer.allocateBefore.Some? then left == events[buffer.allocateBefore.value].left
    else (forall u :: u in buffer.uses ==> left <= events[u].left) && exists u :: u in buffer.uses && left == events[u].left
  }

  // `right` is the trace's end, the anchor's end, or the last use's.
  ghost predicate EndsAt(buffer: Buffer, events: seq<Interval>, duration: real, right: real)
    requires WellDeclared(buffer, |events|)
  {
    if buffer.persistent then right == duration
    else if buffer.releaseAfter.Some? then right == events[buffer.releaseAfter.value].right
    else (forall u :: u in buffer.uses ==> events[u].right <= right) && exists u :: u in buffer.uses && right == events[u].right
  }

  ghost predicate CoversUses(buffer: Buffer, events: seq<Interval>, left: real, right: real)
    requires WellDeclared(buffer, |events|)
  {
    left <= right && forall u :: u in buffer.uses ==> left <= events[u].left && events[u].right <= right
  }

  // A separated union starts with its least and ends with its greatest point.
  lemma UnionEnds(intervals: seq<Interval>, merged: seq<Interval>)
    requires Forward(intervals) && intervals != []
    requires Separated(merged) && SameUnion(intervals, merged) && Enclosed(intervals, merged)
    ensures |merged| > 0
    ensures forall i :: 0 <= i < |intervals| ==> merged[0].left <= intervals[i].left && intervals[i].right <= merged[|merged| - 1].right
    ensures exists i :: 0 <= i < |intervals| && intervals[i].left == merged[0].left
    ensures exists i :: 0 <= i < |intervals| && intervals[i].right == merged[|merged| - 1].right
  {
    UnionSpans(intervals, merged);
    hide Enclosed, Separated;
    UnionPoint(intervals, merged, 0, merged[0].left);
    UnionPoint(intervals, merged, |merged| - 1, merged[|merged| - 1].right);
  }

  lemma UnionSpans(intervals: seq<Interval>, merged: seq<Interval>)
    requires Forward(intervals) && intervals != [] && Separated(merged) && Enclosed(intervals, merged)
    ensures |merged| > 0 && merged[0].left <= merged[0].right
    ensures merged[|merged| - 1].left <= merged[|merged| - 1].right
    ensures forall i :: 0 <= i < |intervals| ==> merged[0].left <= intervals[i].left && intervals[i].right <= merged[|merged| - 1].right
  {
    assert |intervals| > 0;
    assert Lodged(intervals[0], merged);
    var some :| 0 <= some < |merged| && Inside(intervals[0], merged[some]);
    forall i | 0 <= i < |intervals|
      ensures merged[0].left <= intervals[i].left && intervals[i].right <= merged[|merged| - 1].right
    {
      assert Lodged(intervals[i], merged);
      var j :| 0 <= j < |merged| && Inside(intervals[i], merged[j]);
    }
  }

  // A point of the merged union is a point of some interval.
  lemma UnionPoint(intervals: seq<Interval>, merged: seq<Interval>, k: nat, t: real)
    requires SameUnion(intervals, merged) && k < |merged| && Touches(merged[k], t)
    ensures exists i :: 0 <= i < |intervals| && Touches(intervals[i], t)
  {
    assert Meets(merged, t);
    assert SamePoint(intervals, merged, t);
  }

  // The declared ends of the buffer take in every use.
  ghost predicate Covered(buffer: Buffer, events: seq<Interval>, duration: real)
    requires WellDeclared(buffer, |events|)
  {
    exists left, right :: StartsAt(buffer, events, left) && EndsAt(buffer, events, duration, right)
                          && CoversUses(buffer, events, left, right)
  }

  // The buffer's lifetime: declared ends, rounded size, and its uses as separated intervals.
  ghost predicate Describes(buffer: Buffer, events: seq<Interval>, duration: real, alignment: nat, life: Lifetime)
    requires WellDeclared(buffer, |events|) && alignment > 0
  {
    && life.bytes == AlignUp(buffer.bytes, alignment) && life.pool == buffer.pool && life.owner == buffer.owner
    && life.component == buffer.component && life.persistent == buffer.persistent
    && StartsAt(buffer, events, life.left) && EndsAt(buffer, events, duration, life.right)
    && life.left <= life.right
    && Separated(life.active) && SameUnion(UseIntervals(buffer, events), life.active)
    && forall k :: 0 <= k < |life.active| ==> life.left <= life.active[k].left && life.active[k].right <= life.right
  }

  // Merged intervals lie in a window exactly when all uses do.
  lemma WindowHolds(intervals: seq<Interval>, merged: seq<Interval>, left: real, right: real)
    requires Forward(intervals) && Separated(merged) && SameUnion(intervals, merged) && Enclosed(intervals, merged)
    ensures (forall k :: 0 <= k < |merged| ==> left <= merged[k].left && merged[k].right <= right) <==>
            (forall i :: 0 <= i < |intervals| ==> left <= intervals[i].left && intervals[i].right <= right)
  {
    if intervals != [] {
      UnionEnds(intervals, merged);
      var first :| 0 <= first < |intervals| && intervals[first].left == merged[0].left;
      var last :| 0 <= last < |intervals| && intervals[last].right == merged[|merged| - 1].right;
      assert forall k :: 0 <= k < |merged| ==> merged[0].left <= merged[k].left && merged[k].right <= merged[|merged| - 1].right;
    } else if merged != [] {
      NothingToMerge(merged);
      assert false;
    }
  }

  lemma NothingToMerge(merged: seq<Interval>)
    requires Separated(merged) && merged != []
    ensures !SameUnion([], merged)
  {
    var t := merged[0].left;
    assert Touches(merged[0], t);
    assert Meets(merged, t) && !Meets([], t);
    assert !SamePoint([], merged, t);
  }

  lemma UsesForward(buffer: Buffer, events: seq<Interval>)
    requires WellDeclared(buffer, |events|) && Forward(events)
    ensures Forward(UseIntervals(buffer, events))
  {
  }

  lemma ActiveDecides(buffer: Buffer, events: seq<Interval>, active: seq<Interval>, left: real, right: real)
    requires WellDeclared(buffer, |events|) && Forward(UseIntervals(buffer, events))
    requires Separated(active) && SameUnion(UseIntervals(buffer, events), active) && Enclosed(UseIntervals(buffer, events), active)
    ensures CoversUses(buffer, events, left, right) <==>
            left <= right && forall k :: 0 <= k < |active| ==> left <= active[k].left && active[k].right <= right
  {
    hide SameUnion, Enclosed;
    UsesWindow(buffer, events, left, right);
    WindowHolds(UseIntervals(buffer, events), active, left, right);
  }

  /** A lifetime, or a refusal exactly when the declared anchors do not cover every use. */
  method ComputeLifetime(buffer: Buffer, events: seq<Interval>, duration: real, alignment: nat) returns (life: Option<Lifetime>)
    requires Forward(events) && WellDeclared(buffer, |events|) && alignment > 0
    ensures life.Some? <==> Covered(buffer, events, duration)
    ensures life.Some? ==> Describes(buffer, events, duration, alignment, life.value)
  {
    UsesForward(buffer, events);
    var active := MergeIntervals(UseIntervals(buffer, events));
    if |buffer.uses| > 0 {
      AnchorsFromUnion(buffer, events, active);
    }
    hide SameUnion, Enclosed, CoversUses, Separated;
    var left := if buffer.persistent then 0.0
                else if buffer.allocateBefore.Some? then events[buffer.allocateBefore.value].left
                else active[0].left;
    var right := if buffer.persistent then duration
                 else if buffer.releaseAfter.Some? then events[buffer.releaseAfter.value].right
                 else active[|active| - 1].right;
    ActiveDecides(buffer, events, active, left, right);
    EndsUnique(buffer, events, duration, left, right);
    hide StartsAt, EndsAt, WellDeclared;
    if right < left {
      return None;
    }
    for k := 0 to |active|
      invariant forall j :: 0 <= j < k ==> left <= active[j].left && active[j].right <= right
    {
      if active[k].left < left || right < active[k].right {
        return None;
      }
    }
    life := Some(Lifetime(AlignUp(buffer.bytes, alignment), buffer.pool, buffer.component, buffer.owner,
                          buffer.persistent, left, right, active));
  }

  lemma UsesWindow(buffer: Buffer, events: seq<Interval>, left: real, right: real)
    requires WellDeclared(buffer, |events|)
    ensures (forall i :: 0 <= i < |buffer.uses| ==>
               left <= UseIntervals(buffer, events)[i].left && UseIntervals(buffer, events)[i].right <= right)
            <==> (forall u :: u in buffer.uses ==> left <= events[u].left && events[u].right <= right)
  {
    forall i | 0 <= i < |buffer.uses|
      ensures UseIntervals(buffer, events)[i] == events[buffer.uses[i]] && buffer.uses[i] in buffer.uses
    {
    }
  }

  lemma AnchorsFromUnion(buffer: Buffer, events: seq<Interval>, active: seq<Interval>)
    requires WellDeclared(buffer, |events|) && Forward(UseIntervals(buffer, events)) && buffer.uses != []
    requires Separated(active) && SameUnion(UseIntervals(buffer, events), active) && Enclosed(UseIntervals(buffer, events), active)
    ensures active != []
    ensures forall u :: u in buffer.uses ==> active[0].left <= events[u].left && events[u].right <= active[|active| - 1].right
    ensures exists u :: u in buffer.uses && active[0].left == events[u].left
    ensures exists u :: u in buffer.uses && active[|active| - 1].right == events[u].right
  {
    var uses := UseIntervals(buffer, events);
    UnionEnds(uses, active);
    UsesWindow(buffer, events, active[0].left, active[|active| - 1].right);
    var i :| 0 <= i < |uses| && uses[i].left == active[0].left;
    var j :| 0 <= j < |uses| && uses[j].right == active[|active| - 1].right;
    assert buffer.uses[i] in buffer.uses && buffer.uses[j] in buffer.uses;
  }

  // The declaration fixes both ends.
  lemma EndsUnique(buffer: Buffer, events: seq<Interval>, duration: real, left: real, right: real)
    requires WellDeclared(buffer, |events|)
    requires StartsAt(buffer, events, left) && EndsAt(buffer, events, duration, right)
    ensures forall l, r :: StartsAt(buffer, events, l) && EndsAt(buffer, events, duration, r) ==> l == left && r == right
  {
  }

  /** A buffer has one lifetime. */
  lemma DescribesUnique(buffer: Buffer, events: seq<Interval>, duration: real, alignment: nat, one: Lifetime, other: Lifetime)
    requires WellDeclared(buffer, |events|) && alignment > 0
    requires Describes(buffer, events, duration, alignment, one) && Describes(buffer, events, duration, alignment, other)
    ensures one == other
  {
    EndsUnique(buffer, events, duration, one.left, one.right);
    hide Meets, Covers, Separated, StartsAt, EndsAt;
    var uses := UseIntervals(buffer, events);
    forall t
      ensures SamePoint(one.active, other.active, t)
    {
      assert SamePoint(uses, one.active, t) && SamePoint(uses, other.active, t);
    }
    SeparatedUnique(one.active, other.active);
  }

  /** A described lifetime takes in every use, so the declaration covers them. */
  lemma DescribedIsCovered(buffer: Buffer, events: seq<Interval>, duration: real, alignment: nat, life: Lifetime)
    requires WellDeclared(buffer, |events|) && alignment > 0 && Forward(events)
    requires Describes(buffer, events, duration, alignment, life)
    ensures Covered(buffer, events, duration)
  {
    hide Separated, Forward, SameUnion, StartsAt, EndsAt;
    forall u | u in buffer.uses
      ensures life.left <= events[u].left && events[u].right <= life.right
    {
      var i :| 0 <= i < |buffer.uses| && buffer.uses[i] == u;
      assert events[u].left <= events[u].right by { ForwardAt(events, u); }
      UsePoint(buffer, events, life.active, i, events[u].left);
      UsePoint(buffer, events, life.active, i, events[u].right);
    }
  }

  lemma UsePoint(buffer: Buffer, events: seq<Interval>, active: seq<Interval>, i: nat, t: real)
    requires WellDeclared(buffer, |events|) && SameUnion(UseIntervals(buffer, events), active)
    requires i < |buffer.uses| && Touches(UseIntervals(buffer, events)[i], t)
    ensures exists k :: 0 <= k < |active| && active[k].left <= t <= active[k].right
  {
    var uses := UseIntervals(buffer, events);
    assert Meets(uses, t);
    assert SamePoint(uses, active, t);
    var k :| 0 <= k < |active| && Touches(active[k], t);
  }
}
