/** Unions of intervals: merging, their length, and the length of an intersection. */
module Intervals {
  import opened Calendar
  import opened Sorting

  predicate Earlier(a: Interval, b: Interval) {
    a.left < b.left || (a.left == b.left && a.right <= b.right)
  }

  ghost predicate Forward(intervals: seq<Interval>) {
    forall i :: 0 <= i < |intervals| ==> intervals[i].left <= intervals[i].right
  }

  // Gaps between neighbours: the one canonical way to write a union of closed intervals.
  ghost predicate Separated(intervals: seq<Interval>) {
    && Forward(intervals)
    && forall i, j :: 0 <= i < j < |intervals| ==> intervals[i].right < intervals[j].left
  }

  ghost predicate Touches(iv: Interval, t: real) {
    iv.left <= t <= iv.right
  }

  ghost predicate Contains(iv: Interval, t: real) {
    iv.left <= t < iv.right
  }

  ghost predicate Meets(intervals: seq<Interval>, t: real) {
    exists i :: 0 <= i < |intervals| && Touches(intervals[i], t)
  }

  ghost predicate Covers(intervals: seq<Interval>, t: real) {
    exists i :: 0 <= i < |intervals| && Contains(intervals[i], t)
  }

  // The same points, whether intervals are read as closed or half-open.
  ghost predicate SameUnion(a: seq<Interval>, b: seq<Interval>) {
    forall t :: SamePoint(a, b, t)
  }

  ghost predicate SamePoint(a: seq<Interval>, b: seq<Interval>, t: real) {
    (Meets(a, t) <==> Meets(b, t)) && (Covers(a, t) <==> Covers(b, t))
  }

  ghost predicate Inside(iv: Interval, outer: Interval) {
    outer.left <= iv.left && iv.right <= outer.right
  }

  ghost predicate Enclosed(intervals: seq<Interval>, merged: seq<Interval>) {
    forall i :: 0 <= i < |intervals| ==> Lodged(intervals[i], merged)
  }

  ghost predicate Lodged(iv: Interval, merged: seq<Interval>) {
    exists j :: 0 <= j < |merged| && Inside(iv, merged[j])
  }

  // `next` joined to the last interval it touches, or appended.
  function Joined(merged: seq<Interval>, next: Interval): (grown: seq<Interval>)
    ensures |grown| > 0
  {
    if merged != [] && next.left <= merged[|merged| - 1].right then
      var last := merged[|merged| - 1];
      merged[..|merged| - 1] + [Interval(last.left, if last.right < next.right then next.right else last.right)]
    else
      merged + [next]
  }

  lemma JoinedSeparated(merged: seq<Interval>, next: Interval)
    requires Separated(merged) && next.left <= next.right
    requires forall i :: 0 <= i < |merged| ==> merged[i].left <= next.left
    ensures Separated(Joined(merged, next))
    ensures forall i :: 0 <= i < |Joined(merged, next)| ==> Joined(merged, next)[i].left <= next.left
  {
  }

  lemma JoinedPoints(merged: seq<Interval>, next: Interval, t: real)
    requires Separated(merged) && next.left <= next.right
    requires forall i :: 0 <= i < |merged| ==> merged[i].left <= next.left
    ensures Meets(Joined(merged, next), t) <==> Meets(merged, t) || Touches(next, t)
    ensures Covers(Joined(merged, next), t) <==> Covers(merged, t) || Contains(next, t)
  {
    var grown := Joined(merged, next);
    var n := |grown| - 1;
    assert grown == grown[..n] + [grown[n]];
    MeetsAppend(grown[..n], grown[n], t);
    if merged != [] && next.left <= merged[|merged| - 1].right {
      assert merged == grown[..n] + [merged[n]];
      MeetsAppend(grown[..n], merged[n], t);
    } else {
      assert grown[..n] == merged;
    }
  }

  lemma MergeStep(seen: seq<Interval>, next: Interval, merged: seq<Interval>)
    requires SameUnion(seen, merged) && Enclosed(seen, merged) && Separated(merged) && next.left <= next.right
    requires forall i :: 0 <= i < |merged| ==> merged[i].left <= next.left
    ensures SameUnion(seen + [next], Joined(merged, next)) && Enclosed(seen + [next], Joined(merged, next))
  {
    hide Joined, Meets, Covers, Separated, Enclosed;
    forall t
      ensures SamePoint(seen + [next], Joined(merged, next), t)
    {
      assert SamePoint(seen, merged, t);
      MeetsAppend(seen, next, t);
      JoinedPoints(merged, next, t);
    }
    MergeEncloses(seen, next, merged);
  }

  lemma MergeEncloses(seen: seq<Interval>, next: Interval, merged: seq<Interval>)
    requires Enclosed(seen, merged) && Separated(merged) && next.left <= next.right
    requires forall i :: 0 <= i < |merged| ==> merged[i].left <= next.left
    ensures Enclosed(seen + [next], Joined(merged, next))
  {
    var grown := Joined(merged, next);
    forall i | 0 <= i < |seen + [next]|
      ensures Lodged((seen + [next])[i], grown)
    {
      if i < |seen| {
        assert Lodged(seen[i], merged);
        var j :| 0 <= j < |merged| && Inside(seen[i], merged[j]);
        assert Inside(seen[i], grown[j]);
      } else {
        assert Inside(next, grown[|grown| - 1]);
      }
    }
  }

  lemma MeetsAppend(intervals: seq<Interval>, last: Interval, t: real)
    ensures Meets(intervals + [last], t) <==> Meets(intervals, t) || Touches(last, t)
    ensures Covers(intervals + [last], t) <==> Covers(intervals, t) || Contains(last, t)
  {
    var all := intervals + [last];
    assert all[|intervals|] == last;
    if i :| 0 <= i < |intervals| && Touches(intervals[i], t) {
      assert Touches(all[i], t);
    }
    if i :| 0 <= i < |intervals| && Contains(intervals[i], t) {
      assert Contains(all[i], t);
    }
  }

  lemma EarlierIsTotal()
    ensures TotalOrder(Earlier)
  {
  }

  lemma SortedByStart(intervals: seq<Interval>)
    requires Forward(intervals)
    ensures var sorted := Sort(intervals, Earlier);
            && Forward(sorted) && (forall x :: x in sorted <==> x in intervals)
            && forall i, j :: 0 <= i < j < |sorted| ==> sorted[i].left <= sorted[j].left
  {
    EarlierIsTotal();
    SortSorts(intervals, Earlier);
    var sorted := Sort(intervals, Earlier);
    hide Sort, TotalOrder;
    assert forall i :: 0 <= i < |sorted| ==> sorted[i] in sorted && sorted[i] in intervals;
    assert forall i, j :: 0 <= i < j < |sorted| ==> Earlier(sorted[i], sorted[j]);
  }

  lemma ForwardAt(intervals: seq<Interval>, k: nat)
    requires Forward(intervals) && k < |intervals|
    ensures intervals[k].left <= intervals[k].right
  {
  }

  lemma NothingMerged()
    ensures Separated([]) && SameUnion([], []) && Enclosed([], [])
  {
  }

  method JoinNext(merged: seq<Interval>, next: Interval) returns (grown: seq<Interval>)
    ensures grown == Joined(merged, next)
  {
    if merged != [] && next.left <= merged[|merged| - 1].right {
      var last := merged[|merged| - 1];
      grown := merged[..|merged| - 1] + [Interval(last.left, if last.right < next.right then next.right else last.right)];
    } else {
      grown := merged + [next];
    }
  }

  /** Rewrites a union of intervals in its separated form. */
  method MergeIntervals(intervals: seq<Interval>) returns (merged: seq<Interval>)
    requires Forward(intervals)
    ensures Separated(merged) && SameUnion(intervals, merged) && Enclosed(intervals, merged)
  {
    hide SameUnion, Enclosed, Separated, Joined, Forward, Sort;
    SortedByStart(intervals);
    var sorted := Sort(intervals, Earlier);
    merged := [];
    NothingMerged();
    for k := 0 to |sorted|
      invariant Separated(merged) && SameUnion(sorted[..k], merged) && Enclosed(sorted[..k], merged)
      invariant k < |sorted| ==> forall i :: 0 <= i < |merged| ==> merged[i].left <= sorted[k].left
    {
      var next := sorted[k];
      ForwardAt(sorted, k);
      assert sorted[..k + 1] == sorted[..k] + [next];
      MergeStep(sorted[..k], next, merged);
      JoinedSeparated(merged, next);
      merged := JoinNext(merged, next);
    }
    assert sorted[..|sorted|] == sorted;
    SameElements(intervals, sorted, merged);
  }

  lemma SameElements(intervals: seq<Interval>, sorted: seq<Interval>, merged: seq<Interval>)
    requires forall x :: x in sorted <==> x in intervals
    requires SameUnion(sorted, merged) && Enclosed(sorted, merged)
    ensures SameUnion(intervals, merged) && Enclosed(intervals, merged)
  {
    hide Meets, Covers, Lodged;
    forall t
      ensures SamePoint(intervals, merged, t)
    {
      Elementwise(intervals, sorted, t);
      Elementwise(sorted, intervals, t);
      assert SamePoint(sorted, merged, t);
    }
    forall i | 0 <= i < |intervals|
      ensures Lodged(intervals[i], merged)
    {
      assert intervals[i] in sorted;
      var k :| 0 <= k < |sorted| && sorted[k] == intervals[i];
      assert Lodged(sorted[k], merged);
    }
  }

  lemma Elementwise(a: seq<Interval>, b: seq<Interval>, t: real)
    requires forall x :: x in a ==> x in b
    ensures Meets(a, t) ==> Meets(b, t)
    ensures Covers(a, t) ==> Covers(b, t)
  {
    if i :| 0 <= i < |a| && Touches(a[i], t) {
      assert a[i] in b;
      var j :| 0 <= j < |b| && b[j] == a[i];
      assert Touches(b[j], t);
    }
    if i :| 0 <= i < |a| && Contains(a[i], t) {
      assert a[i] in b;
      var j :| 0 <= j < |b| && b[j] == a[i];
      assert Contains(b[j], t);
    }
  }

  // ----- One way to write a union

  lemma Shortened(a: seq<Interval>, t: real)
    requires Separated(a) && a != []
    ensures Meets(a[1..], t) <==> Meets(a, t) && a[0].right < t
    ensures Covers(a[1..], t) <==> Covers(a, t) && a[0].right < t
  {
    if i :| 0 <= i < |a| && Touches(a[i], t) && a[0].right < t {
      assert a[1..][i - 1] == a[i];
    }
    if i :| 0 <= i < |a| && Contains(a[i], t) && a[0].right < t {
      assert a[1..][i - 1] == a[i];
    }
    if i :| 0 <= i < |a[1..]| && Touches(a[1..][i], t) {
      assert a[1..][i] == a[i + 1];
    }
    if i :| 0 <= i < |a[1..]| && Contains(a[1..][i], t) {
      assert a[1..][i] == a[i + 1];
    }
  }

  // A point of the first interval of one list is a point of the other.
  lemma FirstPoint(a: seq<Interval>, b: seq<Interval>, t: real)
    requires a != [] && SameUnion(a, b) && Touches(a[0], t)
    ensures exists i :: 0 <= i < |b| && Touches(b[i], t)
  {
    assert Meets(a, t);
    assert SamePoint(a, b, t);
  }

  // The first interval of a separated list reaches to the list's first gap.
  lemma FirstReaches(a: seq<Interval>, b: seq<Interval>)
    requires Separated(a) && Separated(b) && a != [] && SameUnion(a, b)
    ensures b != [] && b[0].left <= a[0].left && (a[0].left <= b[0].left ==> a[0].right <= b[0].right)
  {
    FirstPoint(a, b, a[0].left);
    hide SameUnion;
    if a[0].left == b[0].left && b[0].right < a[0].right {
      var t := (b[0].right + if |b| > 1 && b[1].left < a[0].right then b[1].left else a[0].right) / 2.0;
      FirstPoint(a, b, t);
      assert false;
    }
  }

  /** Separated lists of the same points are equal. */
  lemma {:induction false} SeparatedUnique(a: seq<Interval>, b: seq<Interval>)
    requires Separated(a) && Separated(b) && SameUnion(a, b)
    ensures a == b
    decreases |a|
  {
    Mirrored(a, b);
    if a != [] {
      FirstReaches(a, b);
      FirstReaches(b, a);
      hide Separated;
      assert Separated(a[1..]) && Separated(b[1..]) by { TailSeparated(a); TailSeparated(b); }
      forall t
        ensures SamePoint(a[1..], b[1..], t)
      {
        Shortened(a, t);
        Shortened(b, t);
        assert SamePoint(a, b, t);
      }
      SeparatedUnique(a[1..], b[1..]);
      assert a == [a[0]] + a[1..] && b == [b[0]] + b[1..];
    } else if b != [] {
      FirstReaches(b, a);
    }
  }

  lemma TailSeparated(a: seq<Interval>)
    requires Separated(a) && a != []
    ensures Separated(a[1..])
  {
  }

  lemma Mirrored(a: seq<Interval>, b: seq<Interval>)
    requires SameUnion(a, b)
    ensures SameUnion(b, a)
  {
    forall t
      ensures SamePoint(b, a, t)
    {
      assert SamePoint(a, b, t);
    }
  }
}
