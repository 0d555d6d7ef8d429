/** Lengths of unions of intervals, and the length two unions have in common. */
module BusyTime {
  import opened Calendar
  import opened Intervals

  // In order and without overlap; neighbours may touch and entries may be empty.
  ghost predicate Ordered(intervals: seq<Interval>) {
    && Forward(intervals)
    && forall i, j :: 0 <= i < j < |intervals| ==> intervals[i].right <= intervals[j].left
  }

  ghost predicate SameCover(a: seq<Interval>, b: seq<Interval>) {
    forall t :: Covers(a, t) <==> Covers(b, t)
  }

  // The list without its last entry, keeping that entry's part before m.
  function Cut(intervals: seq<Interval>, m: real): seq<Interval>
    requires intervals != []
  {
    var init, last := intervals[..|intervals| - 1], intervals[|intervals| - 1];
    if last.left < m then init + [Interval(last.left, m)] else init
  }

  lemma CutMeans(intervals: seq<Interval>, m: real)
    requires Ordered(intervals) && intervals != []
    requires intervals[|intervals| - 1].left <= m <= intervals[|intervals| - 1].right
    ensures Ordered(Cut(intervals, m))
    ensures forall t :: Covers(Cut(intervals, m), t) <==> Covers(intervals, t) && t < m
    ensures Work(Cut(intervals, m)) == Work(intervals) - (intervals[|intervals| - 1].right - m)
  {
    CutWork(intervals, m);
    CutOrdered(intervals, m);
    hide Covers, Ordered, Work, Cut;
    forall t
      ensures Covers(Cut(intervals, m), t) <==> Covers(intervals, t) && t < m
    {
      CutPoint(intervals, m, t);
    }
  }

  lemma CutOrdered(intervals: seq<Interval>, m: real)
    requires Ordered(intervals) && intervals != []
    requires intervals[|intervals| - 1].left <= m <= intervals[|intervals| - 1].right
    ensures Ordered(Cut(intervals, m))
  {
  }

  lemma CutWork(intervals: seq<Interval>, m: real)
    requires intervals != [] && intervals[|intervals| - 1].left <= m
    ensures Work(Cut(intervals, m)) == Work(intervals) - (intervals[|intervals| - 1].right - m)
  {
    var init, last := intervals[..|intervals| - 1], intervals[|intervals| - 1];
    if last.left < m {
      assert (init + [Interval(last.left, m)])[..|init|] == init;
    }
  }

  lemma CutPoint(intervals: seq<Interval>, m: real, t: real)
    requires Ordered(intervals) && intervals != []
    requires intervals[|intervals| - 1].left <= m <= intervals[|intervals| - 1].right
    ensures Covers(Cut(intervals, m), t) <==> Covers(intervals, t) && t < m
  {
    var init, last := intervals[..|intervals| - 1], intervals[|intervals| - 1];
    assert intervals == init + [last];
    MeetsAppend(init, last, t);
    MeetsAppend(init, Interval(last.left, m), t);
    if Covers(init, t) {
      var i :| 0 <= i < |init| && Contains(init[i], t);
      assert init[i].right <= last.left;
    }
    hide Covers, Ordered;
  }

  lemma CoversLast(intervals: seq<Interval>, t: real)
    requires intervals != [] && Contains(intervals[|intervals| - 1], t)
    ensures Covers(intervals, t)
  {
  }

  // What ordered lists cover lies before the last entry's end.
  lemma CoversBefore(intervals: seq<Interval>, t: real)
    requires Ordered(intervals) && Covers(intervals, t)
    ensures intervals != [] && t < intervals[|intervals| - 1].right
  {
  }

  // Dropping an empty last entry changes neither cover nor length.
  lemma DropEmpty(a: seq<Interval>)
    requires Ordered(a) && a != [] && a[|a| - 1].left == a[|a| - 1].right
    ensures Ordered(a[..|a| - 1]) && SameCover(a[..|a| - 1], a) && Work(a[..|a| - 1]) == Work(a)
  {
    var init, last := a[..|a| - 1], a[|a| - 1];
    assert a == init + [last];
    forall t
      ensures Covers(init, t) <==> Covers(a, t)
    {
      MeetsAppend(init, last, t);
    }
  }

  lemma EmptyCover(a: seq<Interval>)
    requires Ordered(a) && a != [] && a[|a| - 1].left < a[|a| - 1].right
    ensures !SameCover(a, []) && !SameCover([], a)
  {
    CoversLast(a, a[|a| - 1].left);
  }

  // Cutting two lists with the same cover at the later of their last starts.
  lemma CutBoth(a: seq<Interval>, b: seq<Interval>, m: real)
    requires Ordered(a) && Ordered(b) && SameCover(a, b) && a != [] && b != []
    requires a[|a| - 1].left <= m <= a[|a| - 1].right && b[|b| - 1].left <= m <= b[|b| - 1].right
    ensures Ordered(Cut(a, m)) && Ordered(Cut(b, m)) && SameCover(Cut(a, m), Cut(b, m))
    ensures Work(Cut(a, m)) == Work(a) - (a[|a| - 1].right - m) && Work(Cut(b, m)) == Work(b) - (b[|b| - 1].right - m)
  {
    hide Covers, Ordered, Cut, Work;
    CutMeans(a, m);
    CutMeans(b, m);
  }

  lemma LastForward(a: seq<Interval>)
    requires Ordered(a) && a != []
    ensures a[|a| - 1].left <= a[|a| - 1].right
  {
  }

  /** Length is a property of the covered points, not of how they are cut up. */
  lemma {:induction false} LengthIsMeasure(a: seq<Interval>, b: seq<Interval>)
    requires Ordered(a) && Ordered(b) && SameCover(a, b)
    ensures Work(a) == Work(b)
    decreases |a| + |b|
  {
    hide Ordered, Covers, Work;
    if a != [] {
      LastForward(a);
    }
    if b != [] {
      LastForward(b);
    }
    if a != [] && a[|a| - 1].left == a[|a| - 1].right {
      DropEmpty(a);
      LengthIsMeasure(a[..|a| - 1], b);
    } else if b != [] && b[|b| - 1].left == b[|b| - 1].right {
      DropEmpty(b);
      LengthIsMeasure(a, b[..|b| - 1]);
    } else if a == [] || b == [] {
      if a != [] {
        EmptyCover(a);
      } else if b != [] {
        EmptyCover(b);
      }
    } else {
      var x, y := a[|a| - 1], b[|b| - 1];
      EndsNoLater(a, b);
      EndsNoLater(b, a);
      var m := if x.left < y.left then y.left else x.left;
      CutBoth(a, b, m);
      LengthIsMeasure(Cut(a, m), Cut(b, m));
    }
  }

  lemma EndsNoLater(a: seq<Interval>, b: seq<Interval>)
    requires Ordered(a) && Ordered(b) && SameCover(a, b) && a != [] && b != []
    requires a[|a| - 1].left < a[|a| - 1].right
    ensures a[|a| - 1].right <= b[|b| - 1].right
  {
    var x, y := a[|a| - 1], b[|b| - 1];
    if y.right < x.right {
      var t := if x.left < y.right then y.right else x.left;
      CoversLast(a, t);
      CoversBefore(b, t);
      assert false;
    }
  }

  // Cut into pieces that do not overlap, the covered points add up to this length.
  // LengthIsMeasure: every other way to cut them adds up to the same.
  ghost predicate LastsTogether(intervals: seq<Interval>, seconds: real) {
    exists pieces :: Ordered(pieces) && SameCover(pieces, intervals) && seconds == Work(pieces)
  }

  // The same for the points that both lists cover.
  ghost predicate LastsInBoth(left: seq<Interval>, right: seq<Interval>, seconds: real) {
    exists pieces :: CommonPieces(pieces, left, right) && seconds == Work(pieces)
  }

  ghost predicate CommonPieces(pieces: seq<Interval>, left: seq<Interval>, right: seq<Interval>) {
    Ordered(pieces) && forall t :: Covers(pieces, t) <==> Covers(left, t) && Covers(right, t)
  }

  /** Each of the two lengths is determined by the points alone. */
  lemma LengthsUnique(left: seq<Interval>, right: seq<Interval>, one: real, other: real)
    ensures LastsTogether(left, one) && LastsTogether(left, other) ==> one == other
    ensures LastsInBoth(left, right, one) && LastsInBoth(left, right, other) ==> one == other
  {
    if LastsTogether(left, one) && LastsTogether(left, other) {
      var a :| Ordered(a) && SameCover(a, left) && one == Work(a);
      var b :| Ordered(b) && SameCover(b, left) && other == Work(b);
      LengthIsMeasure(a, b);
    }
    if LastsInBoth(left, right, one) && LastsInBoth(left, right, other) {
      var a :| CommonPieces(a, left, right) && one == Work(a);
      var b :| CommonPieces(b, left, right) && other == Work(b);
      LengthIsMeasure(a, b);
    }
  }

  /** Seconds during which at least one of the intervals is running. */
  method UnionSeconds(intervals: seq<Interval>) returns (seconds: real)
    requires Forward(intervals)
    ensures LastsTogether(intervals, seconds)
  {
    var union := MergeIntervals(intervals);
    forall t
      ensures Covers(union, t) <==> Covers(intervals, t)
    {
      assert SamePoint(intervals, union, t);
    }
    seconds := 0.0;
    for k := 0 to |union|
      invariant seconds == Work(union[..k])
    {
      assert union[..k + 1][..k] == union[..k];
      seconds := seconds + (union[k].right - union[k].left);
    }
    assert union[..|union|] == union;
    assert Ordered(union) && SameCover(union, intervals);
  }

  function Shared(a: Interval, b: Interval): Interval {
    Interval(if a.left < b.left then b.left else a.left, if a.right <= b.right then a.right else b.right)
  }

  function Later(pieces: seq<Interval>, piece: Interval): seq<Interval> {
    if piece.left < piece.right then pieces + [piece] else pieces
  }

  // Common points from positions i and j on.
  ghost predicate BothFrom(a: seq<Interval>, i: nat, b: seq<Interval>, j: nat, t: real)
    requires i <= |a| && j <= |b|
  {
    Covers(a[i..], t) && Covers(b[j..], t)
  }

  lemma CoversTail(a: seq<Interval>, i: nat, t: real)
    requires i < |a|
    ensures Covers(a[i..], t) <==> Contains(a[i], t) || Covers(a[i + 1..], t)
  {
    if Covers(a[i..], t) {
      var k :| 0 <= k < |a[i..]| && Contains(a[i..][k], t);
      if k > 0 {
        assert Contains(a[i + 1..][k - 1], t);
      }
    }
    if Contains(a[i], t) {
      assert Contains(a[i..][0], t);
    }
    if Covers(a[i + 1..], t) {
      var k :| 0 <= k < |a[i + 1..]| && Contains(a[i + 1..][k], t);
      assert Contains(a[i..][k + 1], t);
    }
  }

  lemma TailBegins(a: seq<Interval>, i: nat, t: real)
    requires Separated(a) && i < |a| && Covers(a[i + 1..], t)
    ensures a[i].right < t
  {
    var k :| 0 <= k < |a[i + 1..]| && Contains(a[i + 1..][k], t);
    assert a[i + 1..][k] == a[i + 1 + k];
  }

  // Dropping the interval that ends first loses no common point but the shared piece.
  lemma DropFirst(a: seq<Interval>, i: nat, b: seq<Interval>, j: nat, t: real)
    requires Separated(a) && Separated(b) && i < |a| && j < |b|
    ensures a[i].right <= b[j].right ==>
              (BothFrom(a, i, b, j, t) <==> Contains(Shared(a[i], b[j]), t) || BothFrom(a, i + 1, b, j, t))
    ensures b[j].right <= a[i].right ==>
              (BothFrom(a, i, b, j, t) <==> Contains(Shared(a[i], b[j]), t) || BothFrom(a, i, b, j + 1, t))
  {
    CoversTail(a, i, t);
    CoversTail(b, j, t);
    if Covers(a[i + 1..], t) {
      TailBegins(a, i, t);
    }
    if Covers(b[j + 1..], t) {
      TailBegins(b, j, t);
    }
  }

  // Pieces found so far end before the next shared one can begin.
  ghost predicate Ahead(pieces: seq<Interval>, a: seq<Interval>, i: nat, b: seq<Interval>, j: nat)
    requires i <= |a| && j <= |b|
  {
    i < |a| && j < |b| ==> forall k :: 0 <= k < |pieces| ==> pieces[k].right <= a[i].left || pieces[k].right <= b[j].left
  }

  ghost predicate Collected(pieces: seq<Interval>, a: seq<Interval>, i: nat, b: seq<Interval>, j: nat)
    requires i <= |a| && j <= |b|
  {
    forall t :: BothFrom(a, 0, b, 0, t) <==> Covers(pieces, t) || BothFrom(a, i, b, j, t)
  }

  lemma CollectStep(pieces: seq<Interval>, a: seq<Interval>, i: nat, b: seq<Interval>, j: nat, first: bool)
    requires Separated(a) && Separated(b) && i < |a| && j < |b| && Collected(pieces, a, i, b, j)
    requires first ==> a[i].right <= b[j].right
    requires !first ==> b[j].right <= a[i].right
    ensures Collected(Later(pieces, Shared(a[i], b[j])), a, if first then i + 1 else i, b, if first then j else j + 1)
  {
    var piece := Shared(a[i], b[j]);
    forall t
      ensures BothFrom(a, 0, b, 0, t) <==>
              Covers(Later(pieces, piece), t) || BothFrom(a, if first then i + 1 else i, b, if first then j else j + 1, t)
    {
      DropFirst(a, i, b, j, t);
      MeetsAppend(pieces, piece, t);
      hide BothFrom, Covers;
      assert BothFrom(a, 0, b, 0, t) <==> Covers(pieces, t) || BothFrom(a, i, b, j, t);
    }
  }

  lemma PiecesStep(pieces: seq<Interval>, a: seq<Interval>, i: nat, b: seq<Interval>, j: nat, first: bool)
    requires Separated(a) && Separated(b) && i < |a| && j < |b| && Ordered(pieces) && Ahead(pieces, a, i, b, j)
    requires first ==> a[i].right <= b[j].right
    requires !first ==> b[j].right <= a[i].right
    ensures Ordered(Later(pieces, Shared(a[i], b[j])))
    ensures Ahead(Later(pieces, Shared(a[i], b[j])), a, if first then i + 1 else i, b, if first then j else j + 1)
  {
  }

  lemma LaterWork(pieces: seq<Interval>, piece: Interval)
    ensures Work(Later(pieces, piece)) == Work(pieces) + Positive(piece)
  {
    assert (pieces + [piece])[..|pieces|] == pieces;
  }

  function Positive(iv: Interval): real {
    if iv.left < iv.right then iv.right - iv.left else 0.0
  }

  /** The two-finger scan adds up exactly the seconds both unions cover. */
  method IntersectionSeconds(left: seq<Interval>, right: seq<Interval>) returns (total: real)
    requires Separated(left) && Separated(right)
    ensures LastsInBoth(left, right, total)
  {
    total := 0.0;
    ghost var pieces: seq<Interval> := [];
    var i, j := 0, 0;
    assert forall t :: !Covers([], t);
    while i < |left| && j < |right|
      invariant i <= |left| && j <= |right|
      invariant Ordered(pieces) && Ahead(pieces, left, i, right, j) && Collected(pieces, left, i, right, j)
      invariant total == Work(pieces)
      decreases |left| - i + |right| - j
    {
      hide Collected, Ordered, Ahead, Separated, Work;
      var first := left[i].right <= right[j].right;
      CollectStep(pieces, left, i, right, j, first);
      PiecesStep(pieces, left, i, right, j, first);
      LaterWork(pieces, Shared(left[i], right[j]));
      total := total + Positive(Shared(left[i], right[j]));
      pieces := Later(pieces, Shared(left[i], right[j]));
      if first {
        i := i + 1;
      } else {
        j := j + 1;
      }
    }
    assert left[0..] == left && right[0..] == right;
    assert forall t :: BothFrom(left, 0, right, 0, t) <==> Covers(left, t) && Covers(right, t);
    assert forall t :: !BothFrom(left, i, right, j, t);
    assert CommonPieces(pieces, left, right);
  }
}
