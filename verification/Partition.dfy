/** Greedy min-max partition of the query range over devices, as functions and their guarantee. */
module Partition {
  import opened Basics
  import opened QueryTiling
  import opened RangeCost

  // A packed batch, its candidate cut positions, and the devices in range order.
  datatype Problem = Problem(qBounds: seq<int>, kBounds: seq<int>, candidates: seq<int>, shape: Shape, devices: seq<Device>)

  ghost predicate ValidProblem(p: Problem) {
    && Packed(p.qBounds, p.kBounds) && p.qBounds[0] == 0
    && KeysFor(p.qBounds, p.kBounds, 0, p.qBounds[|p.qBounds| - 1], |p.qBounds| - 1)
    && |p.devices| >= 2 && (forall i :: 0 <= i < |p.devices| ==> ValidDevice(p.devices[i]))
    && |p.candidates| > |p.devices|
    && (forall x, y :: 0 <= x < y < |p.candidates| ==> p.candidates[x] < p.candidates[y])
    && p.candidates[0] == 0 && p.candidates[|p.candidates| - 1] == p.qBounds[|p.qBounds| - 1]
  }

  function Last(p: Problem): int { |p.candidates| - 1 }

  // Estimated seconds for device i between two candidates.
  function Seconds(p: Problem, i: nat, x: nat, y: nat): real
    requires ValidProblem(p) && i < |p.devices| && x < |p.candidates| && y < |p.candidates|
  {
    RangeSeconds(p.qBounds, p.kBounds, p.candidates[x], p.candidates[y], |p.qBounds| - 1, p.shape, p.devices[i])
  }

  lemma SecondsMonotone(p: Problem, i: nat, x: nat, y: nat, v: nat, w: nat)
    requires ValidProblem(p) && i < |p.devices| && v <= x && y <= w < |p.candidates| && x < |p.candidates|
    ensures 0.0 <= Seconds(p, i, x, y) <= Seconds(p, i, v, w)
  {
    assert p.candidates[v] <= p.candidates[x] && p.candidates[y] <= p.candidates[w];
    RangeMonotone(p.qBounds, p.kBounds, p.candidates[x], p.candidates[y], p.candidates[v], p.candidates[w],
                  |p.qBounds| - 1, p.shape, p.devices[i]);
  }

  // Strictly increasing cut indices: one nonempty piece per device, nothing left over.
  ghost predicate CutVector(p: Problem, cuts: seq<nat>) {
    && |cuts| == |p.devices| + 1 && cuts[0] == 0 && cuts[|cuts| - 1] == Last(p)
    && forall i, j :: 0 <= i < j < |cuts| ==> cuts[i] < cuts[j]
  }

  // Every device finishes its piece within the threshold.
  ghost predicate Within(p: Problem, cuts: seq<nat>, threshold: real)
    requires ValidProblem(p) && CutVector(p, cuts)
  {
    forall i: nat :: i < |p.devices| ==> PieceWithin(p, cuts, i, threshold)
  }

  ghost predicate PieceWithin(p: Problem, cuts: seq<nat>, i: nat, threshold: real)
    requires ValidProblem(p) && CutVector(p, cuts) && i < |p.devices|
  {
    InRange(p, cuts, i);
    Seconds(p, i, cuts[i], cuts[i + 1]) <= threshold
  }

  lemma InRange(p: Problem, cuts: seq<nat>, i: nat)
    requires CutVector(p, cuts) && i < |p.devices|
    ensures cuts[i] < cuts[i + 1] <= Last(p)
  {
    assert i + 1 < |cuts| - 1 ==> cuts[i + 1] < cuts[|cuts| - 1];
  }

  // Cut i leaves at least one candidate for every later device.
  lemma {:induction false} RoomLeft(p: Problem, cuts: seq<nat>, i: nat)
    requires CutVector(p, cuts) && i <= |p.devices|
    ensures cuts[i] <= Last(p) - (|p.devices| - i)
    decreases |p.devices| - i
  {
    if i < |p.devices| {
      RoomLeft(p, cuts, i + 1);
    }
  }

  // ----- The greedy sweep

  // The furthest candidate after `start`, up to `max`, that device i reaches in time.
  function Furthest(p: Problem, i: nat, start: nat, max: nat, threshold: real): (cut: Option<nat>)
    requires ValidProblem(p) && i < |p.devices| && start < |p.candidates| && max < |p.candidates|
    ensures cut.Some? ==> start < cut.value <= max
    decreases max
  {
    if max <= start then None
    else if Seconds(p, i, start, max) <= threshold then Some(max)
    else Furthest(p, i, start, max - 1, threshold)
  }

  lemma {:induction false} FurthestReaches(p: Problem, i: nat, start: nat, max: nat, threshold: real)
    requires ValidProblem(p) && i < |p.devices| && start < |p.candidates| && max < |p.candidates|
    ensures var cut := Furthest(p, i, start, max, threshold);
            cut.Some? ==> Seconds(p, i, start, cut.value) <= threshold
    ensures forall y :: start < y <= max && Seconds(p, i, start, y) <= threshold ==>
              Furthest(p, i, start, max, threshold).Some? && y <= Furthest(p, i, start, max, threshold).value
    decreases max
  {
    if max > start && Seconds(p, i, start, max) > threshold {
      FurthestReaches(p, i, start, max - 1, threshold);
    }
  }

  // Cuts after `current` for devices i, i+1, ..., each taking as much as it can.
  function GreedyFrom(p: Problem, i: nat, current: nat, threshold: real): Option<seq<nat>>
    requires ValidProblem(p) && i < |p.devices| && current < |p.candidates|
    decreases |p.devices| - i
  {
    if i == |p.devices| - 1 then
      if current < Last(p) && Seconds(p, i, current, Last(p)) <= threshold then Some([Last(p)]) else None
    else
      var cut := Furthest(p, i, current, Last(p) - (|p.devices| - 1 - i), threshold);
      if cut.None? then None
      else
        var rest := GreedyFrom(p, i + 1, cut.value, threshold);
        if rest.None? then None else Some([cut.value] + rest.value)
  }

  function Greedy(p: Problem, threshold: real): Option<seq<nat>>
    requires ValidProblem(p)
  {
    var cuts := GreedyFrom(p, 0, 0, threshold);
    if cuts.None? then None else Some([0] + cuts.value)
  }

  // Cuts from `current` on: increasing, to the last candidate, each piece in time.
  ghost predicate Tail(p: Problem, i: nat, current: nat, cuts: seq<nat>, threshold: real)
    requires ValidProblem(p) && i <= |p.devices| && current < |p.candidates|
    decreases |cuts|
  {
    if cuts == [] then i == |p.devices| && current == Last(p)
    else
      && i < |p.devices| && current < cuts[0] <= Last(p) && Seconds(p, i, current, cuts[0]) <= threshold
      && Tail(p, i + 1, cuts[0], cuts[1..], threshold)
  }

  lemma {:induction false} GreedyTail(p: Problem, i: nat, current: nat, threshold: real)
    requires ValidProblem(p) && i < |p.devices| && current < |p.candidates|
    ensures var cuts := GreedyFrom(p, i, current, threshold);
            cuts.Some? ==> Tail(p, i, current, cuts.value, threshold)
    decreases |p.devices| - i
  {
    hide ValidProblem;
    if i < |p.devices| - 1 {
      var max := Last(p) - (|p.devices| - 1 - i);
      RoomForAll(p);
      FurthestReaches(p, i, current, max, threshold);
      var cut := Furthest(p, i, current, max, threshold);
      if cut.Some? {
        GreedyTail(p, i + 1, cut.value, threshold);
        var rest := GreedyFrom(p, i + 1, cut.value, threshold);
        if rest.Some? {
          assert ([cut.value] + rest.value)[1..] == rest.value;
        }
      }
    } else {
      assert [Last(p)][1..] == [];
    }
  }

  lemma RoomForAll(p: Problem)
    requires ValidProblem(p)
    ensures Last(p) >= |p.devices| >= 2
  {
  }

  lemma {:induction false} TailIsVector(p: Problem, i: nat, current: nat, cuts: seq<nat>, threshold: real)
    requires ValidProblem(p) && i <= |p.devices| && current < |p.candidates| && Tail(p, i, current, cuts, threshold)
    ensures |cuts| == |p.devices| - i && (cuts == [] ==> current == Last(p)) && (cuts != [] ==> cuts[|cuts| - 1] == Last(p))
    ensures forall k :: 0 <= k < |cuts| ==> current < cuts[k] <= Last(p)
    ensures forall k, m :: 0 <= k < m < |cuts| ==> cuts[k] < cuts[m]
    ensures forall k: nat :: k < |cuts| ==> Seconds(p, i + k, if k == 0 then current else cuts[k - 1], cuts[k]) <= threshold
    decreases |cuts|
  {
    hide ValidProblem;
    if cuts != [] {
      TailIsVector(p, i + 1, cuts[0], cuts[1..], threshold);
      forall k: nat | k < |cuts|
        ensures Seconds(p, i + k, if k == 0 then current else cuts[k - 1], cuts[k]) <= threshold
      {
        if k > 0 {
          assert cuts[1..][k - 1] == cuts[k];
          assert k > 1 ==> cuts[1..][k - 2] == cuts[k - 1];
        }
      }
    }
  }

  /** What the greedy sweep returns is a partition that meets the threshold. */
  lemma GreedySound(p: Problem, threshold: real)
    requires ValidProblem(p) && Greedy(p, threshold).Some?
    ensures CutVector(p, Greedy(p, threshold).value) && Within(p, Greedy(p, threshold).value, threshold)
  {
    hide ValidProblem;
    RoomForAll(p);
    GreedyTail(p, 0, 0, threshold);
    var tail, cuts := GreedyFrom(p, 0, 0, threshold).value, Greedy(p, threshold).value;
    TailIsVector(p, 0, 0, tail, threshold);
    forall i: nat | i < |p.devices|
      ensures PieceWithin(p, cuts, i, threshold)
    {
      assert cuts[i] == if i == 0 then 0 else tail[i - 1];
    }
  }

  // ----- Greedy stays ahead of every partition

  // Device i on the single cell after candidate x.
  function Cell(p: Problem, i: nat, x: nat): real
    requires ValidProblem(p) && i < |p.devices| && x < Last(p)
  {
    Seconds(p, i, x, x + 1)
  }

  // No device between the first and the last is slower than the threshold on a cell
  // that the cuts leave to a later device.
  ghost predicate Unhindered(p: Problem, cuts: seq<nat>, threshold: real)
    requires ValidProblem(p) && CutVector(p, cuts)
  {
    forall i: nat, x: nat :: 0 < i < |p.devices| - 1 && cuts[i + 1] <= x < Last(p) ==> Cell(p, i, x) <= threshold
  }

  // One device of the sweep: at or past the cuts, and not on a cell it cannot finish.
  lemma StaysAhead(p: Problem, i: nat, current: nat, threshold: real, cuts: seq<nat>)
    requires ValidProblem(p) && CutVector(p, cuts) && Within(p, cuts, threshold) && i < |p.devices| - 1
    requires cuts[i] <= current <= Last(p) - (|p.devices| - i)
    requires current < cuts[i + 1] || Cell(p, i, current) <= threshold
    ensures var max := Last(p) - (|p.devices| - 1 - i);
            && 0 <= max < |p.candidates| && Furthest(p, i, current, max, threshold).Some?
            && cuts[i + 1] <= Furthest(p, i, current, max, threshold).value
  {
    hide ValidProblem, Within;
    RoomForAll(p);
    InRange(p, cuts, i);
    assert PieceWithin(p, cuts, i, threshold) by { WithinPiece(p, cuts, i, threshold); }
    RoomLeft(p, cuts, i + 1);
    FurthestReaches(p, i, current, Last(p) - (|p.devices| - 1 - i), threshold);
    if current < cuts[i + 1] {
      SecondsMonotone(p, i, current, cuts[i + 1], cuts[i], cuts[i + 1]);
    }
  }

  lemma LastAhead(p: Problem, current: nat, threshold: real, cuts: seq<nat>)
    requires ValidProblem(p) && CutVector(p, cuts) && Within(p, cuts, threshold)
    requires cuts[|p.devices| - 1] <= current < Last(p)
    ensures Seconds(p, |p.devices| - 1, current, Last(p)) <= threshold
  {
    hide ValidProblem;
    RoomForAll(p);
    InRange(p, cuts, |p.devices| - 1);
    WithinPiece(p, cuts, |p.devices| - 1, threshold);
    SecondsMonotone(p, |p.devices| - 1, current, Last(p), cuts[|p.devices| - 1], cuts[|p.devices|]);
  }

  lemma {:induction false} GreedyAhead(p: Problem, i: nat, current: nat, threshold: real, cuts: seq<nat>)
    requires ValidProblem(p) && CutVector(p, cuts) && Within(p, cuts, threshold) && Unhindered(p, cuts, threshold)
    requires i < |p.devices| && cuts[i] <= current <= Last(p) - (|p.devices| - i) && (i == 0 ==> current == 0)
    ensures GreedyFrom(p, i, current, threshold).Some?
    decreases |p.devices| - i
  {
    hide ValidProblem, Within, Furthest, Seconds;
    RoomForAll(p);
    if i == |p.devices| - 1 {
      LastAhead(p, current, threshold, cuts);
    } else {
      StaysAhead(p, i, current, threshold, cuts);
      GreedyAhead(p, i + 1, Furthest(p, i, current, Last(p) - (|p.devices| - 1 - i), threshold).value, threshold, cuts);
    }
  }

  lemma WithinPiece(p: Problem, cuts: seq<nat>, i: nat, threshold: real)
    requires ValidProblem(p) && CutVector(p, cuts) && i < |p.devices| && Within(p, cuts, threshold)
    ensures PieceWithin(p, cuts, i, threshold)
  {
  }

  /** The sweep finds a partition whenever one exists and no middle device is too slow for a cell it may meet. */
  lemma GreedyComplete(p: Problem, threshold: real, cuts: seq<nat>)
    requires ValidProblem(p) && CutVector(p, cuts) && Within(p, cuts, threshold) && Unhindered(p, cuts, threshold)
    ensures Greedy(p, threshold).Some?
  {
    RoomForAll(p);
    GreedyAhead(p, 0, 0, threshold, cuts);
  }

  // ----- When no middle device is too slow

  // Each device between the first and the last is, cell by cell, no slower than the devices after it.
  ghost predicate MiddleFirst(p: Problem)
    requires ValidProblem(p)
  {
    forall i: nat, j: nat, x: nat :: 0 < i < j < |p.devices| && x < Last(p) ==> Cell(p, i, x) <= Cell(p, j, x)
  }

  ghost predicate Alike(p: Problem) {
    forall i, j :: 0 <= i < j < |p.devices| ==> p.devices[i] == p.devices[j]
  }

  /** Two arbitrary devices, and any number of identical ones, are in that order. */
  lemma SimpleFleets(p: Problem)
    requires ValidProblem(p) && (|p.devices| == 2 || Alike(p))
    ensures MiddleFirst(p)
  {
    hide ValidProblem;
  }

  // The piece that holds cell x.
  lemma {:induction false} PieceOf(p: Problem, cuts: seq<nat>, x: nat, n: nat) returns (j: nat)
    requires CutVector(p, cuts) && n <= |p.devices| && x < cuts[n]
    ensures j < n && cuts[j] <= x < cuts[j + 1]
    decreases n
  {
    if cuts[n - 1] <= x {
      j := n - 1;
    } else {
      j := PieceOf(p, cuts, x, n - 1);
    }
  }

  // The device that holds a cell has time for it.
  lemma HolderHasTime(p: Problem, cuts: seq<nat>, threshold: real, x: nat) returns (j: nat)
    requires ValidProblem(p) && CutVector(p, cuts) && Within(p, cuts, threshold) && x < Last(p)
    ensures j < |p.devices| && cuts[j] <= x < cuts[j + 1] && Cell(p, j, x) <= threshold
  {
    hide ValidProblem;
    j := PieceOf(p, cuts, x, |p.devices|);
    InRange(p, cuts, j);
    WithinPiece(p, cuts, j, threshold);
    SecondsMonotone(p, j, x, x + 1, cuts[j], cuts[j + 1]);
  }

  // Cells may be slower on an earlier middle device by at most `slack`.
  ghost predicate NearlyFirst(p: Problem, slack: real)
    requires ValidProblem(p)
  {
    forall i: nat, j: nat, x: nat :: 0 < i < j < |p.devices| && x < Last(p) ==> Cell(p, i, x) <= Cell(p, j, x) + slack
  }

  /** A partition in time leaves no middle device more than the slack behind. */
  lemma PartitionBoundsCells(p: Problem, threshold: real, cuts: seq<nat>, slack: real)
    requires ValidProblem(p) && CutVector(p, cuts) && Within(p, cuts, threshold)
    requires 0.0 <= slack && NearlyFirst(p, slack)
    ensures Unhindered(p, cuts, threshold + slack) && Within(p, cuts, threshold + slack)
  {
    hide ValidProblem;
    forall i: nat, x: nat | 0 < i < |p.devices| - 1 && cuts[i + 1] <= x < Last(p)
      ensures Cell(p, i, x) <= threshold + slack
    {
      var j := HolderHasTime(p, cuts, threshold, x);
      assert i < j;
      assert Cell(p, i, x) <= Cell(p, j, x) + slack;
    }
    LooserWithin(p, cuts, threshold, threshold + slack);
  }

  lemma LooserWithin(p: Problem, cuts: seq<nat>, threshold: real, looser: real)
    requires ValidProblem(p) && CutVector(p, cuts) && Within(p, cuts, threshold) && threshold <= looser
    ensures Within(p, cuts, looser) && (Unhindered(p, cuts, threshold) ==> Unhindered(p, cuts, looser))
  {
    forall i: nat | i < |p.devices|
      ensures PieceWithin(p, cuts, i, looser)
    {
      assert PieceWithin(p, cuts, i, threshold);
    }
  }

  // ----- Exactly when the sweep misses a partition

  // The candidate at which the sweep hands over to device i.
  function Position(p: Problem, threshold: real, i: nat): (position: Option<nat>)
    requires ValidProblem(p) && i < |p.devices|
    ensures position.Some? ==> position.value < |p.candidates|
  {
    if i == 0 then Some(0)
    else
      var before := Position(p, threshold, i - 1);
      if before.None? then None else Furthest(p, i - 1, before.value, Last(p) - (|p.devices| - i), threshold)
  }

  // The sweep arrives at a cell that a middle device cannot finish in time.
  ghost predicate Stuck(p: Problem, threshold: real, i: nat)
    requires ValidProblem(p)
  {
    && 0 < i < |p.devices| - 1 && Position(p, threshold, i).Some?
    && (var x := Position(p, threshold, i).value; x < Last(p) && Cell(p, i, x) > threshold)
  }

  lemma {:induction false} FailsWhenStuck(p: Problem, threshold: real, i: nat, stuck: nat)
    requires ValidProblem(p) && i <= stuck && Stuck(p, threshold, stuck) && Position(p, threshold, i).Some?
    ensures GreedyFrom(p, i, Position(p, threshold, i).value, threshold).None?
    decreases stuck - i
  {
    hide ValidProblem;
    var current := Position(p, threshold, i).value;
    var max := Last(p) - (|p.devices| - 1 - i);
    RoomForAll(p);
    if i == stuck {
      FurthestReaches(p, i, current, max, threshold);
      var cut := Furthest(p, i, current, max, threshold);
      if cut.Some? {
        SecondsMonotone(p, i, current, current + 1, current, cut.value);
        assert false;
      }
    } else {
      EarlierPosition(p, threshold, i + 1, stuck);
      FailsWhenStuck(p, threshold, i + 1, stuck);
    }
  }

  lemma {:induction false} EarlierPosition(p: Problem, threshold: real, i: nat, later: nat)
    requires ValidProblem(p) && i <= later < |p.devices| && Position(p, threshold, later).Some?
    ensures Position(p, threshold, i).Some?
    decreases later
  {
    if i < later {
      EarlierPosition(p, threshold, i, later - 1);
    }
  }

  // Never stuck, the sweep stays ahead of any partition in time.
  lemma {:induction false} UnstuckAhead(p: Problem, i: nat, threshold: real, cuts: seq<nat>)
    requires ValidProblem(p) && CutVector(p, cuts) && Within(p, cuts, threshold)
    requires i < |p.devices| && Position(p, threshold, i).Some?
    requires cuts[i] <= Position(p, threshold, i).value <= Last(p) - (|p.devices| - i)
    requires forall j :: i <= j ==> !Stuck(p, threshold, j)
    ensures GreedyFrom(p, i, Position(p, threshold, i).value, threshold).Some?
    decreases |p.devices| - i
  {
    hide ValidProblem, Within, Furthest, Seconds;
    RoomForAll(p);
    var current := Position(p, threshold, i).value;
    if i == |p.devices| - 1 {
      LastAhead(p, current, threshold, cuts);
    } else {
      InRange(p, cuts, i);
      assert i > 0 ==> !Stuck(p, threshold, i);
      StaysAhead(p, i, current, threshold, cuts);
      UnstuckAhead(p, i + 1, threshold, cuts);
    }
  }

  /**
   At a threshold that some partition meets, the sweep fails exactly when it reaches a
   device between the first and the last at a cell too slow for that device.
   */
  lemma SweepMissesExactly(p: Problem, threshold: real, cuts: seq<nat>)
    requires ValidProblem(p) && CutVector(p, cuts) && Within(p, cuts, threshold)
    ensures Greedy(p, threshold).None? <==> exists i :: Stuck(p, threshold, i)
  {
    RoomForAll(p);
    if i :| Stuck(p, threshold, i) {
      FailsWhenStuck(p, threshold, 0, i);
    } else {
      UnstuckAhead(p, 0, threshold, cuts);
    }
  }
}
