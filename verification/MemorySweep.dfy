/** The event sweep over buffer lifetimes, against the pointwise meaning of occupancy. */
module MemorySweep {
  import opened Basics
  import opened Calendar
  import opened Intervals
  import opened Lifetimes
  import opened Occupancy
  import opened Sorting

  datatype MemoryPoint = MemoryPoint(seconds: real, total: int, active: int, byComponent: seq<int>)

  datatype PoolStats = PoolStats(peak: int, peakSeconds: real, componentsAtPeak: seq<int>, componentPeaks: seq<int>,
                                 byteSeconds: real, activePeak: int, points: seq<MemoryPoint>)

  // Lifetimes as the trace delivers them: inside the window, uses inside the lifetime.
  ghost predicate Traced(lives: seq<Lifetime>, duration: real) {
    forall i :: 0 <= i < |lives| ==> TracedOne(lives[i], duration)
  }

  ghost predicate TracedOne(life: Lifetime, duration: real) {
    && 0.0 <= life.left <= life.right <= duration
    && (life.persistent ==> life.right == duration)
    && Separated(life.active)
    && forall k :: 0 <= k < |life.active| ==> life.left <= life.active[k].left && life.active[k].right <= life.right
  }

  function BlockOf(life: Lifetime): Piece {
    Piece(life.bytes, life.left, life.right, life.persistent)
  }

  // All allocations, and those of one component.
  function Blocks(lives: seq<Lifetime>): seq<Piece> {
    if lives == [] then [] else Blocks(lives[..|lives| - 1]) + [BlockOf(lives[|lives| - 1])]
  }

  function ComponentBlocks(lives: seq<Lifetime>, c: string): seq<Piece> {
    if lives == [] then []
    else
      var life := lives[|lives| - 1];
      ComponentBlocks(lives[..|lives| - 1], c) + if life.component == c then [BlockOf(life)] else []
  }

  // The parts of a lifetime in which some operation uses the buffer.
  function UsesOf(bytes: nat, active: seq<Interval>): seq<Piece> {
    if active == [] then []
    else
      var iv := active[|active| - 1];
      UsesOf(bytes, active[..|active| - 1]) + [Piece(bytes, iv.left, iv.right, false)]
  }

  function ActiveBlocks(lives: seq<Lifetime>): seq<Piece> {
    if lives == [] then []
    else ActiveBlocks(lives[..|lives| - 1]) + UsesOf(lives[|lives| - 1].bytes, lives[|lives| - 1].active)
  }

  // ----- Active is part of allocated

  lemma {:induction false} ActiveHeld(bytes: nat, active: seq<Interval>, t: real)
    requires Separated(active)
    ensures Held(UsesOf(bytes, active), t) == if Covers(active, t) then bytes else 0
    decreases |active|
  {
    if active != [] {
      var rest, last := active[..|active| - 1], active[|active| - 1];
      ActiveHeld(bytes, rest, t);
      assert active == rest + [last];
      MeetsAppend(rest, last, t);
      assert !(Covers(rest, t) && Contains(last, t));
    }
  }

  /** At no instant is more in use than is allocated. */
  lemma {:induction false} ActiveWithinAllocated(lives: seq<Lifetime>, duration: real, t: real)
    requires Traced(lives, duration)
    ensures Held(ActiveBlocks(lives), t) <= Held(Blocks(lives), t)
    decreases |lives|
  {
    if lives != [] {
      var rest, life := lives[..|lives| - 1], lives[|lives| - 1];
      ActiveWithinAllocated(rest, duration, t);
      assert TracedOne(life, duration);
      ActiveHeld(life.bytes, life.active, t);
      HeldConcat(ActiveBlocks(rest), UsesOf(life.bytes, life.active), t);
      HeldConcat(Blocks(rest), [BlockOf(life)], t);
      assert [BlockOf(life)][..0] == [];
    }
  }

  // ----- Components partition the total

  function SumOf(values: seq<int>): int {
    if values == [] then 0 else SumOf(values[..|values| - 1]) + values[|values| - 1]
  }

  // What each component holds at t.
  function PerComponent(lives: seq<Lifetime>, components: seq<string>, t: real): (held: seq<int>)
    ensures |held| == |components|
    ensures forall j :: 0 <= j < |held| ==> held[j] == Held(ComponentBlocks(lives, components[j]), t)
  {
    seq(|components|, j requires 0 <= j < |components| => Held(ComponentBlocks(lives, components[j]), t))
  }

  ghost predicate Lists(components: seq<string>, lives: seq<Lifetime>) {
    Distinct(components) && forall i :: 0 <= i < |lives| ==> lives[i].component in components
  }

  lemma {:induction false} SumRaised(values: seq<int>, raised: seq<int>, j: nat, amount: int)
    requires j < |values| == |raised| && raised[j] == values[j] + amount
    requires forall i :: 0 <= i < |values| && i != j ==> raised[i] == values[i]
    ensures SumOf(raised) == SumOf(values) + amount
    decreases |values|
  {
    if j < |values| - 1 {
      SumRaised(values[..|values| - 1], raised[..|raised| - 1], j, amount);
    } else {
      assert values[..|values| - 1] == raised[..|raised| - 1];
    }
  }

  lemma {:induction false} ComponentsPartition(lives: seq<Lifetime>, components: seq<string>, t: real)
    requires Lists(components, lives)
    ensures SumOf(PerComponent(lives, components, t)) == Held(Blocks(lives), t)
    decreases |lives|
  {
    hide Held, Delta, Change, ComponentBlocks, Blocks, SumOf, Live;
    if lives == [] {
      NothingHeld(t);
      assert forall j :: 0 <= j < |components| ==> ComponentBlocks(lives, components[j]) == [] by {
        NoComponentBlocks();
      }
      AllZero(PerComponent(lives, components, t));
    } else {
      var rest, life := lives[..|lives| - 1], lives[|lives| - 1];
      ComponentsPartition(rest, components, t);
      BlocksGrow(lives, t);
      assert life.component in components;
      var j :| 0 <= j < |components| && components[j] == life.component;
      var amount := if Live(BlockOf(life), t) then life.bytes else 0;
      forall i | 0 <= i < |components|
        ensures PerComponent(lives, components, t)[i] == PerComponent(rest, components, t)[i] + if i == j then amount else 0
      {
        assert i != j ==> components[i] != components[j];
        ComponentGrows(lives, components[i], t);
      }
      SumRaised(PerComponent(rest, components, t), PerComponent(lives, components, t), j, amount);
    }
  }

  lemma NothingHeld(t: real)
    ensures Held([], t) == 0 && Blocks([]) == []
  {
  }

  lemma NoComponentBlocks()
    ensures forall c :: ComponentBlocks([], c) == []
  {
  }

  lemma BlocksGrow(lives: seq<Lifetime>, t: real)
    requires lives != []
    ensures var rest, life := lives[..|lives| - 1], lives[|lives| - 1];
            && Held(Blocks(lives), t) == Held(Blocks(rest), t) + (if Live(BlockOf(life), t) then life.bytes else 0)
            && Delta(Blocks(lives), t) == Delta(Blocks(rest), t) + Change(BlockOf(life), t)
  {
    var rest, life := lives[..|lives| - 1], lives[|lives| - 1];
    HeldConcat(Blocks(rest), [BlockOf(life)], t);
    assert [BlockOf(life)][..0] == [];
  }

  lemma ComponentGrows(lives: seq<Lifetime>, c: string, t: real)
    requires lives != []
    ensures var life := lives[|lives| - 1];
            && Held(ComponentBlocks(lives, c), t) == Held(ComponentBlocks(lives[..|lives| - 1], c), t)
                 + (if c == life.component && Live(BlockOf(life), t) then life.bytes else 0)
            && Delta(ComponentBlocks(lives, c), t) == Delta(ComponentBlocks(lives[..|lives| - 1], c), t)
                 + (if c == life.component then Change(BlockOf(life), t) else 0)
  {
    var rest, life := lives[..|lives| - 1], lives[|lives| - 1];
    if c == life.component {
      HeldConcat(ComponentBlocks(rest, c), [BlockOf(life)], t);
      assert [BlockOf(life)][..0] == [];
    } else {
      assert ComponentBlocks(lives, c) == ComponentBlocks(rest, c);
    }
  }

  lemma {:induction false} AllZero(values: seq<int>)
    requires forall j :: 0 <= j < |values| ==> values[j] == 0
    ensures SumOf(values) == 0
    decreases |values|
  {
    if values != [] {
      AllZero(values[..|values| - 1]);
    }
  }

  // ----- Changes by timestamp

  type Deltas = map<real, map<string, int>>

  function DeltaAt(deltas: Deltas, t: real, c: string): int {
    if t in deltas && c in deltas[t] then deltas[t][c] else 0
  }

  function Bump(deltas: Deltas, t: real, c: string, amount: int): (bumped: Deltas)
    ensures bumped.Keys == deltas.Keys + {t}
    ensures forall s, d :: DeltaAt(bumped, s, d) == DeltaAt(deltas, s, d) + if s == t && d == c then amount else 0
  {
    deltas[t := (if t in deltas then deltas[t] else map[])[c := DeltaAt(deltas, t, c) + amount]]
  }

  function ActiveAt(active: map<real, int>, t: real): int {
    if t in active then active[t] else 0
  }

  function BumpActive(active: map<real, int>, t: real, amount: int): (bumped: map<real, int>)
    ensures bumped.Keys == active.Keys + {t}
    ensures forall s :: ActiveAt(bumped, s) == ActiveAt(active, s) + if s == t then amount else 0
  {
    active[t := ActiveAt(active, t) + amount]
  }

  // Every start and stop of a piece is one of the timestamps.
  ghost predicate Marked(pieces: seq<Piece>, times: set<real>) {
    forall i :: 0 <= i < |pieces| ==> pieces[i].left in times && (pieces[i].forGood || pieces[i].right in times)
  }

  ghost predicate InWindow(times: set<real>, duration: real) {
    forall t :: t in times ==> 0.0 <= t <= duration
  }

  // The timestamps record exactly the allocations and releases.
  ghost predicate Records(lives: seq<Lifetime>, deltas: Deltas) {
    && (forall t, c :: DeltaAt(deltas, t, c) == Delta(ComponentBlocks(lives, c), t))
    && Marked(Blocks(lives), deltas.Keys)
  }

  ghost predicate RecordsUses(pieces: seq<Piece>, active: map<real, int>) {
    (forall t :: ActiveAt(active, t) == Delta(pieces, t)) && Marked(pieces, active.Keys)
  }

  lemma RecordsGrow(lives: seq<Lifetime>, deltas: Deltas, grown: Deltas)
    requires lives != []
    requires Records(lives[..|lives| - 1], deltas)
    requires var life := lives[|lives| - 1];
             var started := Bump(deltas, life.left, life.component, life.bytes);
             grown == if life.persistent then started else Bump(started, life.right, life.component, 0 - life.bytes)
    ensures Records(lives, grown)
  {
    var rest, life := lives[..|lives| - 1], lives[|lives| - 1];
    forall t, c
      ensures DeltaAt(grown, t, c) == Delta(ComponentBlocks(lives, c), t)
    {
      assert DeltaAt(deltas, t, c) == Delta(ComponentBlocks(rest, c), t);
      ComponentGrows(lives, c, t);
    }
  }

  lemma UsesGrow(pieces: seq<Piece>, active: map<real, int>, bytes: nat, iv: Interval)
    requires RecordsUses(pieces, active)
    ensures RecordsUses(pieces + [Piece(bytes, iv.left, iv.right, false)],
                        BumpActive(BumpActive(active, iv.left, bytes), iv.right, 0 - bytes))
  {
    hide Delta;
    var last := Piece(bytes, iv.left, iv.right, false);
    var grown := BumpActive(BumpActive(active, iv.left, bytes), iv.right, 0 - bytes);
    forall t
      ensures ActiveAt(grown, t) == Delta(pieces + [last], t)
    {
      DeltaAppend(pieces, last, t);
      assert ActiveAt(active, t) == Delta(pieces, t);
    }
  }

  lemma DeltaAppend(pieces: seq<Piece>, last: Piece, t: real)
    ensures Delta(pieces + [last], t) == Delta(pieces, t) + Change(last, t)
  {
    assert (pieces + [last])[..|pieces|] == pieces;
  }

  lemma UsesStep(pieces: seq<Piece>, active: map<real, int>, bytes: nat, intervals: seq<Interval>, k: nat)
    requires k < |intervals| && RecordsUses(pieces + UsesOf(bytes, intervals[..k]), active)
    ensures RecordsUses(pieces + UsesOf(bytes, intervals[..k + 1]),
                        BumpActive(BumpActive(active, intervals[k].left, bytes), intervals[k].right, 0 - bytes))
  {
    var iv := intervals[k];
    UsesGrow(pieces + UsesOf(bytes, intervals[..k]), active, bytes, iv);
    hide RecordsUses;
    assert intervals[..k + 1][..k] == intervals[..k];
    assert pieces + UsesOf(bytes, intervals[..k + 1])
        == pieces + UsesOf(bytes, intervals[..k]) + [Piece(bytes, iv.left, iv.right, false)];
  }

  method CollectUses(pieces: seq<Piece>, before: map<real, int>, life: Lifetime, duration: real) returns (active: map<real, int>)
    requires RecordsUses(pieces, before) && InWindow(before.Keys, duration) && TracedOne(life, duration)
    ensures RecordsUses(pieces + UsesOf(life.bytes, life.active), active) && InWindow(active.Keys, duration)
  {
    hide RecordsUses, Separated;
    active := before;
    assert pieces + [] == pieces;
    for k := 0 to |life.active|
      invariant RecordsUses(pieces + UsesOf(life.bytes, life.active[..k]), active) && InWindow(active.Keys, duration)
    {
      var iv := life.active[k];
      UsesStep(pieces, active, life.bytes, life.active, k);
      assert 0.0 <= iv.left <= duration && 0.0 <= iv.right <= duration by {
        UsesInWindow(life, duration, k);
      }
      active := BumpActive(BumpActive(active, iv.left, life.bytes), iv.right, 0 - life.bytes);
    }
    assert life.active[..|life.active|] == life.active;
  }

  lemma UsesInWindow(life: Lifetime, duration: real, k: nat)
    requires TracedOne(life, duration) && k < |life.active|
    ensures 0.0 <= life.active[k].left <= life.active[k].right <= duration
  {
  }

  method CollectChanges(lives: seq<Lifetime>, duration: real) returns (deltas: Deltas, active: map<real, int>)
    requires Traced(lives, duration)
    ensures Records(lives, deltas) && InWindow(deltas.Keys, duration)
    ensures RecordsUses(ActiveBlocks(lives), active) && InWindow(active.Keys, duration)
  {
    hide Records, RecordsUses, TracedOne, ActiveBlocks;
    deltas, active := map[], map[];
    NothingRecorded();
    for k := 0 to |lives|
      invariant Records(lives[..k], deltas) && InWindow(deltas.Keys, duration)
      invariant RecordsUses(ActiveBlocks(lives[..k]), active) && InWindow(active.Keys, duration)
    {
      var life := lives[k];
      assert lives[..k + 1][..k] == lives[..k];
      LifeInWindow(life, duration);
      ghost var before := deltas;
      deltas := Bump(deltas, life.left, life.component, life.bytes);
      if !life.persistent {
        deltas := Bump(deltas, life.right, life.component, 0 - life.bytes);
      }
      RecordsGrow(lives[..k + 1], before, deltas);
      ActiveGrows(lives[..k + 1]);
      active := CollectUses(ActiveBlocks(lives[..k]), active, life, duration);
    }
    assert lives[..|lives|] == lives;
  }

  lemma NothingRecorded()
    ensures Records([], map[]) && RecordsUses(ActiveBlocks([]), map[])
  {
  }

  lemma LifeInWindow(life: Lifetime, duration: real)
    requires TracedOne(life, duration)
    ensures 0.0 <= life.left <= life.right <= duration
  {
  }

  lemma ActiveGrows(lives: seq<Lifetime>)
    requires lives != []
    ensures ActiveBlocks(lives) == ActiveBlocks(lives[..|lives| - 1]) + UsesOf(lives[|lives| - 1].bytes, lives[|lives| - 1].active)
  {
  }

  // ----- Timestamps in order

  ghost predicate Increasing(times: seq<real>) {
    forall i, j :: 0 <= i < j < |times| ==> times[i] < times[j]
  }

  method InOrder(times: set<real>) returns (ordered: seq<real>)
    ensures Increasing(ordered) && forall t :: t in ordered <==> t in times
  {
    var before := (a: real, b: real) => a <= b;
    ordered := Arrange(times, before);
    assert forall i, j :: 0 <= i < j < |ordered| ==> before(ordered[i], ordered[j]);
  }

  // Timestamps of an open gap contain no change.
  lemma GapIsQuiet(pieces: seq<Piece>, marks: set<real>, times: seq<real>, k: nat)
    requires Marked(pieces, marks) && Increasing(times) && (forall t :: t in marks ==> t in times) && k + 1 < |times|
    ensures Quiet(pieces, times[k], times[k + 1])
  {
    forall i | 0 <= i < |pieces|
      ensures QuietPiece(pieces[i], times[k], times[k + 1])
    {
      NoneBetween(times, k, pieces[i].left);
      NoneBetween(times, k, pieces[i].right);
    }
  }

  lemma NoneBetween(times: seq<real>, k: nat, t: real)
    requires Increasing(times) && k + 1 < |times|
    ensures t in times ==> !(times[k] < t < times[k + 1])
  {
    if t in times {
      var m :| 0 <= m < |times| && times[m] == t;
      assert m <= k || m >= k + 1;
    }
  }
}
