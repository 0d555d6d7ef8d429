/** Running the sweep: every reported figure equals its pointwise definition. */
module SweepRun {
  import opened Basics
  import opened Lifetimes
  import opened Occupancy
  import opened MemorySweep
  import opened Sorting

  // The largest amount ever held, and an instant at which it is held.
  ghost predicate IsPeak(pieces: seq<Piece>, peak: int, at: real) {
    0.0 <= at && Held(pieces, at) == peak && forall t :: 0.0 <= t ==> Held(pieces, t) <= peak
  }

  // Point k is the latest one at or before t.
  ghost predicate LastPoint(points: seq<MemoryPoint>, k: nat, t: real) {
    k < |points| && points[k].seconds <= t && (k + 1 < |points| ==> t < points[k + 1].seconds)
  }

  ghost predicate ShowsAt(lives: seq<Lifetime>, components: seq<string>, point: MemoryPoint, t: real) {
    && point.total == Held(Blocks(lives), t) && point.active == Held(ActiveBlocks(lives), t)
    && point.byComponent == PerComponent(lives, components, t)
  }

  ghost predicate Reports(lives: seq<Lifetime>, components: seq<string>, stats: PoolStats) {
    && |stats.points| > 0 && stats.points[0].seconds == 0.0
    && (forall k: nat, t :: LastPoint(stats.points, k, t) ==> ShowsAt(lives, components, stats.points[k], t))
    && IsPeak(Blocks(lives), stats.peak, stats.peakSeconds)
    && stats.componentsAtPeak == PerComponent(lives, components, stats.peakSeconds)
    && ComponentPeaks(lives, components, stats.componentPeaks)
    && HasPeak(ActiveBlocks(lives), stats.activePeak)
    && stats.byteSeconds == Footprint(Blocks(lives))
  }

  ghost predicate ComponentPeaks(lives: seq<Lifetime>, components: seq<string>, peaks: seq<int>) {
    |peaks| == |components| &&
    forall j :: 0 <= j < |components| ==> HasPeak(ComponentBlocks(lives, components[j]), peaks[j])
  }

  ghost predicate HasPeak(pieces: seq<Piece>, peak: int) {
    exists at :: IsPeak(pieces, peak, at)
  }

  // ----- One set of pieces along the timestamps

  // Nonnegative timestamps that start at zero and include every change.
  ghost predicate Timeline(pieces: seq<Piece>, times: seq<real>) {
    && Proper(pieces) && Increasing(times) && |times| > 0 && times[0] == 0.0
    && forall i :: 0 <= i < |pieces| ==> pieces[i].left in times && (pieces[i].forGood || pieces[i].right in times)
  }

  function HeldBefore(pieces: seq<Piece>, times: seq<real>, k: nat): nat
    requires k <= |times|
  {
    if k == 0 then 0 else Held(pieces, times[k - 1])
  }

  function UsedBefore(pieces: seq<Piece>, times: seq<real>, k: nat): real
    requires k <= |times|
  {
    if k == 0 then 0.0 else Used(pieces, times[k - 1])
  }

  function TimeBefore(times: seq<real>, k: nat): real
    requires k <= |times|
  {
    if k == 0 then 0.0 else times[k - 1]
  }

  lemma GapQuiet(pieces: seq<Piece>, times: seq<real>, k: nat)
    requires Timeline(pieces, times) && 0 < k < |times|
    ensures Quiet(pieces, times[k - 1], times[k])
  {
    var marks := set t | t in times;
    GapIsQuiet(pieces, marks, times, k - 1);
  }

  lemma Advance(pieces: seq<Piece>, times: seq<real>, k: nat)
    requires Timeline(pieces, times) && k < |times|
    ensures Held(pieces, times[k]) == HeldBefore(pieces, times, k) + Delta(pieces, times[k])
    ensures Used(pieces, times[k]) == UsedBefore(pieces, times, k)
                                      + Times(HeldBefore(pieces, times, k), times[k] - TimeBefore(times, k))
  {
    hide Held, Used, Delta;
    if k == 0 {
      HeldAtZero(pieces);
    } else {
      GapQuiet(pieces, times, k);
      HeldStep(pieces, times[k - 1], times[k]);
      UsedStep(pieces, times[k - 1], times[k]);
    }
  }

  // Between timestamps, and after the last one, nothing changes.
  lemma Constant(pieces: seq<Piece>, times: seq<real>, k: nat, t: real)
    requires Timeline(pieces, times) && k < |times| && times[k] <= t && (k + 1 < |times| ==> t < times[k + 1])
    ensures Held(pieces, t) == Held(pieces, times[k])
  {
    hide Held;
    if k + 1 < |times| {
      GapQuiet(pieces, times, k + 1);
      HeldQuiet(pieces, times[k], t, times[k + 1]);
    } else {
      AfterLast(pieces, times, t + 1.0);
      HeldQuiet(pieces, times[k], t, t + 1.0);
    }
  }

  lemma AfterLast(pieces: seq<Piece>, times: seq<real>, b: real)
    requires Timeline(pieces, times)
    ensures Quiet(pieces, times[|times| - 1], b)
  {
    forall t | t in times
      ensures t <= times[|times| - 1]
    {
      var m :| 0 <= m < |times| && times[m] == t;
    }
  }

  lemma {:induction false} SomeLast(times: seq<real>, t: real, n: nat) returns (k: nat)
    requires Increasing(times) && 0 < n <= |times| && times[0] <= t
    requires n < |times| ==> t < times[n]
    ensures k < n && times[k] <= t && (k + 1 < |times| ==> t < times[k + 1])
    decreases n
  {
    if times[n - 1] <= t {
      k := n - 1;
    } else {
      k := SomeLast(times, t, n - 1);
    }
  }

  // The running maximum after k timestamps.
  ghost predicate PeakSoFar(pieces: seq<Piece>, times: seq<real>, k: nat, peak: int, at: real)
    requires k <= |times|
  {
    && (forall m :: 0 <= m < k ==> Held(pieces, times[m]) <= peak)
    && ((peak == 0 && at == 0.0) || (0.0 <= at && Held(pieces, at) == peak))
  }

  lemma PeakStands(pieces: seq<Piece>, times: seq<real>, peak: int, at: real)
    requires Timeline(pieces, times) && PeakSoFar(pieces, times, |times|, peak, at)
    ensures IsPeak(pieces, peak, at)
  {
    forall t | 0.0 <= t
      ensures Held(pieces, t) <= peak
    {
      var k := SomeLast(times, t, |times|);
      Constant(pieces, times, k, t);
    }
    assert Held(pieces, times[0]) <= peak;
  }

  // ----- The sweep

  ghost predicate Prepared(lives: seq<Lifetime>, duration: real, components: seq<string>, deltas: Deltas,
                           active: map<real, int>, times: seq<real>)
  {
    && Traced(lives, duration) && Lists(components, lives)
    && Records(lives, deltas) && RecordsUses(ActiveBlocks(lives), active)
    && Increasing(times) && |times| > 0 && times[0] == 0.0 && times[|times| - 1] == duration
    && (forall t :: t in deltas || t in active ==> t in times)
  }

  lemma {:induction false} BlocksProper(lives: seq<Lifetime>, duration: real)
    requires Traced(lives, duration)
    ensures Proper(Blocks(lives)) && Proper(ActiveBlocks(lives))
    ensures forall i :: 0 <= i < |Blocks(lives)| ==>
              if Blocks(lives)[i].forGood then Blocks(lives)[i].right == duration else Blocks(lives)[i].right <= duration
    decreases |lives|
  {
    if lives != [] {
      BlocksProper(lives[..|lives| - 1], duration);
      assert TracedOne(lives[|lives| - 1], duration);
      UsesProper(lives[|lives| - 1], |lives[|lives| - 1].active|, duration);
      assert lives[|lives| - 1].active[..|lives[|lives| - 1].active|] == lives[|lives| - 1].active;
    }
  }

  lemma {:induction false} UsesProper(life: Lifetime, k: nat, duration: real)
    requires TracedOne(life, duration) && k <= |life.active|
    ensures Proper(UsesOf(life.bytes, life.active[..k]))
  {
    if k > 0 {
      UsesProper(life, k - 1, duration);
      assert life.active[..k][..k - 1] == life.active[..k - 1];
      UsesInWindow(life, duration, k - 1);
    }
  }

  // A component's pieces are among all pieces.
  lemma {:induction false} ComponentWithin(lives: seq<Lifetime>, c: string)
    ensures forall p :: p in ComponentBlocks(lives, c) ==> p in Blocks(lives)
    decreases |lives|
  {
    if lives != [] {
      ComponentWithin(lives[..|lives| - 1], c);
    }
  }

  lemma Timelines(lives: seq<Lifetime>, duration: real, components: seq<string>, deltas: Deltas,
                  active: map<real, int>, times: seq<real>)
    requires Prepared(lives, duration, components, deltas, active, times)
    ensures Timeline(Blocks(lives), times) && Timeline(ActiveBlocks(lives), times)
  {
    BlocksProper(lives, duration);
  }

  lemma ComponentTimeline(lives: seq<Lifetime>, c: string, times: seq<real>)
    requires Timeline(Blocks(lives), times)
    ensures Timeline(ComponentBlocks(lives, c), times)
  {
    ComponentWithin(lives, c);
    var part, all := ComponentBlocks(lives, c), Blocks(lives);
    forall i | 0 <= i < |part|
      ensures 0.0 <= part[i].left <= part[i].right && part[i].left in times && (part[i].forGood || part[i].right in times)
    {
      assert part[i] in all;
    }
  }

  // What the running variables hold after k timestamps.
  ghost predicate Tracks(lives: seq<Lifetime>, components: seq<string>, times: seq<real>, k: nat,
                         current: seq<int>, total: int, activeTotal: int, area: real)
    requires k <= |times|
  {
    && |current| == |components|
    && (forall j :: 0 <= j < |components| ==> current[j] == HeldBefore(ComponentBlocks(lives, components[j]), times, k))
    && total == HeldBefore(Blocks(lives), times, k) && activeTotal == HeldBefore(ActiveBlocks(lives), times, k)
    && area == UsedBefore(Blocks(lives), times, k)
  }

  lemma TracksStep(lives: seq<Lifetime>, duration: real, components: seq<string>, deltas: Deltas, active: map<real, int>,
                   times: seq<real>, k: nat, current: seq<int>, total: int, activeTotal: int, area: real,
                   updated: seq<int>)
    requires Prepared(lives, duration, components, deltas, active, times) && k < |times|
    requires Tracks(lives, components, times, k, current, total, activeTotal, area)
    requires |updated| == |components|
    requires forall j :: 0 <= j < |updated| ==> updated[j] == current[j] + DeltaAt(deltas, times[k], components[j])
    ensures total >= 0
    ensures updated == PerComponent(lives, components, times[k])
    ensures Tracks(lives, components, times, k + 1, updated, SumOf(updated), activeTotal + ActiveAt(active, times[k]),
                   area + Times(total, times[k] - TimeBefore(times, k)))
  {
    hide Held, Used, Delta, Timeline, Times, SumOf, Blocks, ActiveBlocks, ComponentBlocks, Traced;
    Timelines(lives, duration, components, deltas, active, times);
    forall j | 0 <= j < |components|
      ensures updated[j] == Held(ComponentBlocks(lives, components[j]), times[k])
    {
      ComponentTimeline(lives, components[j], times);
      Advance(ComponentBlocks(lives, components[j]), times, k);
    }
    Advance(Blocks(lives), times, k);
    Advance(ActiveBlocks(lives), times, k);
    assert updated == PerComponent(lives, components, times[k]);
    ComponentsPartition(lives, components, times[k]);
  }

  // Applies the changes of one timestamp, component by component.
  method ApplyChanges(components: seq<string>, deltas: Deltas, seconds: real, current: seq<int>, peaks: seq<int>)
      returns (updated: seq<int>, raised: seq<int>)
    requires |current| == |peaks| == |components|
    ensures |updated| == |raised| == |components|
    ensures forall j :: 0 <= j < |components| ==> updated[j] == current[j] + DeltaAt(deltas, seconds, components[j])
    ensures forall j :: 0 <= j < |components| ==>
              raised[j] == if updated[j] > peaks[j] && seconds in deltas && components[j] in deltas[seconds]
                           then updated[j] else peaks[j]
  {
    updated, raised := current, peaks;
    for j := 0 to |components|
      invariant |updated| == |raised| == |components|
      invariant forall i :: j <= i < |components| ==> updated[i] == current[i] && raised[i] == peaks[i]
      invariant forall i :: 0 <= i < j ==> updated[i] == current[i] + DeltaAt(deltas, seconds, components[i])
      invariant forall i :: 0 <= i < j ==>
                  raised[i] == if updated[i] > peaks[i] && seconds in deltas && components[i] in deltas[seconds]
                               then updated[i] else peaks[i]
    {
      if seconds in deltas && components[j] in deltas[seconds] {
        updated := updated[j := updated[j] + deltas[seconds][components[j]]];
        if updated[j] > raised[j] {
          raised := raised[j := updated[j]];
        }
      }
    }
  }

  // One component's running peak, somewhere attained.
  ghost predicate Peaked(pieces: seq<Piece>, times: seq<real>, k: nat, peak: int)
    requires k <= |times|
  {
    exists at :: PeakSoFar(pieces, times, k, peak, at)
  }

  ghost predicate ComponentsPeaked(lives: seq<Lifetime>, components: seq<string>, times: seq<real>, k: nat, peaks: seq<int>)
    requires k <= |times|
  {
    |peaks| == |components| &&
    forall j :: 0 <= j < |components| ==> Peaked(ComponentBlocks(lives, components[j]), times, k, peaks[j])
  }

  lemma PeakedStep(pieces: seq<Piece>, times: seq<real>, k: nat, peak: int, raised: int)
    requires k < |times| && 0.0 <= times[k] && Peaked(pieces, times, k, peak)
    requires raised == if Held(pieces, times[k]) > peak then Held(pieces, times[k]) else peak
    ensures Peaked(pieces, times, k + 1, raised)
  {
    var at :| PeakSoFar(pieces, times, k, peak, at);
    assert PeakSoFar(pieces, times, k + 1, raised, if raised == peak then at else times[k]);
  }

  lemma ComponentsPeakedStep(lives: seq<Lifetime>, components: seq<string>, deltas: Deltas, times: seq<real>, k: nat,
                             current: seq<int>, updated: seq<int>, peaks: seq<int>, raised: seq<int>)
    requires k < |times| && 0.0 <= times[k] && |current| == |updated| == |raised| == |components|
    requires ComponentsPeaked(lives, components, times, k, peaks)
    requires forall j :: 0 <= j < |components| ==> current[j] == HeldBefore(ComponentBlocks(lives, components[j]), times, k)
    requires updated == PerComponent(lives, components, times[k])
    requires forall j :: 0 <= j < |components| ==> updated[j] == current[j] + DeltaAt(deltas, times[k], components[j])
    requires forall j :: 0 <= j < |components| ==>
               raised[j] == if updated[j] > peaks[j] && times[k] in deltas && components[j] in deltas[times[k]]
                            then updated[j] else peaks[j]
    ensures ComponentsPeaked(lives, components, times, k + 1, raised)
  {
    hide Held;
    forall j | 0 <= j < |components|
      ensures Peaked(ComponentBlocks(lives, components[j]), times, k + 1, raised[j])
    {
      var pieces := ComponentBlocks(lives, components[j]);
      var at :| PeakSoFar(pieces, times, k, peaks[j], at);
      assert k > 0 ==> Held(pieces, times[k - 1]) <= peaks[j];
      assert updated[j] == Held(pieces, times[k]);
      assert current[j] <= peaks[j];
      PeakedStep(pieces, times, k, peaks[j], raised[j]);
    }
  }

  // The pool's own peak, with the components at that instant.
  ghost predicate TotalPeaked(lives: seq<Lifetime>, components: seq<string>, times: seq<real>, k: nat,
                              peak: int, at: real, atPeak: seq<int>)
    requires k <= |times|
  {
    && PeakSoFar(Blocks(lives), times, k, peak, at) && |atPeak| == |components|
    && (if peak == 0 then at == 0.0 && forall j :: 0 <= j < |components| ==> atPeak[j] == 0
        else atPeak == PerComponent(lives, components, at))
  }

  lemma TotalPeakStands(lives: seq<Lifetime>, components: seq<string>, times: seq<real>, peak: int, at: real, atPeak: seq<int>)
    requires Timeline(Blocks(lives), times) && TotalPeaked(lives, components, times, |times|, peak, at, atPeak)
    ensures IsPeak(Blocks(lives), peak, at) && atPeak == PerComponent(lives, components, at)
  {
    PeakStands(Blocks(lives), times, peak, at);
    if peak == 0 {
      forall j | 0 <= j < |components|
        ensures Held(ComponentBlocks(lives, components[j]), at) == 0
      {
        ComponentAtMost(lives, components[j], at);
      }
    }
  }

  lemma {:induction false} ComponentAtMost(lives: seq<Lifetime>, c: string, t: real)
    ensures Held(ComponentBlocks(lives, c), t) <= Held(Blocks(lives), t)
    decreases |lives|
  {
    if lives != [] {
      hide Held;
      ComponentAtMost(lives[..|lives| - 1], c, t);
      ComponentGrows(lives, c, t);
      BlocksGrow(lives, t);
    } else {
      assert Blocks(lives) == ComponentBlocks(lives, c);
    }
  }

  ghost predicate Listed(lives: seq<Lifetime>, components: seq<string>, times: seq<real>, points: seq<MemoryPoint>, k: nat)
    requires k <= |times|
  {
    |points| == k && forall m :: 0 <= m < k ==> points[m].seconds == times[m] && ShowsAt(lives, components, points[m], times[m])
  }

  // A point speaks for every instant up to the next one.
  lemma PointsSpeak(lives: seq<Lifetime>, components: seq<string>, times: seq<real>, points: seq<MemoryPoint>, k: nat, t: real)
    requires Timeline(Blocks(lives), times) && Timeline(ActiveBlocks(lives), times)
    requires Listed(lives, components, times, points, |times|) && LastPoint(points, k, t)
    ensures ShowsAt(lives, components, points[k], t)
  {
    hide Held, Timeline;
    Constant(Blocks(lives), times, k, t);
    Constant(ActiveBlocks(lives), times, k, t);
    forall j | 0 <= j < |components|
      ensures Held(ComponentBlocks(lives, components[j]), t) == Held(ComponentBlocks(lives, components[j]), times[k])
    {
      ComponentTimeline(lives, components[j], times);
      Constant(ComponentBlocks(lives, components[j]), times, k, t);
    }
    assert ShowsAt(lives, components, points[k], times[k]);
    assert PerComponent(lives, components, t) == PerComponent(lives, components, times[k]);
  }

  lemma SweepReports(lives: seq<Lifetime>, duration: real, components: seq<string>, deltas: Deltas,
                     active: map<real, int>, times: seq<real>, stats: PoolStats)
    requires Prepared(lives, duration, components, deltas, active, times)
    requires Listed(lives, components, times, stats.points, |times|)
    requires TotalPeaked(lives, components, times, |times|, stats.peak, stats.peakSeconds, stats.componentsAtPeak)
    requires ComponentsPeaked(lives, components, times, |times|, stats.componentPeaks)
    requires Peaked(ActiveBlocks(lives), times, |times|, stats.activePeak)
    requires stats.byteSeconds == UsedBefore(Blocks(lives), times, |times|)
    ensures Reports(lives, components, stats)
  {
    Timelines(lives, duration, components, deltas, active, times);
    BlocksProper(lives, duration);
    UsedAtEnd(Blocks(lives), duration);
    assert stats.points[0].seconds == times[0] == 0.0;
    assert UsedBefore(Blocks(lives), times, |times|) == Used(Blocks(lives), duration);
    hide Held, Used, Timeline, IsPeak, ShowsAt, PeakSoFar, Prepared;
    forall k: nat, t | LastPoint(stats.points, k, t)
      ensures ShowsAt(lives, components, stats.points[k], t)
    {
      PointsSpeak(lives, components, times, stats.points, k, t);
    }
    TotalPeakStands(lives, components, times, stats.peak, stats.peakSeconds, stats.componentsAtPeak);
    forall j | 0 <= j < |components|
      ensures HasPeak(ComponentBlocks(lives, components[j]), stats.componentPeaks[j])
    {
      ComponentTimeline(lives, components[j], times);
      var at :| PeakSoFar(ComponentBlocks(lives, components[j]), times, |times|, stats.componentPeaks[j], at);
      PeakStands(ComponentBlocks(lives, components[j]), times, stats.componentPeaks[j], at);
    }
    var at :| PeakSoFar(ActiveBlocks(lives), times, |times|, stats.activePeak, at);
    PeakStands(ActiveBlocks(lives), times, stats.activePeak, at);
  }

  method ListComponents(lives: seq<Lifetime>) returns (components: seq<string>)
    ensures Lists(components, lives)
  {
    components := [];
    for k := 0 to |lives|
      invariant Lists(components, lives[..k])
    {
      if lives[k].component !in components {
        components := components + [lives[k].component];
      }
    }
  }

  method PrepareSweep(lives: seq<Lifetime>, duration: real)
      returns (components: seq<string>, deltas: Deltas, active: map<real, int>, times: seq<real>)
    requires Traced(lives, duration) && duration > 0.0
    ensures Prepared(lives, duration, components, deltas, active, times)
  {
    components := ListComponents(lives);
    deltas, active := CollectChanges(lives, duration);
    hide Records, RecordsUses, Traced, Lists;
    times := InOrder({0.0, duration} + deltas.Keys + active.Keys);
    FirstAndLast(times, duration);
  }

  lemma FirstAndLast(times: seq<real>, duration: real)
    requires Increasing(times) && 0.0 in times && duration in times
    requires forall t :: t in times ==> 0.0 <= t <= duration
    ensures times[0] == 0.0 && times[|times| - 1] == duration
  {
    var a :| 0 <= a < |times| && times[a] == 0.0;
    var b :| 0 <= b < |times| && times[b] == duration;
    assert times[0] in times && times[|times| - 1] in times;
  }

  // What one timestamp adds to the report.
  lemma ReportStep(lives: seq<Lifetime>, components: seq<string>, times: seq<real>, k: nat, current: seq<int>, total: int,
                   activeTotal: int, area: real, points: seq<MemoryPoint>, peak: int, peakTime: real, atPeak: seq<int>,
                   activePeak: int)
    requires k < |times| && 0.0 <= times[k]
    requires Tracks(lives, components, times, k + 1, current, total, activeTotal, area)
    requires current == PerComponent(lives, components, times[k])
    requires Listed(lives, components, times, points, k)
    requires TotalPeaked(lives, components, times, k, peak, peakTime, atPeak)
    requires Peaked(ActiveBlocks(lives), times, k, activePeak)
    ensures Listed(lives, components, times, points + [MemoryPoint(times[k], total, activeTotal, current)], k + 1)
    ensures if total > peak then TotalPeaked(lives, components, times, k + 1, total, times[k], current)
            else TotalPeaked(lives, components, times, k + 1, peak, peakTime, atPeak)
    ensures Peaked(ActiveBlocks(lives), times, k + 1, if activeTotal > activePeak then activeTotal else activePeak)
  {
    hide Held, Used;
    PeakedStep(ActiveBlocks(lives), times, k, activePeak, if activeTotal > activePeak then activeTotal else activePeak);
    assert total == Held(Blocks(lives), times[k]) && activeTotal == Held(ActiveBlocks(lives), times[k]);
  }

  lemma SweepStarts(lives: seq<Lifetime>, components: seq<string>, times: seq<real>, zeros: seq<int>)
    requires |zeros| == |components| && forall j :: 0 <= j < |zeros| ==> zeros[j] == 0
    ensures Tracks(lives, components, times, 0, zeros, 0, 0, 0.0) && Listed(lives, components, times, [], 0)
    ensures TotalPeaked(lives, components, times, 0, 0, 0.0, zeros)
    ensures ComponentsPeaked(lives, components, times, 0, zeros) && Peaked(ActiveBlocks(lives), times, 0, 0)
    ensures TimeBefore(times, 0) == 0.0
  {
    hide Held, Used;
    assert PeakSoFar(ActiveBlocks(lives), times, 0, 0, 0.0);
    assert forall j :: 0 <= j < |components| ==> PeakSoFar(ComponentBlocks(lives, components[j]), times, 0, 0, 0.0);
  }

  lemma SpanWithin(held: nat, peak: nat, a: real, b: real)
    requires held <= peak && a <= b
    ensures Times(peak, a) + Times(held, b - a) <= Times(peak, b)
  {
    assert (peak - held) as real * (b - a) >= 0.0;
    assert Times(peak, b) - Times(peak, a) == peak as real * (b - a);
    assert peak as real == (peak - held) as real + held as real;
  }

  // Never holding more than the peak, the pieces use no more than the peak all the time.
  lemma {:induction false} UsedWithinPeak(pieces: seq<Piece>, times: seq<real>, k: nat, peak: nat)
    requires Timeline(pieces, times) && 0 < k <= |times| && forall t :: 0.0 <= t ==> Held(pieces, t) <= peak
    ensures Used(pieces, times[k - 1]) <= Times(peak, times[k - 1])
  {
    hide Held, Used, Times;
    Advance(pieces, times, k - 1);
    if k > 1 {
      assert times[0] <= times[k - 2] < times[k - 1];
      UsedWithinPeak(pieces, times, k - 1, peak);
      SpanWithin(Held(pieces, times[k - 2]), peak, times[k - 2], times[k - 1]);
    } else {
      SpanWithin(0, peak, 0.0, 0.0);
      assert Times(0, 0.0) == Times(peak, 0.0) by { NoTime(0); NoTime(peak); }
      assert Used(pieces, times[0]) == Times(0, 0.0);
    }
  }

  lemma NoTime(amount: nat)
    ensures Times(amount, 0.0) == 0.0
  {
  }

  lemma AreaWithinPeak(lives: seq<Lifetime>, duration: real, components: seq<string>, deltas: Deltas,
                       active: map<real, int>, times: seq<real>, stats: PoolStats)
    requires Prepared(lives, duration, components, deltas, active, times) && Reports(lives, components, stats)
    ensures stats.peak >= 0 && stats.byteSeconds <= Times(stats.peak, duration)
  {
    Timelines(lives, duration, components, deltas, active, times);
    BlocksProper(lives, duration);
    UsedAtEnd(Blocks(lives), duration);
    hide Held, Used, Times, Timeline;
    UsedWithinPeak(Blocks(lives), times, |times|, stats.peak);
  }

  /** Event sweep over one pool's lifetimes. */
  method Sweep(lives: seq<Lifetime>, duration: real) returns (components: seq<string>, stats: PoolStats)
    requires Traced(lives, duration) && duration > 0.0
    ensures Lists(components, lives) && Reports(lives, components, stats)
    ensures stats.peak >= 0 && stats.byteSeconds <= Times(stats.peak, duration)
  {
    hide Held, Used, Times, Prepared, Listed, TotalPeaked, Peaked, PeakSoFar, HeldBefore, UsedBefore, SumOf, Reports, Lists;
    var deltas, active, times;
    components, deltas, active, times := PrepareSweep(lives, duration);
    var current := seq(|components|, j => 0);
    var componentPeaks, atPeak := current, current;
    var total, activeTotal, peak, activePeak := 0, 0, 0, 0;
    var peakTime, previous, area := 0.0, 0.0, 0.0;
    var points := [];
    SweepStarts(lives, components, times, current);
    for k := 0 to |times|
      invariant Tracks(lives, components, times, k, current, total, activeTotal, area)
      invariant Listed(lives, components, times, points, k) && previous == TimeBefore(times, k)
      invariant TotalPeaked(lives, components, times, k, peak, peakTime, atPeak)
      invariant ComponentsPeaked(lives, components, times, k, componentPeaks)
      invariant Peaked(ActiveBlocks(lives), times, k, activePeak)
    {
      var seconds := times[k];
      TimesNonNegative(lives, duration, components, deltas, active, times, k);
      var updated, raised := ApplyChanges(components, deltas, seconds, current, componentPeaks);
      TracksStep(lives, duration, components, deltas, active, times, k, current, total, activeTotal, area, updated);
      ComponentsPeakedStep(lives, components, deltas, times, k, current, updated, componentPeaks, raised);
      assert total >= 0;
      area := area + Times(total, seconds - previous);
      current, componentPeaks := updated, raised;
      total := SumOf(current);
      activeTotal := activeTotal + ActiveAt(active, seconds);
      ReportStep(lives, components, times, k, current, total, activeTotal, area, points, peak, peakTime, atPeak, activePeak);
      if activeTotal > activePeak {
        activePeak := activeTotal;
      }
      if total > peak {
        peak, peakTime, atPeak := total, seconds, current;
      }
      points := points + [MemoryPoint(seconds, total, activeTotal, current)];
      previous := seconds;
    }
    stats := PoolStats(peak, peakTime, atPeak, componentPeaks, area, activePeak, points);
    SweepReports(lives, duration, components, deltas, active, times, stats);
    PreparedLists(lives, duration, components, deltas, active, times);
    AreaWithinPeak(lives, duration, components, deltas, active, times, stats);
  }

  lemma PreparedLists(lives: seq<Lifetime>, duration: real, components: seq<string>, deltas: Deltas,
                      active: map<real, int>, times: seq<real>)
    requires Prepared(lives, duration, components, deltas, active, times)
    ensures Lists(components, lives)
  {
  }

  lemma TimesNonNegative(lives: seq<Lifetime>, duration: real, components: seq<string>, deltas: Deltas,
                         active: map<real, int>, times: seq<real>, k: nat)
    requires Prepared(lives, duration, components, deltas, active, times) && k < |times|
    ensures 0.0 <= times[k]
  {
  }

  // ----- All pools

  datatype PoolReport = PoolReport(components: seq<string>, stats: PoolStats, averageBytes: real)

  // Lifetimes in one pool, of the given owners when there is a restriction.
  predicate Counted(life: Lifetime, pool: nat, owners: Option<set<string>>) {
    life.pool == pool && (owners.None? || life.owner in owners.value)
  }

  function Selected(lives: seq<Lifetime>, pool: nat, owners: Option<set<string>>): seq<Lifetime> {
    if lives == [] then []
    else
      var last := lives[|lives| - 1];
      Selected(lives[..|lives| - 1], pool, owners) + if Counted(last, pool, owners) then [last] else []
  }

  /** Exactly the lifetimes of the pool and of the chosen owners, each as often as the trace has it. */
  lemma {:induction false} SelectedAre(lives: seq<Lifetime>, pool: nat, owners: Option<set<string>>, life: Lifetime)
    ensures multiset(Selected(lives, pool, owners))[life] ==
            if life.pool == pool && (owners == None || life.owner in owners.value) then multiset(lives)[life] else 0
    decreases |lives|
  {
    if lives != [] {
      hide Counted;
      var init, last := lives[..|lives| - 1], lives[|lives| - 1];
      SelectedAre(init, pool, owners, life);
      OneMore(lives, init, last, life);
      CountedMeans(last, pool, owners);
      NextSelected(lives, pool, owners, life);
    }
  }

  lemma CountedMeans(life: Lifetime, pool: nat, owners: Option<set<string>>)
    ensures Counted(life, pool, owners) <==> life.pool == pool && (owners == None || life.owner in owners.value)
  {
  }

  lemma NextSelected(lives: seq<Lifetime>, pool: nat, owners: Option<set<string>>, life: Lifetime)
    requires lives != []
    ensures var init, last := lives[..|lives| - 1], lives[|lives| - 1];
            multiset(Selected(lives, pool, owners))[life] ==
            multiset(Selected(init, pool, owners))[life] + if Counted(last, pool, owners) && life == last then 1 else 0
  {
    var before, last := Selected(lives[..|lives| - 1], pool, owners), lives[|lives| - 1];
    hide Counted;
    if Counted(last, pool, owners) {
      OneMore(Selected(lives, pool, owners), before, last, life);
    } else {
      assert Selected(lives, pool, owners) == before + [];
      assert before + [] == before;
    }
  }

  lemma OneMore(all: seq<Lifetime>, init: seq<Lifetime>, last: Lifetime, life: Lifetime)
    requires all == init + [last]
    ensures multiset(all)[life] == multiset(init)[life] + if life == last then 1 else 0
  {
  }

  /** Two groups of owners that share none hold together what their union holds. */
  lemma {:induction false} OwnersAddUp(lives: seq<Lifetime>, pool: nat, some: set<string>, others: set<string>, t: real)
    requires some !! others
    ensures Held(Blocks(Selected(lives, pool, Some(some + others))), t) ==
            Held(Blocks(Selected(lives, pool, Some(some))), t) + Held(Blocks(Selected(lives, pool, Some(others))), t)
    decreases |lives|
  {
    hide Held, Blocks;
    if lives == [] {
      NothingHeld(t);
    } else {
      var init, last := lives[..|lives| - 1], lives[|lives| - 1];
      OwnersAddUp(init, pool, some, others, t);
      SelectedHeld(lives, pool, Some(some + others), t);
      SelectedHeld(lives, pool, Some(some), t);
      SelectedHeld(lives, pool, Some(others), t);
    }
  }

  lemma SelectedHeld(lives: seq<Lifetime>, pool: nat, owners: Option<set<string>>, t: real)
    requires lives != []
    ensures var init, last := lives[..|lives| - 1], lives[|lives| - 1];
            Held(Blocks(Selected(lives, pool, owners)), t) == Held(Blocks(Selected(init, pool, owners)), t)
              + if Counted(last, pool, owners) && Live(BlockOf(last), t) then last.bytes else 0
  {
    var init, last := lives[..|lives| - 1], lives[|lives| - 1];
    if Counted(last, pool, owners) {
      var all := Selected(lives, pool, owners);
      assert all[..|all| - 1] == Selected(init, pool, owners);
      BlocksGrow(all, t);
    } else {
      assert Selected(lives, pool, owners) == Selected(init, pool, owners);
    }
  }

  lemma {:induction false} SelectedTraced(lives: seq<Lifetime>, pool: nat, owners: Option<set<string>>, duration: real)
    requires Traced(lives, duration)
    ensures Traced(Selected(lives, pool, owners), duration)
    decreases |lives|
  {
    if lives != [] {
      hide TracedOne;
      SelectedTraced(lives[..|lives| - 1], pool, owners, duration);
      assert TracedOne(lives[|lives| - 1], duration);
    }
  }

  // The pool's sweep over its own lifetimes, with an average that is no more than the peak.
  ghost predicate ReportsPool(lives: seq<Lifetime>, pool: nat, owners: Option<set<string>>, duration: real, report: PoolReport) {
    && Lists(report.components, Selected(lives, pool, owners))
    && Reports(Selected(lives, pool, owners), report.components, report.stats)
    && report.averageBytes * duration == report.stats.byteSeconds
    && report.averageBytes <= report.stats.peak as real
  }

  lemma AverageWithinPeak(area: real, peak: nat, duration: real)
    requires duration > 0.0 && area <= Times(peak, duration)
    ensures area / duration * duration == area && area / duration <= peak as real
  {
    var average := area / duration;
    assert average * duration == area;
    assert (peak as real - average) * duration >= 0.0;
  }

  /** Statistics of every pool, optionally for some owners alone. */
  method MemoryStatistics(lives: seq<Lifetime>, pools: nat, owners: Option<set<string>>, duration: real) returns (reports: seq<PoolReport>)
    requires Traced(lives, duration) && duration > 0.0
    ensures |reports| == pools
    ensures forall k: nat :: k < pools ==> ReportsPool(lives, k, owners, duration, reports[k])
  {
    hide Traced, Reports, Lists, Selected, Counted, Times;
    reports := [];
    for k := 0 to pools
      invariant |reports| == k && forall j: nat :: j < k ==> ReportsPool(lives, j, owners, duration, reports[j])
    {
      SelectedTraced(lives, k, owners, duration);
      var selected := SelectLifetimes(lives, k, owners);
      var components, stats := Sweep(selected, duration);
      AverageWithinPeak(stats.byteSeconds, stats.peak, duration);
      reports := reports + [PoolReport(components, stats, stats.byteSeconds / duration)];
    }
  }

  method SelectLifetimes(lives: seq<Lifetime>, pool: nat, owners: Option<set<string>>) returns (selected: seq<Lifetime>)
    ensures selected == Selected(lives, pool, owners)
  {
    selected := [];
    for i := 0 to |lives|
      invariant selected == Selected(lives[..i], pool, owners)
    {
      assert lives[..i + 1][..i] == lives[..i];
      if Counted(lives[i], pool, owners) {
        selected := selected + [lives[i]];
      }
    }
    assert lives[..|lives|] == lives;
  }
}
