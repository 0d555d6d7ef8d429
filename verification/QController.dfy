/** The feedback controller for the query block size: bounds, positive averages, and convergence. */
module QController {
  import opened Basics
  import Alignment

  datatype Config = Config(alpha: real, safety: real, threshold: real, maxStep: real)

  ghost predicate ValidConfig(c: Config) {
    0.0 < c.alpha <= 1.0 && c.safety > 0.0 && 0.0 <= c.threshold < 1.0 && c.maxStep > 1.0
  }

  // Block sizes are multiples of the alignment between the two bounds.
  datatype Limits = Limits(alignment: nat, qMin: int, qCapacity: int)

  ghost predicate ValidLimits(l: Limits) {
    l.alignment > 0 && l.qCapacity > 0 && l.qMin <= l.qCapacity && Multiple(l.qMin, l.alignment) && Multiple(l.qCapacity, l.alignment)
  }

  ghost predicate Multiple(value: int, alignment: nat) {
    exists k: int :: Times(k, alignment) == value
  }

  function Times(k: int, alignment: nat): int {
    k * alignment
  }

  function AlignUp(value: real, alignment: nat): (aligned: int)
    requires alignment > 0
    ensures value <= aligned as real < value + alignment as real && Multiple(aligned, alignment)
  {
    var units := Alignment.Ceil(value / alignment as real);
    ScaledCeil(value, alignment, units);
    assert Times(units, alignment) == units * alignment;
    units * alignment
  }

  function AlignDown(value: real, alignment: nat): (aligned: int)
    requires alignment > 0
    ensures value - alignment as real < aligned as real <= value && Multiple(aligned, alignment)
  {
    var units := (value / alignment as real).Floor;
    ScaledFloor(value, alignment, units);
    assert Times(units, alignment) == units * alignment;
    units * alignment
  }

  function Product(x: real, y: real): real { x * y }

  lemma ProductOrder(x: real, y: real, a: real)
    requires a > 0.0
    ensures x <= y ==> Product(x, a) <= Product(y, a)
    ensures x < y ==> Product(x, a) < Product(y, a)
  {
  }

  lemma OneMore(x: real, a: real)
    ensures Product(x + 1.0, a) == Product(x, a) + a && Product(x - 1.0, a) == Product(x, a) - a
  {
  }

  lemma AsReal(units: int, alignment: nat)
    ensures (units * alignment) as real == Product(units as real, alignment as real)
  {
  }

  lemma Quotient(value: real, a: real)
    requires a > 0.0
    ensures Product(value / a, a) == value
  {
  }

  lemma ScaledCeil(value: real, alignment: nat, units: int)
    requires alignment > 0 && units == Alignment.Ceil(value / alignment as real)
    ensures value <= (units * alignment) as real < value + alignment as real
  {
    hide Product;
    var a, u, q := alignment as real, units as real, value / alignment as real;
    Alignment.CeilBounds(q);
    AsReal(units, alignment);
    Quotient(value, a);
    OneMore(q, a);
    ProductOrder(q, u, a);
    ProductOrder(u, q + 1.0, a);
  }

  lemma ScaledFloor(value: real, alignment: nat, units: int)
    requires alignment > 0 && units == (value / alignment as real).Floor
    ensures value - alignment as real < (units * alignment) as real <= value
  {
    hide Product;
    var a, u, q := alignment as real, units as real, value / alignment as real;
    AsReal(units, alignment);
    Quotient(value, a);
    OneMore(q, a);
    ProductOrder(u, q, a);
    ProductOrder(q - 1.0, u, a);
  }

  lemma ScaledInts(x: int, y: int, alignment: nat)
    requires x <= y
    ensures x * alignment <= y * alignment
  {
  }

  // Two multiples that differ are at least one alignment apart.
  lemma MultiplesApart(x: int, y: int, alignment: nat)
    requires alignment > 0 && Multiple(x, alignment) && Multiple(y, alignment) && x < y
    ensures x + alignment <= y
  {
    var j: int :| Times(j, alignment) == x;
    var k: int :| Times(k, alignment) == y;
    if k <= j {
      ScaledInts(k, j, alignment);
    } else {
      ScaledInts(j + 1, k, alignment);
      assert (j + 1) * alignment == j * alignment + alignment;
    }
  }

  // ----- One adjustment

  function Abs(x: int): int { if x < 0 then -x else x }

  predicate InDeadBand(c: Config, q: int, target: int)
    requires q > 0
  {
    Abs(target - q) as real / q as real < c.threshold
  }

  function Least(a: int, b: int, c: int): int {
    var m := if a < b then a else b;
    if m < c then m else c
  }

  function Most(a: int, b: int, c: int): int {
    var m := if a < b then b else a;
    if m < c then c else m
  }

  // The next block size for a given target.
  function Adjust(c: Config, l: Limits, q: int, target: int): int
    requires ValidConfig(c) && ValidLimits(l) && q > 0
  {
    if InDeadBand(c, q, target) then q
    else if target > q then Least(target, AlignUp(Scaled(q, c.maxStep), l.alignment), l.qCapacity)
    else Most(target, AlignDown(Shrunk(q, c.maxStep), l.alignment), l.qMin)
  }

  ghost predicate Sound(l: Limits, q: int) {
    0 < q <= l.qCapacity && l.qMin <= q && Multiple(q, l.alignment)
  }

  // Between the old size and the target, and nearer unless already there or in the dead band.
  lemma AdjustMoves(c: Config, l: Limits, q: int, target: int)
    requires ValidConfig(c) && ValidLimits(l) && Sound(l, q) && Sound(l, target)
    ensures var next := Adjust(c, l, q, target);
            && Sound(l, next)
            && (q <= target ==> q <= next <= target) && (target <= q ==> target <= next <= q)
            && (InDeadBand(c, q, target) || q == target ==> next == q)
            && (!InDeadBand(c, q, target) && q != target ==> Abs(target - next) + l.alignment <= Abs(target - q))
  {
    hide Multiple, AlignUp, AlignDown, InDeadBand, Scaled, Shrunk;
    var next := Adjust(c, l, q, target);
    StepsAway(c, l, q);
    if !InDeadBand(c, q, target) {
      if q < target {
        MultiplesApart(q, next, l.alignment);
      } else if target < q {
        MultiplesApart(next, q, l.alignment);
      }
    }
  }

  // One full step up or down changes the size.
  lemma StepsAway(c: Config, l: Limits, q: int)
    requires ValidConfig(c) && l.alignment > 0 && q > 0
    ensures AlignDown(Shrunk(q, c.maxStep), l.alignment) < q < AlignUp(Scaled(q, c.maxStep), l.alignment)
  {
    hide AlignUp, AlignDown;
    Stretches(q as real, c.maxStep);
  }

  // The two products of one step, named so that they stay in one piece.
  function Scaled(q: int, factor: real): real { q as real * factor }

  function Shrunk(q: int, factor: real): real
    requires factor > 1.0
  {
    q as real / factor
  }

  lemma Stretches(x: real, factor: real)
    requires x > 0.0 && factor > 1.0
    ensures x * factor > x && x / factor < x
  {
    assert x * (factor - 1.0) > 0.0;
    assert x / factor * factor == x;
    assert x / factor > 0.0;
    assert x / factor * (factor - 1.0) > 0.0;
  }

  // The size after n observations with the same target.
  function Repeat(c: Config, l: Limits, q: int, target: int, n: nat): (size: int)
    requires ValidConfig(c) && ValidLimits(l) && Sound(l, q) && Sound(l, target)
    ensures Sound(l, size)
  {
    if n == 0 then q
    else
      var before := Repeat(c, l, q, target, n - 1);
      AdjustMoves(c, l, before, target);
      Adjust(c, l, before, target)
  }

  lemma {:induction false} RepeatNears(c: Config, l: Limits, q: int, target: int, n: nat)
    requires ValidConfig(c) && ValidLimits(l) && Sound(l, q) && Sound(l, target)
    ensures var size := Repeat(c, l, q, target, n);
            && (q <= target ==> q <= size <= target) && (target <= q ==> target <= size <= q)
            && (InDeadBand(c, size, target) || size == target || Abs(target - size) + Times(n, l.alignment) <= Abs(target - q))
  {
    if n > 0 {
      RepeatNears(c, l, q, target, n - 1);
      AdjustMoves(c, l, Repeat(c, l, q, target, n - 1), target);
      assert Times(n, l.alignment) == Times(n - 1, l.alignment) + l.alignment;
    }
  }

  /**
   With the averages unchanged the size moves monotonically to the target, never
   past it, and after |target - q| / alignment observations it is in the dead band
   or on the target, where it stays.
   */
  lemma Settles(c: Config, l: Limits, q: int, target: int, n: nat)
    requires ValidConfig(c) && ValidLimits(l) && Sound(l, q) && Sound(l, target)
    requires Times(n, l.alignment) >= Abs(target - q)
    ensures var size := Repeat(c, l, q, target, n);
            && (InDeadBand(c, size, target) || size == target)
            && Adjust(c, l, size, target) == size
            && (q <= target ==> q <= size <= target) && (target <= q ==> target <= size <= q)
  {
    RepeatNears(c, l, q, target, n);
    AdjustMoves(c, l, Repeat(c, l, q, target, n), target);
  }

  // ----- Averages and the target

  function Ema(previous: real, sample: real, alpha: real): (average: real)
    requires 0.0 < alpha <= 1.0 && sample > 0.0
    ensures average > 0.0 && (sample == previous ==> average == previous)
    ensures previous > 0.0 ==> (previous <= average <= sample || sample <= average <= previous)
  {
    if previous <= 0.0 then sample
    else
      BlendBetween(previous, sample, alpha);
      Blend(previous, sample, alpha)
  }

  function Part(alpha: real, d: real): real {
    alpha * d
  }

  function Blend(previous: real, sample: real, alpha: real): real {
    previous + Part(alpha, sample - previous)
  }

  lemma Fraction(alpha: real, d: real)
    requires 0.0 < alpha <= 1.0 && d >= 0.0
    ensures 0.0 <= Part(alpha, d) <= d && Part(alpha, -d) == -Part(alpha, d)
  {
    assert (1.0 - alpha) * d >= 0.0;
  }

  lemma BlendBetween(p: real, s: real, alpha: real)
    requires 0.0 < alpha <= 1.0
    ensures p <= Blend(p, s, alpha) <= s || s <= Blend(p, s, alpha) <= p
  {
    hide Part;
    if p <= s {
      Fraction(alpha, s - p);
    } else {
      Fraction(alpha, p - s);
      assert s - p == -(p - s);
    }
  }

  datatype Shape = Shape(qHeads: nat, kvHeads: nat, elementSize: nat)

  datatype Averages = Averages(tflops: real, h2dGbps: real, d2hGbps: real, elapsed: real)

  ghost predicate Positive(a: Averages) {
    a.tflops > 0.0 && a.h2dGbps > 0.0 && a.d2hGbps > 0.0 && a.elapsed >= 0.0
  }

  // Rows at which compute time per row covers the transfer of keys and values.
  function Knee(c: Config, shape: Shape, tflops: real, h2dGbps: real): real
    requires shape.qHeads > 0 && h2dGbps > 0.0
  {
    c.safety * tflops * 1000000000000.0 * shape.kvHeads as real * shape.elementSize as real
    / (2.0 * shape.qHeads as real * h2dGbps * 1000000000.0)
  }

  function Target(c: Config, l: Limits, shape: Shape, tflops: real, h2dGbps: real): int
    requires ValidConfig(c) && ValidLimits(l) && shape.qHeads > 0 && h2dGbps > 0.0
  {
    var knee := Knee(c, shape, tflops, h2dGbps);
    var wanted := if knee < l.qMin as real then l.qMin as real else knee;
    var target := AlignUp(wanted, l.alignment);
    var floored := if target < l.qMin then l.qMin else target;
    if l.qCapacity < floored then l.qCapacity else floored
  }

  lemma KneePositive(c: Config, shape: Shape, tflops: real, h2dGbps: real)
    requires ValidConfig(c) && shape.qHeads > 0 && shape.kvHeads > 0 && shape.elementSize > 0 && tflops > 0.0 && h2dGbps > 0.0
    ensures Knee(c, shape, tflops, h2dGbps) > 0.0
  {
    var kv, e, h := shape.kvHeads as real, shape.elementSize as real, shape.qHeads as real;
    assert c.safety * tflops > 0.0;
    assert c.safety * tflops * 1000000000000.0 > 0.0;
    assert c.safety * tflops * 1000000000000.0 * kv > 0.0;
    assert c.safety * tflops * 1000000000000.0 * kv * e > 0.0;
    assert 2.0 * h * h2dGbps > 0.0;
    assert 2.0 * h * h2dGbps * 1000000000.0 > 0.0;
  }

  lemma TargetSound(c: Config, l: Limits, shape: Shape, tflops: real, h2dGbps: real)
    requires ValidConfig(c) && ValidLimits(l) && tflops > 0.0 && h2dGbps > 0.0
    requires shape.qHeads > 0 && shape.kvHeads > 0 && shape.elementSize > 0
    ensures Sound(l, Target(c, l, shape, tflops, h2dGbps))
  {
    KneePositive(c, shape, tflops, h2dGbps);
    hide Knee;
  }

  // ----- Observations

  datatype Measurement = Measurement(h2dBytes: real, h2dSeconds: real, d2hBytes: real, d2hSeconds: real,
                                     elapsedSeconds: real, attentionFlops: real, attentionSeconds: real)

  // A rate in billions (or trillions) per second, when both figures are positive.
  function Rate(amount: real, seconds: real, unit: real): (rate: real)
    requires amount > 0.0 && seconds > 0.0 && unit > 0.0
    ensures rate > 0.0
  {
    amount / seconds / unit
  }

  function Updated(previous: real, amount: real, seconds: real, unit: real, alpha: real): (average: real)
    requires 0.0 < alpha <= 1.0 && unit > 0.0
    ensures previous > 0.0 ==> average > 0.0
  {
    if seconds > 0.0 && amount > 0.0 then Ema(previous, Rate(amount, seconds, unit), alpha) else previous
  }

  function Averaged(c: Config, a: Averages, m: Measurement, updateCompute: bool): (next: Averages)
    requires ValidConfig(c)
    ensures Positive(a) ==> Positive(next)
  {
    Averages(
      if updateCompute then Updated(a.tflops, m.attentionFlops, m.attentionSeconds, 1000000000000.0, c.alpha) else a.tflops,
      Updated(a.h2dGbps, m.h2dBytes, m.h2dSeconds, 1000000000.0, c.alpha),
      Updated(a.d2hGbps, m.d2hBytes, m.d2hSeconds, 1000000000.0, c.alpha),
      if m.elapsedSeconds > 0.0 then Ema(a.elapsed, m.elapsedSeconds, c.alpha) else a.elapsed)
  }

  // Bounds and first size, or a refusal when no aligned block fits.
  function PlanLimits(initial: int, qMin: int, qCapacity: int, blockM: int): (plan: Option<(Limits, int)>)
    requires blockM > 0 && qCapacity > 0
    ensures plan.Some? ==> ValidLimits(plan.value.0) && Sound(plan.value.0, plan.value.1)
    ensures plan.Some? <==>
              && AlignUp(qMin as real, Min(blockM, qCapacity)) <= AlignDown(qCapacity as real, Min(blockM, qCapacity))
              && 0 < initial <= qCapacity
  {
    var alignment := Min(blockM, qCapacity);
    var low, high := AlignUp(qMin as real, alignment), AlignDown(qCapacity as real, alignment);
    OneBlockFits(qCapacity, alignment);
    if high <= 0 || low > high || !(0 < initial <= qCapacity) then None
    else Some((Limits(alignment, low, high), Min(high, Max(low, AlignUp(initial as real, alignment)))))
  }

  lemma OneBlockFits(qCapacity: int, alignment: nat)
    requires 0 < alignment <= qCapacity
    ensures AlignDown(qCapacity as real, alignment) > 0
  {
  }

  class DynamicQController {
    const config: Config
    const limits: Limits
    const shape: Shape
    const initialQ: int
    const initialAverages: Averages
    var averages: Averages
    var qCurrent: int

    ghost predicate Valid()
      reads this
    {
      && ValidConfig(config) && ValidLimits(limits) && shape.qHeads > 0 && shape.kvHeads > 0 && shape.elementSize > 0
      && Sound(limits, initialQ) && Positive(initialAverages)
      && Sound(limits, qCurrent) && Positive(averages)
    }

    constructor (config: Config, limits: Limits, initialQ: int, shape: Shape, tflops: real, h2dGbps: real, d2hGbps: real)
      requires ValidConfig(config) && ValidLimits(limits) && Sound(limits, initialQ)
      requires shape.qHeads > 0 && shape.kvHeads > 0 && shape.elementSize > 0
      requires tflops > 0.0 && h2dGbps > 0.0 && d2hGbps > 0.0
      ensures Valid() && this.config == config && this.limits == limits && this.shape == shape
      ensures qCurrent == initialQ && averages == Averages(tflops, h2dGbps, d2hGbps, 0.0)
    {
      this.config := config;
      this.limits := limits;
      this.shape := shape;
      this.initialQ := initialQ;
      initialAverages := Averages(tflops, h2dGbps, d2hGbps, 0.0);
      averages := Averages(tflops, h2dGbps, d2hGbps, 0.0);
      qCurrent := initialQ;
    }

    method Reset()
      requires Valid()
      modifies `averages, `qCurrent
      ensures Valid() && averages == initialAverages && qCurrent == initialQ
    {
      averages := initialAverages;
      qCurrent := initialQ;
    }

    /** Folds one measurement into the averages and moves the size one step toward the new target. */
    method Observe(m: Measurement, updateCompute: bool) returns (previous: int, updated: int)
      requires Valid()
      modifies `averages, `qCurrent
      ensures Valid() && averages == Averaged(config, old(averages), m, updateCompute)
      ensures previous == old(qCurrent) && updated == qCurrent
      ensures qCurrent == Adjust(config, limits, old(qCurrent),
                                 Target(config, limits, shape, averages.tflops, averages.h2dGbps))
    {
      averages := Averaged(config, averages, m, updateCompute);
      previous := qCurrent;
      TargetSound(config, limits, shape, averages.tflops, averages.h2dGbps);
      var target := Target(config, limits, shape, averages.tflops, averages.h2dGbps);
      AdjustMoves(config, limits, previous, target);
      hide Target, Sound, Positive, ValidLimits;
      if InDeadBand(config, previous, target) {
        return previous, previous;
      }
      if target > previous {
        var stepLimit := AlignUp(Scaled(previous, config.maxStep), limits.alignment);
        updated := Least(target, stepLimit, limits.qCapacity);
      } else {
        var stepLimit := AlignDown(Shrunk(previous, config.maxStep), limits.alignment);
        updated := Most(target, stepLimit, limits.qMin);
      }
      qCurrent := updated;
    }
  }

  // A measurement that tells the averages nothing new.
  ghost predicate Steady(c: Config, a: Averages, m: Measurement, updateCompute: bool)
    requires ValidConfig(c)
  {
    Averaged(c, a, m, updateCompute) == a
  }

  // Sizes after a run of observations, from given averages.
  function SizeAfter(c: Config, l: Limits, shape: Shape, a: Averages, q: int, run: seq<(Measurement, bool)>): (r: (Averages, int))
    requires ValidConfig(c) && ValidLimits(l) && shape.qHeads > 0 && shape.kvHeads > 0 && shape.elementSize > 0
    requires Positive(a) && Sound(l, q)
    ensures Positive(r.0) && Sound(l, r.1)
  {
    if run == [] then (a, q)
    else
      var (before, size) := SizeAfter(c, l, shape, a, q, run[..|run| - 1]);
      var after := Averaged(c, before, run[|run| - 1].0, run[|run| - 1].1);
      TargetSound(c, l, shape, after.tflops, after.h2dGbps);
      AdjustMoves(c, l, size, Target(c, l, shape, after.tflops, after.h2dGbps));
      (after, Adjust(c, l, size, Target(c, l, shape, after.tflops, after.h2dGbps)))
  }

  /** For every measurement sequence the size stays aligned and in bounds, and once measurements are steady it settles. */
  lemma {:induction false} SteadySettles(c: Config, l: Limits, shape: Shape, a: Averages, q: int, run: seq<(Measurement, bool)>)
    requires ValidConfig(c) && ValidLimits(l) && shape.qHeads > 0 && shape.kvHeads > 0 && shape.elementSize > 0
    requires Positive(a) && Sound(l, q) && forall i :: 0 <= i < |run| ==> Steady(c, a, run[i].0, run[i].1)
    ensures Sound(l, Target(c, l, shape, a.tflops, a.h2dGbps))
    ensures SizeAfter(c, l, shape, a, q, run) == (a, Repeat(c, l, q, Target(c, l, shape, a.tflops, a.h2dGbps), |run|))
    decreases |run|
  {
    TargetSound(c, l, shape, a.tflops, a.h2dGbps);
    if run != [] {
      hide Target, Adjust, Sound, Averaged, ValidLimits, ValidConfig;
      SteadySettles(c, l, shape, a, q, run[..|run| - 1]);
      assert Steady(c, a, run[|run| - 1].0, run[|run| - 1].1);
    }
  }
}
