/** What the controller aims for, in terms of work and transfers, and how far one observation goes. */
module ControllerMeaning {
  import opened Basics
  import opened QController
  import CostCounts
  import Sums
  import Alignment

  // ----- The target

  // Computing a block of q rows over k keys takes at least `safety` times the upload of
  // its keys and values, at these rates: work / rate >= safety * bytes / bandwidth.
  ghost predicate HidesUpload(c: Config, shape: Shape, tflops: real, h2dGbps: real, q: nat, k: nat, width: nat) {
    CostCounts.Operations(q, k, shape.qHeads, width) as real * (h2dGbps * 1000000000.0) >=
    c.safety * (Sums.Elements(k, shape.kvHeads, width, shape.elementSize)
                + Sums.Elements(k, shape.kvHeads, width, shape.elementSize)) as real * (tflops * 1000000000000.0)
  }

  ghost predicate Hides(c: Config, shape: Shape, tflops: real, h2dGbps: real, q: nat) {
    forall k: nat, width: nat :: k > 0 && width > 0 ==> HidesUpload(c, shape, tflops, h2dGbps, q, k, width)
  }

  lemma Rearranged(q: real, k: real, w: real, h: real, kv: real, bytes: real, g: real, s: real, t: real)
    ensures (q * (k * (h * (w * 4.0)))) * (g * 1000000000.0) == (q * (2.0 * h * g * 1000000000.0)) * (2.0 * k * w)
    ensures s * (k * (kv * (w * bytes)) + k * (kv * (w * bytes))) * (t * 1000000000000.0)
         == (s * t * 1000000000000.0 * kv * bytes) * (2.0 * k * w)
  {
    var a := k * w;
    assert q * (k * (h * (w * 4.0))) == q * h * 4.0 * a;
    assert (q * h * 4.0 * a) * (g * 1000000000.0) == (q * (2.0 * h * g * 1000000000.0)) * (2.0 * a);
    assert k * (kv * (w * bytes)) == kv * bytes * a;
    assert s * (kv * bytes * a + kv * bytes * a) == s * kv * bytes * (2.0 * a);
    assert s * kv * bytes * (2.0 * a) * (t * 1000000000000.0) == (s * t * 1000000000000.0 * kv * bytes) * (2.0 * a);
  }

  lemma CountsAsReals(q: nat, k: nat, w: nat, h: nat, kv: nat, bytes: nat)
    ensures CostCounts.Operations(q, k, h, w) as real == q as real * (k as real * (h as real * (w as real * 4.0)))
    ensures Sums.Elements(k, kv, w, bytes) as real == k as real * (kv as real * (w as real * bytes as real))
  {
    hide CostCounts.Operations, Sums.Elements;
    CostCounts.OperationsAre(q, k, h, w);
    Sums.ElementsAre(k, kv, w, bytes);
    FourFactors(q, k, h, w, 4);
    ThreeFactors(k, kv, w, bytes);
  }

  lemma ThreeFactors(a: nat, b: nat, c: nat, d: nat)
    ensures (a * (b * (c * d))) as real == a as real * (b as real * (c as real * d as real))
  {
    var x, y := c * d, b * (c * d);
    RealProduct(c, d);
    RealProduct(b, x);
    RealProduct(a, y);
  }

  lemma FourFactors(a: nat, b: nat, c: nat, d: nat, e: nat)
    ensures (a * (b * (c * (d * e)))) as real == a as real * (b as real * (c as real * (d as real * e as real)))
  {
    var x := b * (c * (d * e));
    ThreeFactors(b, c, d, e);
    RealProduct(a, x);
  }

  lemma RealProduct(a: nat, b: nat)
    ensures (a * b) as real == a as real * b as real
  {
  }

  // For any number of keys and any width, a block hides the upload exactly from the knee on.
  lemma HidesFromKnee(c: Config, shape: Shape, tflops: real, h2dGbps: real, q: nat, k: nat, width: nat)
    requires shape.qHeads > 0 && h2dGbps > 0.0 && k > 0 && width > 0
    ensures HidesUpload(c, shape, tflops, h2dGbps, q, k, width) <==> q as real >= Knee(c, shape, tflops, h2dGbps)
  {
    var h, kv, bytes := shape.qHeads as real, shape.kvHeads as real, shape.elementSize as real;
    var x, y, f := q as real * (2.0 * h * h2dGbps * 1000000000.0), c.safety * tflops * 1000000000000.0 * kv * bytes,
                   2.0 * k as real * width as real;
    assert f > 0.0;
    CountsAsReals(q, k, width, shape.qHeads, shape.kvHeads, shape.elementSize);
    Rearranged(q as real, k as real, width as real, h, kv, bytes, h2dGbps, c.safety, tflops);
    CostCounts.Cancels(x, y, f);
    KneeMeans(c, shape, tflops, h2dGbps, q as real);
  }

  lemma KneeMeans(c: Config, shape: Shape, tflops: real, h2dGbps: real, q: real)
    requires shape.qHeads > 0 && h2dGbps > 0.0
    ensures q >= Knee(c, shape, tflops, h2dGbps) <==>
            q * (2.0 * shape.qHeads as real * h2dGbps * 1000000000.0)
            >= c.safety * tflops * 1000000000000.0 * shape.kvHeads as real * shape.elementSize as real
  {
    var d := 2.0 * shape.qHeads as real * h2dGbps * 1000000000.0;
    assert d > 0.0;
    var knee := Knee(c, shape, tflops, h2dGbps);
    assert knee * d == c.safety * tflops * 1000000000000.0 * shape.kvHeads as real * shape.elementSize as real;
    CostCounts.Cancels(q, knee, d);
  }

  lemma HidesMeans(c: Config, shape: Shape, tflops: real, h2dGbps: real, q: nat)
    requires shape.qHeads > 0 && h2dGbps > 0.0
    ensures Hides(c, shape, tflops, h2dGbps, q) <==> q as real >= Knee(c, shape, tflops, h2dGbps)
  {
    hide HidesUpload, Knee;
    forall k: nat, width: nat | k > 0 && width > 0
      ensures HidesUpload(c, shape, tflops, h2dGbps, q, k, width) <==> q as real >= Knee(c, shape, tflops, h2dGbps)
    {
      HidesFromKnee(c, shape, tflops, h2dGbps, q, k, width);
    }
    assert HidesUpload(c, shape, tflops, h2dGbps, q, 1, 1) <==> q as real >= Knee(c, shape, tflops, h2dGbps);
  }

  // A multiple is at least the rounded value exactly when it is at least the value.
  lemma MultipleAbove(x: int, value: real, alignment: nat)
    requires alignment > 0 && Multiple(x, alignment)
    ensures x as real >= value <==> x >= AlignUp(value, alignment)
  {
    var up := AlignUp(value, alignment);
    if x < up {
      MultiplesApart(x, up, alignment);
    }
  }

  /**
   The target is the least admissible size whose computation hides the upload: an
   aligned size below the capacity hides it exactly when it is at least the target.
   */
  lemma TargetIsLeast(c: Config, l: Limits, shape: Shape, tflops: real, h2dGbps: real, x: nat)
    requires ValidConfig(c) && ValidLimits(l) && shape.qHeads > 0 && h2dGbps > 0.0
    requires l.qMin <= x < l.qCapacity && Multiple(x, l.alignment)
    ensures Hides(c, shape, tflops, h2dGbps, x) <==> Target(c, l, shape, tflops, h2dGbps) <= x
  {
    hide Hides, Knee, AlignUp, Multiple;
    HidesMeans(c, shape, tflops, h2dGbps, x);
    var knee := Knee(c, shape, tflops, h2dGbps);
    MultipleAbove(x, if knee < l.qMin as real then l.qMin as real else knee, l.alignment);
  }

  /** More compute throughput never lowers the target, more upload bandwidth never raises it. */
  lemma TargetMonotone(c: Config, l: Limits, shape: Shape, tflops: real, h2dGbps: real, faster: real, wider: real)
    requires ValidConfig(c) && ValidLimits(l) && shape.qHeads > 0 && shape.kvHeads > 0 && shape.elementSize > 0
    requires 0.0 < tflops <= faster && 0.0 < h2dGbps <= wider
    ensures Target(c, l, shape, tflops, wider) <= Target(c, l, shape, tflops, h2dGbps) <= Target(c, l, shape, faster, h2dGbps)
  {
    HidesLess(c, l, shape, tflops, h2dGbps, faster, h2dGbps);
    HidesLess(c, l, shape, tflops, wider, tflops, h2dGbps);
  }

  lemma HidesLess(c: Config, l: Limits, shape: Shape, t: real, g: real, u: real, h: real)
    requires ValidConfig(c) && ValidLimits(l) && shape.qHeads > 0 && shape.kvHeads > 0 && shape.elementSize > 0
    requires 0.0 < t <= u && 0.0 < h <= g
    ensures Target(c, l, shape, t, g) <= Target(c, l, shape, u, h)
  {
    TargetSound(c, l, shape, t, g);
    TargetSound(c, l, shape, u, h);
    var x := Target(c, l, shape, u, h);
    hide Target, Hides, Multiple;
    if x < l.qCapacity {
      TargetIsLeast(c, l, shape, u, h, x);
      TargetIsLeast(c, l, shape, t, g, x);
      HidesMeans(c, shape, u, h, x);
      HidesMeans(c, shape, t, g, x);
      KneeMonotone(c, shape, t, g, u, h);
    }
  }

  lemma KneeMonotone(c: Config, shape: Shape, t: real, g: real, u: real, h: real)
    requires ValidConfig(c) && shape.qHeads > 0 && 0.0 < t <= u && 0.0 < h <= g
    ensures Knee(c, shape, t, g) <= Knee(c, shape, u, h)
  {
    var knee := Knee(c, shape, u, h);
    KneeMeans(c, shape, u, h, knee);
    KneeMeans(c, shape, t, g, knee);
    var a, n := shape.kvHeads as real * shape.elementSize as real, 2.0 * shape.qHeads as real;
    Grows(c.safety * a * 1000000000000.0, t, u);
    assert knee >= 0.0 by { KneeNonNegative(c, shape, u, h); }
    assert n * 1000000000.0 >= 0.0 && knee * (n * 1000000000.0) >= 0.0;
    Grows(knee * (n * 1000000000.0), h, g);
    Regrouped(c.safety, t, shape.kvHeads as real, shape.elementSize as real);
    Regrouped(c.safety, u, shape.kvHeads as real, shape.elementSize as real);
    Spread(knee, n, h);
    Spread(knee, n, g);
  }

  lemma KneeNonNegative(c: Config, shape: Shape, t: real, g: real)
    requires ValidConfig(c) && shape.qHeads > 0 && t > 0.0 && g > 0.0
    ensures Knee(c, shape, t, g) >= 0.0
  {
    var kv, e, h := shape.kvHeads as real, shape.elementSize as real, shape.qHeads as real;
    assert c.safety * t > 0.0;
    assert c.safety * t * 1000000000000.0 * kv >= 0.0;
    assert c.safety * t * 1000000000000.0 * kv * e >= 0.0;
    assert 2.0 * h * g > 0.0;
    assert 2.0 * h * g * 1000000000.0 > 0.0;
  }

  lemma Grows(a: real, x: real, y: real)
    requires a >= 0.0 && x <= y
    ensures a * x <= a * y
  {
    assert a * (y - x) >= 0.0;
  }

  lemma Regrouped(s: real, t: real, kv: real, e: real)
    ensures s * t * 1000000000000.0 * kv * e == s * (kv * e) * 1000000000000.0 * t
  {
    assert s * t * 1000000000000.0 * kv * e == (s * t * 1000000000000.0) * (kv * e);
    assert (s * t * 1000000000000.0) * (kv * e) == s * (kv * e) * 1000000000000.0 * t;
  }

  lemma Spread(knee: real, n: real, g: real)
    ensures knee * (n * g * 1000000000.0) == knee * (n * 1000000000.0) * g
  {
    assert n * g * 1000000000.0 == (n * 1000000000.0) * g;
  }

  // ----- One step

  // The gap to the target is below the threshold's share of the size.
  predicate CloseEnough(c: Config, q: int, target: int) {
    (if target < q then q - target else target - q) as real < c.threshold * q as real
  }

  lemma BandMeans(c: Config, q: int, target: int)
    requires q > 0
    ensures InDeadBand(c, q, target) <==> CloseEnough(c, q, target)
  {
    var gap := Abs(target - q) as real / q as real;
    assert gap * q as real == Abs(target - q) as real;
    CostCounts.Cancels(gap, c.threshold, q as real);
  }

  lemma MultipleBelow(x: int, value: real, alignment: nat)
    requires alignment > 0 && Multiple(x, alignment)
    ensures x as real <= value <==> x <= AlignDown(value, alignment)
  {
    var down := AlignDown(value, alignment);
    if down < x {
      MultiplesApart(down, x, alignment);
    }
  }

  lemma ShrunkMeans(x: int, q: int, factor: real)
    requires factor > 1.0
    ensures x as real <= Shrunk(q, factor) <==> x as real * factor <= q as real
  {
    assert Shrunk(q, factor) * factor == q as real;
    CostCounts.Cancels(Shrunk(q, factor), x as real, factor);
  }

  /**
   One step: none inside the dead band; upward to the target, or short of it to the first
   aligned size at least `maxStep` times as large; downward to the target, or short of it
   to the last aligned size at most one `maxStep`-th as large.
   */
  lemma StepIs(c: Config, l: Limits, q: int, target: int, x: int)
    requires ValidConfig(c) && ValidLimits(l) && Sound(l, q) && Sound(l, target) && Multiple(x, l.alignment)
    ensures var next := Adjust(c, l, q, target);
            if CloseEnough(c, q, target) then next == q
            else if q < target then
              && (next == target || (next < target && next as real >= c.maxStep * q as real))
              && (x as real >= c.maxStep * q as real ==> next <= x)
            else
              && (next == target || (next > target && next as real * c.maxStep <= q as real))
              && (x as real * c.maxStep <= q as real ==> x <= next)
  {
    hide AlignUp, AlignDown, InDeadBand, Multiple, Scaled, Shrunk, Adjust;
    BandMeans(c, q, target);
    if !CloseEnough(c, q, target) {
      if q < target {
        StepUp(c, l, q, target, x);
      } else {
        StepDown(c, l, q, target, x);
      }
    } else {
      assert Adjust(c, l, q, target) == q by { StepNone(c, l, q, target); }
    }
  }

  lemma StepNone(c: Config, l: Limits, q: int, target: int)
    requires ValidConfig(c) && ValidLimits(l) && q > 0 && InDeadBand(c, q, target)
    ensures Adjust(c, l, q, target) == q
  {
  }

  lemma ScaledIs(q: int, factor: real)
    ensures Scaled(q, factor) == factor * q as real
  {
  }

  lemma StepUp(c: Config, l: Limits, q: int, target: int, x: int)
    requires ValidConfig(c) && ValidLimits(l) && Sound(l, target) && Multiple(x, l.alignment)
    requires 0 < q < target && !InDeadBand(c, q, target)
    ensures var next := Adjust(c, l, q, target);
            && (next == target || (next < target && next as real >= c.maxStep * q as real))
            && (x as real >= c.maxStep * q as real ==> next <= x)
  {
    hide AlignUp, AlignDown, InDeadBand, Multiple, Scaled, Shrunk;
    ScaledIs(q, c.maxStep);
    MultipleAbove(x, Scaled(q, c.maxStep), l.alignment);
  }

  lemma StepDown(c: Config, l: Limits, q: int, target: int, x: int)
    requires ValidConfig(c) && ValidLimits(l) && Sound(l, target) && Multiple(x, l.alignment)
    requires 0 < q && target <= q && !InDeadBand(c, q, target)
    ensures var next := Adjust(c, l, q, target);
            && (next == target || (next > target && next as real * c.maxStep <= q as real))
            && (x as real * c.maxStep <= q as real ==> x <= next)
  {
    hide AlignUp, AlignDown, InDeadBand, Multiple, Scaled, Shrunk;
    var down := AlignDown(Shrunk(q, c.maxStep), l.alignment);
    MultipleBelow(x, Shrunk(q, c.maxStep), l.alignment);
    ShrunkMeans(x, q, c.maxStep);
    ShrunkMeans(down, q, c.maxStep);
  }

  // ----- Averages

  // The average moves the share `alpha` of the way to the measured rate, or stays without a measurement.
  ghost predicate MovesToward(previous: real, next: real, amount: real, seconds: real, unit: real, alpha: real) {
    if amount > 0.0 && seconds > 0.0 then (next - (1.0 - alpha) * previous) * (seconds * unit) == alpha * amount
    else next == previous
  }

  lemma RateMeans(amount: real, seconds: real, unit: real)
    requires amount > 0.0 && seconds > 0.0 && unit > 0.0
    ensures Rate(amount, seconds, unit) * (seconds * unit) == amount
  {
    var x := amount / seconds;
    assert x / unit * unit == x && x * seconds == amount;
    assert x / unit * (seconds * unit) == (x / unit * unit) * seconds;
  }

  lemma UpdatedMoves(previous: real, amount: real, seconds: real, unit: real, alpha: real)
    requires previous > 0.0 && 0.0 < alpha <= 1.0 && unit > 0.0
    ensures MovesToward(previous, Updated(previous, amount, seconds, unit, alpha), amount, seconds, unit, alpha)
  {
    if amount > 0.0 && seconds > 0.0 {
      var rate, f := Rate(amount, seconds, unit), seconds * unit;
      RateMeans(amount, seconds, unit);
      var next := Updated(previous, amount, seconds, unit, alpha);
      assert next == previous + alpha * (rate - previous);
      assert next - (1.0 - alpha) * previous == alpha * rate;
      assert (alpha * rate) * f == alpha * (rate * f);
    }
  }

  /** Each average follows its own measurement: bytes up, bytes down, and operations when the compute rate counts. */
  lemma AveragesFollow(c: Config, a: Averages, m: Measurement, updateCompute: bool)
    requires ValidConfig(c) && Positive(a)
    ensures var next := Averaged(c, a, m, updateCompute);
            && MovesToward(a.h2dGbps, next.h2dGbps, m.h2dBytes, m.h2dSeconds, 1000000000.0, c.alpha)
            && MovesToward(a.d2hGbps, next.d2hGbps, m.d2hBytes, m.d2hSeconds, 1000000000.0, c.alpha)
            && (if updateCompute
                then MovesToward(a.tflops, next.tflops, m.attentionFlops, m.attentionSeconds, 1000000000000.0, c.alpha)
                else next.tflops == a.tflops)
            && (if m.elapsedSeconds <= 0.0 then next.elapsed == a.elapsed
                else if a.elapsed <= 0.0 then next.elapsed == m.elapsedSeconds
                else next.elapsed == (1.0 - c.alpha) * a.elapsed + c.alpha * m.elapsedSeconds)
  {
    hide Updated, MovesToward;
    UpdatedMoves(a.h2dGbps, m.h2dBytes, m.h2dSeconds, 1000000000.0, c.alpha);
    UpdatedMoves(a.d2hGbps, m.d2hBytes, m.d2hSeconds, 1000000000.0, c.alpha);
    UpdatedMoves(a.tflops, m.attentionFlops, m.attentionSeconds, 1000000000000.0, c.alpha);
    if m.elapsedSeconds > 0.0 && a.elapsed > 0.0 {
      assert c.alpha * (m.elapsedSeconds - a.elapsed) == c.alpha * m.elapsedSeconds - c.alpha * a.elapsed;
    }
  }

  // ----- Bounds

  /** The planned bounds are the outermost aligned sizes inside the given ones, the first size the least that is large enough. */
  lemma LimitsAre(initial: int, qMin: int, qCapacity: int, blockM: int, x: int)
    requires blockM > 0 && qCapacity > 0 && PlanLimits(initial, qMin, qCapacity, blockM).Some?
    ensures var (l, first) := PlanLimits(initial, qMin, qCapacity, blockM).value;
            && l.alignment == Min(blockM, qCapacity)
            && qMin <= l.qMin < qMin + l.alignment && qCapacity - l.alignment < l.qCapacity <= qCapacity
            && (initial <= first || first == l.qCapacity)
            && (Multiple(x, l.alignment) && l.qMin <= x <= l.qCapacity && initial <= x ==> first <= x)
  {
    hide AlignUp, AlignDown, Multiple;
    var alignment := Min(blockM, qCapacity);
    if Multiple(x, alignment) {
      MultipleAbove(x, initial as real, alignment);
    }
  }
}
