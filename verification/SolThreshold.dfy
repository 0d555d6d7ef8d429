/** The routing threshold: centroid statistics in one pass, and the same threshold for kernel and reference. */
module SolThreshold {
  import opened Softmax
  import Sums
  import opened AttentionKernel
  import opened SolMeaning
  import opened SolKernel
  import SolFormula
  import AttentionFormula

  const STATS_GROUP: nat := 32

  function Sum(xs: seq<real>): real {
    if xs == [] then 0.0 else Sum(xs[..|xs| - 1]) + xs[|xs| - 1]
  }

  function Square(x: real): real { x * x }

  function Squares(xs: seq<real>): (ys: seq<real>)
    ensures |ys| == |xs|
  {
    seq(|xs|, i requires 0 <= i < |xs| => Square(xs[i]))
  }

  // Squared distances from m, added up.
  function Deviation(xs: seq<real>, m: real): real {
    if xs == [] then 0.0 else Deviation(xs[..|xs| - 1], m) + Square(xs[|xs| - 1] - m)
  }

  function Mean(xs: seq<real>): real
    requires xs != []
  {
    Sum(xs) / |xs| as real
  }

  // The reference's variance: mean squared distance from the mean.
  function Variance(xs: seq<real>): real
    requires xs != []
  {
    Deviation(xs, Mean(xs)) / |xs| as real
  }

  lemma SquaresStep(xs: seq<real>)
    requires xs != []
    ensures Sum(Squares(xs)) == Sum(Squares(xs[..|xs| - 1])) + Square(xs[|xs| - 1])
  {
    assert Squares(xs)[..|xs| - 1] == Squares(xs[..|xs| - 1]);
  }

  lemma SquareOfDifference(x: real, m: real)
    ensures Square(x - m) == Square(x) - 2.0 * (m * x) + Square(m) && Square(x - m) >= 0.0
  {
  }

  lemma MeanStep(m: real, s: real, x: real, n: nat)
    ensures m * (s + x) == m * s + m * x && (n + 1) as real * Square(m) == n as real * Square(m) + Square(m)
  {
  }

  lemma {:induction false} DeviationExpands(xs: seq<real>, m: real)
    ensures Deviation(xs, m) == Sum(Squares(xs)) - 2.0 * (m * Sum(xs)) + |xs| as real * Square(m)
    ensures Deviation(xs, m) >= 0.0
    decreases |xs|
  {
    hide Square;
    if xs != [] {
      var init, x := xs[..|xs| - 1], xs[|xs| - 1];
      DeviationExpands(init, m);
      SquaresStep(xs);
      SquareOfDifference(x, m);
      MeanStep(m, Sum(init), x, |init|);
    } else {
      assert m * Sum(xs) == 0.0;
      assert |xs| as real * Square(m) == 0.0;
    }
  }

  /** The one-pass variance of the kernel is the reference's, and clamping at zero never bites. */
  lemma VarianceInOnePass(xs: seq<real>)
    requires xs != []
    ensures Sum(Squares(xs)) / |xs| as real - Square(Mean(xs)) == Variance(xs) && Variance(xs) >= 0.0
  {
    hide Square, Sum, Deviation;
    DeviationExpands(xs, Mean(xs));
    MomentsAgree(|xs| as real, Sum(xs), Sum(Squares(xs)), Deviation(xs, Mean(xs)));
  }

  lemma MomentsAgree(n: real, total: real, squares: real, deviation: real)
    requires n > 0.0 && deviation >= 0.0
    requires var m := total / n; deviation == squares - 2.0 * (m * total) + n * Square(m)
    ensures squares / n - Square(total / n) == deviation / n && deviation / n >= 0.0
  {
    var m, v := total / n, squares / n;
    assert m * n == total && v * n == squares;
    assert n * Square(m) == m * total;
    assert deviation == (v - Square(m)) * n;
  }

  // One lane of a statistics group, zero past the last block.
  function Lane(xs: seq<real>, b: nat): real {
    if b < |xs| then xs[b] else 0.0
  }

  lemma LaneStep(xs: seq<real>, b: nat)
    ensures Sum(xs[..Capped(b + 1, |xs|)]) == Sum(xs[..Capped(b, |xs|)]) + Lane(xs, b)
    ensures Sum(Squares(xs[..Capped(b + 1, |xs|)])) == Sum(Squares(xs[..Capped(b, |xs|)])) + Square(Lane(xs, b))
  {
    if b < |xs| {
      assert xs[..b + 1][..b] == xs[..b];
      SquaresStep(xs[..b + 1]);
    }
  }

  /** Group by group with masked lanes, one component of the block centroids gives its mean and variance. */
  method KDiagStats(xs: seq<real>) returns (mean: real, variance: real)
    requires xs != []
    ensures mean == Mean(xs) && variance == Variance(xs)
  {
    hide Sum, Squares, Square, Lane;
    var total, totalSq, start := 0.0, 0.0, 0;
    assert xs[..0] == [];
    assert Sum([]) == 0.0 && Sum(Squares([])) == 0.0 by { NothingSummed(); }
    while start < |xs|
      invariant total == Sum(xs[..Capped(start, |xs|)]) && totalSq == Sum(Squares(xs[..Capped(start, |xs|)]))
      decreases |xs| - start
    {
      for lane := 0 to STATS_GROUP
        invariant total == Sum(xs[..Capped(start + lane, |xs|)]) && totalSq == Sum(Squares(xs[..Capped(start + lane, |xs|)]))
      {
        LaneStep(xs, start + lane);
        var value := Lane(xs, start + lane);
        total := total + value;
        totalSq := totalSq + Square(value);
      }
      start := start + STATS_GROUP;
    }
    assert xs[..|xs|] == xs;
    VarianceInOnePass(xs);
    mean := total / |xs| as real;
    variance := totalSq / |xs| as real - Square(mean);
    if variance < 0.0 {
      variance := 0.0;
    }
  }

  lemma NothingSummed()
    ensures Sum([]) == 0.0 && Sum(Squares([])) == 0.0
  {
    assert Squares([]) == [];
  }

  // ----- Thresholds

  // Component c of every block centroid.
  function Component(g: Segment, c: nat): (xs: seq<real>)
    requires g.Valid() && c < g.dim
    ensures |xs| == Blocks(|g.k|) > 0
  {
    BlockBounds(|g.k|, 0);
    seq(Blocks(|g.k|), b requires 0 <= b < Blocks(|g.k|) => Centroid(g, b)[c])
  }

  function CentroidMean(g: Segment): (mean: Vec)
    requires g.Valid()
    ensures |mean| == g.dim
  {
    seq(g.dim, c requires 0 <= c < g.dim => Mean(Component(g, c)))
  }

  function CentroidVariance(g: Segment): (variance: Vec)
    requires g.Valid()
    ensures |variance| == g.dim
  {
    seq(g.dim, c requires 0 <= c < g.dim => Variance(Component(g, c)))
  }

  function Projected(x: real, y: real): real { x * y }

  function ProjectedTwice(scale: real, spread: real): real { scale * scale * spread }

  // `tau` standard deviations above the mean.
  function AboveMean(mean: real, variance: real, root: real -> real, tau: real): real {
    mean + tau * root(variance + 0.000001)
  }

  // The reference's threshold of a query block, for any square root.
  function ReferenceThreshold(g: Segment, root: real -> real, tau: real, qBlock: nat): real
    requires g.Valid() && qBlock < Blocks(|g.q|)
  {
    BlockBounds(|g.q|, qBlock);
    var q := MeanRows(g.q, Lo(qBlock), Hi(|g.q|, qBlock), g.dim);
    AboveMean(Projected(g.routeScale, Dot(q, CentroidMean(g))),
              ProjectedTwice(g.routeScale, Dot(Squares(q), CentroidVariance(g))), root, tau)
  }

  // The kernel's threshold of its program's block j, from the stored statistics.
  function KernelThreshold(g: Segment, chunk: Chunk, j: nat, mean: Vec, variance: Vec, root: real -> real, tau: real): real
    requires g.Valid() && chunk.Aligned(|g.q|) && j < Blocks(chunk.qTokens) && |mean| == |variance| == g.dim
  {
    BlockBounds(chunk.qTokens, j);
    var q := MeanRows(g.q, chunk.qStart + Lo(j), chunk.qStart + Hi(chunk.qTokens, j), g.dim);
    AboveMean(Projected(Dot(q, mean), g.routeScale),
              Projected(Projected(Dot(Squares(q), variance), g.routeScale), g.routeScale), root, tau)
  }

  // The segment with the thresholds of the formula.
  function Routed(g: Segment, root: real -> real, tau: real): Segment
    requires g.Valid()
  {
    g.(threshold := (qBlock: nat) => if qBlock < Blocks(|g.q|) then ReferenceThreshold(g, root, tau, qBlock) else 0.0)
  }

  lemma ScaleMoves(d: real, s: real)
    ensures Projected(d, s) == Projected(s, d) && Projected(Projected(d, s), s) == ProjectedTwice(s, d)
  {
    assert d * s * s == d * (s * s);
  }

  /**
   For every aligned chunk the kernel stores the threshold the reference uses, so a
   routed segment stands for both.
   */
  lemma KernelThresholdIsReference(g: Segment, chunk: Chunk, j: nat, root: real -> real, tau: real)
    requires g.Valid() && chunk.Aligned(|g.q|) && j < Blocks(chunk.qTokens)
    ensures QueryBlock(chunk, j) < Blocks(|g.q|) && Routed(g, root, tau).Valid()
    ensures KernelThreshold(g, chunk, j, CentroidMean(g), CentroidVariance(g), root, tau)
         == Routed(g, root, tau).threshold(QueryBlock(chunk, j))
  {
    hide Dot, MeanRows, CentroidMean, CentroidVariance, Blocks, AboveMean, Projected, ProjectedTwice;
    ChunkBlocks(|g.q|, chunk, j);
    var qBlock := QueryBlock(chunk, j);
    BlockBounds(|g.q|, qBlock);
    var q := MeanRows(g.q, Lo(qBlock), Hi(|g.q|, qBlock), g.dim);
    var mean, spread := Dot(q, CentroidMean(g)), Dot(Squares(q), CentroidVariance(g));
    ScaleMoves(mean, g.routeScale);
    ScaleMoves(spread, g.routeScale);
  }

  /** The statistics kernel, one component at a time. */
  method ComputeKStats(g: Segment) returns (mean: Vec, variance: Vec)
    requires g.Valid()
    ensures mean == CentroidMean(g) && variance == CentroidVariance(g)
  {
    hide Mean, Variance, Component;
    mean, variance := [], [];
    for c := 0 to g.dim
      invariant mean == CentroidMean(g)[..c] && variance == CentroidVariance(g)[..c]
    {
      var m, v := KDiagStats(Component(g, c));
      assert CentroidMean(g)[..c + 1] == CentroidMean(g)[..c] + [m];
      assert CentroidVariance(g)[..c + 1] == CentroidVariance(g)[..c] + [v];
      mean, variance := mean + [m], variance + [v];
    }
  }

  // ----- The threshold on tokens

  // Components and scores of block b, through its first token.
  function KeyMeanOf(g: Segment, b: int, d: int): real {
    SolFormula.BlockMean(g.k, 64 * b, d)
  }

  // The mean route score of row r's block over all key blocks.
  function MeanScore(g: Segment, r: int, n: nat): real
    requires n > 0
  {
    Sums.Sum(0, n, b => SolFormula.RouteScore(g, r, 64 * b)) / n as real
  }

  function OverallMean(g: Segment, d: int, n: nat): real
    requires n > 0
  {
    Sums.Sum(0, n, b => KeyMeanOf(g, b, d)) / n as real
  }

  // Mean squared distance of the block means from their overall mean.
  function Spread(g: Segment, d: int, n: nat): real
    requires n > 0
  {
    Sums.Sum(0, n, b => Square(KeyMeanOf(g, b, d) - OverallMean(g, d, n))) / n as real
  }

  function Deviated(g: Segment, r: int, d: int, n: nat): real
    requires n > 0
  {
    Projected(Square(Projected(g.routeScale, SolFormula.BlockMean(g.q, r, d))), Spread(g, d, n))
  }

  // `tau` deviations above the mean score, the deviation taken component by component.
  function ThresholdFormula(g: Segment, root: real -> real, tau: real, r: int, n: nat): real
    requires n > 0
  {
    MeanScore(g, r, n) + tau * root(Sums.Sum(0, g.dim, d => Deviated(g, r, d, n)) + 0.000001)
  }

  lemma {:induction false} SumIsSum(xs: seq<real>, f: int -> real)
    requires forall i :: 0 <= i < |xs| ==> f(i) == xs[i]
    ensures Sum(xs) == Sums.Sum(0, |xs|, f)
    decreases |xs|
  {
    if xs != [] {
      Sums.SumLast(0, |xs|, f);
      SumIsSum(xs[..|xs| - 1], f);
    }
  }

  lemma {:induction false} DeviationIsSum(xs: seq<real>, m: real, f: int -> real)
    requires forall i :: 0 <= i < |xs| ==> f(i) == Square(xs[i] - m)
    ensures Deviation(xs, m) == Sums.Sum(0, |xs|, f)
    decreases |xs|
  {
    hide Square;
    if xs != [] {
      Sums.SumLast(0, |xs|, f);
      DeviationIsSum(xs[..|xs| - 1], m, f);
    }
  }

  lemma ComponentAt(g: Segment, d: nat, b: nat)
    requires g.Valid() && d < g.dim && b < Blocks(|g.k|)
    ensures Component(g, d)[b] == KeyMeanOf(g, b, d) && 64 * b < |g.k| && 64 * b / 64 == b
  {
    BlockBounds(|g.k|, b);
    SolFormula.CentroidAt(g, 64 * b, d);
  }

  // The statistics of one component are those of the block means.
  lemma StatisticsAt(g: Segment, d: nat)
    requires g.Valid() && d < g.dim
    ensures var n := Blocks(|g.k|);
            n > 0 && CentroidMean(g)[d] == OverallMean(g, d, n) && CentroidVariance(g)[d] == Spread(g, d, n)
  {
    hide Blocks, KeyMeanOf, Square, Sum, Deviation, Sums.Sum;
    var xs, n := Component(g, d), Blocks(|g.k|);
    forall b | 0 <= b < n
      ensures xs[b] == KeyMeanOf(g, b, d)
    {
      ComponentAt(g, d, b);
    }
    SumIsSum(xs, b => KeyMeanOf(g, b, d));
    DeviationIsSum(xs, Mean(xs), b => Square(KeyMeanOf(g, b, d) - OverallMean(g, d, n)));
  }

  lemma {:induction false} SumAdds(lo: int, hi: int, f: int -> real, g: int -> real, h: int -> real)
    requires forall i :: lo <= i < hi ==> h(i) == f(i) + g(i)
    ensures Sums.Sum(lo, hi, h) == Sums.Sum(lo, hi, f) + Sums.Sum(lo, hi, g)
    decreases hi - lo
  {
    if lo < hi {
      SumAdds(lo + 1, hi, f, g, h);
    }
  }

  lemma {:induction false} SumScales(lo: int, hi: int, s: real, f: int -> real, h: int -> real)
    requires forall i :: lo <= i < hi ==> h(i) == Projected(s, f(i))
    ensures Sums.Sum(lo, hi, h) == Projected(s, Sums.Sum(lo, hi, f))
    decreases hi - lo
  {
    if lo < hi {
      SumScales(lo + 1, hi, s, f, h);
      Distributes(s, f(lo), Sums.Sum(lo + 1, hi, f));
    } else {
      assert Projected(s, 0.0) == 0.0;
    }
  }

  lemma Distributes(s: real, x: real, y: real)
    ensures Projected(s, x + y) == Projected(s, x) + Projected(s, y)
  {
  }

  // A component's sum over the first m blocks, weighed by the query mean.
  function Column(g: Segment, r: int, d: int, m: nat): real {
    Projected(SolFormula.BlockMean(g.q, r, d), Sums.Sum(0, m, b => KeyMeanOf(g, b, d)))
  }

  function Cross(g: Segment, r: int, b: int, d: int): real {
    Projected(SolFormula.BlockMean(g.q, r, d), KeyMeanOf(g, b, d))
  }

  lemma ScoreIsCross(g: Segment, r: int, b: int)
    ensures SolFormula.RouteScore(g, r, 64 * b) == Projected(g.routeScale, Sums.Sum(0, g.dim, d => Cross(g, r, b, d)))
  {
    hide SolFormula.BlockMean, Sums.Sum;
    Sums.SumSame(0, g.dim, d => SolFormula.BlockMean(g.q, r, d) * SolFormula.BlockMean(g.k, 64 * b, d), d => Cross(g, r, b, d));
  }

  // Scores added up over blocks are the columns added up over components.
  lemma {:induction false} ScoresAddUp(g: Segment, r: int, m: nat)
    ensures Sums.Sum(0, m, b => SolFormula.RouteScore(g, r, 64 * b))
         == Projected(g.routeScale, Sums.Sum(0, g.dim, d => Column(g, r, d, m)))
  {
    hide SolFormula.RouteScore, SolFormula.BlockMean, KeyMeanOf;
    if m == 0 {
      forall d
        ensures Column(g, r, d, 0) == 0.0
      {
      }
      SolFormula.SumZero(0, g.dim, d => Column(g, r, d, 0));
    } else {
      ScoresAddUp(g, r, m - 1);
      Sums.SumLast(0, m, b => SolFormula.RouteScore(g, r, 64 * b));
      ScoreIsCross(g, r, m - 1);
      forall d
        ensures Column(g, r, d, m) == Column(g, r, d, m - 1) + Cross(g, r, m - 1, d)
      {
        Sums.SumLast(0, m, b => KeyMeanOf(g, b, d));
        Distributes(SolFormula.BlockMean(g.q, r, d), Sums.Sum(0, m - 1, b => KeyMeanOf(g, b, d)), KeyMeanOf(g, m - 1, d));
      }
      SumAdds(0, g.dim, d => Column(g, r, d, m - 1), d => Cross(g, r, m - 1, d), d => Column(g, r, d, m));
      Distributes(g.routeScale, Sums.Sum(0, g.dim, d => Column(g, r, d, m - 1)), Sums.Sum(0, g.dim, d => Cross(g, r, m - 1, d)));
    }
  }

  // A query mean times an overall mean, n times over, is a column.
  lemma MeanTimesCount(q: real, total: real, n: nat)
    requires n > 0
    ensures Projected(n as real, Projected(q, total / n as real)) == Projected(q, total)
  {
    var x := total / n as real;
    assert n as real * x == total;
    assert n as real * (q * x) == q * (n as real * x);
  }

  lemma CancelsCount(scale: real, d: real, total: real, n: nat)
    requires n > 0 && Projected(n as real, d) == total
    ensures Projected(scale, total) / n as real == Projected(scale, d)
  {
    assert scale * total == (scale * d) * n as real;
  }

  // The query block's mean row.
  function QueryMean(g: Segment, qBlock: nat): (q: Vec)
    requires g.Valid() && qBlock < Blocks(|g.q|)
    ensures |q| == g.dim
  {
    BlockBounds(|g.q|, qBlock);
    MeanRows(g.q, Lo(qBlock), Hi(|g.q|, qBlock), g.dim)
  }

  lemma QueryMeanAt(g: Segment, r: nat, d: nat)
    requires g.Valid() && r < |g.q| && d < g.dim
    ensures r / 64 < Blocks(|g.q|) && QueryMean(g, r / 64)[d] == SolFormula.BlockMean(g.q, r, d)
  {
    SolFormula.QueryMeanAt(g, r, d);
  }

  lemma MeanScoreIs(g: Segment, r: nat)
    requires g.Valid() && r < |g.q|
    ensures var n := Blocks(|g.k|);
            r / 64 < Blocks(|g.q|) && n > 0
            && Projected(g.routeScale, Dot(QueryMean(g, r / 64), CentroidMean(g))) == MeanScore(g, r, n)
  {
    hide Blocks, Dot, QueryMean, CentroidMean, SolFormula.BlockMean, KeyMeanOf, Sums.Sum, Projected, SolFormula.RouteScore;
    SolFormula.BlockOf(|g.q|, r);
    SolFormula.BlockOf(|g.k|, 0);
    var n, q, mean := Blocks(|g.k|), QueryMean(g, r / 64), CentroidMean(g);
    var f := d => Projected(SolFormula.BlockMean(g.q, r, d), OverallMean(g, d, n));
    forall d | 0 <= d < g.dim
      ensures f(d) == q[d] * mean[d] && Column(g, r, d, n) == Projected(n as real, f(d))
    {
      QueryMeanAt(g, r, d);
      StatisticsAt(g, d);
      assert Projected(q[d], mean[d]) == q[d] * mean[d] by { ProjectedIs(q[d], mean[d]); }
      MeanTimesCount(SolFormula.BlockMean(g.q, r, d), Sums.Sum(0, n, b => KeyMeanOf(g, b, d)), n);
    }
    AttentionFormula.DotIsSum(q, mean, f);
    SumScales(0, g.dim, n as real, f, d => Column(g, r, d, n));
    ScoresAddUp(g, r, n);
    CancelsCount(g.routeScale, Dot(q, mean), Sums.Sum(0, g.dim, d => Column(g, r, d, n)), n);
  }

  lemma ProjectedIs(x: real, y: real)
    ensures Projected(x, y) == x * y
  {
  }

  lemma TwiceIsSquare(s: real, x: real)
    ensures ProjectedTwice(s, x) == Projected(Square(s), x)
  {
  }

  lemma SquaresMultiply(s: real, q: real, v: real)
    ensures Projected(Square(s), Projected(Square(q), v)) == Projected(Square(Projected(s, q)), v)
  {
    assert s * s * (q * q * v) == (s * q) * (s * q) * v;
  }

  lemma SpreadIs(g: Segment, r: nat)
    requires g.Valid() && r < |g.q|
    ensures var n := Blocks(|g.k|);
            r / 64 < Blocks(|g.q|) && n > 0
            && ProjectedTwice(g.routeScale, Dot(Squares(QueryMean(g, r / 64)), CentroidVariance(g)))
               == Sums.Sum(0, g.dim, d => Deviated(g, r, d, n))
  {
    hide Blocks, Dot, QueryMean, CentroidVariance, SolFormula.BlockMean, Spread, Sums.Sum, Square, Projected, ProjectedTwice;
    SolFormula.BlockOf(|g.q|, r);
    SolFormula.BlockOf(|g.k|, 0);
    var n, q, variance := Blocks(|g.k|), QueryMean(g, r / 64), CentroidVariance(g);
    var f := d => Projected(Square(SolFormula.BlockMean(g.q, r, d)), Spread(g, d, n));
    forall d | 0 <= d < g.dim
      ensures f(d) == Squares(q)[d] * variance[d]
      ensures Deviated(g, r, d, n) == Projected(Square(g.routeScale), f(d))
    {
      QueryMeanAt(g, r, d);
      StatisticsAt(g, d);
      ProjectedIs(Squares(q)[d], variance[d]);
      SquaresMultiply(g.routeScale, SolFormula.BlockMean(g.q, r, d), Spread(g, d, n));
    }
    AttentionFormula.DotIsSum(Squares(q), variance, f);
    SumScales(0, g.dim, Square(g.routeScale), f, d => Deviated(g, r, d, n));
    TwiceIsSquare(g.routeScale, Dot(Squares(q), variance));
  }

  /** The reference's threshold lies `tau` deviations above the mean route score of the row's block. */
  lemma ReferenceThresholdIsFormula(g: Segment, root: real -> real, tau: real, r: nat)
    requires g.Valid() && r < |g.q|
    ensures r / 64 < Blocks(|g.q|) && Blocks(|g.k|) > 0
    ensures ReferenceThreshold(g, root, tau, r / 64) == ThresholdFormula(g, root, tau, r, Blocks(|g.k|))
  {
    hide Blocks, Dot, CentroidMean, CentroidVariance, MeanScore, Sums.Sum, MeanRows;
    MeanScoreIs(g, r);
    SpreadIs(g, r);
  }
}
