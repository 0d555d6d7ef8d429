/**
 The streamed Sol update: routing scores from the resident query rows, groups of
 sixteen key blocks, approximate blocks folded first, exact blocks one by one.
 */
module SolKernel {
  import opened Softmax
  import opened AttentionKernel
  import opened SolMeaning

  // ----- Routing

  // Sum of the rows' scores against one centroid.
  function SumScores(rows: seq<Vec>, lo: nat, hi: nat, centroid: Vec, scale: real): real
    requires lo <= hi <= |rows| && forall t :: lo <= t < hi ==> |rows[t]| == |centroid|
    decreases hi
  {
    if lo == hi then 0.0 else SumScores(rows, lo, hi - 1, centroid, scale) + Dot(rows[hi - 1], centroid) * scale
  }

  function SumDots(rows: seq<Vec>, lo: nat, hi: nat, k: Vec, m: nat): real
    requires lo <= hi <= |rows| && m <= |k| && forall t :: lo <= t < hi ==> |rows[t]| == |k|
    decreases hi
  {
    if lo == hi then 0.0 else SumDots(rows, lo, hi - 1, k, m) + Dot(rows[hi - 1][..m], k[..m])
  }

  lemma DotStep(a: Vec, b: Vec, m: nat)
    requires 0 < m <= |a| == |b|
    ensures Dot(a[..m], b[..m]) == Dot(a[..m - 1], b[..m - 1]) + a[m - 1] * b[m - 1]
  {
    assert a[..m][..m - 1] == a[..m - 1] && b[..m][..m - 1] == b[..m - 1];
  }

  lemma {:induction false} SumDotsStep(rows: seq<Vec>, lo: nat, hi: nat, k: Vec, m: nat)
    requires lo <= hi <= |rows| && 0 < m <= |k| && forall t :: lo <= t < hi ==> |rows[t]| == |k|
    ensures SumDots(rows, lo, hi, k, m) == SumDots(rows, lo, hi, k, m - 1) + SumAt(rows, lo, hi, m - 1) * k[m - 1]
    decreases hi
  {
    if lo < hi {
      SumDotsStep(rows, lo, hi - 1, k, m);
      DotStep(rows[hi - 1], k, m);
      Distribute(SumAt(rows, lo, hi - 1, m - 1), rows[hi - 1][m - 1], k[m - 1]);
    }
  }

  lemma {:induction false} SumDotsEmpty(rows: seq<Vec>, lo: nat, hi: nat, k: Vec)
    requires lo <= hi <= |rows| && forall t :: lo <= t < hi ==> |rows[t]| == |k|
    ensures SumDots(rows, lo, hi, k, 0) == 0.0
    decreases hi
  {
    if lo < hi {
      SumDotsEmpty(rows, lo, hi - 1, k);
    }
  }

  lemma {:induction false} MeanDot(rows: seq<Vec>, lo: nat, hi: nat, k: Vec, m: nat)
    requires lo < hi <= |rows| && m <= |k| && forall t :: lo <= t < hi ==> |rows[t]| == |k|
    ensures var mean := MeanRows(rows, lo, hi, |k|);
            (hi - lo) as real * Dot(mean[..m], k[..m]) == SumDots(rows, lo, hi, k, m)
    decreases m
  {
    var mean, n := MeanRows(rows, lo, hi, |k|), (hi - lo) as real;
    if m == 0 {
      SumDotsEmpty(rows, lo, hi, k);
    } else {
      MeanDot(rows, lo, hi, k, m - 1);
      SumDotsStep(rows, lo, hi, k, m);
      DotStep(mean, k, m);
      Averaged(n, Dot(mean[..m - 1], k[..m - 1]), SumAt(rows, lo, hi, m - 1), k[m - 1]);
    }
  }

  lemma Averaged(n: real, d: real, total: real, k: real)
    requires n > 0.0
    ensures n * (d + total / n * k) == n * d + total * k
  {
    var mean := total / n;
    assert n * (mean * k) == (n * mean) * k;
  }

  lemma {:induction false} ScoresAreDots(rows: seq<Vec>, lo: nat, hi: nat, k: Vec, scale: real)
    requires lo <= hi <= |rows| && forall t :: lo <= t < hi ==> |rows[t]| == |k|
    ensures SumScores(rows, lo, hi, k, scale) == SumDots(rows, lo, hi, k, |k|) * scale
    decreases hi
  {
    if lo < hi {
      ScoresAreDots(rows, lo, hi - 1, k, scale);
      assert rows[hi - 1][..|k|] == rows[hi - 1] && k[..|k|] == k;
      Distribute(SumDots(rows, lo, hi - 1, k, |k|), Dot(rows[hi - 1], k), scale);
    }
  }

  /** The mean of the rows' scores is the score of the mean row. */
  lemma RouteScoreIsCentroidScore(rows: seq<Vec>, lo: nat, hi: nat, k: Vec, scale: real)
    requires lo < hi <= |rows| && forall t :: lo <= t < hi ==> |rows[t]| == |k|
    ensures SumScores(rows, lo, hi, k, scale) / (hi - lo) as real == scale * Dot(MeanRows(rows, lo, hi, |k|), k)
  {
    hide Dot, SumScores, SumDots, MeanRows;
    var mean, n := MeanRows(rows, lo, hi, |k|), (hi - lo) as real;
    MeanDot(rows, lo, hi, k, |k|);
    ScoresAreDots(rows, lo, hi, k, scale);
    assert mean[..|k|] == mean && k[..|k|] == k;
    CancelCount(n, Dot(mean, k), SumDots(rows, lo, hi, k, |k|), scale, SumScores(rows, lo, hi, k, scale));
  }

  lemma CancelCount(n: real, d: real, total: real, scale: real, scores: real)
    requires n > 0.0 && n * d == total && scores == total * scale
    ensures scores / n == scale * d
  {
    assert scores == (scale * d) * n;
  }

  // A resident query chunk: rows qStart.. of the segment, starting on a block boundary.
  datatype Chunk = Chunk(qStart: nat, qTokens: nat) {
    predicate Aligned(tokens: nat) {
      && qStart % BLOCK_TOKENS == 0 && qStart + qTokens <= tokens
      && (qTokens % BLOCK_TOKENS == 0 || qStart + qTokens == tokens)
    }
  }

  // A K/V tile: blocks first..first + blocks of the segment, kvTokens resident tokens.
  datatype Tile = Tile(first: nat, kvTokens: nat) {
    predicate Aligned(tokens: nat) {
      && 0 < kvTokens && Lo(first) + kvTokens <= tokens
      && (kvTokens % BLOCK_TOKENS == 0 || Lo(first) + kvTokens == tokens)
    }

    function Count(): nat {
      Blocks(kvTokens)
    }

    function Last(): nat {
      first + Count()
    }
  }

  // The kernel's own routing decision for program block j of the chunk.
  predicate KernelExact(g: Segment, chunk: Chunk, j: nat, b: nat)
    requires g.Valid() && chunk.Aligned(|g.q|) && j < Blocks(chunk.qTokens) && b < Blocks(|g.k|)
  {
    BlockBounds(chunk.qTokens, j);
    var lo := chunk.qStart + Lo(j);
    var hi := chunk.qStart + Hi(chunk.qTokens, j);
    var qBlock := chunk.qStart / BLOCK_TOKENS + j;
    var prefix := Blocks(g.prefixTokens);
    var score := SumScores(g.q, lo, hi, Centroid(g, b), g.routeScale) / (hi - lo) as real;
    score > g.threshold(qBlock) || Near(qBlock, b) || b < prefix || qBlock < prefix
  }

  function QueryBlock(chunk: Chunk, j: nat): nat {
    chunk.qStart / BLOCK_TOKENS + j
  }

  lemma ChunkBlocks(tokens: nat, chunk: Chunk, j: nat)
    requires chunk.Aligned(tokens) && j < Blocks(chunk.qTokens)
    ensures var qBlock := QueryBlock(chunk, j);
            && qBlock < Blocks(tokens)
            && chunk.qStart + Lo(j) == Lo(qBlock)
            && chunk.qStart + Hi(chunk.qTokens, j) == Hi(tokens, qBlock)
  {
  }

  /** For every aligned chunking the kernel routes each block as the reference does. */
  lemma KernelRoutesLikeReference(g: Segment, chunk: Chunk, j: nat, b: nat)
    requires g.Valid() && chunk.Aligned(|g.q|) && j < Blocks(chunk.qTokens) && b < Blocks(|g.k|)
    ensures QueryBlock(chunk, j) < Blocks(|g.q|)
    ensures KernelExact(g, chunk, j, b) == Exact(g, QueryBlock(chunk, j), b)
  {
    hide SumScores, Centroid, Near, Blocks;
    ChunkBlocks(|g.q|, chunk, j);
    var qBlock := QueryBlock(chunk, j);
    BlockBounds(|g.q|, qBlock);
    RouteScoreIsCentroidScore(g.q, Lo(qBlock), Hi(|g.q|, qBlock), Centroid(g, b), g.routeScale);
  }

  // The kernel's block length: 64, corrected for the block that ends the segment.
  function KernelLength(tile: Tile, segmentBlocks: nat, b: nat): int {
    if b == segmentBlocks - 1
    then tile.kvTokens + tile.first * BLOCK_TOKENS - (segmentBlocks - 1) * BLOCK_TOKENS
    else
      var rest := segmentBlocks * BLOCK_TOKENS - b * BLOCK_TOKENS;
      var known := if rest < 0 then 0 else rest;
      if BLOCK_TOKENS < known then BLOCK_TOKENS else known
  }

  lemma KernelLengthIsLength(g: Segment, tile: Tile, b: nat)
    requires g.Valid() && tile.Aligned(|g.k|) && tile.first <= b < tile.Last()
    ensures b < Blocks(|g.k|) && KernelLength(tile, Blocks(|g.k|), b) == Length(g, b)
  {
  }

  // Resident keys of block b end where the block ends.
  lemma TileHoldsBlock(g: Segment, tile: Tile, b: nat)
    requires g.Valid() && tile.Aligned(|g.k|) && tile.first <= b < tile.Last()
    ensures b < Blocks(|g.k|)
    ensures Lo(tile.first) <= Lo(b) && Hi(|g.k|, b) <= Lo(tile.first) + tile.kvTokens
    ensures Hi(tile.kvTokens, b - tile.first) == Hi(|g.k|, b) - Lo(tile.first)
  {
  }

  // ----- What the kernel folds in

  // The kernel's view of a segment: logits and routing share one scale.
  ghost predicate KernelScaled(g: Segment) {
    g.Valid() && g.scale == g.routeScale
  }

  // One lane of a group's approximate fold; masked when the block is read exactly.
  function ApproxLane(g: Segment, qBlock: nat, row: nat, last: nat, b: nat): (item: Item)
    requires g.Valid() && row < |g.q| && qBlock < Blocks(|g.q|) && last <= Blocks(|g.k|)
    ensures |item.value| == g.dim
  {
    if b < last && !Exact(g, qBlock, b) then CentroidItem(g, row, b) else Item(NegInf, 0.0, Zeros(g.dim))
  }

  function ApproxLanes(g: Segment, qBlock: nat, row: nat, last: nat, start: nat, n: nat): (items: seq<Item>)
    requires g.Valid() && row < |g.q| && qBlock < Blocks(|g.q|) && last <= Blocks(|g.k|)
    ensures |items| == n && Shaped(items, g.dim)
  {
    if n == 0 then [] else ApproxLanes(g, qBlock, row, last, start, n - 1) + [ApproxLane(g, qBlock, row, last, start + n - 1)]
  }

  // The keys of the exact blocks among the first n blocks from `start`.
  function ExactRun(g: Segment, qBlock: nat, row: nat, last: nat, start: nat, n: nat): (items: seq<Item>)
    requires g.Valid() && row < |g.q| && qBlock < Blocks(|g.q|) && last <= Blocks(|g.k|)
    ensures Shaped(items, g.dim)
  {
    if n == 0 then []
    else
      var b := start + n - 1;
      ExactRun(g, qBlock, row, last, start, n - 1)
      + if b < last && Exact(g, qBlock, b) then ExactItems(g, row, b) else []
  }

  // One group: all approximate lanes, then the exact blocks in order.
  function GroupItems(g: Segment, qBlock: nat, row: nat, last: nat, start: nat): (items: seq<Item>)
    requires g.Valid() && row < |g.q| && qBlock < Blocks(|g.q|) && last <= Blocks(|g.k|)
    ensures Shaped(items, g.dim)
  {
    ApproxLanes(g, qBlock, row, last, start, ROUTE_GROUP) + ExactRun(g, qBlock, row, last, start, ROUTE_GROUP)
  }

  // The first n groups of a tile.
  function TileItems(g: Segment, qBlock: nat, row: nat, last: nat, first: nat, n: nat): (items: seq<Item>)
    requires g.Valid() && row < |g.q| && qBlock < Blocks(|g.q|) && last <= Blocks(|g.k|)
    ensures Shaped(items, g.dim)
  {
    if n == 0 then []
    else TileItems(g, qBlock, row, last, first, n - 1) + GroupItems(g, qBlock, row, last, first + (n - 1) * ROUTE_GROUP)
  }

  // What block b contributes, whichever way it is read.
  function KernelBlock(g: Segment, qBlock: nat, row: nat, b: nat): (items: seq<Item>)
    requires g.Valid() && row < |g.q| && qBlock < Blocks(|g.q|) && b < Blocks(|g.k|)
    ensures Shaped(items, g.dim)
  {
    if Exact(g, qBlock, b) then ExactItems(g, row, b) else [CentroidItem(g, row, b)]
  }

  function BlockRun(g: Segment, qBlock: nat, row: nat, lo: nat, hi: nat): (items: seq<Item>)
    requires g.Valid() && row < |g.q| && qBlock < Blocks(|g.q|) && lo <= hi <= Blocks(|g.k|)
    ensures Shaped(items, g.dim)
    decreases hi
  {
    if lo == hi then [] else BlockRun(g, qBlock, row, lo, hi - 1) + KernelBlock(g, qBlock, row, hi - 1)
  }

  function Capped(n: nat, last: nat): nat {
    if n < last then n else last
  }

  lemma SingleWeight(e: real -> real, item: Item)
    ensures Weight(e, [item]) == ExpAt(e, item.score) * item.count
    ensures item.score.NegInf? ==> Weight(e, [item]) == 0.0
    ensures Weight(e, []) == 0.0
  {
    assert [item][..0] == [];
  }

  lemma SingleMoment(e: real -> real, item: Item, c: nat)
    requires c < |item.value|
    ensures Moment(e, [item], c) == ExpAt(e, item.score) * item.value[c]
    ensures item.score.NegInf? ==> Moment(e, [item], c) == 0.0
    ensures Moment(e, [], c) == 0.0
  {
    assert [item][..0] == [];
  }

  lemma SumStep(e: real -> real, lanes: seq<Item>, lane: seq<Item>, run: seq<Item>, keys: seq<Item>,
                blocks: seq<Item>, block: seq<Item>, dim: nat, c: nat)
    requires Shaped(lanes, dim) && Shaped(lane, dim) && Shaped(run, dim) && Shaped(keys, dim)
    requires Shaped(blocks, dim) && Shaped(block, dim) && c < dim
    requires Together(e, lanes, run, blocks, dim, c) && Together(e, lane, keys, block, dim, c)
    ensures Together(e, lanes + lane, run + keys, blocks + block, dim, c)
  {
    hide Weight, Moment;
    Concat(e, lanes, lane);
    Concat(e, run, keys);
    Concat(e, blocks, block);
    ConcatMoment(e, lanes, lane, c);
    ConcatMoment(e, run, keys, c);
    ConcatMoment(e, blocks, block, c);
  }

  // `a` and `b` together have the sums of `whole`.
  ghost predicate Together(e: real -> real, a: seq<Item>, b: seq<Item>, whole: seq<Item>, dim: nat, c: nat)
    requires Shaped(a, dim) && Shaped(b, dim) && Shaped(whole, dim) && c < dim
  {
    Weight(e, a) + Weight(e, b) == Weight(e, whole) && Moment(e, a, c) + Moment(e, b, c) == Moment(e, whole, c)
  }

  // One block is either a lane or a run of keys.
  lemma LaneSplits(e: real -> real, g: Segment, qBlock: nat, row: nat, b: nat, last: nat, c: nat)
    requires g.Valid() && row < |g.q| && qBlock < Blocks(|g.q|) && last <= Blocks(|g.k|) && c < g.dim
    ensures var keys := if b < last && Exact(g, qBlock, b) then ExactItems(g, row, b) else [];
            var block := if b < last then KernelBlock(g, qBlock, row, b) else [];
            Together(e, [ApproxLane(g, qBlock, row, last, b)], keys, block, g.dim, c)
  {
    SingleWeight(e, ApproxLane(g, qBlock, row, last, b));
    SingleMoment(e, ApproxLane(g, qBlock, row, last, b), c);
  }

  // A group contributes its blocks, each once.
  lemma {:induction false} GroupSplits(e: real -> real, g: Segment, qBlock: nat, row: nat, last: nat, start: nat, n: nat, c: nat)
    requires g.Valid() && row < |g.q| && qBlock < Blocks(|g.q|) && start <= last <= Blocks(|g.k|) && c < g.dim
    ensures Together(e, ApproxLanes(g, qBlock, row, last, start, n), ExactRun(g, qBlock, row, last, start, n),
                   BlockRun(g, qBlock, row, start, Capped(start + n, last)), g.dim, c)
    decreases n
  {
    hide Together, Exact, Blocks, KernelBlock, ApproxLane;
    if n == 0 {
      EmptySplits(e, g.dim, c);
    } else {
      var b := start + n - 1;
      var keys := if b < last && Exact(g, qBlock, b) then ExactItems(g, row, b) else [];
      var block := if b < last then KernelBlock(g, qBlock, row, b) else [];
      GroupSplits(e, g, qBlock, row, last, start, n - 1, c);
      LaneSplits(e, g, qBlock, row, b, last, c);
      SumStep(e, ApproxLanes(g, qBlock, row, last, start, n - 1), [ApproxLane(g, qBlock, row, last, b)],
              ExactRun(g, qBlock, row, last, start, n - 1), keys,
              BlockRun(g, qBlock, row, start, Capped(b, last)), block, g.dim, c);
      assert BlockRun(g, qBlock, row, start, Capped(b, last)) + block == BlockRun(g, qBlock, row, start, Capped(start + n, last));
      assert ExactRun(g, qBlock, row, last, start, n) == ExactRun(g, qBlock, row, last, start, n - 1) + keys;
    }
  }

  lemma EmptySplits(e: real -> real, dim: nat, c: nat)
    requires c < dim
    ensures Together(e, [], [], [], dim, c)
  {
  }
}
