/** The Sol kernel as loops, and a whole segment streamed through it. */
module SolRunner {
  import opened Softmax
  import opened AttentionKernel
  import opened SolMeaning
  import opened SolKernel
  import opened SolStreaming

  lemma {:induction false} DotCommutes(a: Vec, b: Vec)
    requires |a| == |b|
    ensures Dot(a, b) == Dot(b, a)
    decreases |a|
  {
    if a != [] {
      DotCommutes(a[..|a| - 1], b[..|a| - 1]);
    }
  }

  // One program instance: query block j of the chunk, one row of it, one K/V tile.
  datatype Program = Program(g: Segment, chunk: Chunk, j: nat, row: nat, tile: Tile) {
    ghost predicate Valid() {
      && KernelScaled(g) && row < |g.q|
      && chunk.Aligned(|g.q|) && j < Blocks(chunk.qTokens)
      && tile.Aligned(|g.k|) && tile.Last() <= Blocks(|g.k|) && QueryBlock(chunk, j) < Blocks(|g.q|)
    }

    function QBlock(): nat {
      QueryBlock(chunk, j)
    }
  }

  lemma TileEnds(tokens: nat, tile: Tile)
    requires tile.Aligned(tokens)
    ensures tile.first < tile.Last() <= Blocks(tokens)
  {
  }

  ghost predicate ReadsExactly(p: Program, b: nat)
    requires p.Valid()
  {
    b < p.tile.Last() && Exact(p.g, p.QBlock(), b)
  }

  // How many of the n blocks from `start` are read exactly.
  ghost function ExactCount(p: Program, start: nat, n: nat): nat
    requires p.Valid()
  {
    if n == 0 then 0 else ExactCount(p, start, n - 1) + if ReadsExactly(p, start + n - 1) then 1 else 0
  }

  // Blocks lo..hi of the segment that are exact for the query block.
  ghost function Exacts(g: Segment, qBlock: nat, lo: nat, hi: nat): nat
    requires g.Valid() && qBlock < Blocks(|g.q|) && lo <= hi <= Blocks(|g.k|)
    decreases hi
  {
    if lo == hi then 0 else Exacts(g, qBlock, lo, hi - 1) + if Exact(g, qBlock, hi - 1) then 1 else 0
  }

  lemma {:induction false} ExactsConcat(g: Segment, qBlock: nat, lo: nat, mid: nat, hi: nat)
    requires g.Valid() && qBlock < Blocks(|g.q|) && lo <= mid <= hi <= Blocks(|g.k|)
    ensures Exacts(g, qBlock, lo, hi) == Exacts(g, qBlock, lo, mid) + Exacts(g, qBlock, mid, hi)
    decreases hi
  {
    hide Exact, Blocks;
    if mid < hi {
      ExactsConcat(g, qBlock, lo, mid, hi - 1);
    }
  }

  // Lanes past the tile are not read.
  lemma {:induction false} LanesCount(p: Program, start: nat, n: nat)
    requires p.Valid() && start <= p.tile.Last()
    ensures start <= Capped(start + n, p.tile.Last()) <= Blocks(|p.g.k|)
    ensures ExactCount(p, start, n) == Exacts(p.g, p.QBlock(), start, Capped(start + n, p.tile.Last()))
  {
    hide Exact, Blocks;
    if n > 0 {
      LanesCount(p, start, n - 1);
    }
  }

  // The score, length and value sum of each lane, masked unless approximate.
  method RouteGroup(p: Program, groupStart: nat) returns (lanes: seq<Item>, exact: seq<bool>, approximate: nat)
    requires p.Valid()
    ensures lanes == ApproxLanes(p.g, p.QBlock(), p.row, p.tile.Last(), p.tile.first + groupStart, ROUTE_GROUP)
    ensures |exact| == ROUTE_GROUP
    ensures forall o :: 0 <= o < ROUTE_GROUP ==> exact[o] == ReadsExactly(p, p.tile.first + groupStart + o)
    ensures approximate + ExactCount(p, p.tile.first + groupStart, ROUTE_GROUP)
            == Capped(p.tile.first + groupStart + ROUTE_GROUP, p.tile.Last()) - Capped(p.tile.first + groupStart, p.tile.Last())
  {
    hide Exact, CentroidItem, KernelExact;
    lanes, exact, approximate := [], [], 0;
    var start := p.tile.first + groupStart;
    for o := 0 to ROUTE_GROUP
      invariant lanes == ApproxLanes(p.g, p.QBlock(), p.row, p.tile.Last(), start, o)
      invariant |exact| == o && forall i :: 0 <= i < o ==> exact[i] == ReadsExactly(p, start + i)
      invariant approximate + ExactCount(p, start, o)
                == Capped(start + o, p.tile.Last()) - Capped(start, p.tile.Last())
    {
      var lane, isExact := RouteLane(p, groupStart + o);
      lanes := lanes + [lane];
      exact := exact + [isExact];
      if lane.score.Fin? {
        approximate := approximate + 1;
      }
    }
  }

  method RouteLane(p: Program, tileBlock: nat) returns (lane: Item, exact: bool)
    requires p.Valid()
    ensures lane == ApproxLane(p.g, p.QBlock(), p.row, p.tile.Last(), p.tile.first + tileBlock)
    ensures exact == ReadsExactly(p, p.tile.first + tileBlock)
    ensures lane.score.Fin? <==> p.tile.first + tileBlock < p.tile.Last() && !exact
  {
    var b := p.tile.first + tileBlock;
    var segmentBlocks := Blocks(|p.g.k|);
    var valid := tileBlock < p.tile.Count() && b < segmentBlocks;
    exact := valid && KernelExact(p.g, p.chunk, p.j, b);
    if valid {
      KernelRoutesLikeReference(p.g, p.chunk, p.j, b);
      KernelLengthIsLength(p.g, p.tile, b);
    }
    if valid && !exact {
      DotCommutes(p.g.q[p.row], Centroid(p.g, b));
      lane := Item(Fin(Logit(p.g.scale, Dot(p.g.q[p.row], Centroid(p.g, b)))),
                   KernelLength(p.tile, segmentBlocks, b) as real, ValueSum(p.g, b));
    } else {
      lane := Item(NegInf, 0.0, Zeros(p.g.dim));
    }
  }

  lemma NoRescale(e: real -> real, m: real)
    requires Exponential(e)
    ensures e(m - m) == 1.0
  {
    ExpShift(e, m, m);
    var alpha, f := e(m - m), e(m);
    assert (alpha - 1.0) * f == 0.0;
    ProductZero(alpha - 1.0, f);
  }

  lemma {:induction false} MaskedBlockIsEmpty(e: real -> real, block: seq<Item>, m: real, dim: nat)
    requires MaxScore(block).NegInf? && Shaped(block, dim)
    ensures BlockWeight(e, block, m) == 0.0
    ensures forall c :: 0 <= c < dim ==> BlockMoment(e, block, m, c) == 0.0
  {
    if block != [] {
      MaskedBlockIsEmpty(e, block[..|block| - 1], m, dim);
    }
  }

  // A group without approximate blocks leaves the state alone.
  lemma MaskedBlockIsInvisible(e: real -> real, s: State, block: seq<Item>)
    requires Exponential(e) && Shaped(block, |s.acc|) && MaxScore(block).NegInf?
    ensures FoldBlock(e, s, block) == s
  {
    var t := FoldBlock(e, s, block);
    if s.max.Fin? {
      NoRescale(e, s.max.x);
      MaskedBlockIsEmpty(e, block, s.max.x, |s.acc|);
      forall c | 0 <= c < |s.acc|
        ensures t.acc[c] == s.acc[c]
      {
      }
      assert t.acc == s.acc;
    }
  }

  // All approximate blocks of a group at once.
  method FoldApproximate(e: real -> real, s: State, lanes: seq<Item>, ghost seen: seq<Item>) returns (t: State)
    requires Exponential(e) && Shaped(lanes, |s.acc|) && Represents(e, s, seen)
    ensures |t.acc| == |s.acc| && Represents(e, t, seen + lanes)
  {
    FoldBlockRepresents(e, s, seen, lanes);
    hide Represents, Exponential;
    var hasApproximate := MaxScore(lanes).Fin?;
    if hasApproximate {
      var merged := Max(s.max, MaxScore(lanes)).x;
      var alpha := ExpDiff(e, s.max, merged);
      t := State(Fin(merged), s.sum * alpha + BlockWeight(e, lanes, merged),
                 seq(|s.acc|, c requires 0 <= c < |s.acc| => s.acc[c] * alpha + BlockMoment(e, lanes, merged, c)));
      assert t == FoldBlock(e, s, lanes);
    } else {
      MaskedBlockIsInvisible(e, s, lanes);
      t := s;
    }
  }

  // The resident keys of one exact block, as the kernel masks them.
  method FoldExact(e: real -> real, p: Program, tileBlock: nat, s: State, ghost seen: seq<Item>) returns (t: State)
    requires Exponential(e) && p.Valid() && tileBlock < p.tile.Count() && |s.acc| == p.g.dim && Represents(e, s, seen)
    ensures p.tile.first + tileBlock < Blocks(|p.g.k|)
    ensures |t.acc| == |s.acc| && Represents(e, t, seen + ExactItems(p.g, p.row, p.tile.first + tileBlock))
  {
    ghost var b := p.tile.first + tileBlock;
    TileHoldsBlock(p.g, p.tile, b);
    var start := Lo(p.tile.first) + Lo(tileBlock);
    var resident := Hi(p.tile.kvTokens, tileBlock) - Lo(tileBlock);
    var keys := seq(resident, i requires 0 <= i < resident => KernelKey(p.g, p.row, start, i));
    KeysAreExactItems(p, tileBlock, keys, start);
    t := StreamRow(e, s, keys, BLOCK_TOKENS);
    assert seen + keys[..0] == seen;
    FoldTileRepresents(e, s, seen, keys, BLOCK_TOKENS, 0);
  }

  function KernelKey(g: Segment, row: nat, start: nat, i: nat): (item: Item)
    requires g.Valid() && row < |g.q| && start + i < |g.k|
    ensures |item.value| == g.dim
  {
    Item(Fin(Logit(g.scale, Dot(g.q[row], g.k[start + i]))), 1.0, g.v[start + i])
  }

  lemma KeysAreExactItems(p: Program, tileBlock: nat, keys: seq<Item>, start: nat)
    requires p.Valid() && tileBlock < p.tile.Count() && p.tile.first + tileBlock < Blocks(|p.g.k|)
    requires start == Lo(p.tile.first + tileBlock)
    requires |keys| == Length(p.g, p.tile.first + tileBlock)
    requires forall i :: 0 <= i < |keys| ==> start + i < |p.g.k| && keys[i] == KernelKey(p.g, p.row, start, i)
    ensures keys == ExactItems(p.g, p.row, p.tile.first + tileBlock)
  {
    forall i | 0 <= i < |keys|
      ensures keys[i] == ExactItem(p.g, p.row, start, i)
    {
      DotCommutes(p.g.q[p.row], p.g.k[start + i]);
    }
  }

  // The exact blocks of a group, in ascending order.
  method FoldExactBlocks(e: real -> real, p: Program, groupStart: nat, exact: seq<bool>, s: State, ghost seen: seq<Item>)
      returns (t: State, count: nat)
    requires Exponential(e) && p.Valid() && |s.acc| == p.g.dim && Represents(e, s, seen) && |exact| == ROUTE_GROUP
    requires forall o :: 0 <= o < ROUTE_GROUP ==> exact[o] == ReadsExactly(p, p.tile.first + groupStart + o)
    ensures |t.acc| == |s.acc|
    ensures Represents(e, t, seen + ExactRun(p.g, p.QBlock(), p.row, p.tile.Last(), p.tile.first + groupStart, ROUTE_GROUP))
    ensures count == ExactCount(p, p.tile.first + groupStart, ROUTE_GROUP)
  {
    hide Represents, Exponential, Exact, ExactItems;
    var start := p.tile.first + groupStart;
    t, count := s, 0;
    assert seen + [] == seen;
    for o := 0 to ROUTE_GROUP
      invariant |t.acc| == |s.acc|
      invariant Represents(e, t, seen + ExactRun(p.g, p.QBlock(), p.row, p.tile.Last(), start, o))
      invariant count == ExactCount(p, start, o)
    {
      ghost var run := ExactRun(p.g, p.QBlock(), p.row, p.tile.Last(), start, o);
      if exact[o] {
        t := FoldExact(e, p, groupStart + o, t, seen + run);
        assert seen + run + ExactItems(p.g, p.row, start + o) == seen + (run + ExactItems(p.g, p.row, start + o));
        count := count + 1;
      } else {
        assert run + [] == run;
      }
    }
  }

  /** One kernel launch for one row: every block of the tile is folded in once. */
  method UpdateTile(e: real -> real, p: Program, s: State, ghost seen: seq<Item>)
      returns (t: State, exactRoutes: nat, approximateRoutes: nat)
    requires Exponential(e) && p.Valid() && |s.acc| == p.g.dim && Represents(e, s, seen)
    ensures |t.acc| == |s.acc|
    ensures Represents(e, t, seen + TileItems(p.g, p.QBlock(), p.row, p.tile.Last(), p.tile.first, Groups(p.tile)))
    ensures exactRoutes + approximateRoutes == p.tile.Count() && p.tile.Last() <= Blocks(|p.g.k|)
    ensures exactRoutes == Exacts(p.g, p.QBlock(), p.tile.first, p.tile.Last())
  {
    hide Represents, Exponential, ApproxLanes, ExactRun, Exact;
    t, exactRoutes, approximateRoutes := s, 0, 0;
    var n := 0;
    var groupStart := 0;
    assert seen + [] == seen;
    while groupStart < p.tile.Count()
      invariant groupStart == n * ROUTE_GROUP && |t.acc| == |s.acc|
      invariant n > 0 ==> (n - 1) * ROUTE_GROUP < p.tile.Count()
      invariant Represents(e, t, seen + TileItems(p.g, p.QBlock(), p.row, p.tile.Last(), p.tile.first, n))
      invariant exactRoutes + approximateRoutes == Capped(p.tile.first + groupStart, p.tile.Last()) - p.tile.first
      invariant exactRoutes == Exacts(p.g, p.QBlock(), p.tile.first, Capped(p.tile.first + groupStart, p.tile.Last()))
      decreases p.tile.Count() - groupStart
    {
      ghost var folded := seen + TileItems(p.g, p.QBlock(), p.row, p.tile.Last(), p.tile.first, n);
      var lanes, exact, approximate := RouteGroup(p, groupStart);
      t := FoldApproximate(e, t, lanes, folded);
      var count;
      t, count := FoldExactBlocks(e, p, groupStart, exact, t, folded + lanes);
      LanesCount(p, p.tile.first + groupStart, ROUTE_GROUP);
      ExactsConcat(p.g, p.QBlock(), p.tile.first, p.tile.first + groupStart,
                   Capped(p.tile.first + groupStart + ROUTE_GROUP, p.tile.Last()));
      exactRoutes := exactRoutes + count;
      approximateRoutes := approximateRoutes + approximate;
      GroupJoins(p, n, seen, folded, lanes);
      groupStart := groupStart + ROUTE_GROUP;
      n := n + 1;
    }
    assert n == Groups(p.tile);
  }

  function Groups(tile: Tile): nat {
    (tile.Count() + ROUTE_GROUP - 1) / ROUTE_GROUP
  }

  lemma GroupJoins(p: Program, n: nat, seen: seq<Item>, folded: seq<Item>, lanes: seq<Item>)
    requires p.Valid()
    requires folded == seen + TileItems(p.g, p.QBlock(), p.row, p.tile.Last(), p.tile.first, n)
    requires lanes == ApproxLanes(p.g, p.QBlock(), p.row, p.tile.Last(), p.tile.first + n * ROUTE_GROUP, ROUTE_GROUP)
    ensures folded + lanes + ExactRun(p.g, p.QBlock(), p.row, p.tile.Last(), p.tile.first + n * ROUTE_GROUP, ROUTE_GROUP)
            == seen + TileItems(p.g, p.QBlock(), p.row, p.tile.Last(), p.tile.first, n + 1)
  {
    hide ApproxLanes, ExactRun;
  }

  // ----- A query row over all tiles

  ghost predicate MatchesRun(f: real -> real, items: seq<Item>, h: Segment, qBlock: nat, row: nat, blocks: nat)
    requires h.Valid() && row < |h.q| && qBlock < Blocks(|h.q|) && blocks <= Blocks(|h.k|) && Shaped(items, h.dim)
  {
    forall c :: 0 <= c < h.dim ==> Matching(f, items, f, BlockRun(h, qBlock, row, 0, blocks), h.dim, c)
  }

  lemma TileJoins(f: real -> real, p: Program, seen: seq<Item>)
    requires p.Valid() && Shaped(seen, p.g.dim) && MatchesRun(f, seen, p.g, p.QBlock(), p.row, p.tile.first)
    ensures MatchesRun(f, seen + TileItems(p.g, p.QBlock(), p.row, p.tile.Last(), p.tile.first, Groups(p.tile)),
                       p.g, p.QBlock(), p.row, p.tile.Last())
  {
    hide Matching, TileItems, BlockRun, Exact;
    var qBlock, first, last := p.QBlock(), p.tile.first, p.tile.Last();
    BlockRunConcat(p.g, qBlock, p.row, 0, first, last);
    forall c | 0 <= c < p.g.dim
      ensures Matching(f, seen + TileItems(p.g, qBlock, p.row, last, first, Groups(p.tile)),
                       f, BlockRun(p.g, qBlock, p.row, 0, last), p.g.dim, c)
    {
      TileMatches(f, p.g, qBlock, p.row, last, first, Groups(p.tile), c);
      assert Capped(first + Groups(p.tile) * ROUTE_GROUP, last) == last;
      MatchingConcat(f, seen, TileItems(p.g, qBlock, p.row, last, first, Groups(p.tile)),
                     f, BlockRun(p.g, qBlock, p.row, 0, first), BlockRun(p.g, qBlock, p.row, first, last), p.g.dim, c);
    }
  }

  // Chunk sizes the plan hands out: whole blocks, or everything at once.
  predicate BlockAligned(chunk: nat, tokens: nat) {
    chunk > 0 && (chunk % BLOCK_TOKENS == 0 || chunk >= tokens)
  }

  // All tiles of the segment for one row of one program, then finalized.
  method AttendRow(f: real -> real, h: Segment, chunk: Chunk, j: nat, row: nat, kvChunk: nat)
      returns (out: Vec, exactRoutes: nat, approximateRoutes: nat)
    requires Exponential(f) && KernelScaled(h) && row < |h.q|
    requires chunk.Aligned(|h.q|) && j < Blocks(chunk.qTokens) && QueryBlock(chunk, j) < Blocks(|h.q|)
    requires BlockAligned(kvChunk, |h.k|)
    ensures |out| == h.dim
    ensures forall c :: 0 <= c < h.dim ==>
              out[c] == Attention(f, BlockRun(h, QueryBlock(chunk, j), row, 0, Blocks(|h.k|)), c)
    ensures exactRoutes + approximateRoutes == Blocks(|h.k|)
    ensures exactRoutes == Exacts(h, QueryBlock(chunk, j), 0, Blocks(|h.k|))
  {
    hide Represents, MatchesRun, Exponential, Exact, BlockRun;
    var s := InitialState(h.dim);
    ghost var qBlock := QueryBlock(chunk, j);
    ghost var seen: seq<Item> := [];
    exactRoutes, approximateRoutes := 0, 0;
    StartMatches(f, h, qBlock, row);
    var start := 0;
    while start < |h.k|
      invariant start <= |h.k| && (start % BLOCK_TOKENS == 0 || start == |h.k|)
      invariant |s.acc| == h.dim && Shaped(seen, h.dim) && Represents(f, s, seen)
      invariant MatchesRun(f, seen, h, qBlock, row, Blocks(start))
      invariant exactRoutes + approximateRoutes == Blocks(start) <= Blocks(|h.k|)
      invariant exactRoutes == Exacts(h, qBlock, 0, Blocks(start))
      decreases |h.k| - start
    {
      var stop, exact, approximate;
      s, seen, stop, exact, approximate := AttendTile(f, h, chunk, j, row, kvChunk, start, s, seen);
      ExactsConcat(h, qBlock, 0, Blocks(start), Blocks(stop));
      exactRoutes := exactRoutes + exact;
      approximateRoutes := approximateRoutes + approximate;
      start := stop;
    }
    out := FinalizeRow(s);
    FinishRow(f, h, qBlock, row, s, seen);
  }

  // The next tile lies in the segment and ends on a block boundary or with the segment.
  lemma TileFits(h: Segment, start: nat, kvChunk: nat, tokens: nat)
    requires KernelScaled(h) && BlockAligned(kvChunk, |h.k|) && start < |h.k| && start % BLOCK_TOKENS == 0
    requires tokens == if start + kvChunk < |h.k| then kvChunk else |h.k| - start
    ensures h.Valid() && 0 < tokens && start + tokens <= |h.k|
    ensures (start + tokens) % BLOCK_TOKENS == 0 || start + tokens == |h.k|
    ensures var tile := Tile(start / BLOCK_TOKENS, tokens);
            && tile.Aligned(|h.k|) && tile.Last() <= Blocks(|h.k|)
            && Blocks(start) == tile.first && Blocks(start + tokens) == tile.Last()
  {
    var tile := Tile(start / BLOCK_TOKENS, tokens);
    TileEnds(|h.k|, tile);
  }

  // One tile of the segment for one row of one program.
  method AttendTile(f: real -> real, h: Segment, chunk: Chunk, j: nat, row: nat, kvChunk: nat, start: nat,
                    s: State, ghost seen: seq<Item>)
      returns (t: State, ghost after: seq<Item>, stop: nat, exact: nat, approximate: nat)
    requires Exponential(f) && KernelScaled(h) && row < |h.q|
    requires chunk.Aligned(|h.q|) && j < Blocks(chunk.qTokens) && QueryBlock(chunk, j) < Blocks(|h.q|)
    requires BlockAligned(kvChunk, |h.k|) && start < |h.k| && start % BLOCK_TOKENS == 0
    requires |s.acc| == h.dim && Shaped(seen, h.dim) && Represents(f, s, seen)
    requires MatchesRun(f, seen, h, QueryBlock(chunk, j), row, Blocks(start))
    ensures start < stop <= |h.k| && (stop % BLOCK_TOKENS == 0 || stop == |h.k|)
    ensures |t.acc| == h.dim && Shaped(after, h.dim) && Represents(f, t, after)
    ensures MatchesRun(f, after, h, QueryBlock(chunk, j), row, Blocks(stop))
    ensures Blocks(start) <= Blocks(stop) <= Blocks(|h.k|) && exact + approximate == Blocks(stop) - Blocks(start)
    ensures exact == Exacts(h, QueryBlock(chunk, j), Blocks(start), Blocks(stop))
  {
    hide Represents, MatchesRun, Exponential, Exact, BlockRun, BlockAligned, KernelScaled;
    var tokens := if start + kvChunk < |h.k| then kvChunk else |h.k| - start;
    TileFits(h, start, kvChunk, tokens);
    var tile := Tile(start / BLOCK_TOKENS, tokens);
    stop := start + tokens;
    var p := Program(h, chunk, j, row, tile);
    t, exact, approximate := UpdateTile(f, p, s, seen);
    TileJoins(f, p, seen);
    after := seen + TileItems(h, QueryBlock(chunk, j), row, tile.Last(), tile.first, Groups(tile));
  }

  lemma StartMatches(f: real -> real, h: Segment, qBlock: nat, row: nat)
    requires h.Valid() && row < |h.q| && qBlock < Blocks(|h.q|)
    ensures Represents(f, InitialState(h.dim), []) && MatchesRun(f, [], h, qBlock, row, 0)
  {
    InitialRepresents(f, h.dim);
  }

  lemma {:induction false} RunWeighs(f: real -> real, h: Segment, qBlock: nat, row: nat, n: nat)
    requires Exponential(f) && h.Valid() && row < |h.q| && qBlock < Blocks(|h.q|) && n <= Blocks(|h.k|)
    ensures Weight(f, BlockRun(h, qBlock, row, 0, n)) >= 0.0
  {
    if n > 0 {
      hide Weight, Exact, Blocks;
      RunWeighs(f, h, qBlock, row, n - 1);
      var block := KernelBlock(h, qBlock, row, n - 1);
      WeightNonNegative(f, block);
      Concat(f, BlockRun(h, qBlock, row, 0, n - 1), block);
    }
  }

  lemma FinishRow(f: real -> real, h: Segment, qBlock: nat, row: nat, s: State, seen: seq<Item>)
    requires Exponential(f) && h.Valid() && row < |h.q| && qBlock < Blocks(|h.q|)
    requires |s.acc| == h.dim && Shaped(seen, h.dim) && Represents(f, s, seen)
    requires MatchesRun(f, seen, h, qBlock, row, Blocks(|h.k|))
    ensures forall c :: 0 <= c < h.dim ==>
              FinalizeRow(s)[c] == Attention(f, BlockRun(h, qBlock, row, 0, Blocks(|h.k|)), c)
  {
    hide Represents, BlockRun, Exponential, Weight, Moment, Attention;
    var run := BlockRun(h, qBlock, row, 0, Blocks(|h.k|));
    RunWeighs(f, h, qBlock, row, Blocks(|h.k|));
    forall c | 0 <= c < h.dim
      ensures FinalizeRow(s)[c] == Attention(f, run, c)
    {
      assert Matching(f, seen, f, run, h.dim, c);
      FinalizeFromWeight(f, s, seen, c);
      AttentionFromSums(f, seen, f, run, c);
    }
  }

  // Reference attention of one query row.
  ghost function ReferenceAttention(e: real -> real, g: Segment, row: nat, c: nat): real
    requires g.Valid() && row < |g.q| && c < g.dim
  {
    var qBlock := row / BLOCK_TOKENS;
    Attention(e, ReferenceItems(g, qBlock, row, Blocks(|g.k|)), c)
  }

  /** The streamed kernel's row is the reference's row. */
  lemma KernelIsReference(e: real -> real, f: real -> real, base: real, g: Segment, row: nat, c: nat)
    requires g.Valid() && row < |g.q| && c < g.dim
    requires Rebased(e, f, base) && g.routeScale == g.scale * base
    ensures row / BLOCK_TOKENS < Blocks(|g.q|)
    ensures Attention(f, BlockRun(KernelView(g), row / BLOCK_TOKENS, row, 0, Blocks(|g.k|)), c)
            == ReferenceAttention(e, g, row, c)
  {
    var qBlock, n := row / BLOCK_TOKENS, Blocks(|g.k|);
    hide ReferenceItems, BlockRun, Weight, Moment, Attention, Rebased;
    ReferenceMatches(e, f, base, g, qBlock, row, n, c);
    AttentionFromSums(e, ReferenceItems(g, qBlock, row, n), f, BlockRun(KernelView(g), qBlock, row, 0, n), c);
  }

  // All keys of the segment, as dense attention sees them.
  function DenseItems(g: Segment, row: nat, n: nat): (items: seq<Item>)
    requires g.Valid() && row < |g.q| && n <= |g.k|
    ensures |items| == n && Shaped(items, g.dim)
  {
    seq(n, i requires 0 <= i < n => ExactItem(g, row, 0, i))
  }

  lemma DenseExtends(g: Segment, row: nat, b: nat)
    requires g.Valid() && row < |g.q| && b < Blocks(|g.k|)
    ensures Lo(b) < Hi(|g.k|, b) <= |g.k|
    ensures DenseItems(g, row, Hi(|g.k|, b)) == DenseItems(g, row, Lo(b)) + ExactItems(g, row, b)
  {
    BlockBounds(|g.k|, b);
  }

  function Covered(g: Segment, n: nat): nat {
    if n == 0 then 0 else Hi(|g.k|, n - 1)
  }

  /** When routing reads every block exactly, Sol attention is dense attention. */
  lemma {:induction false} AllExactIsDense(g: Segment, qBlock: nat, row: nat, n: nat)
    requires g.Valid() && row < |g.q| && qBlock < Blocks(|g.q|) && n <= Blocks(|g.k|)
    requires forall b :: 0 <= b < n ==> Exact(g, qBlock, b)
    ensures Covered(g, n) <= |g.k| && ReferenceItems(g, qBlock, row, n) == DenseItems(g, row, Covered(g, n))
    decreases n
  {
    if n > 0 {
      hide Exact, DenseItems, ExactItems;
      AllExactIsDense(g, qBlock, row, n - 1);
      DenseExtends(g, row, n - 1);
      if n > 1 {
        BlockBounds(|g.k|, n - 2);
      }
      assert Covered(g, n - 1) == Lo(n - 1);
    }
  }
}
