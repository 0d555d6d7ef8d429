/** The streamed Sol kernel against the Sol reference, for every chunking and tiling. */
module SolStreaming {
  import opened Softmax
  import opened AttentionKernel
  import opened SolMeaning
  import opened SolKernel

  // ----- Equal sums

  lemma AttentionFromSums(e: real -> real, a: seq<Item>, f: real -> real, b: seq<Item>, c: nat)
    requires forall i :: 0 <= i < |a| ==> c < |a[i].value|
    requires forall i :: 0 <= i < |b| ==> c < |b[i].value|
    requires Weight(e, a) == Weight(f, b) && Moment(e, a, c) == Moment(f, b, c)
    ensures Attention(e, a, c) == Attention(f, b, c)
  {
    var total := Weight(e, a);
    if total != 0.0 {
      AverageIsQuotient(e, a, total, c);
      AverageIsQuotient(f, b, total, c);
    }
  }

  // Same sums under two exponentials.
  ghost predicate Matching(e: real -> real, a: seq<Item>, f: real -> real, b: seq<Item>, dim: nat, c: nat)
    requires Shaped(a, dim) && Shaped(b, dim) && c < dim
  {
    Weight(e, a) == Weight(f, b) && Moment(e, a, c) == Moment(f, b, c)
  }

  lemma MatchingConcat(e: real -> real, a: seq<Item>, a': seq<Item>, f: real -> real, b: seq<Item>, b': seq<Item>, dim: nat, c: nat)
    requires Shaped(a, dim) && Shaped(b, dim) && Shaped(a', dim) && Shaped(b', dim) && c < dim
    requires Matching(e, a, f, b, dim, c) && Matching(e, a', f, b', dim, c)
    ensures Matching(e, a + a', f, b + b', dim, c)
  {
    hide Weight, Moment;
    Concat(e, a, a');
    Concat(f, b, b');
    ConcatMoment(e, a, a', c);
    ConcatMoment(f, b, b', c);
  }

  // ----- A tile contributes its blocks

  lemma {:induction false} BlockRunConcat(g: Segment, qBlock: nat, row: nat, lo: nat, mid: nat, hi: nat)
    requires g.Valid() && row < |g.q| && qBlock < Blocks(|g.q|) && lo <= mid <= hi <= Blocks(|g.k|)
    ensures BlockRun(g, qBlock, row, lo, hi) == BlockRun(g, qBlock, row, lo, mid) + BlockRun(g, qBlock, row, mid, hi)
    decreases hi
  {
    hide KernelBlock, Blocks;
    if mid < hi {
      BlockRunConcat(g, qBlock, row, lo, mid, hi - 1);
    }
  }

  lemma {:induction false} TileMatches(e: real -> real, g: Segment, qBlock: nat, row: nat, last: nat, first: nat, n: nat, c: nat)
    requires g.Valid() && row < |g.q| && qBlock < Blocks(|g.q|) && first <= last <= Blocks(|g.k|) && c < g.dim
    requires n > 0 ==> first + (n - 1) * ROUTE_GROUP < last
    ensures Matching(e, TileItems(g, qBlock, row, last, first, n),
                     e, BlockRun(g, qBlock, row, first, Capped(first + n * ROUTE_GROUP, last)), g.dim, c)
    decreases n
  {
    hide Blocks, Matching, GroupItems, BlockRun, Exact;
    if n == 0 {
      assert BlockRun(g, qBlock, row, first, first) == [] by { EmptyRun(g, qBlock, row, first); }
      EmptyMatches(e, e, g.dim, c);
    } else {
      var start := first + (n - 1) * ROUTE_GROUP;
      TileMatches(e, g, qBlock, row, last, first, n - 1, c);
      GroupMatches(e, g, qBlock, row, last, start, c);
      BlockRunConcat(g, qBlock, row, first, start, Capped(start + ROUTE_GROUP, last));
      MatchingConcat(e, TileItems(g, qBlock, row, last, first, n - 1), GroupItems(g, qBlock, row, last, start),
                     e, BlockRun(g, qBlock, row, first, start),
                     BlockRun(g, qBlock, row, start, Capped(start + ROUTE_GROUP, last)), g.dim, c);
    }
  }

  lemma EmptyRun(g: Segment, qBlock: nat, row: nat, lo: nat)
    requires g.Valid() && row < |g.q| && qBlock < Blocks(|g.q|) && lo <= Blocks(|g.k|)
    ensures BlockRun(g, qBlock, row, lo, lo) == []
  {
  }

  lemma EmptyMatches(e: real -> real, f: real -> real, dim: nat, c: nat)
    requires c < dim
    ensures Matching(e, [], f, [], dim, c)
  {
  }

  lemma GroupMatches(e: real -> real, g: Segment, qBlock: nat, row: nat, last: nat, start: nat, c: nat)
    requires g.Valid() && row < |g.q| && qBlock < Blocks(|g.q|) && start <= last <= Blocks(|g.k|) && c < g.dim
    ensures Matching(e, GroupItems(g, qBlock, row, last, start),
                     e, BlockRun(g, qBlock, row, start, Capped(start + ROUTE_GROUP, last)), g.dim, c)
  {
    hide Weight, Moment, Blocks, ApproxLanes, ExactRun, BlockRun;
    var lanes, run := ApproxLanes(g, qBlock, row, last, start, ROUTE_GROUP), ExactRun(g, qBlock, row, last, start, ROUTE_GROUP);
    GroupSplits(e, g, qBlock, row, last, start, ROUTE_GROUP, c);
    Concat(e, lanes, run);
    ConcatMoment(e, lanes, run, c);
  }

  // ----- The reference contributes the same blocks

  // The kernel folds the change of base into its scale: e(x) == f(x * base).
  ghost predicate Rebased(e: real -> real, f: real -> real, base: real) {
    forall x, y :: y == x * base ==> e(x) == f(y)
  }

  function KernelView(g: Segment): Segment {
    g.(scale := g.routeScale)
  }

  lemma Reassociate(a: real, b: real, c: real)
    ensures (a * b) * c == (a * c) * b
  {
  }

  lemma ScoreRebased(e: real -> real, f: real -> real, base: real, scale: real, routeScale: real, d: real)
    requires Rebased(e, f, base) && routeScale == scale * base
    ensures ExpAt(e, Fin(Logit(scale, d))) == ExpAt(f, Fin(Logit(routeScale, d)))
  {
    var x, y := Logit(scale, d), Logit(routeScale, d);
    assert y == x * base by {
      Reassociate(scale, d, base);
    }
    assert e(x) == f(y);
  }

  ghost predicate ItemRebased(e: real -> real, x: Item, f: real -> real, y: Item) {
    ExpAt(e, x.score) == ExpAt(f, y.score) && x.count == y.count && x.value == y.value
  }

  lemma {:induction false} ItemsRebased(e: real -> real, a: seq<Item>, f: real -> real, b: seq<Item>, dim: nat, c: nat)
    requires Shaped(a, dim) && Shaped(b, dim) && c < dim && |a| == |b|
    requires forall i :: 0 <= i < |a| ==> ItemRebased(e, a[i], f, b[i])
    ensures Matching(e, a, f, b, dim, c)
  {
    if a != [] {
      ItemsRebased(e, a[..|a| - 1], f, b[..|b| - 1], dim, c);
    }
  }

  // Block summaries do not depend on the scale.
  lemma SameSummaries(g: Segment, b: nat)
    requires g.Valid() && b < Blocks(|g.k|)
    ensures var h := KernelView(g);
            Centroid(h, b) == Centroid(g, b) && ValueSum(h, b) == ValueSum(g, b) && Length(h, b) == Length(g, b)
  {
  }

  lemma ExactRebased(e: real -> real, f: real -> real, base: real, g: Segment, row: nat, start: nat, i: nat)
    requires g.Valid() && row < |g.q| && start + i < |g.k|
    requires Rebased(e, f, base) && g.routeScale == g.scale * base
    ensures ItemRebased(e, ExactItem(g, row, start, i), f, ExactItem(KernelView(g), row, start, i))
  {
    hide Dot, Rebased;
    ScoreRebased(e, f, base, g.scale, g.routeScale, Dot(g.k[start + i], g.q[row]));
  }

  lemma CentroidRebased(e: real -> real, f: real -> real, base: real, g: Segment, row: nat, b: nat)
    requires g.Valid() && row < |g.q| && b < Blocks(|g.k|)
    requires Rebased(e, f, base) && g.routeScale == g.scale * base
    ensures ItemRebased(e, CentroidItem(g, row, b), f, CentroidItem(KernelView(g), row, b))
  {
    hide Dot, Rebased, Centroid, ValueSum, Length;
    SameSummaries(g, b);
    ScoreRebased(e, f, base, g.scale, g.routeScale, Dot(Centroid(g, b), g.q[row]));
  }

  lemma BlockRebased(e: real -> real, f: real -> real, base: real, g: Segment, qBlock: nat, row: nat, b: nat, c: nat)
    requires g.Valid() && row < |g.q| && qBlock < Blocks(|g.q|) && b < Blocks(|g.k|) && c < g.dim
    requires Rebased(e, f, base) && g.routeScale == g.scale * base
    ensures Matching(e, KernelBlock(g, qBlock, row, b), f, KernelBlock(KernelView(g), qBlock, row, b), g.dim, c)
  {
    hide Rebased, ItemRebased;
    var h := KernelView(g);
    var x, y := KernelBlock(g, qBlock, row, b), KernelBlock(h, qBlock, row, b);
    assert Exact(g, qBlock, b) == Exact(h, qBlock, b);
    SameSummaries(g, b);
    forall i | 0 <= i < |x|
      ensures ItemRebased(e, x[i], f, y[i])
    {
      if Exact(g, qBlock, b) {
        BlockBounds(|g.k|, b);
        assert x[i] == ExactItem(g, row, Lo(b), i) && y[i] == ExactItem(h, row, Lo(b), i);
        ExactRebased(e, f, base, g, row, Lo(b), i);
      } else {
        CentroidRebased(e, f, base, g, row, b);
      }
    }
    ItemsRebased(e, x, f, y, g.dim, c);
  }

  lemma ReferenceBlockMatches(e: real -> real, g: Segment, qBlock: nat, row: nat, b: nat, c: nat)
    requires g.Valid() && row < |g.q| && qBlock < Blocks(|g.q|) && b < Blocks(|g.k|) && c < g.dim
    ensures Matching(e, ReferenceBlock(g, qBlock, row, b), e, KernelBlock(g, qBlock, row, b), g.dim, c)
  {
    hide Weight, Moment, Blocks;
    CentroidStandsForCopies(e, g, row, b, c);
  }

  /** Every block of the reference weighs what the kernel's block weighs. */
  lemma {:induction false} ReferenceMatches(e: real -> real, f: real -> real, base: real, g: Segment,
                                            qBlock: nat, row: nat, n: nat, c: nat)
    requires g.Valid() && row < |g.q| && qBlock < Blocks(|g.q|) && n <= Blocks(|g.k|) && c < g.dim
    requires Rebased(e, f, base) && g.routeScale == g.scale * base
    ensures Matching(e, ReferenceItems(g, qBlock, row, n), f, BlockRun(KernelView(g), qBlock, row, 0, n), g.dim, c)
    decreases n
  {
    hide Blocks, KernelBlock, ReferenceBlock, Weight, Moment, Rebased;
    if n == 0 {
      EmptyMatches(e, f, g.dim, c);
    } else {
      ReferenceMatches(e, f, base, g, qBlock, row, n - 1, c);
      ReferenceBlockMatches(e, g, qBlock, row, n - 1, c);
      BlockRebased(e, f, base, g, qBlock, row, n - 1, c);
      MatchingConcat(e, ReferenceItems(g, qBlock, row, n - 1), ReferenceBlock(g, qBlock, row, n - 1),
                     f, BlockRun(KernelView(g), qBlock, row, 0, n - 1), KernelBlock(KernelView(g), qBlock, row, n - 1), g.dim, c);
    }
  }
}
