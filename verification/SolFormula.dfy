/**
 Block-routed attention written out on tokens: which keys are read as they are,
 which are replaced by their block's means, and the softmax average of the result.
 */
module SolFormula {
  import opened Sums
  import opened Softmax
  import opened AttentionKernel
  import opened AttentionFormula
  import opened SolMeaning
  import opened SolRunner

  // Component d of row t, zero outside.
  function Component(rows: seq<Vec>, t: int, d: int): real {
    if 0 <= t < |rows| && 0 <= d < |rows[t]| then rows[t][d] else 0.0
  }

  // Tokens 0..63 form a block, tokens 64..127 the next one, and so on.
  predicate Together(t: int, u: int) {
    t / 64 == u / 64
  }

  function IfTogether(t: int, u: int, x: real): real {
    if Together(t, u) then x else 0.0
  }

  // Tokens in the block of token t.
  function Companions(rows: seq<Vec>, t: int): real {
    Sum(0, |rows|, u => IfTogether(t, u, 1.0))
  }

  // The mean of component d over the block of token t.
  function BlockMean(rows: seq<Vec>, t: int, d: int): real {
    if Companions(rows, t) == 0.0 then 0.0
    else Sum(0, |rows|, u => IfTogether(t, u, Component(rows, u, d))) / Companions(rows, t)
  }

  // The score of the two blocks' means.
  function RouteScore(g: Segment, r: int, t: int): real {
    g.routeScale * Sum(0, g.dim, d => BlockMean(g.q, r, d) * BlockMean(g.k, t, d))
  }

  // Some token of the one block and some token of the other lie at most 64 apart.
  ghost predicate Adjacent(g: Segment, r: int, t: int) {
    exists s, u :: CloseBy(g, r, t, s, u)
  }

  predicate CloseBy(g: Segment, r: int, t: int, s: int, u: int) {
    0 <= s < |g.q| && 0 <= u < |g.k| && Together(r, s) && Together(t, u) && s - u <= 64 && u - s <= 64
  }

  // The block of token t starts inside the exact prefix.
  ghost predicate Prefixed(g: Segment, t: int) {
    exists u :: 0 <= u < g.prefixTokens && Together(t, u)
  }

  // Key t is read as it is for row r.
  ghost predicate ReadAsIs(g: Segment, r: int, t: int) {
    || (r >= 0 && RouteScore(g, r, t) > g.threshold(r / 64))
    || Adjacent(g, r, t) || Prefixed(g, t) || Prefixed(g, r)
  }

  ghost function KeyLogit(g: Segment, r: int, t: int): real {
    g.scale * Sum(0, g.dim, d => (if ReadAsIs(g, r, t) then Component(g.k, t, d) else BlockMean(g.k, t, d)) * Component(g.q, r, d))
  }

  ghost function KeyValue(g: Segment, r: int, t: int, c: int): real {
    if ReadAsIs(g, r, t) then Component(g.v, t, c) else BlockMean(g.v, t, c)
  }

  ghost function RoutedTotal(e: real -> real, g: Segment, r: int, stop: int): real {
    Sum(0, stop, t => e(KeyLogit(g, r, t)))
  }

  ghost function RoutedWeighted(e: real -> real, g: Segment, r: int, stop: int, c: int): real {
    Sum(0, stop, t => e(KeyLogit(g, r, t)) * KeyValue(g, r, t, c))
  }

  // Block-routed attention of row r, component c.
  ghost function RoutedFormula(e: real -> real, g: Segment, r: int, c: int): real {
    var total := RoutedTotal(e, g, r, |g.k|);
    if total == 0.0 then 0.0 else RoutedWeighted(e, g, r, |g.k|, c) / total
  }

  // ----- Block means

  lemma {:induction false} SumZero(lo: int, hi: int, f: int -> real)
    requires forall i :: lo <= i < hi ==> f(i) == 0.0
    ensures Sum(lo, hi, f) == 0.0
    decreases hi - lo
  {
    if lo < hi {
      SumZero(lo + 1, hi, f);
    }
  }

  lemma InBlock(tokens: nat, b: nat, u: int, t: int)
    requires b < Blocks(tokens) && 0 <= u < tokens && Lo(b) <= t < Hi(tokens, b)
    ensures Together(t, u) <==> Lo(b) <= u < Hi(tokens, b)
    ensures t / 64 == b
  {
  }

  // A sum restricted to one block runs over the block's own tokens.
  lemma BlockSum(rows: seq<Vec>, b: nat, t: int, f: int -> real, g: int -> real)
    requires b < Blocks(|rows|) && Lo(b) <= t < Hi(|rows|, b)
    requires forall u :: f(u) == IfTogether(t, u, g(u))
    ensures Lo(b) <= Hi(|rows|, b) <= |rows| && Sum(0, |rows|, f) == Sum(Lo(b), Hi(|rows|, b), g)
  {
    BlockBounds(|rows|, b);
    hide Blocks, Hi;
    var lo, hi := Lo(b), Hi(|rows|, b);
    forall u | 0 <= u < |rows|
      ensures f(u) == if lo <= u < hi then g(u) else 0.0
    {
      InBlock(|rows|, b, u, t);
    }
    SumSplit(0, lo, |rows|, f);
    SumSplit(lo, hi, |rows|, f);
    SumZero(0, lo, f);
    SumZero(hi, |rows|, f);
    SumSame(lo, hi, f, g);
  }

  lemma {:induction false} SumOnes(lo: int, hi: int, f: int -> real)
    requires lo <= hi && forall u :: lo <= u < hi ==> f(u) == 1.0
    ensures Sum(lo, hi, f) == (hi - lo) as real
    decreases hi - lo
  {
    if lo < hi {
      SumOnes(lo + 1, hi, f);
    }
  }

  lemma {:induction false} SumAtIsSum(rows: seq<Vec>, lo: nat, hi: nat, d: nat, f: int -> real)
    requires lo <= hi <= |rows| && forall t :: lo <= t < hi ==> d < |rows[t]|
    requires forall t :: lo <= t < hi ==> f(t) == rows[t][d]
    ensures SumAt(rows, lo, hi, d) == Sum(lo, hi, f)
    decreases hi
  {
    if lo < hi {
      SumLast(lo, hi, f);
      SumAtIsSum(rows, lo, hi - 1, d, f);
    }
  }

  /** The mean over a token's block is the mean of the block's rows. */
  lemma BlockMeanIs(rows: seq<Vec>, b: nat, t: int, d: nat)
    requires b < Blocks(|rows|) && Lo(b) <= t < Hi(|rows|, b)
    requires forall u :: 0 <= u < |rows| ==> d < |rows[u]|
    ensures Lo(b) < Hi(|rows|, b) <= |rows|
    ensures BlockMean(rows, t, d) == SumAt(rows, Lo(b), Hi(|rows|, b), d) / (Hi(|rows|, b) - Lo(b)) as real
  {
    BlockBounds(|rows|, b);
    var lo, hi := Lo(b), Hi(|rows|, b);
    hide Blocks, Hi, Lo, Sum;
    BlockSum(rows, b, t, u => IfTogether(t, u, 1.0), u => 1.0);
    SumOnes(lo, hi, u => 1.0);
    BlockSum(rows, b, t, u => IfTogether(t, u, Component(rows, u, d)), u => Component(rows, u, d));
    SumAtIsSum(rows, lo, hi, d, u => Component(rows, u, d));
  }

  // ----- Routing

  lemma BlockOf(tokens: nat, t: nat)
    requires t < tokens
    ensures t / 64 < Blocks(tokens) && Lo(t / 64) <= t < Hi(tokens, t / 64)
  {
  }

  lemma CentroidAt(g: Segment, t: nat, d: nat)
    requires g.Valid() && t < |g.k| && d < g.dim
    ensures t / 64 < Blocks(|g.k|) && Centroid(g, t / 64)[d] == BlockMean(g.k, t, d)
  {
    hide Blocks, Hi, Lo, BlockMean, SumAt;
    BlockOf(|g.k|, t);
    BlockBounds(|g.k|, t / 64);
    BlockMeanIs(g.k, t / 64, t, d);
  }

  lemma QueryMeanAt(g: Segment, r: nat, d: nat)
    requires g.Valid() && r < |g.q| && d < g.dim
    ensures r / 64 < Blocks(|g.q|) && Lo(r / 64) < Hi(|g.q|, r / 64) <= |g.q|
    ensures MeanRows(g.q, Lo(r / 64), Hi(|g.q|, r / 64), g.dim)[d] == BlockMean(g.q, r, d)
  {
    hide Blocks, Hi, Lo, BlockMean, SumAt;
    BlockOf(|g.q|, r);
    BlockBounds(|g.q|, r / 64);
    BlockMeanIs(g.q, r / 64, r, d);
  }

  lemma ScoreAt(g: Segment, r: nat, t: nat)
    requires g.Valid() && r < |g.q| && t < |g.k|
    ensures r / 64 < Blocks(|g.q|) && t / 64 < Blocks(|g.k|) && Lo(r / 64) < Hi(|g.q|, r / 64) <= |g.q|
    ensures g.routeScale * Dot(MeanRows(g.q, Lo(r / 64), Hi(|g.q|, r / 64), g.dim), Centroid(g, t / 64)) == RouteScore(g, r, t)
  {
    hide Blocks, Hi, Lo, BlockMean, Dot, MeanRows, Centroid, Sum;
    BlockOf(|g.q|, r);
    BlockOf(|g.k|, t);
    BlockBounds(|g.q|, r / 64);
    var q, k := MeanRows(g.q, Lo(r / 64), Hi(|g.q|, r / 64), g.dim), Centroid(g, t / 64);
    forall d | 0 <= d < g.dim
      ensures BlockMean(g.q, r, d) * BlockMean(g.k, t, d) == q[d] * k[d]
    {
      QueryMeanAt(g, r, d);
      CentroidAt(g, t, d);
    }
    DotIsSum(q, k, d => BlockMean(g.q, r, d) * BlockMean(g.k, t, d));
  }

  lemma AdjacentBlocks(g: Segment, r: nat, t: nat)
    requires g.Valid() && r < |g.q| && t < |g.k|
    ensures Adjacent(g, r, t) <==> t / 64 - 1 <= r / 64 <= t / 64 + 1
  {
    var a, b := r / 64, t / 64;
    if b - 1 <= a <= b + 1 {
      var s := if a == b - 1 then 64 * a + 63 else 64 * a;
      var u := if b == a - 1 then 64 * b + 63 else 64 * b;
      assert CloseBy(g, r, t, s, u);
    }
  }

  lemma PrefixBlocks(g: Segment, t: nat)
    ensures Prefixed(g, t) <==> t / 64 < Blocks(g.prefixTokens)
  {
    if t / 64 < Blocks(g.prefixTokens) {
      assert Together(t, 64 * (t / 64));
    }
  }

  /** A block is exact for a query block exactly when its keys are read as they are for the rows of that block. */
  lemma ExactIsReadAsIs(g: Segment, r: nat, t: nat)
    requires g.Valid() && r < |g.q| && t < |g.k|
    ensures r / 64 < Blocks(|g.q|) && t / 64 < Blocks(|g.k|)
    ensures Exact(g, r / 64, t / 64) <==> ReadAsIs(g, r, t)
  {
    hide Blocks, Hi, Lo, Dot, MeanRows, Centroid, RouteScore, Adjacent, Prefixed;
    ScoreAt(g, r, t);
    AdjacentBlocks(g, r, t);
    PrefixBlocks(g, t);
    PrefixBlocks(g, r);
  }

  /**
   Keys within one block length of the row are read as they are, and so are keys of
   the prefix, and all keys for rows of the prefix.
   */
  lemma NearAndPrefixAsIs(g: Segment, r: nat, t: nat)
    requires r < |g.q| && t < |g.k|
    ensures r - t <= 64 && t - r <= 64 ==> ReadAsIs(g, r, t)
    ensures t < g.prefixTokens || r < g.prefixTokens ==> ReadAsIs(g, r, t)
  {
    if r - t <= 64 && t - r <= 64 {
      assert CloseBy(g, r, t, r, t);
    }
    assert Together(t, t) && Together(r, r);
  }

  // ----- The reference's items are the formula's terms

  lemma {:induction false} ItemsAreTerms(e: real -> real, items: seq<Item>, lo: int, dim: nat, c: nat, f: int -> real, g: int -> real)
    requires Shaped(items, dim) && c < dim
    requires forall i :: 0 <= i < |items| ==> ExpAt(e, items[i].score) * items[i].count == f(lo + i)
    requires forall i :: 0 <= i < |items| ==> ExpAt(e, items[i].score) * items[i].value[c] == g(lo + i)
    ensures Weight(e, items) == Sum(lo, lo + |items|, f) && Moment(e, items, c) == Sum(lo, lo + |items|, g)
    decreases |items|
  {
    hide ExpAt;
    if items != [] {
      SumLast(lo, lo + |items|, f);
      SumLast(lo, lo + |items|, g);
      ItemsAreTerms(e, items[..|items| - 1], lo, dim, c, f, g);
    }
  }

  // The score and value of one item of the reference.
  lemma ReferenceItemAt(e: real -> real, g: Segment, r: nat, b: nat, i: nat, c: nat)
    requires g.Valid() && r < |g.q| && b < Blocks(|g.k|) && i < Length(g, b) && c < g.dim
    ensures r / 64 < Blocks(|g.q|) && |ReferenceBlock(g, r / 64, r, b)| == Length(g, b)
    ensures var item := ReferenceBlock(g, r / 64, r, b)[i];
            item.count == 1.0 && item.score == Fin(KeyLogit(g, r, Lo(b) + i)) && item.value[c] == KeyValue(g, r, Lo(b) + i, c)
  {
    hide Blocks, Hi, Dot, Exact, ReadAsIs, KeyLogit, Centroid, ValueSum;
    BlockBounds(|g.k|, b);
    BlockOf(|g.q|, r);
    var t := Lo(b) + i;
    InBlock(|g.k|, b, t, t);
    ExactIsReadAsIs(g, r, t);
    KeyLogitIs(g, r, t);
    if !ReadAsIs(g, r, t) {
      ValueMeanAt(g, b, t, c);
    }
  }

  lemma ValueMeanAt(g: Segment, b: nat, t: nat, c: nat)
    requires g.Valid() && b < Blocks(|g.k|) && Lo(b) <= t < Hi(|g.k|, b) && c < g.dim
    ensures ValueSum(g, b)[c] / Length(g, b) as real == BlockMean(g.v, t, c)
  {
    hide Blocks, Hi, Lo, BlockMean, SumAt;
    BlockBounds(|g.k|, b);
    BlockMeanIs(g.v, b, t, c);
  }

  lemma KeyLogitIs(g: Segment, r: nat, t: nat)
    requires g.Valid() && r < |g.q| && t < |g.k|
    ensures t / 64 < Blocks(|g.k|)
    ensures KeyLogit(g, r, t) == SolMeaning.Logit(g.scale, Dot(if ReadAsIs(g, r, t) then g.k[t] else Centroid(g, t / 64), g.q[r]))
  {
    hide Blocks, Dot, ReadAsIs, Centroid, BlockMean, Sum;
    BlockOf(|g.k|, t);
    var asIs := ReadAsIs(g, r, t);
    var k := if asIs then g.k[t] else Centroid(g, t / 64);
    forall d | 0 <= d < g.dim
      ensures (if ReadAsIs(g, r, t) then Component(g.k, t, d) else BlockMean(g.k, t, d)) * Component(g.q, r, d) == k[d] * g.q[r][d]
    {
      CentroidAt(g, t, d);
    }
    DotIsSum(k, g.q[r], d => (if ReadAsIs(g, r, t) then Component(g.k, t, d) else BlockMean(g.k, t, d)) * Component(g.q, r, d));
  }

  lemma BlockTerms(e: real -> real, g: Segment, r: nat, b: nat, c: nat)
    requires g.Valid() && r < |g.q| && b < Blocks(|g.k|) && c < g.dim
    ensures r / 64 < Blocks(|g.q|)
    ensures var items := ReferenceBlock(g, r / 64, r, b);
            && Weight(e, items) == Sum(Lo(b), Hi(|g.k|, b), t => e(KeyLogit(g, r, t)))
            && Moment(e, items, c) == Sum(Lo(b), Hi(|g.k|, b), t => e(KeyLogit(g, r, t)) * KeyValue(g, r, t, c))
  {
    hide Blocks, Hi, KeyLogit, KeyValue, ReferenceBlock, Weight, Moment, Sum;
    BlockOf(|g.q|, r);
    BlockBounds(|g.k|, b);
    ReferenceItemAt(e, g, r, b, 0, c);
    var items := ReferenceBlock(g, r / 64, r, b);
    var f := t => e(KeyLogit(g, r, t));
    var m := t => e(KeyLogit(g, r, t)) * KeyValue(g, r, t, c);
    forall i | 0 <= i < |items|
      ensures ExpAt(e, items[i].score) * items[i].count == f(Lo(b) + i) && ExpAt(e, items[i].score) * items[i].value[c] == m(Lo(b) + i)
    {
      ReferenceItemAt(e, g, r, b, i, c);
    }
    ItemsAreTerms(e, items, Lo(b), g.dim, c, f, m);
  }

  lemma {:induction false} ReferenceTerms(e: real -> real, g: Segment, r: nat, n: nat, c: nat)
    requires g.Valid() && r < |g.q| && n <= Blocks(|g.k|) && c < g.dim
    ensures r / 64 < Blocks(|g.q|)
    ensures var items := ReferenceItems(g, r / 64, r, n);
            Weight(e, items) == RoutedTotal(e, g, r, Covered(g, n)) && Moment(e, items, c) == RoutedWeighted(e, g, r, Covered(g, n), c)
  {
    hide Blocks, Hi, KeyLogit, KeyValue, ReferenceBlock, Weight, Moment;
    BlockOf(|g.q|, r);
    if n == 0 {
      NoItems(e, c);
    } else {
      ReferenceTerms(e, g, r, n - 1, c);
      BlockTerms(e, g, r, n - 1, c);
      CoveredNext(g, n);
      var before, block := ReferenceItems(g, r / 64, r, n - 1), ReferenceBlock(g, r / 64, r, n - 1);
      Concat(e, before, block);
      ConcatMoment(e, before, block, c);
      SumSplit(0, Covered(g, n - 1), Covered(g, n), t => e(KeyLogit(g, r, t)));
      SumSplit(0, Covered(g, n - 1), Covered(g, n), t => e(KeyLogit(g, r, t)) * KeyValue(g, r, t, c));
    }
  }

  lemma NoItems(e: real -> real, c: nat)
    ensures Weight(e, []) == 0.0 && Moment(e, [], c) == 0.0
  {
  }

  lemma CoveredNext(g: Segment, n: nat)
    requires g.Valid() && 0 < n <= Blocks(|g.k|)
    ensures Covered(g, n - 1) == Lo(n - 1) < Hi(|g.k|, n - 1) == Covered(g, n) <= |g.k|
    ensures n == Blocks(|g.k|) ==> Covered(g, n) == |g.k|
  {
    BlockBounds(|g.k|, n - 1);
    if n > 1 {
      BlockBounds(|g.k|, n - 2);
    }
  }

  /** The reference's row is the routed formula of the tokens. */
  lemma ReferenceIsFormula(e: real -> real, g: Segment, r: nat, c: nat)
    requires g.Valid() && r < |g.q| && c < g.dim
    ensures r / BLOCK_TOKENS < Blocks(|g.q|) && ReferenceAttention(e, g, r, c) == RoutedFormula(e, g, r, c)
  {
    BlockOf(|g.q|, r);
    BlockOf(|g.k|, 0);
    hide Blocks, RoutedTotal, RoutedWeighted, Weight, Moment, ReferenceItems;
    var n := Blocks(|g.k|);
    ReferenceTerms(e, g, r, n, c);
    CoveredNext(g, n);
    var items := ReferenceItems(g, r / 64, r, n);
    if Weight(e, items) != 0.0 {
      AverageIsQuotient(e, items, Weight(e, items), c);
    }
  }
}
