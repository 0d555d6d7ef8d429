/**
 The Sol block approximation: what each key block contributes to a query row when
 it is read exactly and when it is replaced by its centroid, and the reference sum.
 */
module SolMeaning {
  import opened Softmax
  import opened AttentionKernel

  const BLOCK_TOKENS: nat := 64
  const ROUTE_GROUP: nat := 16

  // One head of one packed segment.  Thresholds are per query block.
  datatype Segment = Segment(q: seq<Vec>, k: seq<Vec>, v: seq<Vec>, dim: nat,
                             scale: real, routeScale: real, prefixTokens: nat, threshold: nat -> real)
  {
    ghost predicate Valid() {
      && |q| == |k| == |v| > 0
      && prefixTokens <= |k|
      && forall t :: 0 <= t < |k| ==> |q[t]| == dim && |k[t]| == dim && |v[t]| == dim
    }
  }

  function Blocks(tokens: nat): nat {
    (tokens + BLOCK_TOKENS - 1) / BLOCK_TOKENS
  }

  function Lo(b: nat): nat {
    b * BLOCK_TOKENS
  }

  function Hi(tokens: nat, b: nat): nat {
    if (b + 1) * BLOCK_TOKENS < tokens then (b + 1) * BLOCK_TOKENS else tokens
  }

  lemma BlockBounds(tokens: nat, b: nat)
    requires b < Blocks(tokens)
    ensures Lo(b) < Hi(tokens, b) <= tokens
    ensures b + 1 < Blocks(tokens) ==> Hi(tokens, b) == Lo(b + 1)
    ensures b + 1 == Blocks(tokens) ==> Hi(tokens, b) == tokens
  {
  }

  // Component c of the sum of rows lo..hi.
  function SumAt(rows: seq<Vec>, lo: nat, hi: nat, c: nat): real
    requires lo <= hi <= |rows| && forall t :: lo <= t < hi ==> c < |rows[t]|
    decreases hi
  {
    if lo == hi then 0.0 else SumAt(rows, lo, hi - 1, c) + rows[hi - 1][c]
  }

  function SumRows(rows: seq<Vec>, lo: nat, hi: nat, dim: nat): (s: Vec)
    requires lo <= hi <= |rows| && forall t :: lo <= t < hi ==> |rows[t]| == dim
    ensures |s| == dim
  {
    seq(dim, c requires 0 <= c < dim => SumAt(rows, lo, hi, c))
  }

  function MeanRows(rows: seq<Vec>, lo: nat, hi: nat, dim: nat): (s: Vec)
    requires lo < hi <= |rows| && forall t :: lo <= t < hi ==> |rows[t]| == dim
    ensures |s| == dim
  {
    seq(dim, c requires 0 <= c < dim => SumAt(rows, lo, hi, c) / (hi - lo) as real)
  }

  function Centroid(g: Segment, b: nat): (s: Vec)
    requires g.Valid() && b < Blocks(|g.k|)
    ensures |s| == g.dim
  {
    BlockBounds(|g.k|, b);
    MeanRows(g.k, Lo(b), Hi(|g.k|, b), g.dim)
  }

  function ValueSum(g: Segment, b: nat): (s: Vec)
    requires g.Valid() && b < Blocks(|g.k|)
    ensures |s| == g.dim
  {
    BlockBounds(|g.k|, b);
    SumRows(g.v, Lo(b), Hi(|g.k|, b), g.dim)
  }

  function Length(g: Segment, b: nat): (n: nat)
    requires g.Valid() && b < Blocks(|g.k|)
    ensures n > 0
  {
    BlockBounds(|g.k|, b);
    Hi(|g.k|, b) - Lo(b)
  }

  // ----- Which blocks are read exactly

  predicate Near(a: nat, b: nat) {
    a <= b + 1 && b <= a + 1
  }

  // The routing decision of the reference: score of the two centroids, the
  // neighbouring blocks, and the exact prefix of keys and of queries.
  predicate Exact(g: Segment, qBlock: nat, b: nat)
    requires g.Valid() && qBlock < Blocks(|g.q|) && b < Blocks(|g.k|)
  {
    BlockBounds(|g.q|, qBlock);
    var prefix := Blocks(g.prefixTokens);
    || g.routeScale * Dot(MeanRows(g.q, Lo(qBlock), Hi(|g.q|, qBlock), g.dim), Centroid(g, b)) > g.threshold(qBlock)
    || Near(qBlock, b) || b < prefix || qBlock < prefix
  }

  // ----- What a block contributes

  function Logit(scale: real, dot: real): real {
    scale * dot
  }

  function ExactItem(g: Segment, row: nat, start: nat, i: nat): (item: Item)
    requires g.Valid() && row < |g.q| && start + i < |g.k|
    ensures |item.value| == g.dim
  {
    Item(Fin(Logit(g.scale, Dot(g.k[start + i], g.q[row]))), 1.0, g.v[start + i])
  }

  function ExactItems(g: Segment, row: nat, b: nat): (items: seq<Item>)
    requires g.Valid() && row < |g.q| && b < Blocks(|g.k|)
    ensures |items| == Length(g, b) && Shaped(items, g.dim)
  {
    BlockBounds(|g.k|, b);
    seq(Length(g, b), i requires 0 <= i < Length(g, b) => ExactItem(g, row, Lo(b), i))
  }

  // A whole block as one item: its keys share the centroid's score.
  function CentroidItem(g: Segment, row: nat, b: nat): (item: Item)
    requires g.Valid() && row < |g.q| && b < Blocks(|g.k|)
    ensures |item.value| == g.dim
  {
    Item(Fin(Logit(g.scale, Dot(Centroid(g, b), g.q[row]))), Length(g, b) as real, ValueSum(g, b))
  }

  function Copies(item: Item, n: nat): (items: seq<Item>)
    ensures |items| == n && forall i :: 0 <= i < n ==> items[i] == item
  {
    seq(n, _ => item)
  }

  // The reference spells the same block out as copies of score and mean value.
  function AverageItem(g: Segment, row: nat, b: nat): (item: Item)
    requires g.Valid() && row < |g.q| && b < Blocks(|g.k|)
    ensures |item.value| == g.dim
  {
    var n := Length(g, b) as real;
    Item(Fin(Logit(g.scale, Dot(Centroid(g, b), g.q[row]))), 1.0,
         seq(g.dim, c requires 0 <= c < g.dim => ValueSum(g, b)[c] / n))
  }

  function AverageItems(g: Segment, row: nat, b: nat): (items: seq<Item>)
    requires g.Valid() && row < |g.q| && b < Blocks(|g.k|)
    ensures |items| == Length(g, b) && Shaped(items, g.dim)
  {
    Copies(AverageItem(g, row, b), Length(g, b))
  }

  function ReferenceBlock(g: Segment, qBlock: nat, row: nat, b: nat): (items: seq<Item>)
    requires g.Valid() && row < |g.q| && qBlock < Blocks(|g.q|) && b < Blocks(|g.k|)
    ensures Shaped(items, g.dim)
  {
    if Exact(g, qBlock, b) then ExactItems(g, row, b) else AverageItems(g, row, b)
  }

  // The reference's logits and values for the first n blocks.
  function ReferenceItems(g: Segment, qBlock: nat, row: nat, n: nat): (items: seq<Item>)
    requires g.Valid() && row < |g.q| && qBlock < Blocks(|g.q|) && n <= Blocks(|g.k|)
    ensures Shaped(items, g.dim)
  {
    if n == 0 then [] else ReferenceItems(g, qBlock, row, n - 1) + ReferenceBlock(g, qBlock, row, n - 1)
  }

  lemma {:induction false} CopiesWeigh(e: real -> real, item: Item, n: nat)
    requires item.count == 1.0
    ensures Weight(e, Copies(item, n)) == n as real * ExpAt(e, item.score)
  {
    if n > 0 {
      assert Copies(item, n)[..n - 1] == Copies(item, n - 1);
      CopiesWeigh(e, item, n - 1);
      assert n as real == (n - 1) as real + 1.0;
    }
  }

  lemma {:induction false} CopiesMove(e: real -> real, item: Item, n: nat, c: nat)
    requires c < |item.value|
    ensures Moment(e, Copies(item, n), c) == n as real * (ExpAt(e, item.score) * item.value[c])
  {
    if n > 0 {
      assert Copies(item, n)[..n - 1] == Copies(item, n - 1);
      CopiesMove(e, item, n - 1, c);
      assert n as real == (n - 1) as real + 1.0;
    }
  }

  /** A block folded in as `p * length` and `p * value_sum` equals its spelled-out copies. */
  lemma CentroidStandsForCopies(e: real -> real, g: Segment, row: nat, b: nat, c: nat)
    requires g.Valid() && row < |g.q| && b < Blocks(|g.k|) && c < g.dim
    ensures Weight(e, AverageItems(g, row, b)) == Weight(e, [CentroidItem(g, row, b)])
    ensures Moment(e, AverageItems(g, row, b), c) == Moment(e, [CentroidItem(g, row, b)], c)
  {
    var n, item, one := Length(g, b), AverageItem(g, row, b), [CentroidItem(g, row, b)];
    CopiesWeigh(e, item, n);
    CopiesMove(e, item, n, c);
    assert one[..0] == [];
    Regroup(n as real, ExpAt(e, item.score), ValueSum(g, b)[c]);
  }

  lemma Regroup(n: real, p: real, v: real)
    requires n > 0.0
    ensures n * (p * (v / n)) == p * v
  {
    var r := v / n;
    assert n * (p * r) == p * (r * n);
  }
}
