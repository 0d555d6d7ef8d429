/**
 Online softmax over exact reals.  A running (max, sum, accumulator) state stands
 for the keys folded in so far; the one-shot softmax average is its meaning.
 The exponential is any positive function that turns sums into products.
 */
module Softmax {

  type Vec = seq<real>

  // A logit, or minus infinity for a masked key.
  datatype Score = NegInf | Fin(x: real)

  // One folded-in term: a score, how many keys share it, and the sum of their values.
  datatype Item = Item(score: Score, count: real, value: Vec)

  datatype State = State(max: Score, sum: real, acc: Vec)

  // ----- The exponential

  ghost predicate Exponential(e: real -> real) {
    (forall x, y :: Splits(e, x, y)) && (forall x :: Positive(e, x))
  }

  ghost predicate Splits(e: real -> real, x: real, y: real) {
    e(x + y) == e(x) * e(y)
  }

  ghost predicate Positive(e: real -> real, x: real) {
    e(x) > 0.0
  }

  lemma ExpShift(e: real -> real, x: real, m: real)
    requires Exponential(e)
    ensures e(x - m) * e(m) == e(x) && e(m) > 0.0
  {
    assert Splits(e, x - m, m) && Positive(e, m);
    assert (x - m) + m == x;
  }

  // ----- One-shot meaning

  function ExpAt(e: real -> real, s: Score): real {
    if s.NegInf? then 0.0 else e(s.x)
  }

  function Weight(e: real -> real, items: seq<Item>): real {
    if items == [] then 0.0
    else Weight(e, items[..|items| - 1]) + ExpAt(e, items[|items| - 1].score) * items[|items| - 1].count
  }

  ghost predicate Shaped(items: seq<Item>, dim: nat) {
    forall i :: 0 <= i < |items| ==> |items[i].value| == dim
  }

  function Moment(e: real -> real, items: seq<Item>, c: nat): real
    requires forall i :: 0 <= i < |items| ==> c < |items[i].value|
  {
    if items == [] then 0.0
    else Moment(e, items[..|items| - 1], c) + ExpAt(e, items[|items| - 1].score) * items[|items| - 1].value[c]
  }

  function Max(a: Score, b: Score): Score {
    if a.NegInf? then b else if b.NegInf? then a else if a.x < b.x then b else a
  }

  function MaxScore(items: seq<Item>): Score {
    if items == [] then NegInf else Max(MaxScore(items[..|items| - 1]), items[|items| - 1].score)
  }

  // Sum of probability times value, where a probability is a share of the total weight.
  function SoftmaxAverage(e: real -> real, items: seq<Item>, total: real, c: nat): real
    requires total != 0.0 && forall i :: 0 <= i < |items| ==> c < |items[i].value|
  {
    if items == [] then 0.0
    else SoftmaxAverage(e, items[..|items| - 1], total, c)
         + ExpAt(e, items[|items| - 1].score) / total * items[|items| - 1].value[c]
  }

  // Attention of one query row, component c; zero when no key is visible.
  function Attention(e: real -> real, items: seq<Item>, c: nat): real
    requires forall i :: 0 <= i < |items| ==> c < |items[i].value|
  {
    var total := Weight(e, items);
    if total == 0.0 then 0.0 else SoftmaxAverage(e, items, total, c)
  }

  lemma {:induction false} AverageIsQuotient(e: real -> real, items: seq<Item>, total: real, c: nat)
    requires total != 0.0 && forall i :: 0 <= i < |items| ==> c < |items[i].value|
    ensures SoftmaxAverage(e, items, total, c) == Moment(e, items, c) / total
  {
    if items != [] {
      AverageIsQuotient(e, items[..|items| - 1], total, c);
      var p, v := ExpAt(e, items[|items| - 1].score), items[|items| - 1].value[c];
      assert p / total * v == (p * v) / total;
    }
  }

  // ----- The fold

  // exp(a - m), zero for a masked key.
  function ExpDiff(e: real -> real, a: Score, m: real): real {
    if a.NegInf? then 0.0 else e(a.x - m)
  }

  function BlockWeight(e: real -> real, block: seq<Item>, m: real): real {
    if block == [] then 0.0
    else BlockWeight(e, block[..|block| - 1], m)
         + ExpDiff(e, block[|block| - 1].score, m) * block[|block| - 1].count
  }

  function BlockMoment(e: real -> real, block: seq<Item>, m: real, c: nat): real
    requires forall i :: 0 <= i < |block| ==> c < |block[i].value|
  {
    if block == [] then 0.0
    else BlockMoment(e, block[..|block| - 1], m, c)
         + ExpDiff(e, block[|block| - 1].score, m) * block[|block| - 1].value[c]
  }

  function Zeros(dim: nat): (z: Vec)
    ensures |z| == dim && forall c :: 0 <= c < dim ==> z[c] == 0.0
  {
    seq(dim, _ => 0.0)
  }

  function InitialState(dim: nat): State {
    State(NegInf, 0.0, Zeros(dim))
  }

  function FoldBlock(e: real -> real, s: State, block: seq<Item>): (t: State)
    requires Shaped(block, |s.acc|)
    ensures |t.acc| == |s.acc|
  {
    var merged := Max(s.max, MaxScore(block));
    if merged.NegInf? then s
    else
      var alpha := ExpDiff(e, s.max, merged.x);
      State(merged, s.sum * alpha + BlockWeight(e, block, merged.x),
            seq(|s.acc|, c requires 0 <= c < |s.acc| => s.acc[c] * alpha + BlockMoment(e, block, merged.x, c)))
  }

  // Component c of the finalized row.
  function FinalizeAt(s: State, c: nat): real
    requires c < |s.acc|
  {
    if s.sum > 0.0 then s.acc[c] / s.sum else 0.0
  }

  function FinalizeRow(s: State): (row: Vec)
    ensures |row| == |s.acc| && forall c :: 0 <= c < |row| ==> row[c] == FinalizeAt(s, c)
  {
    seq(|s.acc|, c requires 0 <= c < |s.acc| => FinalizeAt(s, c))
  }

  // `s` stands for `items`: rescaled by the running maximum it holds their exact sums.
  ghost predicate Represents(e: real -> real, s: State, items: seq<Item>) {
    && Shaped(items, |s.acc|)
    && s.max == MaxScore(items)
    && Scaled(e, s.max, s.sum) == Weight(e, items)
    && forall c :: 0 <= c < |s.acc| ==> Scaled(e, s.max, s.acc[c]) == Moment(e, items, c)
  }

  ghost function Scaled(e: real -> real, max: Score, x: real): real {
    if max.NegInf? then x else x * e(max.x)
  }

  // ----- Sums over concatenations

  lemma {:induction false} Concat(e: real -> real, a: seq<Item>, b: seq<Item>)
    ensures Weight(e, a + b) == Weight(e, a) + Weight(e, b)
    ensures MaxScore(a + b) == Max(MaxScore(a), MaxScore(b))
    decreases |b|
  {
    if b == [] {
      assert a + b == a;
    } else {
      assert (a + b)[..|a + b| - 1] == a + b[..|b| - 1];
      Concat(e, a, b[..|b| - 1]);
    }
  }

  lemma {:induction false} ConcatMoment(e: real -> real, a: seq<Item>, b: seq<Item>, c: nat)
    requires forall i :: 0 <= i < |a| ==> c < |a[i].value|
    requires forall i :: 0 <= i < |b| ==> c < |b[i].value|
    ensures Moment(e, a + b, c) == Moment(e, a, c) + Moment(e, b, c)
    decreases |b|
  {
    if b == [] {
      assert a + b == a;
    } else {
      assert (a + b)[..|a + b| - 1] == a + b[..|b| - 1];
      ConcatMoment(e, a, b[..|b| - 1], c);
    }
  }

  lemma {:induction false} BlockWeightScales(e: real -> real, block: seq<Item>, m: real)
    requires Exponential(e)
    ensures BlockWeight(e, block, m) * e(m) == Weight(e, block)
  {
    if block != [] {
      var last := block[|block| - 1];
      BlockWeightScales(e, block[..|block| - 1], m);
      if last.score.Fin? {
        ExpShift(e, last.score.x, m);
      }
      assert ExpDiff(e, last.score, m) * last.count * e(m) == ExpAt(e, last.score) * last.count;
    }
  }

  lemma {:induction false} BlockMomentScales(e: real -> real, block: seq<Item>, m: real, c: nat)
    requires Exponential(e) && forall i :: 0 <= i < |block| ==> c < |block[i].value|
    ensures BlockMoment(e, block, m, c) * e(m) == Moment(e, block, c)
  {
    if block != [] {
      var last := block[|block| - 1];
      BlockMomentScales(e, block[..|block| - 1], m, c);
      if last.score.Fin? {
        ExpShift(e, last.score.x, m);
      }
      assert ExpDiff(e, last.score, m) * last.value[c] * e(m) == ExpAt(e, last.score) * last.value[c];
    }
  }

  // With only masked keys there is no weight.
  lemma {:induction false} MaskedHasNoWeight(e: real -> real, items: seq<Item>)
    requires MaxScore(items).NegInf?
    ensures Weight(e, items) == 0.0
  {
    if items != [] {
      MaskedHasNoWeight(e, items[..|items| - 1]);
    }
  }

  lemma {:induction false} MaskedHasNoMoment(e: real -> real, items: seq<Item>, c: nat)
    requires MaxScore(items).NegInf? && forall i :: 0 <= i < |items| ==> c < |items[i].value|
    ensures Moment(e, items, c) == 0.0
  {
    if items != [] {
      MaskedHasNoMoment(e, items[..|items| - 1], c);
    }
  }

  lemma Rescale(e: real -> real, max: Score, m: real, x: real)
    requires Exponential(e)
    requires max.NegInf? ==> x == 0.0
    ensures x * ExpDiff(e, max, m) * e(m) == Scaled(e, max, x)
  {
    if max.Fin? {
      ExpShift(e, max.x, m);
      assert x * e(max.x - m) * e(m) == x * (e(max.x - m) * e(m));
    }
  }

  // One rescaled sum: the old part and the block's part, both over exp(m).
  lemma FoldScales(e: real -> real, max: Score, m: real, x: real, block: real)
    requires Exponential(e) && (max.NegInf? ==> x == 0.0)
    ensures Scaled(e, Fin(m), x * ExpDiff(e, max, m) + block) == Scaled(e, max, x) + block * e(m)
  {
    Rescale(e, max, m, x);
    Distribute(x * ExpDiff(e, max, m), block, e(m));
  }

  lemma MaskedStateIsZero(e: real -> real, s: State, seen: seq<Item>)
    requires Represents(e, s, seen) && s.max.NegInf?
    ensures s.sum == 0.0 && forall c :: 0 <= c < |s.acc| ==> s.acc[c] == 0.0
  {
    MaskedHasNoWeight(e, seen);
    forall c | 0 <= c < |s.acc|
      ensures s.acc[c] == 0.0
    {
      MaskedHasNoMoment(e, seen, c);
    }
  }

  lemma FoldWeight(e: real -> real, s: State, seen: seq<Item>, block: seq<Item>)
    requires Exponential(e) && Represents(e, s, seen) && Shaped(block, |s.acc|)
    ensures var t := FoldBlock(e, s, block);
            t.max == MaxScore(seen + block) && Scaled(e, t.max, t.sum) == Weight(e, seen + block)
  {
    hide Weight, BlockWeight, ExpDiff, MaxScore, Exponential;
    Concat(e, seen, block);
    var merged := Max(s.max, MaxScore(block));
    if merged.NegInf? {
      MaskedHasNoWeight(e, block);
    } else {
      if s.max.NegInf? {
        MaskedStateIsZero(e, s, seen);
      }
      BlockWeightScales(e, block, merged.x);
      FoldScales(e, s.max, merged.x, s.sum, BlockWeight(e, block, merged.x));
    }
  }

  lemma FoldMoment(e: real -> real, s: State, seen: seq<Item>, block: seq<Item>, c: nat)
    requires Exponential(e) && Represents(e, s, seen) && Shaped(block, |s.acc|) && c < |s.acc|
    ensures var t := FoldBlock(e, s, block); Scaled(e, t.max, t.acc[c]) == Moment(e, seen + block, c)
  {
    hide Moment, BlockMoment, ExpDiff, MaxScore, Exponential;
    ConcatMoment(e, seen, block, c);
    var merged := Max(s.max, MaxScore(block));
    if merged.NegInf? {
      MaskedHasNoMoment(e, block, c);
    } else {
      if s.max.NegInf? {
        MaskedStateIsZero(e, s, seen);
      }
      BlockMomentScales(e, block, merged.x, c);
      FoldScales(e, s.max, merged.x, s.acc[c], BlockMoment(e, block, merged.x, c));
    }
  }

  /** Folding one block keeps the state exact for all keys seen. */
  lemma FoldBlockRepresents(e: real -> real, s: State, seen: seq<Item>, block: seq<Item>)
    requires Exponential(e) && Represents(e, s, seen) && Shaped(block, |s.acc|)
    ensures Represents(e, FoldBlock(e, s, block), seen + block)
  {
    FoldWeight(e, s, seen, block);
    forall c | 0 <= c < |s.acc|
      ensures var t := FoldBlock(e, s, block); Scaled(e, t.max, t.acc[c]) == Moment(e, seen + block, c)
    {
      FoldMoment(e, s, seen, block, c);
    }
  }

  lemma Distribute(a: real, b: real, f: real)
    ensures (a + b) * f == a * f + b * f
  {
  }

  lemma FinalizeFromWeight(e: real -> real, s: State, items: seq<Item>, c: nat)
    requires Exponential(e) && Represents(e, s, items) && c < |s.acc| && Weight(e, items) >= 0.0
    ensures FinalizeAt(s, c) == Attention(e, items, c)
  {
    var total := Weight(e, items);
    if s.max.NegInf? {
      MaskedHasNoWeight(e, items);
    } else {
      var f := e(s.max.x);
      assert Positive(e, s.max.x);
      assert s.sum * f == total && s.acc[c] * f == Moment(e, items, c);
      if total == 0.0 {
        ProductZero(s.sum, f);
      } else {
        ProductPositive(s.sum, f);
        AverageIsQuotient(e, items, total, c);
        CancelFactor(s.acc[c], s.sum, f);
      }
    }
  }

  /** Finalizing an exact state gives one-shot attention, zero when nothing is visible. */
  lemma FinalizeIsAttention(e: real -> real, s: State, items: seq<Item>, c: nat)
    requires Exponential(e) && Represents(e, s, items) && c < |s.acc|
    requires forall i :: 0 <= i < |items| ==> items[i].count >= 0.0
    ensures FinalizeAt(s, c) == Attention(e, items, c)
  {
    WeightNonNegative(e, items);
    FinalizeFromWeight(e, s, items, c);
  }

  lemma ProductZero(x: real, f: real)
    requires x * f == 0.0 && f > 0.0
    ensures x == 0.0
  {
  }

  lemma ProductPositive(x: real, f: real)
    requires x * f > 0.0 && f > 0.0
    ensures x > 0.0
  {
  }

  lemma CancelFactor(a: real, b: real, f: real)
    requires b > 0.0 && f > 0.0
    ensures b * f != 0.0 && (a * f) / (b * f) == a / b
  {
    PositiveProduct(b, f);
    var r := a / b;
    assert r * b == a;
    assert r * (b * f) == a * f by {
      assert r * (b * f) == (r * b) * f;
    }
  }

  lemma PositiveProduct(x: real, f: real)
    requires x > 0.0 && f > 0.0
    ensures x * f > 0.0
  {
  }

  lemma {:induction false} WeightNonNegative(e: real -> real, items: seq<Item>)
    requires Exponential(e) && forall i :: 0 <= i < |items| ==> items[i].count >= 0.0
    ensures Weight(e, items) >= 0.0
  {
    if items != [] {
      WeightNonNegative(e, items[..|items| - 1]);
      var last := items[|items| - 1];
      if last.score.Fin? {
        assert Positive(e, last.score.x);
        ProductNonNegative(e(last.score.x), last.count);
      }
    }
  }

  lemma ProductNonNegative(a: real, b: real)
    requires a >= 0.0 && b >= 0.0
    ensures a * b >= 0.0
  {
  }

  lemma InitialRepresents(e: real -> real, dim: nat)
    ensures Represents(e, InitialState(dim), [])
  {
  }
}
