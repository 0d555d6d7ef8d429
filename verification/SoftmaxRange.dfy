/** The running maximum keeps every exponential at most one, so sums stay between one and the number of keys. */
module SoftmaxRange {
  import opened Softmax
  import opened SplitSoftmax

  ghost predicate Increasing(e: real -> real) {
    forall x, y :: x <= y ==> Ascends(e, x, y)
  }

  ghost predicate Ascends(e: real -> real, x: real, y: real) {
    e(x) <= e(y)
  }

  // `m` is the score of some item and no item's score is greater; it is minus infinity when all are masked.
  ghost predicate Greatest(m: Score, items: seq<Item>) {
    && (forall i :: 0 <= i < |items| && items[i].score.Fin? ==> m.Fin? && items[i].score.x <= m.x)
    && (m.Fin? ==> exists i :: 0 <= i < |items| && items[i].score == m)
  }

  lemma {:induction false} MaxScoreIsGreatest(items: seq<Item>)
    ensures Greatest(MaxScore(items), items)
  {
    if items != [] {
      var front := items[..|items| - 1];
      MaxScoreIsGreatest(front);
      if MaxScore(front).Fin? {
        var i :| 0 <= i < |front| && front[i].score == MaxScore(front);
        assert items[i].score == MaxScore(front);
      }
      assert items[|items| - 1] in items;
    }
  }

  // How many keys the items stand for.
  function Keys(items: seq<Item>): real {
    if items == [] then 0.0 else Keys(items[..|items| - 1]) + items[|items| - 1].count
  }

  lemma Times(a: real, b: real, f: real)
    requires a <= b && f >= 0.0
    ensures a * f <= b * f
  {
    assert (b - a) * f >= 0.0;
  }

  // Items no greater than m weigh at most e(m) for each key.
  lemma {:induction false} WeightAtMost(e: real -> real, items: seq<Item>, m: real)
    requires Exponential(e) && Increasing(e) && Counted(items)
    requires forall i :: 0 <= i < |items| && items[i].score.Fin? ==> items[i].score.x <= m
    ensures 0.0 <= Weight(e, items) <= Keys(items) * e(m)
  {
    if items != [] {
      var front, last := items[..|items| - 1], items[|items| - 1];
      WeightAtMost(e, front, m);
      ItemAtMost(e, last, m);
      Distribute(Keys(front), last.count, e(m));
    }
  }

  lemma ItemAtMost(e: real -> real, item: Item, m: real)
    requires Exponential(e) && Increasing(e) && item.count > 0.0 && (item.score.Fin? ==> item.score.x <= m)
    ensures 0.0 <= ExpAt(e, item.score) * item.count <= item.count * e(m)
  {
    assert Positive(e, m);
    if item.score.Fin? {
      assert Positive(e, item.score.x) && Ascends(e, item.score.x, m);
    }
    Times(ExpAt(e, item.score), e(m), item.count);
    Times(0.0, ExpAt(e, item.score), item.count);
  }

  // One item with the score m weighs as much as its keys do.
  lemma {:induction false} WeightAtLeast(e: real -> real, items: seq<Item>, i: nat, least: real)
    requires Exponential(e) && Counted(items) && i < |items| && items[i].score.Fin?
    requires 0.0 <= least <= items[i].count
    ensures Weight(e, items) >= least * e(items[i].score.x)
  {
    var front, last := items[..|items| - 1], items[|items| - 1];
    assert Positive(e, items[i].score.x);
    Times(least, items[i].count, e(items[i].score.x));
    if i < |front| {
      WeightAtLeast(e, front, i, least);
      if last.score.Fin? {
        assert Positive(e, last.score.x);
      }
      Times(0.0, ExpAt(e, last.score), last.count);
    } else {
      UnmaskedMeansWeight(e, front);
    }
  }

  /**
   A state that stands for keys of which one is visible has a sum between one and the
   number of keys: no weight exceeds one, and finalization never divides by less than one.
   */
  lemma SumInRange(e: real -> real, s: State, items: seq<Item>)
    requires Exponential(e) && Increasing(e) && Represents(e, s, items)
    requires forall i :: 0 <= i < |items| ==> items[i].count >= 1.0
    ensures if s.max.NegInf? then s.sum == 0.0 && forall i :: 0 <= i < |items| ==> items[i].score.NegInf?
            else 1.0 <= s.sum <= Keys(items)
  {
    hide Weight, Keys, MaxScore, Exponential, Increasing, Represents, Moment, Shaped;
    MaxScoreIsGreatest(items);
    SumIsWeight(e, s, items);
    if s.max.NegInf? {
      MaskedHasNoWeight(e, items);
    } else {
      WeightInRange(e, items, s.max);
      assert e(s.max.x) > 0.0 by { ExpShift(e, 0.0, s.max.x); }
      Cancels(1.0, s.sum, e(s.max.x));
      Cancels(s.sum, Keys(items), e(s.max.x));
    }
  }

  lemma SumIsWeight(e: real -> real, s: State, items: seq<Item>)
    requires Represents(e, s, items)
    ensures s.max == MaxScore(items)
    ensures Weight(e, items) == if s.max.NegInf? then s.sum else s.sum * e(s.max.x)
  {
  }

  lemma WeightInRange(e: real -> real, items: seq<Item>, m: Score)
    requires Exponential(e) && Increasing(e) && Greatest(m, items) && m.Fin?
    requires forall i :: 0 <= i < |items| ==> items[i].count >= 1.0
    ensures 1.0 * e(m.x) <= Weight(e, items) <= Keys(items) * e(m.x)
  {
    hide Exponential, Increasing, Weight, Keys;
    var i :| 0 <= i < |items| && items[i].score == m;
    WeightAtLeast(e, items, i, 1.0);
    WeightAtMost(e, items, m.x);
  }

  // A positive factor on both sides of a comparison cancels.
  lemma Cancels(x: real, y: real, f: real)
    requires f > 0.0
    ensures x * f <= y * f <==> x <= y
  {
    if x <= y {
      Times(x, y, f);
    } else {
      assert (x - y) * f > 0.0;
      assert (x - y) * f == x * f - y * f;
    }
  }

  lemma ZeroIsOne(e: real -> real)
    requires Exponential(e)
    ensures e(0.0) == 1.0
  {
    ExpShift(e, 0.0, 0.0);
    Cancels(e(0.0), 1.0, e(0.0));
    Cancels(1.0, e(0.0), e(0.0));
  }

  // An exponential relative to something greater is at most one.
  lemma DiffInRange(e: real -> real, a: Score, m: real)
    requires Exponential(e) && Increasing(e) && (a.Fin? ==> a.x <= m)
    ensures 0.0 <= ExpDiff(e, a, m) <= 1.0 && (a == Fin(m) ==> ExpDiff(e, a, m) == 1.0)
  {
    ZeroIsOne(e);
    if a.Fin? {
      assert Positive(e, a.x - m) && Ascends(e, a.x - m, 0.0);
    }
  }

  /** Merging two partial results, one of them not empty, divides by something between one and two. */
  lemma MergeInRange(e: real -> real, state: Partial, local: Partial)
    requires Exponential(e) && Increasing(e) && (state.lse.Fin? || local.lse.Fin?)
    ensures var max := Max(state.lse, local.lse);
            && max.Fin?
            && 0.0 <= ExpDiff(e, state.lse, max.x) <= 1.0 && 0.0 <= ExpDiff(e, local.lse, max.x) <= 1.0
            && 1.0 <= ExpDiff(e, state.lse, max.x) + ExpDiff(e, local.lse, max.x) <= 2.0
  {
    var max := Max(state.lse, local.lse);
    DiffInRange(e, state.lse, max.x);
    DiffInRange(e, local.lse, max.x);
  }
}
