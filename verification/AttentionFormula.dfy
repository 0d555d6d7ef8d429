/**
 Attention written out on the host tensors, without scores, items or head groups:
 the formula that the kernels, the tiled reference and the pipelines all compute.
 */
module AttentionFormula {
  import opened Sums
  import opened Softmax
  import opened AttentionKernel

  // The bounds of one packed segment.
  datatype Span = Span(qStart: int, qStop: int, kStart: int, kStop: int)

  // Component d of head h of token t, zero outside the tensor.
  function Entry(tensor: seq<seq<Vec>>, t: int, h: int, d: int): real {
    if 0 <= t < |tensor| && 0 <= h < |tensor[t]| && 0 <= d < |tensor[t][h]| then tensor[t][h][d] else 0.0
  }

  // Each element so many times in a row.
  function Repeat<T>(xs: seq<T>, times: nat): (repeated: seq<T>)
    ensures |repeated| == |xs| * times
  {
    if xs == [] then [] else seq(times, _ => xs[0]) + Repeat(xs[1..], times)
  }

  lemma {:induction false} RepeatAt<T>(xs: seq<T>, times: nat, i: nat)
    requires times > 0 && i < |xs| * times
    ensures i / times < |xs| && Repeat(xs, times)[i] == xs[i / times]
  {
    if xs != [] {
      OneGroupLess(|xs|, times, i);
      if i >= times {
        RepeatAt(xs[1..], times, i - times);
      }
    }
  }

  lemma OneGroupLess(n: nat, times: nat, i: nat)
    requires n > 0 && times > 0 && i < n * times
    ensures i < times ==> i / times == 0
    ensures i >= times ==> i - times < (n - 1) * times && i / times == (i - times) / times + 1
  {
    assert (n - 1) * times == n * times - times;
    if i < times {
      QuotientIs(i, times, 0, i);
    } else {
      var q, r := (i - times) / times, (i - times) % times;
      assert i - times == q * times + r && (q + 1) * times == q * times + times;
      QuotientIs(i, times, q + 1, r);
    }
  }

  lemma QuotientIs(i: nat, times: nat, q: nat, r: nat)
    requires times > 0 && i == q * times + r && r < times
    ensures i / times == q
  {
    var p, x := i / times, i % times;
    assert i == p * times + x;
    if p < q {
      Scaled(p + 1, q, times);
    } else if q < p {
      Scaled(q + 1, p, times);
    }
  }

  // A K or V tensor with one head for every query head.
  function Expanded(tensor: seq<seq<Vec>>, times: nat): seq<seq<Vec>> {
    seq(|tensor|, t requires 0 <= t < |tensor| => Repeat(tensor[t], times))
  }

  function Keys(p: Problem): seq<seq<Vec>>
    requires p.kvHeads > 0
  {
    Expanded(p.k, p.heads / p.kvHeads)
  }

  function Values(p: Problem): seq<seq<Vec>>
    requires p.kvHeads > 0
  {
    Expanded(p.v, p.heads / p.kvHeads)
  }

  function Product(p: Problem, h: int, r: int, t: int, d: int): real
    requires p.kvHeads > 0
  {
    Entry(p.q, r, h, d) * Entry(Keys(p), t, h, d)
  }

  function Logit(p: Problem, h: int, r: int, t: int): real
    requires p.kvHeads > 0
  {
    Sum(0, p.dim, d => Product(p, h, r, t, d)) * p.scale
  }

  // Counted from the ends of the segment, causal queries see the keys at or before their own place.
  predicate Sees(s: Span, causal: bool, r: int, t: int) {
    causal ==> s.qStop - r <= s.kStop - t
  }

  function KeyWeight(e: real -> real, p: Problem, s: Span, causal: bool, h: int, r: int, t: int): real
    requires p.kvHeads > 0
  {
    if Sees(s, causal, r, t) then e(Logit(p, h, r, t)) else 0.0
  }

  function Total(e: real -> real, p: Problem, s: Span, causal: bool, h: int, r: int, stop: int): real
    requires p.kvHeads > 0
  {
    Sum(s.kStart, stop, t => KeyWeight(e, p, s, causal, h, r, t))
  }

  function Weighted(e: real -> real, p: Problem, s: Span, causal: bool, h: int, r: int, stop: int, c: int): real
    requires p.kvHeads > 0
  {
    Sum(s.kStart, stop, t => KeyWeight(e, p, s, causal, h, r, t) * Entry(Values(p), t, h, c))
  }

  // Attention of query r and head h over its segment, component c; zero when it sees no key.
  function Formula(e: real -> real, p: Problem, s: Span, causal: bool, h: int, r: int, c: int): real
    requires p.kvHeads > 0
  {
    var total := Total(e, p, s, causal, h, r, s.kStop);
    if total == 0.0 then 0.0 else Weighted(e, p, s, causal, h, r, s.kStop, c) / total
  }

  // `row` holds the formula for every component.
  ghost predicate IsFormula(e: real -> real, p: Problem, row: Vec, s: Span, causal: bool, h: int, r: int)
    requires p.kvHeads > 0
  {
    |row| == p.dim && forall c :: 0 <= c < p.dim ==> row[c] == Formula(e, p, s, causal, h, r, c)
  }

  // ----- The items of a row are the terms of the formula

  /** A query head reads K/V head g exactly when it is one of the g-th group of heads. */
  lemma HeadGroups(p: Problem, h: nat, g: nat)
    requires p.Valid() && h < p.heads
    ensures var group := p.heads / p.kvHeads; p.KVHead(h) == g <==> g * group <= h < (g + 1) * group
  {
    var group, x := p.heads / p.kvHeads, p.KVHead(h);
    assert h == x * group + h % group;
    if g < x {
      assert (g + 1) * group <= x * group by { Scaled(g + 1, x, group); }
    } else if g > x {
      assert (x + 1) * group <= g * group by { Scaled(x + 1, g, group); }
      assert (x + 1) * group == x * group + group;
    }
  }

  lemma Scaled(a: nat, b: nat, c: nat)
    requires a <= b
    ensures a * c <= b * c
  {
  }

  lemma ExpandedEntry(p: Problem, tensor: seq<seq<Vec>>, t: nat, h: nat, d: nat)
    requires p.Valid() && h < p.heads && t < |tensor| && |tensor[t]| == p.kvHeads
    requires forall g :: 0 <= g < p.kvHeads ==> |tensor[t][g]| == p.dim
    requires d < p.dim
    ensures Entry(Expanded(tensor, p.heads / p.kvHeads), t, h, d) == tensor[t][p.KVHead(h)][d]
  {
    RepeatAt(tensor[t], p.heads / p.kvHeads, h);
  }

  lemma {:induction false} DotIsSum(a: Vec, b: Vec, f: int -> real)
    requires |a| == |b| && forall d :: 0 <= d < |a| ==> f(d) == a[d] * b[d]
    ensures Dot(a, b) == Sum(0, |a|, f)
    decreases |a|
  {
    if a != [] {
      SumLast(0, |a|, f);
      DotIsSum(a[..|a| - 1], b[..|a| - 1], f);
    }
  }

  lemma ItemIsTerm(e: real -> real, p: Problem, w: View, s: Span, t: nat, c: nat)
    requires w.Fits(p) && Aligned(w, s) && s.kStart <= t < s.kStop <= |p.k| && 0 <= s.kStart && c < p.dim
    ensures var item := KeyItem(p, w, s.kStart, t - s.kStart);
            && ExpAt(e, item.score) == KeyWeight(e, p, s, w.causal, w.head, w.row, t)
            && item.value[c] == Entry(Values(p), t, w.head, c)
  {
    hide Dot, Expanded, Entry, Logit;
    ScoreIsLogit(p, w, t);
    ExpandedEntry(p, p.v, t, w.head, c);
    var i := t - s.kStart;
    assert Visible(w.causal, w.kPos + i, w.qPos, w.shift) == Sees(s, w.causal, w.row, t);
    assert p.k[s.kStart + i] == p.k[t] && p.v[s.kStart + i] == p.v[t];
    var item := KeyItem(p, w, s.kStart, i);
    if Sees(s, w.causal, w.row, t) {
      assert item.score.x == Dot(p.q[w.row][w.head], p.k[t][p.KVHead(w.head)]) * p.scale;
      assert item.score.x == Logit(p, w.head, w.row, t);
      assert KeyWeight(e, p, s, w.causal, w.head, w.row, t) == e(Logit(p, w.head, w.row, t));
    } else {
      assert item.score.NegInf?;
    }
  }

  lemma ScoreIsLogit(p: Problem, w: View, t: nat)
    requires w.Fits(p) && t < |p.k|
    ensures Dot(p.q[w.row][w.head], p.k[t][p.KVHead(w.head)]) * p.scale == Logit(p, w.head, w.row, t)
  {
    hide Dot, Sum, Product;
    var g := p.KVHead(w.head);
    forall d | 0 <= d < p.dim
      ensures Product(p, w.head, w.row, t, d) == p.q[w.row][w.head][d] * p.k[t][g][d]
    {
      ProductAt(p, w, t, d);
    }
    DotIsSum(p.q[w.row][w.head], p.k[t][g], d => Product(p, w.head, w.row, t, d));
  }

  lemma ProductAt(p: Problem, w: View, t: nat, d: nat)
    requires w.Fits(p) && t < |p.k| && d < p.dim
    ensures Product(p, w.head, w.row, t, d) == p.q[w.row][w.head][d] * p.k[t][p.KVHead(w.head)][d]
  {
    hide Expanded;
    ExpandedEntry(p, p.k, t, w.head, d);
  }

  // The view of the segment's row, or any view without causality.
  ghost predicate Aligned(w: View, s: Span) {
    w.causal ==> w.kPos + w.row - w.qPos - w.shift == s.kStart + s.qStop - s.kStop
  }

  lemma {:induction false} SumsAgree(e: real -> real, p: Problem, w: View, s: Span, stop: nat, c: nat)
    requires w.Fits(p) && Aligned(w, s) && 0 <= s.kStart <= stop <= s.kStop <= |p.k| && c < p.dim
    ensures Weight(e, RowItems(p, w, s.kStart, stop)) == Total(e, p, s, w.causal, w.head, w.row, stop)
    ensures Moment(e, RowItems(p, w, s.kStart, stop), c) == Weighted(e, p, s, w.causal, w.head, w.row, stop, c)
    decreases stop
  {
    hide KeyWeight, Entry, Values, Total, Weighted, Weight, Moment, RowItems;
    if stop == s.kStart {
      NoTerms(e, p, w, s, c);
    } else {
      SumsAgree(e, p, w, s, stop - 1, c);
      OneTerm(e, p, w, s, stop, c);
    }
  }

  lemma NoTerms(e: real -> real, p: Problem, w: View, s: Span, c: nat)
    requires w.Fits(p) && 0 <= s.kStart <= |p.k| && c < p.dim
    ensures RowItems(p, w, s.kStart, s.kStart) == []
    ensures Weight(e, []) == 0.0 && Moment(e, [], c) == 0.0
    ensures Total(e, p, s, w.causal, w.head, w.row, s.kStart) == 0.0
    ensures Weighted(e, p, s, w.causal, w.head, w.row, s.kStart, c) == 0.0
  {
  }

  lemma OneTerm(e: real -> real, p: Problem, w: View, s: Span, stop: nat, c: nat)
    requires w.Fits(p) && Aligned(w, s) && 0 <= s.kStart < stop <= s.kStop <= |p.k| && c < p.dim
    ensures Weight(e, RowItems(p, w, s.kStart, stop)) - Weight(e, RowItems(p, w, s.kStart, stop - 1))
         == Total(e, p, s, w.causal, w.head, w.row, stop) - Total(e, p, s, w.causal, w.head, w.row, stop - 1)
    ensures Moment(e, RowItems(p, w, s.kStart, stop), c) - Moment(e, RowItems(p, w, s.kStart, stop - 1), c)
         == Weighted(e, p, s, w.causal, w.head, w.row, stop, c) - Weighted(e, p, s, w.causal, w.head, w.row, stop - 1, c)
  {
    hide KeyWeight, KeyItem, Entry, Values, ExpAt, Sum;
    var items := RowItems(p, w, s.kStart, stop);
    assert items[..|items| - 1] == RowItems(p, w, s.kStart, stop - 1);
    ItemIsTerm(e, p, w, s, stop - 1, c);
    SumLast(s.kStart, stop, t => KeyWeight(e, p, s, w.causal, w.head, w.row, t));
    SumLast(s.kStart, stop, t => KeyWeight(e, p, s, w.causal, w.head, w.row, t) * Entry(Values(p), t, w.head, c));
  }

  /** One-shot attention of a row's items is the formula. */
  lemma AttentionIsFormula(e: real -> real, p: Problem, w: View, s: Span, c: nat)
    requires w.Fits(p) && Aligned(w, s) && 0 <= s.kStart <= s.kStop <= |p.k| && c < p.dim
    ensures Attention(e, RowItems(p, w, s.kStart, s.kStop), c) == Formula(e, p, s, w.causal, w.head, w.row, c)
  {
    var items := RowItems(p, w, s.kStart, s.kStop);
    SumsAgree(e, p, w, s, s.kStop, c);
    hide Total, Weighted, Weight, Moment;
    if Weight(e, items) != 0.0 {
      AverageIsQuotient(e, items, Weight(e, items), c);
    }
  }
}
