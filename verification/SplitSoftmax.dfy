/**
 Split attention: normalized partial results over disjoint key sets, merged by
 their log-sum-exp.  Any order and grouping of merges gives one-shot attention.
 */
module SplitSoftmax {
  import opened Softmax

  // A normalized output row and the logarithm of its total weight.
  datatype Partial = Partial(out: Vec, lse: Score)

  // ln undoes the exponential on positive numbers.
  ghost predicate Logarithm(e: real -> real, ln: real -> real) {
    forall x | x > 0.0 :: e(ln(x)) == x
  }

  // What a partial forward pass over `items` returns.
  function PartialOf(e: real -> real, ln: real -> real, items: seq<Item>, dim: nat): (p: Partial)
    requires Shaped(items, dim)
    ensures |p.out| == dim
  {
    var total := Weight(e, items);
    Partial(seq(dim, c requires 0 <= c < dim => Attention(e, items, c)),
            if total > 0.0 then Fin(ln(total)) else NegInf)
  }

  function Share(term: real, denominator: real): real {
    if denominator > 0.0 then term / denominator else 0.0
  }

  function Mix(u: real, x: real, v: real, y: real): real {
    u * x + v * y
  }

  // The merge kernel, for one row.
  function Merge(e: real -> real, ln: real -> real, state: Partial, local: Partial): (m: Partial)
    requires |state.out| == |local.out|
    ensures |m.out| == |state.out|
  {
    var mergedMax := Max(state.lse, local.lse);
    var max := if mergedMax.Fin? then mergedMax.x else 0.0;
    var previousTerm := ExpDiff(e, state.lse, max);
    var localTerm := ExpDiff(e, local.lse, max);
    var denominator := previousTerm + localTerm;
    var previousWeight := Share(previousTerm, denominator);
    var localWeight := Share(localTerm, denominator);
    Partial(seq(|state.out|, c requires 0 <= c < |state.out| => Mix(previousWeight, state.out[c], localWeight, local.out[c])),
            if denominator > 0.0 then Fin(max + ln(denominator)) else NegInf)
  }

  // `s` is the normalized result over `items`.
  ghost predicate Stands(e: real -> real, s: Partial, items: seq<Item>) {
    && Shaped(items, |s.out|)
    && ExpAt(e, s.lse) == Weight(e, items)
    && forall c :: 0 <= c < |s.out| ==>
         s.out[c] * ExpAt(e, s.lse) == Moment(e, items, c) && (s.lse.NegInf? ==> s.out[c] == 0.0)
  }

  // Every item stands for at least one key.
  ghost predicate Counted(items: seq<Item>) {
    forall i :: 0 <= i < |items| ==> items[i].count > 0.0
  }

  lemma {:induction false} UnmaskedMeansWeight(e: real -> real, items: seq<Item>)
    requires Exponential(e) && Counted(items)
    ensures Weight(e, items) >= 0.0 && (MaxScore(items).Fin? ==> Weight(e, items) > 0.0)
  {
    if items != [] {
      var last := items[|items| - 1];
      UnmaskedMeansWeight(e, items[..|items| - 1]);
      if last.score.Fin? {
        assert Positive(e, last.score.x);
        PositiveProduct(e(last.score.x), last.count);
      }
    }
  }

  lemma NoWeightMeansMasked(e: real -> real, items: seq<Item>)
    requires Exponential(e) && Counted(items) && Weight(e, items) <= 0.0
    ensures MaxScore(items).NegInf? && Weight(e, items) == 0.0
  {
    UnmaskedMeansWeight(e, items);
  }

  /** A partial forward pass stands for its own keys, also when it saw none. */
  lemma PartialStands(e: real -> real, ln: real -> real, items: seq<Item>, dim: nat)
    requires Exponential(e) && Logarithm(e, ln) && Shaped(items, dim) && Counted(items)
    ensures Stands(e, PartialOf(e, ln, items, dim), items)
  {
    var s := PartialOf(e, ln, items, dim);
    var total := Weight(e, items);
    if total > 0.0 {
      forall c | 0 <= c < dim
        ensures s.out[c] * ExpAt(e, s.lse) == Moment(e, items, c)
      {
        AverageIsQuotient(e, items, total, c);
      }
    } else {
      NoWeightMeansMasked(e, items);
      forall c | 0 <= c < dim
        ensures Moment(e, items, c) == 0.0 && s.out[c] == 0.0
      {
        MaskedHasNoMoment(e, items, c);
      }
    }
  }

  lemma TermScales(e: real -> real, lse: Score, max: real)
    requires Exponential(e)
    ensures ExpDiff(e, lse, max) * e(max) == ExpAt(e, lse)
    ensures ExpDiff(e, lse, max) >= 0.0 && (lse.Fin? ==> ExpDiff(e, lse, max) > 0.0)
  {
    if lse.Fin? {
      ExpShift(e, lse.x, max);
      assert Positive(e, lse.x - max);
    }
  }

  // Weighted mean of the two outputs, rescaled by the merged total.
  lemma MergedMean(p: real, l: real, f: real, x: real, y: real)
    requires p + l > 0.0
    ensures (p / (p + l) * x + l / (p + l) * y) * (f * (p + l)) == x * (p * f) + y * (l * f)
  {
    var d := p + l;
    var a, b := p / d, l / d;
    assert a * d == p && b * d == l;
    MeanIdentity(a, b, d, f, x, y);
    assert x * (a * d * f) == x * (p * f) && y * (b * d * f) == y * (l * f);
  }

  lemma MeanIdentity(a: real, b: real, d: real, f: real, x: real, y: real)
    ensures (a * x + b * y) * (f * d) == x * (a * d * f) + y * (b * d * f)
  {
    assert (a * x) * (f * d) == x * (a * d * f);
    assert (b * y) * (f * d) == y * (b * d * f);
  }

  // Component c of a merge, when at least one side saw a key.
  lemma MergeMoment(e: real -> real, ln: real -> real, s: Partial, l: Partial, max: real, x: real, y: real)
    requires Exponential(e) && Logarithm(e, ln)
    requires ExpDiff(e, s.lse, max) + ExpDiff(e, l.lse, max) > 0.0
    ensures var p, q := ExpDiff(e, s.lse, max), ExpDiff(e, l.lse, max);
            Mix(Share(p, p + q), x, Share(q, p + q), y) * e(max + ln(p + q)) == x * ExpAt(e, s.lse) + y * ExpAt(e, l.lse)
  {
    var p, q := ExpDiff(e, s.lse, max), ExpDiff(e, l.lse, max);
    TermScales(e, s.lse, max);
    TermScales(e, l.lse, max);
    MergedTotal(e, ln, max, p, q);
    MergedMean(p, q, e(max), x, y);
  }

  /** Merging two partial results stands for both key sets, masked ones included. */
  lemma MergeStands(e: real -> real, ln: real -> real, s: Partial, l: Partial, a: seq<Item>, b: seq<Item>)
    requires Exponential(e) && Logarithm(e, ln)
    requires Stands(e, s, a) && Stands(e, l, b) && |s.out| == |l.out|
    ensures Stands(e, Merge(e, ln, s, l), a + b)
  {
    hide Merge, Moment, Weight, Exponential, Logarithm, ExpAt;
    var m := Merge(e, ln, s, l);
    Concat(e, a, b);
    MergeWeight(e, ln, s, l);
    forall c | 0 <= c < |s.out|
      ensures m.out[c] * ExpAt(e, m.lse) == Moment(e, a + b, c) && (m.lse.NegInf? ==> m.out[c] == 0.0)
    {
      ConcatMoment(e, a, b, c);
      MergeComponent(e, ln, s, l, a, b, c);
    }
  }

  lemma MergeWeight(e: real -> real, ln: real -> real, s: Partial, l: Partial)
    requires Exponential(e) && Logarithm(e, ln) && |s.out| == |l.out|
    ensures ExpAt(e, Merge(e, ln, s, l).lse) == ExpAt(e, s.lse) + ExpAt(e, l.lse)
  {
    var mergedMax := Max(s.lse, l.lse);
    var max := if mergedMax.Fin? then mergedMax.x else 0.0;
    var p, q := ExpDiff(e, s.lse, max), ExpDiff(e, l.lse, max);
    TermScales(e, s.lse, max);
    TermScales(e, l.lse, max);
    if p + q > 0.0 {
      MergedTotal(e, ln, max, p, q);
    }
  }

  lemma MergeComponent(e: real -> real, ln: real -> real, s: Partial, l: Partial, a: seq<Item>, b: seq<Item>, c: nat)
    requires Exponential(e) && Logarithm(e, ln)
    requires Stands(e, s, a) && Stands(e, l, b) && c < |s.out| == |l.out|
    ensures var m := Merge(e, ln, s, l);
            m.out[c] * ExpAt(e, m.lse) == Moment(e, a, c) + Moment(e, b, c) && (m.lse.NegInf? ==> m.out[c] == 0.0)
  {
    hide Moment, Weight, Exponential, Logarithm, ExpDiff, Mix, Share;
    var mergedMax := Max(s.lse, l.lse);
    var max := if mergedMax.Fin? then mergedMax.x else 0.0;
    TermScales(e, s.lse, max);
    TermScales(e, l.lse, max);
    if ExpDiff(e, s.lse, max) + ExpDiff(e, l.lse, max) > 0.0 {
      MergeMoment(e, ln, s, l, max, s.out[c], l.out[c]);
    } else {
      NothingMixed(ExpDiff(e, s.lse, max), s.out[c], ExpDiff(e, l.lse, max), l.out[c]);
    }
  }

  lemma NothingMixed(p: real, x: real, q: real, y: real)
    requires p + q <= 0.0
    ensures Mix(Share(p, p + q), x, Share(q, p + q), y) == 0.0
  {
  }

  lemma MergedTotal(e: real -> real, ln: real -> real, max: real, p: real, q: real)
    requires Exponential(e) && Logarithm(e, ln) && p + q > 0.0
    ensures e(max + ln(p + q)) == e(max) * (p + q) == p * e(max) + q * e(max)
  {
    assert Splits(e, max, ln(p + q));
  }

  /** A merged result is one-shot attention over everything merged in. */
  lemma StandsIsAttention(e: real -> real, s: Partial, items: seq<Item>, c: nat)
    requires Exponential(e) && Stands(e, s, items) && c < |s.out|
    ensures s.out[c] == Attention(e, items, c)
  {
    var total := Weight(e, items);
    if s.lse.Fin? {
      assert Positive(e, s.lse.x);
      AverageIsQuotient(e, items, total, c);
    }
  }

  // ----- Any grouping and any order

  // How a set of partitions is merged.
  datatype MergeTree = Leaf(items: seq<Item>) | Node(left: MergeTree, right: MergeTree)

  function Keys(t: MergeTree): seq<Item> {
    match t
    case Leaf(items) => items
    case Node(l, r) => Keys(l) + Keys(r)
  }

  function MergeAll(e: real -> real, ln: real -> real, t: MergeTree, dim: nat): (p: Partial)
    requires Shaped(Keys(t), dim)
    ensures |p.out| == dim
    decreases t
  {
    match t
    case Leaf(items) => PartialOf(e, ln, items, dim)
    case Node(l, r) =>
      KeysSplit(l, r, dim);
      Merge(e, ln, MergeAll(e, ln, l, dim), MergeAll(e, ln, r, dim))
  }

  lemma KeysSplit(l: MergeTree, r: MergeTree, dim: nat)
    requires Shaped(Keys(Node(l, r)), dim)
    ensures Shaped(Keys(l), dim) && Shaped(Keys(r), dim)
  {
    assert forall i :: 0 <= i < |Keys(l)| ==> Keys(l)[i] == (Keys(l) + Keys(r))[i];
    assert forall i :: 0 <= i < |Keys(r)| ==> Keys(r)[i] == (Keys(l) + Keys(r))[|Keys(l)| + i];
  }

  lemma {:induction false} MergeAllStands(e: real -> real, ln: real -> real, t: MergeTree, dim: nat)
    requires Exponential(e) && Logarithm(e, ln) && Shaped(Keys(t), dim) && Counted(Keys(t))
    ensures Stands(e, MergeAll(e, ln, t, dim), Keys(t))
    decreases t
  {
    match t {
      case Leaf(items) => PartialStands(e, ln, items, dim);
      case Node(l, r) =>
        KeysSplit(l, r, dim);
        assert forall i :: 0 <= i < |Keys(l)| ==> Keys(l)[i] == (Keys(l) + Keys(r))[i];
        assert forall i :: 0 <= i < |Keys(r)| ==> Keys(r)[i] == (Keys(l) + Keys(r))[|Keys(l)| + i];
        MergeAllStands(e, ln, l, dim);
        MergeAllStands(e, ln, r, dim);
        MergeStands(e, ln, MergeAll(e, ln, l, dim), MergeAll(e, ln, r, dim), Keys(l), Keys(r));
    }
  }

  // What one item adds to the weight and to a moment.
  function WeightTerm(e: real -> real, item: Item): real {
    ExpAt(e, item.score) * item.count
  }

  function MomentTerm(e: real -> real, item: Item, c: nat): real
    requires c < |item.value|
  {
    ExpAt(e, item.score) * item.value[c]
  }

  lemma WeightLast(e: real -> real, b: seq<Item>)
    requires b != []
    ensures Weight(e, b) == Weight(e, b[..|b| - 1]) + WeightTerm(e, b[|b| - 1])
  {
  }

  lemma MomentLast(e: real -> real, b: seq<Item>, c: nat)
    requires b != [] && forall j :: 0 <= j < |b| ==> c < |b[j].value|
    ensures Moment(e, b, c) == Moment(e, b[..|b| - 1], c) + MomentTerm(e, b[|b| - 1], c)
  {
  }

  // Taking out item i takes out its own contribution.
  lemma {:induction false} WeightWithout(e: real -> real, b: seq<Item>, i: nat)
    requires i < |b|
    ensures Weight(e, b) == Weight(e, b[..i] + b[i + 1..]) + WeightTerm(e, b[i])
    decreases |b|
  {
    hide Weight, WeightTerm;
    var rest, shorter := b[..i] + b[i + 1..], b[..|b| - 1];
    WeightLast(e, b);
    if i == |b| - 1 {
      assert rest == shorter;
    } else {
      assert rest[..|rest| - 1] == shorter[..i] + shorter[i + 1..];
      WeightLast(e, rest);
      WeightWithout(e, shorter, i);
    }
  }

  lemma {:induction false} MomentWithout(e: real -> real, b: seq<Item>, i: nat, c: nat)
    requires i < |b| && forall j :: 0 <= j < |b| ==> c < |b[j].value|
    ensures Moment(e, b, c) == Moment(e, b[..i] + b[i + 1..], c) + MomentTerm(e, b[i], c)
    decreases |b|
  {
    hide Moment, MomentTerm;
    var rest, shorter := b[..i] + b[i + 1..], b[..|b| - 1];
    MomentLast(e, b, c);
    if i == |b| - 1 {
      assert rest == shorter;
    } else {
      assert rest[..|rest| - 1] == shorter[..i] + shorter[i + 1..];
      MomentLast(e, rest, c);
      MomentWithout(e, shorter, i, c);
    }
  }

  lemma FindItem(a: seq<Item>, b: seq<Item>) returns (i: nat)
    requires a != [] && multiset(a) == multiset(b)
    ensures i < |b| && b[i] == a[|a| - 1]
    ensures multiset(a[..|a| - 1]) == multiset(b[..i] + b[i + 1..])
  {
    var last := a[|a| - 1];
    assert last in multiset(b);
    i :| 0 <= i < |b| && b[i] == last;
    var front, rest, one := multiset(a[..|a| - 1]), multiset(b[..i]) + multiset(b[i + 1..]), multiset{last};
    assert a == a[..|a| - 1] + [last];
    assert b == (b[..i] + [last]) + b[i + 1..];
    assert front + one == rest + one;
    assert front == (front + one) - one && rest == (rest + one) - one;
  }

  // The weight and moments of items do not depend on their order.
  lemma {:induction false} WeightIgnoresOrder(e: real -> real, a: seq<Item>, b: seq<Item>)
    requires multiset(a) == multiset(b)
    ensures Weight(e, a) == Weight(e, b)
    decreases |a|
  {
    if a == [] {
      assert |b| == |multiset(b)|;
    } else {
      var i := FindItem(a, b);
      WeightIgnoresOrder(e, a[..|a| - 1], b[..i] + b[i + 1..]);
      WeightWithout(e, b, i);
    }
  }

  lemma {:induction false} MomentIgnoresOrder(e: real -> real, a: seq<Item>, b: seq<Item>, c: nat)
    requires multiset(a) == multiset(b)
    requires forall i :: 0 <= i < |a| ==> c < |a[i].value|
    requires forall i :: 0 <= i < |b| ==> c < |b[i].value|
    ensures Moment(e, a, c) == Moment(e, b, c)
    decreases |a|
  {
    if a == [] {
      assert |b| == |multiset(b)|;
    } else {
      var i := FindItem(a, b);
      MomentIgnoresOrder(e, a[..|a| - 1], b[..i] + b[i + 1..], c);
      MomentWithout(e, b, i, c);
    }
  }

  /** Any order and grouping of merges gives attention over the same multiset of keys. */
  lemma MergeOrderIsIrrelevant(e: real -> real, ln: real -> real, t: MergeTree, items: seq<Item>, dim: nat, c: nat)
    requires Exponential(e) && Logarithm(e, ln) && Shaped(Keys(t), dim) && Counted(Keys(t))
    requires Shaped(items, dim) && multiset(items) == multiset(Keys(t)) && c < dim
    ensures MergeAll(e, ln, t, dim).out[c] == Attention(e, items, c)
  {
    MergeAllStands(e, ln, t, dim);
    StandsIsAttention(e, MergeAll(e, ln, t, dim), Keys(t), c);
    WeightIgnoresOrder(e, items, Keys(t));
    MomentIgnoresOrder(e, items, Keys(t), c);
    if Weight(e, items) != 0.0 {
      AverageIsQuotient(e, items, Weight(e, items), c);
      AverageIsQuotient(e, Keys(t), Weight(e, items), c);
    }
  }

  /** The merge executor and the (max, sum, accumulator) executor agree on every row. */
  lemma SplitAgreesWithFused(e: real -> real, ln: real -> real, t: MergeTree, s: State, items: seq<Item>, c: nat)
    requires Exponential(e) && Logarithm(e, ln) && Shaped(Keys(t), |s.acc|) && Counted(Keys(t)) && Counted(items)
    requires Represents(e, s, items) && multiset(items) == multiset(Keys(t)) && c < |s.acc|
    ensures MergeAll(e, ln, t, |s.acc|).out[c] == FinalizeRow(s)[c]
  {
    MergeOrderIsIrrelevant(e, ln, t, items, |s.acc|, c);
    FinalizeIsAttention(e, s, items, c);
  }

  // ----- The kernels over all rows and heads

  method InitializeSplitState(local: array2<Partial>, state: array2<Partial>)
    requires state != local && state.Length0 == local.Length0 && state.Length1 == local.Length1
    modifies state
    ensures forall i, h :: 0 <= i < state.Length0 && 0 <= h < state.Length1 ==> state[i, h] == local[i, h]
  {
    for i := 0 to state.Length0
      invariant forall j, h :: 0 <= j < i && 0 <= h < state.Length1 ==> state[j, h] == local[j, h]
    {
      for h := 0 to state.Length1
        invariant forall j, g :: 0 <= j < i && 0 <= g < state.Length1 ==> state[j, g] == local[j, g]
        invariant forall g :: 0 <= g < h ==> state[i, g] == local[i, g]
      {
        state[i, h] := local[i, h];
      }
    }
  }

  method MergeSplitState(e: real -> real, ln: real -> real, local: array2<Partial>, state: array2<Partial>)
    requires state != local && state.Length0 == local.Length0 && state.Length1 == local.Length1
    requires forall i, h :: 0 <= i < state.Length0 && 0 <= h < state.Length1 ==> |state[i, h].out| == |local[i, h].out|
    modifies state
    ensures forall i, h :: 0 <= i < state.Length0 && 0 <= h < state.Length1 ==>
              |old(state[i, h]).out| == |local[i, h].out| && state[i, h] == Merge(e, ln, old(state[i, h]), local[i, h])
  {
    hide Merge;
    for i := 0 to state.Length0
      invariant forall j, h :: 0 <= j < i && 0 <= h < state.Length1 ==>
                  state[j, h] == Merge(e, ln, old(state[j, h]), local[j, h])
      invariant forall j, h :: i <= j < state.Length0 && 0 <= h < state.Length1 ==> state[j, h] == old(state[j, h])
    {
      for h := 0 to state.Length1
        invariant forall j, g :: 0 <= j < state.Length0 && 0 <= g < state.Length1 && (j < i || (j == i && g < h)) ==>
                    state[j, g] == Merge(e, ln, old(state[j, g]), local[j, g])
        invariant forall j, g :: 0 <= j < state.Length0 && 0 <= g < state.Length1 && (i < j || (j == i && h <= g)) ==>
                    state[j, g] == old(state[j, g])
      {
        state[i, h] := Merge(e, ln, state[i, h], local[i, h]);
      }
    }
  }
}
