/**
 The streaming attention kernel and the tiled reference, per query row and head,
 against one-shot attention over the row's visible keys.
 */
module AttentionKernel {
  import opened Softmax

  // Host tensors in [token][head] layout.  Query heads share K/V heads in groups.
  datatype Problem = Problem(q: seq<seq<Vec>>, k: seq<seq<Vec>>, v: seq<seq<Vec>>,
                             heads: nat, kvHeads: nat, dim: nat, scale: real)
  {
    ghost predicate Valid() {
      && kvHeads > 0 && heads % kvHeads == 0 && |k| == |v|
      && (forall t :: 0 <= t < |q| ==> |q[t]| == heads)
      && (forall t, h :: 0 <= t < |q| && 0 <= h < heads ==> |q[t][h]| == dim)
      && (forall t :: 0 <= t < |k| ==> |k[t]| == kvHeads && |v[t]| == kvHeads)
      && (forall t, h :: 0 <= t < |k| && 0 <= h < kvHeads ==> |k[t][h]| == dim && |v[t][h]| == dim)
    }

    // The K/V head a query head reads.
    function KVHead(head: nat): (h: nat)
      requires kvHeads > 0 && heads % kvHeads == 0 && head < heads
      ensures h < kvHeads
    {
      var group := heads / kvHeads;
      assert head < group * kvHeads;
      QuotientBound(head, group, kvHeads);
      head / group
    }
  }

  lemma QuotientBound(a: nat, group: nat, n: nat)
    requires group > 0 && a < group * n
    ensures a / group < n
  {
  }

  function Dot(a: Vec, b: Vec): real
    requires |a| == |b|
  {
    if a == [] then 0.0 else Dot(a[..|a| - 1], b[..|a| - 1]) + a[|a| - 1] * b[|a| - 1]
  }

  predicate Visible(causal: bool, kPos: int, qPos: int, shift: int) {
    causal ==> kPos <= qPos + shift
  }

  // Which keys one query row sees: keys start..stop of the host tensors, the first
  // at local position kPos; the row itself is at local position qPos.
  datatype View = View(head: nat, row: nat, qPos: int, kPos: int, shift: int, causal: bool) {
    ghost predicate Fits(p: Problem) {
      p.Valid() && head < p.heads && row < |p.q|
    }
  }

  function KeyItem(p: Problem, w: View, start: nat, i: nat): (item: Item)
    requires w.Fits(p) && start + i < |p.k|
    ensures |item.value| == p.dim && item.count == 1.0
  {
    var h := p.KVHead(w.head);
    Item(if Visible(w.causal, w.kPos + i, w.qPos, w.shift)
         then Fin(Dot(p.q[w.row][w.head], p.k[start + i][h]) * p.scale) else NegInf,
         1.0, p.v[start + i][h])
  }

  function RowItems(p: Problem, w: View, start: nat, stop: nat): (items: seq<Item>)
    requires w.Fits(p) && start <= stop <= |p.k|
    ensures |items| == stop - start && Shaped(items, p.dim)
    ensures forall i :: 0 <= i < |items| ==> items[i].count == 1.0
  {
    seq(stop - start, i requires 0 <= i < stop - start => KeyItem(p, w, start, i))
  }

  // The items of a longer key range are the items of its two halves.
  lemma RowItemsConcat(p: Problem, w: View, start: nat, mid: nat, stop: nat)
    requires w.Fits(p) && start <= mid <= stop <= |p.k|
    ensures RowItems(p, w, start, stop) ==
            RowItems(p, w, start, mid) + RowItems(p, w.(kPos := w.kPos + mid - start), mid, stop)
  {
    var shifted := w.(kPos := w.kPos + mid - start);
    forall i | 0 <= i < stop - start
      ensures RowItems(p, w, start, stop)[i] ==
              (RowItems(p, w, start, mid) + RowItems(p, shifted, mid, stop))[i]
    {
      if i >= mid - start {
        var j := i - (mid - start);
        assert start + i == mid + j && w.kPos + i == shifted.kPos + j;
        var x, y := KeyItem(p, w, start, i), KeyItem(p, shifted, mid, j);
        assert x.value == y.value;
        assert Visible(w.causal, w.kPos + i, w.qPos, w.shift) == Visible(w.causal, shifted.kPos + j, w.qPos, w.shift);
        assert x.score == y.score;
      }
    }
  }

  // ----- The kernel's tile loop

  function PaddedItem(items: seq<Item>, start: nat, j: nat, dim: nat): (item: Item)
    requires Shaped(items, dim)
    ensures |item.value| == dim
  {
    if start + j < |items| then items[start + j] else Item(NegInf, 1.0, Zeros(dim))
  }

  // One program block: the tile's items from `start`, masked beyond the tile.
  function PaddedBlock(items: seq<Item>, start: nat, blockN: nat, dim: nat): (block: seq<Item>)
    requires start <= |items| && Shaped(items, dim)
    ensures |block| == blockN && Shaped(block, dim)
  {
    seq(blockN, j requires 0 <= j < blockN => PaddedItem(items, start, j, dim))
  }

  function Stop(items: seq<Item>, start: nat, blockN: nat): (stop: nat)
    ensures start <= |items| ==> start <= stop <= |items|
  {
    if start + blockN < |items| then start + blockN else |items|
  }

  // The state after the blocks of `items` from `start` on.
  function FoldTile(e: real -> real, s: State, items: seq<Item>, blockN: nat, start: nat): (t: State)
    requires blockN > 0 && start <= |items| && Shaped(items, |s.acc|)
    ensures |t.acc| == |s.acc|
    decreases |items| - start
  {
    if start == |items| then s
    else
      FoldTile(e, FoldBlock(e, s, PaddedBlock(items, start, blockN, |s.acc|)), items, blockN, Stop(items, start, blockN))
  }

  lemma {:induction false} MaskedSuffix(e: real -> real, a: seq<Item>, dim: nat, n: nat, m: real)
    requires Shaped(a, dim)
    ensures var padded := a + seq(n, _ => Item(NegInf, 1.0, Zeros(dim)));
            && Shaped(padded, dim)
            && MaxScore(padded) == MaxScore(a)
            && BlockWeight(e, padded, m) == BlockWeight(e, a, m)
            && forall c :: 0 <= c < dim ==> BlockMoment(e, padded, m, c) == BlockMoment(e, a, m, c)
    decreases n
  {
    var pad := Item(NegInf, 1.0, Zeros(dim));
    var padded := a + seq(n, _ => pad);
    if n == 0 {
      assert padded == a;
    } else {
      assert padded[..|padded| - 1] == a + seq(n - 1, _ => pad);
      assert padded[|padded| - 1] == pad;
      MaskedSuffix(e, a, dim, n - 1, m);
    }
  }

  // Masked padding does not change the folded state.
  lemma PaddingIsInvisible(e: real -> real, s: State, items: seq<Item>, start: nat, blockN: nat)
    requires start < |items| && blockN > 0 && Shaped(items, |s.acc|)
    ensures FoldBlock(e, s, PaddedBlock(items, start, blockN, |s.acc|)) ==
            FoldBlock(e, s, items[start..Stop(items, start, blockN)])
  {
    var a := items[start..Stop(items, start, blockN)];
    var n := blockN - |a|;
    var merged := Max(s.max, MaxScore(a));
    var m := if merged.Fin? then merged.x else 0.0;
    MaskedSuffix(e, a, |s.acc|, n, m);
    assert PaddedBlock(items, start, blockN, |s.acc|) == a + seq(n, _ => Item(NegInf, 1.0, Zeros(|s.acc|)));
  }

  /** Streaming one tile keeps the state exact, for every block size. */
  lemma {:induction false} FoldTileRepresents(e: real -> real, s: State, seen: seq<Item>, items: seq<Item>,
                                              blockN: nat, start: nat)
    requires Exponential(e) && blockN > 0 && start <= |items| && Shaped(items, |s.acc|)
    requires Represents(e, s, seen + items[..start])
    ensures Represents(e, FoldTile(e, s, items, blockN, start), seen + items)
    decreases |items| - start
  {
    hide Represents, FoldBlock, PaddedBlock;
    if start == |items| {
      assert items[..start] == items;
    } else {
      var stop := Stop(items, start, blockN);
      PaddingIsInvisible(e, s, items, start, blockN);
      FoldBlockRepresents(e, s, seen + items[..start], items[start..stop]);
      assert seen + items[..start] + items[start..stop] == seen + items[..stop];
      FoldTileRepresents(e, FoldBlock(e, s, PaddedBlock(items, start, blockN, |s.acc|)), seen, items, blockN, stop);
    }
  }

  // One row of the update kernel: blocks of blockN keys, state rescaled block by block.
  method StreamRow(e: real -> real, s: State, items: seq<Item>, blockN: nat) returns (t: State)
    requires blockN > 0 && Shaped(items, |s.acc|)
    ensures t == FoldTile(e, s, items, blockN, 0)
  {
    var max, sum, acc := s.max, s.sum, s.acc;
    var start := 0;
    while start < |items|
      invariant start <= |items| && |acc| == |s.acc|
      invariant FoldTile(e, State(max, sum, acc), items, blockN, start) == FoldTile(e, s, items, blockN, 0)
    {
      var block := PaddedBlock(items, start, blockN, |acc|);
      var merged := Max(max, MaxScore(block));
      ghost var folded := FoldBlock(e, State(max, sum, acc), block);
      var rowValid := merged.Fin?;
      var alpha := if rowValid then ExpDiff(e, max, merged.x) else 1.0;
      if rowValid {
        acc := seq(|acc|, c requires 0 <= c < |acc| => acc[c] * alpha + BlockMoment(e, block, merged.x, c));
        sum := sum * alpha + BlockWeight(e, block, merged.x);
        max := merged;
      }
      assert State(max, sum, acc) == folded;
      start := Stop(items, start, blockN);
    }
    t := State(max, sum, acc);
  }

  // ----- All rows and heads of a task

  // The arguments every row of a task shares.
  datatype TileArgs = TileArgs(qStart: nat, qTokens: nat, kStart: nat, kvTokens: nat,
                               qLocalOffset: int, kvLocalOffset: int, causalShift: int, causal: bool)
  {
    ghost predicate Fits(p: Problem) {
      p.Valid() && qStart + qTokens <= |p.q| && kStart + kvTokens <= |p.k|
    }

    function Row(h: nat, i: nat): View {
      View(h, qStart + i, qLocalOffset + i, kvLocalOffset, causalShift, causal)
    }

    function Items(p: Problem, h: nat, i: nat): (items: seq<Item>)
      requires Fits(p) && h < p.heads && i < qTokens
      ensures |items| == kvTokens && Shaped(items, p.dim)
    {
      RowItems(p, Row(h, i), kStart, kStart + kvTokens)
    }
  }

  // What the update leaves in one cell of the running state.
  ghost function UpdatedCell(e: real -> real, p: Problem, args: TileArgs, initialize: bool, blockN: nat,
                             s: State, i: nat, h: nat): State
    requires args.Fits(p) && blockN > 0 && i < args.qTokens && h < p.heads && |s.acc| == p.dim
  {
    FoldTile(e, if initialize then InitialState(p.dim) else s, args.Items(p, h, i), blockN, 0)
  }

  // One cell per query row and head: the running maximum, sum and accumulator.
  ghost predicate StateTensor(p: Problem, state: array2<State>)
    reads state
  {
    state.Length1 == p.heads &&
    forall i, h :: 0 <= i < state.Length0 && 0 <= h < p.heads ==> |state[i, h].acc| == p.dim
  }

  /** The update kernel over all rows and heads of one tile. */
  method UpdateAttentionState(e: real -> real, p: Problem, state: array2<State>, args: TileArgs,
                              initialize: bool, blockN: nat)
    requires args.Fits(p) && StateTensor(p, state) && args.qTokens <= state.Length0 && blockN > 0
    modifies state
    ensures StateTensor(p, state)
    ensures forall i, h :: 0 <= i < args.qTokens && 0 <= h < p.heads ==>
              state[i, h] == UpdatedCell(e, p, args, initialize, blockN, old(state[i, h]), i, h)
    ensures forall i, h :: args.qTokens <= i < state.Length0 && 0 <= h < p.heads ==> state[i, h] == old(state[i, h])
  {
    hide UpdatedCell;
    for i := 0 to args.qTokens
      invariant StateTensor(p, state)
      invariant forall j, h :: 0 <= j < i && 0 <= h < p.heads ==>
                  state[j, h] == UpdatedCell(e, p, args, initialize, blockN, old(state[j, h]), j, h)
      invariant forall j, h :: i <= j < state.Length0 && 0 <= h < p.heads ==> state[j, h] == old(state[j, h])
    {
      UpdateQueryRow(e, p, state, args, initialize, blockN, i);
    }
  }

  // All heads of one query row.
  method UpdateQueryRow(e: real -> real, p: Problem, state: array2<State>, args: TileArgs,
                        initialize: bool, blockN: nat, i: nat)
    requires args.Fits(p) && StateTensor(p, state) && i < args.qTokens <= state.Length0 && blockN > 0
    modifies state
    ensures StateTensor(p, state)
    ensures forall h :: 0 <= h < p.heads ==>
              state[i, h] == UpdatedCell(e, p, args, initialize, blockN, old(state[i, h]), i, h)
    ensures forall j, h :: 0 <= j < state.Length0 && j != i && 0 <= h < p.heads ==> state[j, h] == old(state[j, h])
  {
    hide UpdatedCell;
    for h := 0 to p.heads
      invariant StateTensor(p, state)
      invariant forall g :: 0 <= g < h ==>
                  state[i, g] == UpdatedCell(e, p, args, initialize, blockN, old(state[i, g]), i, g)
      invariant forall g :: h <= g < p.heads ==> state[i, g] == old(state[i, g])
      invariant forall j, g :: 0 <= j < state.Length0 && j != i && 0 <= g < p.heads ==> state[j, g] == old(state[j, g])
    {
      var t := UpdateCell(e, p, args, initialize, blockN, state[i, h], i, h);
      state[i, h] := t;
    }
  }

  method UpdateCell(e: real -> real, p: Problem, args: TileArgs, initialize: bool, blockN: nat,
                    s: State, i: nat, h: nat) returns (t: State)
    requires args.Fits(p) && blockN > 0 && i < args.qTokens && h < p.heads && |s.acc| == p.dim
    ensures t == UpdatedCell(e, p, args, initialize, blockN, s, i, h) && |t.acc| == p.dim
  {
    t := StreamRow(e, if initialize then InitialState(p.dim) else s, args.Items(p, h, i), blockN);
  }

  method FinalizeAttention(p: Problem, state: array2<State>, qTokens: nat, out: array2<Vec>, outStart: nat)
    requires StateTensor(p, state) && qTokens <= state.Length0
    requires outStart + qTokens <= out.Length0 && out.Length1 == p.heads
    modifies out
    ensures forall r, h :: 0 <= r < out.Length0 && 0 <= h < p.heads ==>
              out[r, h] == if outStart <= r < outStart + qTokens then FinalizeRow(state[r - outStart, h]) else old(out[r, h])
  {
    for i := 0 to qTokens
      invariant forall r, h :: 0 <= r < out.Length0 && 0 <= h < p.heads ==>
                  out[r, h] == if outStart <= r < outStart + i then FinalizeRow(state[r - outStart, h]) else old(out[r, h])
    {
      for h := 0 to p.heads
        invariant forall r, g :: 0 <= r < out.Length0 && 0 <= g < p.heads ==>
                    out[r, g] == if outStart <= r < outStart + i || (r == outStart + i && g < h)
                                 then FinalizeRow(state[r - outStart, g]) else old(out[r, g])
      {
        hide FinalizeRow;
        out[outStart + i, h] := FinalizeRow(state[i, h]);
      }
    }
  }
}
