/** The tiled reference: packed segments, query tiles, K/V tiles, one fold per tile. */
module AttentionReference {
  import opened Softmax
  import opened AttentionKernel
  import opened AttentionFormula

  // `row` is one-shot attention of the query seen through `w` over keys start..stop.
  ghost predicate IsAttention(e: real -> real, p: Problem, row: Vec, w: View, start: nat, stop: nat)
    requires w.Fits(p) && start <= stop <= |p.k|
  {
    |row| == p.dim && forall c :: 0 <= c < p.dim ==> row[c] == Attention(e, RowItems(p, w, start, stop), c)
  }

  // A state that has seen the keys start..stop of its segment.
  ghost predicate Streamed(e: real -> real, p: Problem, s: State, w: View, start: nat, stop: nat)
    requires w.Fits(p) && start <= stop <= |p.k|
  {
    |s.acc| == p.dim && Represents(e, s, RowItems(p, w, start, stop))
  }

  /** One more tile: the state has then seen the keys up to the tile's end. */
  lemma TileExtends(e: real -> real, p: Problem, s: State, w: View, start: nat, mid: nat, stop: nat, blockN: nat)
    requires Exponential(e) && blockN > 0 && w.Fits(p) && start <= mid <= stop <= |p.k|
    requires Streamed(e, p, s, w, start, mid)
    ensures var items := RowItems(p, w.(kPos := w.kPos + mid - start), mid, stop);
            Streamed(e, p, FoldTile(e, s, items, blockN, 0), w, start, stop)
  {
    var seen := RowItems(p, w, start, mid);
    var items := RowItems(p, w.(kPos := w.kPos + mid - start), mid, stop);
    RowItemsConcat(p, w, start, mid, stop);
    assert seen + items[..0] == seen;
    FoldTileRepresents(e, s, seen, items, blockN, 0);
  }

  lemma FinalizedIsAttention(e: real -> real, p: Problem, s: State, w: View, start: nat, stop: nat)
    requires Exponential(e) && w.Fits(p) && start <= stop <= |p.k| && Streamed(e, p, s, w, start, stop)
    ensures IsAttention(e, p, FinalizeRow(s), w, start, stop)
  {
    forall c | 0 <= c < p.dim
      ensures FinalizeRow(s)[c] == Attention(e, RowItems(p, w, start, stop), c)
    {
      FinalizeIsAttention(e, s, RowItems(p, w, start, stop), c);
    }
  }

  function Lesser(a: nat, b: nat): nat {
    if a < b then a else b
  }

  // The causal view of query row r in a packed segment, aligned at the bottom right.
  function SegmentView(h: nat, r: nat, qStart: nat, qStop: nat, kStart: nat, kStop: nat, causal: bool): View {
    View(h, r, r - qStart, 0, (kStop - kStart) - (qStop - qStart), causal)
  }

  /** Attention through the segment's view is the attention formula of the segment. */
  lemma RowIsFormula(e: real -> real, p: Problem, row: Vec, h: nat, r: nat, qStart: nat, qStop: nat, kStart: nat, kStop: nat, causal: bool)
    requires p.Valid() && h < p.heads && r < |p.q| && kStart <= kStop <= |p.k|
    requires IsAttention(e, p, row, SegmentView(h, r, qStart, qStop, kStart, kStop, causal), kStart, kStop)
    ensures IsFormula(e, p, row, Span(qStart, qStop, kStart, kStop), causal, h, r)
  {
    hide Attention, Formula;
    forall c | 0 <= c < p.dim
      ensures row[c] == Formula(e, p, Span(qStart, qStop, kStart, kStop), causal, h, r, c)
    {
      AttentionIsFormula(e, p, SegmentView(h, r, qStart, qStop, kStart, kStop, causal), Span(qStart, qStop, kStart, kStop), c);
    }
  }

  ghost predicate Bounds(b: seq<nat>, total: nat) {
    && |b| >= 2 && b[0] == 0 && b[|b| - 1] == total
    && forall i, j :: 0 <= i <= j < |b| ==> b[i] <= b[j]
  }

  lemma NothingStreamed(e: real -> real, p: Problem, kStart: nat)
    requires p.Valid() && kStart <= |p.k|
    ensures forall w: View :: w.Fits(p) ==> Streamed(e, p, InitialState(p.dim), w, kStart, kStart)
  {
    InitialRepresents(e, p.dim);
  }

  // Streams one query tile over its whole key segment and writes its rows.
  method AttendQueryTile(e: real -> real, p: Problem, qStart: nat, qStop: nat, kStart: nat, kStop: nat,
                         tileStart: nat, tileStop: nat, kvChunk: nat, causal: bool, out: array2<Vec>)
    requires Exponential(e) && p.Valid() && kvChunk > 0
    requires qStart <= tileStart <= tileStop <= qStop <= |p.q| && kStart <= kStop <= |p.k|
    requires out.Length0 == |p.q| && out.Length1 == p.heads
    modifies out
    ensures forall r, h :: tileStart <= r < tileStop && 0 <= h < p.heads ==>
              IsAttention(e, p, out[r, h], SegmentView(h, r, qStart, qStop, kStart, kStop, causal), kStart, kStop)
    ensures forall r, h :: 0 <= r < |p.q| && 0 <= h < p.heads && !(tileStart <= r < tileStop) ==>
              out[r, h] == old(out[r, h])
  {
    hide Exponential, Streamed, IsAttention;
    var tokens := tileStop - tileStart;
    var shift := (kStop - kStart) - (qStop - qStart);
    var state := new State[tokens, p.heads]((_, _) => InitialState(p.dim));
    NothingStreamed(e, p, kStart);
    var start := kStart;
    while start < kStop
      invariant kStart <= start <= kStop
      invariant StateTensor(p, state)
      invariant forall i, h :: 0 <= i < tokens && 0 <= h < p.heads ==>
                  Streamed(e, p, state[i, h], SegmentView(h, tileStart + i, qStart, qStop, kStart, kStop, causal), kStart, start)
      invariant forall r, h :: 0 <= r < |p.q| && 0 <= h < p.heads ==> out[r, h] == old(out[r, h])
    {
      var stop := Lesser(start + kvChunk, kStop);
      var args := TileArgs(tileStart, tokens, start, stop - start, tileStart - qStart, start - kStart, shift, causal);
      label before:
      UpdateAttentionState(e, p, state, args, false, stop - start);
      forall i, h | 0 <= i < tokens && 0 <= h < p.heads
        ensures Streamed(e, p, state[i, h], SegmentView(h, tileStart + i, qStart, qStop, kStart, kStop, causal), kStart, stop)
      {
        var w := SegmentView(h, tileStart + i, qStart, qStop, kStart, kStop, causal);
        assert args.Row(h, i) == w.(kPos := w.kPos + start - kStart);
        TileExtends(e, p, old@before(state[i, h]), w, kStart, start, stop, stop - start);
      }
      start := stop;
    }
    FinalizeAttention(p, state, tokens, out, tileStart);
    forall r, h | tileStart <= r < tileStop && 0 <= h < p.heads
      ensures IsAttention(e, p, out[r, h], SegmentView(h, r, qStart, qStop, kStart, kStop, causal), kStart, kStop)
    {
      FinalizedIsAttention(e, p, state[r - tileStart, h], SegmentView(h, r, qStart, qStop, kStart, kStop, causal), kStart, kStop);
    }
  }

  /**
   Reference attention over packed segments: for every chunking of queries and keys,
   each row is one-shot attention over its own segment, which is the attention formula
   of the host tensors, or the call is refused.
   */
  method StreamingAttentionReference(e: real -> real, p: Problem, qBounds: seq<nat>, kBounds: seq<nat>,
                                     qChunk: int, kvChunk: int, causal: bool, out: array2<Vec>) returns (ok: bool)
    requires Exponential(e) && p.Valid() && out.Length0 == |p.q| && out.Length1 == p.heads
    requires Bounds(qBounds, |p.q|) && Bounds(kBounds, |p.k|) && |qBounds| == |kBounds|
    modifies out
    ensures ok <==> qChunk > 0 && kvChunk > 0
    ensures !ok ==> forall r, h :: 0 <= r < |p.q| && 0 <= h < p.heads ==> out[r, h] == old(out[r, h])
    ensures ok ==> forall b, r, h :: 0 <= b < |qBounds| - 1 && qBounds[b] <= r < qBounds[b + 1] && 0 <= h < p.heads ==>
              IsAttention(e, p, out[r, h],
                SegmentView(h, r, qBounds[b], qBounds[b + 1], kBounds[b], kBounds[b + 1], causal), kBounds[b], kBounds[b + 1])
    ensures ok ==> forall b, r, h :: 0 <= b < |qBounds| - 1 && qBounds[b] <= r < qBounds[b + 1] && 0 <= h < p.heads ==>
              IsFormula(e, p, out[r, h], Span(qBounds[b], qBounds[b + 1], kBounds[b], kBounds[b + 1]), causal, h, r)
  {
    hide IsAttention, IsFormula, Exponential;
    if qChunk <= 0 || kvChunk <= 0 {
      return false;
    }
    for n := 0 to |qBounds| - 1
      invariant forall b, r, h :: 0 <= b < n && qBounds[b] <= r < qBounds[b + 1] && 0 <= h < p.heads ==>
                  IsAttention(e, p, out[r, h],
                    SegmentView(h, r, qBounds[b], qBounds[b + 1], kBounds[b], kBounds[b + 1], causal), kBounds[b], kBounds[b + 1])
    {
      label before:
      AttendSegment(e, p, qBounds[n], qBounds[n + 1], kBounds[n], kBounds[n + 1], qChunk, kvChunk, causal, out);
      forall b, r, h | 0 <= b < n && qBounds[b] <= r < qBounds[b + 1] && 0 <= h < p.heads
        ensures out[r, h] == old@before(out[r, h])
      {
        assert r < qBounds[b + 1] <= qBounds[n];
      }
    }
    forall b, r, h | 0 <= b < |qBounds| - 1 && qBounds[b] <= r < qBounds[b + 1] && 0 <= h < p.heads
      ensures IsFormula(e, p, out[r, h], Span(qBounds[b], qBounds[b + 1], kBounds[b], kBounds[b + 1]), causal, h, r)
    {
      RowIsFormula(e, p, out[r, h], h, r, qBounds[b], qBounds[b + 1], kBounds[b], kBounds[b + 1], causal);
    }
    return true;
  }

  method AttendSegment(e: real -> real, p: Problem, qStart: nat, qStop: nat, kStart: nat, kStop: nat,
                       qChunk: nat, kvChunk: nat, causal: bool, out: array2<Vec>)
    requires Exponential(e) && p.Valid() && qChunk > 0 && kvChunk > 0
    requires qStart <= qStop <= |p.q| && kStart <= kStop <= |p.k|
    requires out.Length0 == |p.q| && out.Length1 == p.heads
    modifies out
    ensures forall r, h :: qStart <= r < qStop && 0 <= h < p.heads ==>
              IsAttention(e, p, out[r, h], SegmentView(h, r, qStart, qStop, kStart, kStop, causal), kStart, kStop)
    ensures forall r, h :: 0 <= r < |p.q| && 0 <= h < p.heads && !(qStart <= r < qStop) ==> out[r, h] == old(out[r, h])
  {
    hide IsAttention, Exponential;
    var tile := qStart;
    while tile < qStop
      invariant qStart <= tile <= qStop
      invariant forall r, h :: qStart <= r < tile && 0 <= h < p.heads ==>
                  IsAttention(e, p, out[r, h], SegmentView(h, r, qStart, qStop, kStart, kStop, causal), kStart, kStop)
      invariant forall r, h :: 0 <= r < |p.q| && 0 <= h < p.heads && !(qStart <= r < tile) ==> out[r, h] == old(out[r, h])
    {
      var stop := Lesser(tile + qChunk, qStop);
      AttendQueryTile(e, p, qStart, qStop, kStart, kStop, tile, stop, kvChunk, causal, out);
      tile := stop;
    }
  }
}
