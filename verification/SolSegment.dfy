/** Query chunking of a packed segment, and the whole segment against the reference. */
module SolSegment {
  import Alignment
  import opened Softmax
  import opened AttentionKernel
  import opened SolMeaning
  import opened SolKernel
  import opened SolStreaming
  import opened SolRunner
  import opened SolFormula

  datatype Range = Range(start: nat, stop: nat)

  function CeilDiv(a: nat, b: nat): nat
    requires b > 0
  {
    (a + b - 1) / b
  }

  lemma CeilDivBounds(a: nat, b: nat)
    requires a > 0 && b > 0
    ensures var n := CeilDiv(a, b); n > 0 && (n - 1) * b < a <= n * b
  {
    var n, r := (a + b - 1) / b, (a + b - 1) % b;
    assert a + b - 1 == n * b + r;
    assert (n - 1) * b == n * b - b;
  }

  // Consecutive nonempty ranges over 0..stop, each starting on a block boundary.
  ghost predicate Tiles(ranges: seq<Range>, stop: nat, max: nat) {
    && (ranges == [] ==> stop == 0)
    && (ranges != [] ==> ranges[0].start == 0 && ranges[|ranges| - 1].stop == stop)
    && (forall i :: 0 <= i < |ranges| ==>
          ranges[i].start < ranges[i].stop <= ranges[i].start + max && ranges[i].start % BLOCK_TOKENS == 0)
    && (forall i :: 0 < i < |ranges| ==> ranges[i - 1].stop == ranges[i].start)
  }

  // Blocks in range i.
  function BlocksOf(ranges: seq<Range>, i: nat): nat
    requires i < |ranges|
  {
    if ranges[i].start < ranges[i].stop then Blocks(ranges[i].stop - ranges[i].start) else 0
  }

  // Block counts differ by at most one, the smaller ones first: no small tail.
  ghost predicate Even(ranges: seq<Range>) {
    forall i: nat, j: nat :: i <= j < |ranges| ==> BlocksOf(ranges, i) <= BlocksOf(ranges, j) <= BlocksOf(ranges, i) + 1
  }

  // Sum of the first i block counts.
  function CountedBlocks(small: nat, base: nat, i: nat): nat {
    if i <= small then i * base else i * base + (i - small)
  }

  // The chunk counts leave room for every chunk and fit the limit.
  lemma ChunkArithmetic(tokens: nat, max: nat, chunks: nat, blocks: nat, base: nat, larger: nat)
    requires tokens > 0 && BlockAligned(max, tokens)
    requires chunks == CeilDiv(tokens, max) && blocks == CeilDiv(tokens, BLOCK_TOKENS)
    requires chunks > 0 && base == blocks / chunks && larger == blocks % chunks
    ensures base >= 1 && CountedBlocks(chunks - larger, base, chunks) == blocks
    ensures max < tokens ==> max % BLOCK_TOKENS == 0 && (base + if larger > 0 then 1 else 0) * BLOCK_TOKENS <= max
    ensures max >= tokens ==> chunks == 1
    ensures (blocks - 1) * BLOCK_TOKENS < tokens <= blocks * BLOCK_TOKENS
  {
    CeilDivBounds(tokens, max);
    CeilDivBounds(tokens, BLOCK_TOKENS);
    assert blocks == chunks * base + larger;
    if max >= tokens {
      OneChunk(tokens, max, chunks);
    } else {
      var m := max / BLOCK_TOKENS;
      assert max == m * BLOCK_TOKENS;
      FewBlocks(chunks, m, blocks, tokens);
      QuotientFits(blocks, chunks, m, base, larger);
    }
  }

  lemma OneChunk(tokens: nat, max: nat, chunks: nat)
    requires 0 < tokens <= max && chunks > 0 && (chunks - 1) * max < tokens
    ensures chunks == 1
  {
    if chunks >= 2 {
      assert (chunks - 1) * max >= max by { Alignment.Scale(1, chunks - 1, max); }
    }
  }

  lemma FewBlocks(chunks: nat, m: nat, blocks: nat, tokens: nat)
    requires chunks > 0 && m > 0 && (blocks - 1) * BLOCK_TOKENS < tokens <= chunks * (m * BLOCK_TOKENS)
    requires (chunks - 1) * (m * BLOCK_TOKENS) < tokens <= blocks * BLOCK_TOKENS
    ensures chunks <= blocks <= chunks * m
  {
    assert chunks * (m * BLOCK_TOKENS) == (chunks * m) * BLOCK_TOKENS;
    assert (chunks - 1) * (m * BLOCK_TOKENS) == ((chunks - 1) * m) * BLOCK_TOKENS;
    Alignment.Scale(1, m, chunks - 1);
  }

  lemma QuotientFits(blocks: nat, chunks: nat, m: nat, base: nat, larger: nat)
    requires chunks > 0 && blocks == chunks * base + larger && larger < chunks && chunks <= blocks <= chunks * m
    ensures base >= 1 && base + (if larger > 0 then 1 else 0) <= m
  {
    if base >= m && larger > 0 {
      Alignment.Scale(m, base, chunks);
    } else if base > m {
      Alignment.Scale(m + 1, base, chunks);
    }
  }

  lemma CountedStep(small: nat, base: nat, i: nat)
    ensures CountedBlocks(small, base, i + 1) == CountedBlocks(small, base, i) + if i < small then base else base + 1
  {
  }

  lemma {:induction false} CountedMonotone(small: nat, base: nat, i: nat, n: nat)
    requires i <= n && base >= 1
    ensures CountedBlocks(small, base, i) + (n - i) <= CountedBlocks(small, base, n)
    decreases n - i
  {
    if i < n {
      CountedStep(small, base, i);
      CountedMonotone(small, base, i + 1, n);
    }
  }

  // How many chunks, how many blocks each has at least, and how many have one more.
  method ChunkCounts(tokens: nat, maxChunk: nat) returns (chunks: nat, blocks: nat, base: nat, larger: nat)
    requires tokens > 0 && BlockAligned(maxChunk, tokens)
    ensures chunks == CeilDiv(tokens, maxChunk) && larger < chunks && base >= 1
    ensures CountedBlocks(chunks - larger, base, chunks) == blocks
    ensures maxChunk < tokens ==> (base + if larger > 0 then 1 else 0) * BLOCK_TOKENS <= maxChunk
    ensures maxChunk >= tokens ==> chunks == 1
    ensures (blocks - 1) * BLOCK_TOKENS < tokens <= blocks * BLOCK_TOKENS
  {
    chunks := CeilDiv(tokens, maxChunk);
    blocks := CeilDiv(tokens, BLOCK_TOKENS);
    CeilDivBounds(tokens, maxChunk);
    hide CeilDiv, CountedBlocks;
    base, larger := blocks / chunks, blocks % chunks;
    ChunkArithmetic(tokens, maxChunk, chunks, blocks, base, larger);
  }

  /** Route-aligned chunks: the fewest that respect the limit, as even as whole blocks allow, none of them empty. */
  method BalancedQRanges(tokens: nat, maxChunk: nat) returns (ranges: seq<Range>)
    requires tokens > 0 && BlockAligned(maxChunk, tokens)
    ensures Tiles(ranges, tokens, maxChunk)
    ensures |ranges| == CeilDiv(tokens, maxChunk) && Even(ranges)
  {
    hide Tiles, CountedBlocks, CeilDiv, BlocksOf;
    var chunks, blocks, base, larger := ChunkCounts(tokens, maxChunk);
    var small := chunks - larger;
    ranges := [];
    var start: nat := 0;
    NoRanges(small, base, maxChunk);
    for index := 0 to chunks
      invariant |ranges| == index && Tiles(ranges, start, maxChunk)
      invariant start == if index < chunks then CountedBlocks(small, base, index) * BLOCK_TOKENS else tokens
      invariant forall i: nat :: i < index ==> BlocksOf(ranges, i) == if i < small then base else base + 1
    {
      var count := if index < small then base else base + 1;
      var stop := if index == chunks - 1 then tokens else start + count * BLOCK_TOKENS;
      NextRange(tokens, maxChunk, chunks, blocks, base, larger, index, count);
      RangeJoins(ranges, CountedBlocks(small, base, index), stop, maxChunk);
      CountsJoin(ranges, Range(start, stop), count);
      ranges := ranges + [Range(start, stop)];
      start := stop;
    }
  }

  lemma NoRanges(small: nat, base: nat, maxChunk: nat)
    ensures CountedBlocks(small, base, 0) == 0 && Tiles([], 0, maxChunk)
  {
  }

  // The next chunk is nonempty, fits, and ends where the count of the one after begins.
  lemma NextRange(tokens: nat, maxChunk: nat, chunks: nat, blocks: nat, base: nat, larger: nat, index: nat, count: nat)
    requires index < chunks && larger < chunks && base >= 1 && maxChunk > 0
    requires CountedBlocks(chunks - larger, base, chunks) == blocks
    requires maxChunk < tokens ==> (base + if larger > 0 then 1 else 0) * BLOCK_TOKENS <= maxChunk
    requires maxChunk >= tokens ==> chunks == 1
    requires (blocks - 1) * BLOCK_TOKENS < tokens <= blocks * BLOCK_TOKENS
    requires count == if index < chunks - larger then base else base + 1
    ensures var before := CountedBlocks(chunks - larger, base, index);
            var start := before * BLOCK_TOKENS;
            var stop := if index == chunks - 1 then tokens else start + count * BLOCK_TOKENS;
            && start < stop <= start + maxChunk
            && (index < chunks - 1 ==> stop == CountedBlocks(chunks - larger, base, index + 1) * BLOCK_TOKENS)
            && Blocks(stop - start) == count
  {
    hide CountedBlocks;
    var small := chunks - larger;
    CountedStep(small, base, index);
    CountedMonotone(small, base, index, chunks);
    CountedMonotone(small, base, index + 1, chunks);
    assert chunks == 1 ==> CountedBlocks(small, base, index) == 0 by {
      NoRanges(small, base, maxChunk);
    }
    ChunkFits(tokens, maxChunk, blocks, CountedBlocks(small, base, index), count, index == chunks - 1, chunks == 1);
  }

  lemma RangeJoins(ranges: seq<Range>, before: nat, stop: nat, max: nat)
    requires Tiles(ranges, before * BLOCK_TOKENS, max) && before * BLOCK_TOKENS < stop <= before * BLOCK_TOKENS + max
    ensures Tiles(ranges + [Range(before * BLOCK_TOKENS, stop)], stop, max)
  {
  }

  lemma ChunkFits(tokens: nat, max: nat, blocks: nat, before: nat, count: nat, last: bool, single: bool)
    requires (blocks - 1) * BLOCK_TOKENS < tokens <= blocks * BLOCK_TOKENS && count >= 1
    requires last ==> before + count == blocks
    requires !last ==> before + count < blocks
    requires single ==> before == 0 && last && max >= tokens
    requires !single ==> count * BLOCK_TOKENS <= max
    ensures var start := before * BLOCK_TOKENS;
            var stop := if last then tokens else start + count * BLOCK_TOKENS;
            start < stop <= start + max && Blocks(stop - start) == count
  {
  }

  lemma CountsJoin(ranges: seq<Range>, next: Range, count: nat)
    requires next.start < next.stop && Blocks(next.stop - next.start) == count
    ensures forall i: nat :: i < |ranges| ==> BlocksOf(ranges + [next], i) == BlocksOf(ranges, i)
    ensures BlocksOf(ranges + [next], |ranges|) == count
  {
  }

  lemma {:induction false} TilesLength(ranges: seq<Range>, stop: nat, max: nat)
    requires Tiles(ranges, stop, max)
    ensures stop <= |ranges| * max
    decreases |ranges|
  {
    if ranges != [] {
      var front := ranges[..|ranges| - 1];
      TilesLength(front, ranges[|ranges| - 1].start, max);
      assert |ranges| * max == |front| * max + max;
    }
  }

  /** No other chunking within the limit uses fewer chunks. */
  lemma BalancedIsMinimal(ranges: seq<Range>, tokens: nat, maxChunk: nat)
    requires tokens > 0 && maxChunk > 0 && Tiles(ranges, tokens, maxChunk)
    ensures CeilDiv(tokens, maxChunk) <= |ranges|
  {
    TilesLength(ranges, tokens, maxChunk);
    CeilDivBounds(tokens, maxChunk);
    var n := CeilDiv(tokens, maxChunk);
    if |ranges| < n {
      Alignment.Scale(|ranges|, n - 1, maxChunk);
    }
  }

  // Block counts as the even chunking has them put every start at the counted blocks.
  lemma {:induction false} StartsAre(ranges: seq<Range>, tokens: nat, max: nat, small: nat, base: nat, n: nat)
    requires Tiles(ranges, tokens, max) && n < |ranges|
    requires forall i: nat :: i < |ranges| ==> BlocksOf(ranges, i) == if i < small then base else base + 1
    ensures ranges[n].start == CountedBlocks(small, base, n) * BLOCK_TOKENS
    ensures n == |ranges| - 1 ==> Blocks(tokens) == CountedBlocks(small, base, n + 1)
  {
    hide CountedBlocks, Tiles;
    TileAt(ranges, tokens, max, n);
    if n > 0 {
      StartsAre(ranges, tokens, max, small, base, n - 1);
      CountedStep(small, base, n - 1);
      TileAt(ranges, tokens, max, n - 1);
      WholeBlocks(ranges[n - 1].start, ranges[n].start);
    } else {
      NoRanges(small, base, max);
    }
    CountedStep(small, base, n);
    if n == |ranges| - 1 {
      BlocksAfter(CountedBlocks(small, base, n), tokens);
    }
  }

  lemma TileAt(ranges: seq<Range>, tokens: nat, max: nat, n: nat)
    requires Tiles(ranges, tokens, max) && n < |ranges|
    ensures ranges[n].start < ranges[n].stop && ranges[n].start % BLOCK_TOKENS == 0
    ensures BlocksOf(ranges, n) == Blocks(ranges[n].stop - ranges[n].start)
    ensures ranges[n].stop == if n + 1 < |ranges| then ranges[n + 1].start else tokens
    ensures n == 0 ==> ranges[n].start == 0
  {
  }

  lemma WholeBlocks(start: nat, stop: nat)
    requires start < stop && start % BLOCK_TOKENS == 0 && stop % BLOCK_TOKENS == 0
    ensures stop == start + Blocks(stop - start) * BLOCK_TOKENS
  {
  }

  lemma BlocksAfter(before: nat, tokens: nat)
    requires before * BLOCK_TOKENS < tokens
    ensures Blocks(tokens) == before + Blocks(tokens - before * BLOCK_TOKENS)
  {
  }

  // Counts that grow by at most one over the whole list change once.
  lemma EvenSplits(ranges: seq<Range>) returns (small: nat, base: nat)
    requires ranges != [] && Even(ranges)
    ensures 0 < small <= |ranges|
    ensures forall i: nat :: i < |ranges| ==> BlocksOf(ranges, i) == if i < small then base else base + 1
  {
    base := BlocksOf(ranges, 0);
    small := 1;
    while small < |ranges| && BlocksOf(ranges, small) == base
      invariant 0 < small <= |ranges|
      invariant forall i: nat :: i < small ==> BlocksOf(ranges, i) == base
    {
      small := small + 1;
    }
    forall i: nat | small <= i < |ranges|
      ensures BlocksOf(ranges, i) == base + 1
    {
      assert BlocksOf(ranges, small) <= BlocksOf(ranges, i);
    }
  }

  /** There is only one chunking that even with that many chunks. */
  lemma BalancedIsUnique(one: seq<Range>, other: seq<Range>, tokens: nat, maxChunk: nat)
    requires Tiles(one, tokens, maxChunk) && Tiles(other, tokens, maxChunk) && |one| == |other|
    requires Even(one) && Even(other)
    ensures one == other
  {
    hide Tiles, Even, CountedBlocks;
    if one != [] {
      var n := |one|;
      var s, b := EvenSplits(one);
      var t, c := EvenSplits(other);
      StartsAre(one, tokens, maxChunk, s, b, n - 1);
      StartsAre(other, tokens, maxChunk, t, c, n - 1);
      SplitUnique(n, s, b, t, c);
      forall i | 0 <= i < n
        ensures one[i] == other[i]
      {
        StartsAre(one, tokens, maxChunk, s, b, i);
        StartsAre(other, tokens, maxChunk, t, c, i);
        if i + 1 < n {
          StartsAre(one, tokens, maxChunk, s, b, i + 1);
          StartsAre(other, tokens, maxChunk, t, c, i + 1);
        }
        TileAt(one, tokens, maxChunk, i);
        TileAt(other, tokens, maxChunk, i);
      }
    }
  }

  // Quotient and remainder are unique.
  lemma SplitUnique(n: nat, s: nat, b: nat, t: nat, c: nat)
    requires 0 < s <= n && 0 < t <= n && CountedBlocks(s, b, n) == CountedBlocks(t, c, n)
    ensures s == t && b == c
  {
    assert n * b + (n - s) == n * c + (n - t);
    if b < c {
      Alignment.Scale(b + 1, c, n);
    } else if c < b {
      Alignment.Scale(c + 1, b, n);
    }
  }

  // ----- The whole segment

  /**
   Streaming a segment through the Sol kernel, in aligned query chunks and K/V tiles,
   writes the reference's attention into every row, which is the routed formula of the tokens.
   */
  method AttendSegment(ghost e: real -> real, f: real -> real, ghost base: real, g: Segment,
                       qChunk: nat, kvChunk: nat, out: array<Vec>)
    requires Exponential(f) && Rebased(e, f, base) && g.Valid() && g.routeScale == g.scale * base
    requires BlockAligned(qChunk, |g.q|) && BlockAligned(kvChunk, |g.k|) && out.Length == |g.q|
    modifies out
    ensures forall row :: 0 <= row < out.Length ==>
              |out[row]| == g.dim && forall c :: 0 <= c < g.dim ==> out[row][c] == ReferenceAttention(e, g, row, c)
    ensures forall row, c :: 0 <= row < out.Length && 0 <= c < g.dim ==> |out[row]| == g.dim && out[row][c] == RoutedFormula(e, g, row, c)
  {
    hide Exponential, Rebased, ReferenceAttention, RoutedFormula;
    var ranges := BalancedQRanges(|g.q|, qChunk);
    for n := 0 to |ranges|
      invariant forall row :: 0 <= row < out.Length && row < (if n == 0 then 0 else ranges[n - 1].stop) ==>
                  |out[row]| == g.dim && forall c :: 0 <= c < g.dim ==> out[row][c] == ReferenceAttention(e, g, row, c)
    {
      RangesAligned(ranges, |g.q|, qChunk, n);
      AttendChunk(e, f, base, g, Chunk(ranges[n].start, ranges[n].stop - ranges[n].start), kvChunk, out);
    }
    forall row, c | 0 <= row < out.Length && 0 <= c < g.dim
      ensures out[row][c] == RoutedFormula(e, g, row, c)
    {
      ReferenceIsFormula(e, g, row, c);
    }
  }

  lemma RangesAligned(ranges: seq<Range>, tokens: nat, max: nat, n: nat)
    requires Tiles(ranges, tokens, max) && n < |ranges|
    ensures Chunk(ranges[n].start, ranges[n].stop - ranges[n].start).Aligned(tokens)
    ensures ranges[n].start == if n == 0 then 0 else ranges[n - 1].stop
    decreases |ranges| - n
  {
    if n + 1 < |ranges| {
      RangesAligned(ranges, tokens, max, n + 1);
    }
  }

  // One resident query chunk: the grid of its query blocks, row by row.
  method AttendChunk(ghost e: real -> real, f: real -> real, ghost base: real, g: Segment,
                     chunk: Chunk, kvChunk: nat, out: array<Vec>)
    requires Exponential(f) && Rebased(e, f, base) && g.Valid() && g.routeScale == g.scale * base
    requires chunk.Aligned(|g.q|) && BlockAligned(kvChunk, |g.k|) && out.Length == |g.q|
    modifies out
    ensures forall row :: chunk.qStart <= row < chunk.qStart + chunk.qTokens ==>
              |out[row]| == g.dim && forall c :: 0 <= c < g.dim ==> out[row][c] == ReferenceAttention(e, g, row, c)
    ensures forall row :: 0 <= row < out.Length && !(chunk.qStart <= row < chunk.qStart + chunk.qTokens) ==>
              out[row] == old(out[row])
  {
    hide Exponential, Rebased, ReferenceAttention, BlockRun, Attention, Exacts, Exact;
    for i := 0 to chunk.qTokens
      invariant forall row :: chunk.qStart <= row < chunk.qStart + i ==>
                  |out[row]| == g.dim && forall c :: 0 <= c < g.dim ==> out[row][c] == ReferenceAttention(e, g, row, c)
      invariant forall row :: 0 <= row < out.Length && !(chunk.qStart <= row < chunk.qStart + i) ==>
                  out[row] == old(out[row])
    {
      var row, j := chunk.qStart + i, i / BLOCK_TOKENS;
      RowInBlock(chunk, |g.q|, i);
      var vec, exact, approximate := AttendRow(f, KernelView(g), chunk, j, row, kvChunk);
      forall c | 0 <= c < g.dim
        ensures vec[c] == ReferenceAttention(e, g, row, c)
      {
        KernelIsReference(e, f, base, g, row, c);
      }
      out[row] := vec;
    }
  }

  lemma RowInBlock(chunk: Chunk, tokens: nat, i: nat)
    requires chunk.Aligned(tokens) && i < chunk.qTokens
    ensures i / BLOCK_TOKENS < Blocks(chunk.qTokens)
    ensures QueryBlock(chunk, i / BLOCK_TOKENS) == (chunk.qStart + i) / BLOCK_TOKENS < Blocks(tokens)
  {
  }
}
