/** Encoded projections: cutting packed segments into ranges, storing encoded blocks, and loading tiles back. */
module SolMaterialized {
  import opened SolMeaning

  datatype SegmentLayout = SegmentLayout(tokenStart: nat, tokenStop: nat, blockStart: nat, blockStop: nat)

  datatype ProjectionRange = ProjectionRange(tokenStart: nat, tokenStop: nat, blockStart: nat, blockStop: nat)

  // ----- Segment layout

  ghost predicate Packed(bounds: seq<int>) {
    && |bounds| >= 2 && bounds[0] == 0 && bounds[|bounds| - 1] > 0
    && forall i, j :: 0 <= i <= j < |bounds| ==> bounds[i] <= bounds[j]
  }

  ghost predicate WellBounded(bounds: seq<int>, capacity: nat) {
    Packed(bounds) && bounds[|bounds| - 1] <= capacity
  }

  function BlockTotal(bounds: seq<int>, n: nat): nat
    requires n < |bounds| && forall i, j :: 0 <= i <= j < |bounds| ==> bounds[i] <= bounds[j]
  {
    if n == 0 then 0 else BlockTotal(bounds, n - 1) + Blocks(bounds[n] - bounds[n - 1])
  }

  // The segments in order, each with its own run of blocks.
  ghost predicate LaidOut(segments: seq<SegmentLayout>, bounds: seq<int>) {
    && Packed(bounds) && |segments| <= |bounds| - 1
    && forall s :: 0 <= s < |segments| ==>
         segments[s] == SegmentLayout(bounds[s], bounds[s + 1], BlockTotal(bounds, s), BlockTotal(bounds, s + 1))
  }

  lemma SegmentAt(segments: seq<SegmentLayout>, bounds: seq<int>, s: nat)
    requires LaidOut(segments, bounds) && s < |segments|
    ensures Packed(bounds) && segments[s].tokenStart == bounds[s] <= bounds[s + 1] == segments[s].tokenStop <= bounds[|bounds| - 1]
    ensures segments[s].blockStart == BlockTotal(bounds, s) && segments[s].blockStop == BlockTotal(bounds, s + 1)
    ensures segments[s].blockStop == segments[s].blockStart + Blocks(segments[s].tokenStop - segments[s].tokenStart)
  {
    var total := BlockTotal(bounds, s + 1);
  }

  lemma {:induction false} TotalsGrow(bounds: seq<int>, s: nat, r: nat)
    requires Packed(bounds) && s <= r < |bounds|
    ensures BlockTotal(bounds, s) <= BlockTotal(bounds, r)
    decreases r
  {
    if s < r {
      TotalsGrow(bounds, s, r - 1);
    }
  }

  // A block belongs to one segment.
  lemma OneSegment(segments: seq<SegmentLayout>, bounds: seq<int>, s: nat, r: nat, x: nat)
    requires LaidOut(segments, bounds) && s < |segments| && r < |segments|
    requires segments[s].blockStart <= x < segments[s].blockStop && segments[r].blockStart <= x < segments[r].blockStop
    ensures s == r
  {
    SegmentAt(segments, bounds, s);
    SegmentAt(segments, bounds, r);
    if s < r {
      TotalsGrow(bounds, s + 1, r);
    } else if r < s {
      TotalsGrow(bounds, r + 1, s);
    }
  }

  // ----- Ranges

  // A run of whole blocks of the segment, or up to its end.
  predicate InSegment(range: ProjectionRange, segment: SegmentLayout) {
    && segment.tokenStart <= range.tokenStart < range.tokenStop <= segment.tokenStop
    && (range.tokenStart - segment.tokenStart) % BLOCK_TOKENS == 0
    && (range.tokenStop == segment.tokenStop || (range.tokenStop - segment.tokenStart) % BLOCK_TOKENS == 0)
    && range.blockStart == segment.blockStart + (range.tokenStart - segment.tokenStart) / BLOCK_TOKENS
    && range.blockStop == range.blockStart + Blocks(range.tokenStop - range.tokenStart)
  }

  ghost predicate InSome(range: ProjectionRange, segments: seq<SegmentLayout>) {
    exists s :: 0 <= s < |segments| && InSegment(range, segments[s])
  }

  function TokensBefore(ranges: seq<ProjectionRange>, n: nat): nat
    requires n <= |ranges|
  {
    if n == 0 then 0 else ranges[n - 1].tokenStop
  }

  function BlocksBefore(ranges: seq<ProjectionRange>, n: nat): nat
    requires n <= |ranges|
  {
    if n == 0 then 0 else ranges[n - 1].blockStop
  }

  predicate Follows(ranges: seq<ProjectionRange>, n: nat, tile: nat)
    requires n < |ranges|
  {
    && ranges[n].tokenStart == TokensBefore(ranges, n) && ranges[n].blockStart == BlocksBefore(ranges, n)
    && ranges[n].tokenStart < ranges[n].tokenStop <= ranges[n].tokenStart + tile
  }

  // Tokens and blocks from zero on, end to end, without crossing a segment.
  ghost predicate Partitions(ranges: seq<ProjectionRange>, segments: seq<SegmentLayout>, tile: nat) {
    && (forall n: nat :: n < |ranges| ==> Follows(ranges, n, tile))
    && (forall n :: 0 <= n < |ranges| ==> InSome(ranges[n], segments))
  }

  lemma Appended(ranges: seq<ProjectionRange>, segments: seq<SegmentLayout>, tile: nat, next: ProjectionRange, s: nat)
    requires Partitions(ranges, segments, tile) && s < |segments| && InSegment(next, segments[s])
    requires next.tokenStart == TokensBefore(ranges, |ranges|) && next.blockStart == BlocksBefore(ranges, |ranges|)
    requires next.tokenStart < next.tokenStop <= next.tokenStart + tile
    ensures Partitions(ranges + [next], segments, tile)
  {
    hide InSegment;
    var longer := ranges + [next];
    forall n: nat | n < |longer|
      ensures Follows(longer, n, tile) && InSome(longer[n], segments)
    {
      if n < |ranges| {
        assert Follows(ranges, n, tile) && InSome(ranges[n], segments);
        assert longer[n] == ranges[n] && (n > 0 ==> longer[n - 1] == ranges[n - 1]);
      } else {
        assert InSome(next, segments);
      }
    }
  }

  // The rest of the segment where the tile holds it, and otherwise as many whole blocks as the tile holds.
  predicate Full(range: ProjectionRange, segment: SegmentLayout, tile: nat) {
    && InSegment(range, segment)
    && if segment.tokenStop <= range.tokenStart + tile then range.tokenStop == segment.tokenStop
       else range.tokenStop <= range.tokenStart + tile < range.tokenStop + BLOCK_TOKENS
  }

  ghost predicate FullOne(range: ProjectionRange, segments: seq<SegmentLayout>, tile: nat) {
    exists s :: 0 <= s < |segments| && Full(range, segments[s], tile)
  }

  // No range could be longer.
  ghost predicate Filled(ranges: seq<ProjectionRange>, segments: seq<SegmentLayout>, tile: nat) {
    forall n :: 0 <= n < |ranges| ==> FullOne(ranges[n], segments, tile)
  }

  lemma FilledAppended(ranges: seq<ProjectionRange>, segments: seq<SegmentLayout>, tile: nat, next: ProjectionRange, s: nat)
    requires Filled(ranges, segments, tile) && s < |segments| && Full(next, segments[s], tile)
    ensures Filled(ranges + [next], segments, tile)
  {
    hide Full;
    assert FullOne(next, segments, tile);
  }

  // Tokens of the next range, zero when the tile holds no whole block.
  function TileTokens(remaining: nat, tile: nat): (tokens: nat)
    ensures tokens <= remaining && tokens <= tile
  {
    if remaining > tile then tile - tile % BLOCK_TOKENS else remaining
  }

  // The next range of a segment, from a whole number of blocks into it.
  lemma NextRange(segment: SegmentLayout, local: nat, tile: nat)
    requires segment.tokenStart + local < segment.tokenStop && local % BLOCK_TOKENS == 0
    requires segment.blockStop == segment.blockStart + Blocks(segment.tokenStop - segment.tokenStart)
    requires TileTokens(segment.tokenStop - segment.tokenStart - local, tile) > 0
    ensures var tokens := TileTokens(segment.tokenStop - segment.tokenStart - local, tile);
            var range := ProjectionRange(segment.tokenStart + local, segment.tokenStart + local + tokens,
                                         segment.blockStart + local / BLOCK_TOKENS,
                                         segment.blockStart + local / BLOCK_TOKENS + Blocks(tokens));
            && InSegment(range, segment) && Full(range, segment, tile)
            && (segment.tokenStart + local + tokens == segment.tokenStop ==> range.blockStop == segment.blockStop)
            && (segment.tokenStart + local + tokens < segment.tokenStop ==>
                  (local + tokens) % BLOCK_TOKENS == 0
                  && range.blockStop == segment.blockStart + (local + tokens) / BLOCK_TOKENS)
  {
  }

  // No segment is longer than a tile that holds no whole block.
  ghost predicate Cuttable(bounds: seq<int>, tile: nat) {
    tile >= BLOCK_TOKENS || forall s :: 0 <= s < |bounds| - 1 ==> bounds[s + 1] - bounds[s] <= tile
  }

  // ----- What the storage holds

  // The encoding of each block is that of its own tokens in its own segment.
  ghost predicate Encoded<B>(blocks: seq<B>, segments: seq<SegmentLayout>, encode: (nat, nat) -> B, limit: nat) {
    forall s, b: nat :: 0 <= s < |segments| && InBlocks(segments[s], b, limit) ==>
      segments[s].blockStart + b < |blocks| && blocks[segments[s].blockStart + b] == BlockCode(segments[s], encode, b)
  }

  predicate InBlocks(segment: SegmentLayout, b: nat, limit: nat) {
    segment.blockStart + b < segment.blockStop && segment.blockStart + b < limit
  }

  function BlockCode<B>(segment: SegmentLayout, encode: (nat, nat) -> B, b: nat): B {
    Code(encode, segment.tokenStart, segment.tokenStop, b)
  }

  // The code of block b of the tokens start..stop.
  function Code<B>(encode: (nat, nat) -> B, start: nat, stop: nat, b: nat): B {
    encode(start + b * BLOCK_TOKENS, if start + (b + 1) * BLOCK_TOKENS < stop then start + (b + 1) * BLOCK_TOKENS else stop)
  }

  predicate TokenOf(start: nat, stop: nat, b: nat, t: nat) {
    start <= t < stop && (t - start) / 64 == b
  }

  /** The code of a block encodes exactly the tokens of start..stop that lie in the block. */
  lemma CodeIs<B>(encode: (nat, nat) -> B, start: nat, stop: nat, b: nat) returns (lo: nat, hi: nat)
    requires start <= stop && b < Blocks(stop - start)
    ensures lo < hi && Code(encode, start, stop, b) == encode(lo, hi)
    ensures forall t: nat :: TokenOf(start, stop, b, t) <==> lo <= t < hi
  {
    lo := start + b * BLOCK_TOKENS;
    hi := if lo + BLOCK_TOKENS < stop then lo + BLOCK_TOKENS else stop;
  }

  function Codes<B>(encode: (nat, nat) -> B, start: nat, stop: nat): (codes: seq<B>)
    requires start <= stop
    ensures |codes| == Blocks(stop - start)
  {
    seq(Blocks(stop - start), b requires 0 <= b => Code(encode, start, stop, b))
  }

  // A range encodes its blocks as the whole segment would.
  lemma RangeCode<B>(range: ProjectionRange, segment: SegmentLayout, encode: (nat, nat) -> B, b: nat)
    requires InSegment(range, segment) && range.blockStart + b < range.blockStop
    ensures Code(encode, range.tokenStart, range.tokenStop, b)
         == BlockCode(segment, encode, range.blockStart - segment.blockStart + b)
  {
  }

  lemma RangeInside(range: ProjectionRange, segment: SegmentLayout)
    requires InSegment(range, segment)
    requires segment.blockStop == segment.blockStart + Blocks(segment.tokenStop - segment.tokenStart)
    ensures segment.blockStart <= range.blockStart < range.blockStop <= segment.blockStop
  {
  }

  lemma StoredRange<B>(before: seq<B>, after: seq<B>, segments: seq<SegmentLayout>, bounds: seq<int>, encode: (nat, nat) -> B,
                       range: ProjectionRange)
    requires LaidOut(segments, bounds) && Encoded(before, segments, encode, range.blockStart) && InSome(range, segments)
    requires |before| == |after| && range.blockStop <= |after|
    requires forall x :: 0 <= x < |after| && !(range.blockStart <= x < range.blockStop) ==> after[x] == before[x]
    requires forall b: nat :: range.blockStart + b < range.blockStop ==>
               after[range.blockStart + b] == Code(encode, range.tokenStart, range.tokenStop, b)
    ensures Encoded(after, segments, encode, range.blockStop)
  {
    hide InSegment, Code, BlockCode;
    var own :| 0 <= own < |segments| && InSegment(range, segments[own]);
    SegmentAt(segments, bounds, own);
    RangeInside(range, segments[own]);
    forall s, b: nat | 0 <= s < |segments| && InBlocks(segments[s], b, range.blockStop)
      ensures segments[s].blockStart + b < |after| && after[segments[s].blockStart + b] == BlockCode(segments[s], encode, b)
    {
      var x := segments[s].blockStart + b;
      if x < range.blockStart {
        assert InBlocks(segments[s], b, range.blockStart);
      } else {
        OneSegment(segments, bounds, s, own, x);
        var inner := x - range.blockStart;
        RangeCode(range, segments[own], encode, inner);
        assert after[range.blockStart + inner] == Code(encode, range.tokenStart, range.tokenStop, inner);
      }
    }
  }

  // ----- The producer's checks

  function Pairs(ranges: seq<ProjectionRange>): (pairs: seq<(nat, nat)>)
    ensures |pairs| == |ranges|
  {
    seq(|ranges|, n requires 0 <= n < |ranges| => (ranges[n].tokenStart, ranges[n].tokenStop))
  }

  function StopBefore(pairs: seq<(nat, nat)>, n: nat): nat
    requires n <= |pairs|
  {
    if n == 0 then 0 else pairs[n - 1].1
  }

  predicate Acceptable(pairs: seq<(nat, nat)>, n: nat, tokens: nat, tile: nat)
    requires n < |pairs|
  {
    pairs[n].0 == StopBefore(pairs, n) && pairs[n].0 < pairs[n].1 <= tokens && pairs[n].1 - pairs[n].0 <= tile
  }

  // The ranges cover the input in order, each within the tile.
  ghost predicate Covers(pairs: seq<(nat, nat)>, tokens: nat, tile: nat) {
    (forall n: nat :: n < |pairs| ==> Acceptable(pairs, n, tokens, tile)) && StopBefore(pairs, |pairs|) == tokens
  }

  lemma {:induction false} StopsGrow(ranges: seq<ProjectionRange>, segments: seq<SegmentLayout>, tile: nat, n: nat, m: nat)
    requires Partitions(ranges, segments, tile) && n <= m <= |ranges|
    ensures TokensBefore(ranges, n) <= TokensBefore(ranges, m) && BlocksBefore(ranges, n) <= BlocksBefore(ranges, m)
    ensures n < m ==> TokensBefore(ranges, n) < TokensBefore(ranges, m)
    decreases m
  {
    if n < m {
      StopsGrow(ranges, segments, tile, n, m - 1);
      assert Follows(ranges, m - 1, tile);
      assert InSome(ranges[m - 1], segments);
    }
  }

  /** Prepared ranges pass the producer's checks exactly when the input has the packed length. */
  lemma PreparedCovers(ranges: seq<ProjectionRange>, segments: seq<SegmentLayout>, tokens: nat, tile: nat)
    requires Partitions(ranges, segments, tile)
    ensures Covers(Pairs(ranges), tokens, tile) <==> tokens == TokensBefore(ranges, |ranges|)
  {
    hide InSome;
    var pairs := Pairs(ranges);
    if tokens == TokensBefore(ranges, |ranges|) {
      forall n: nat | n < |pairs|
        ensures Acceptable(pairs, n, tokens, tile)
      {
        assert Follows(ranges, n, tile);
        StopsGrow(ranges, segments, tile, n + 1, |ranges|);
      }
    }
  }

  method IndexRanges(cut: seq<ProjectionRange>, ghost segments: seq<SegmentLayout>, ghost tile: nat)
      returns (ranges: map<(nat, nat), ProjectionRange>)
    requires Partitions(cut, segments, tile)
    ensures forall n :: 0 <= n < |cut| ==> (cut[n].tokenStart, cut[n].tokenStop) in ranges
                                           && ranges[(cut[n].tokenStart, cut[n].tokenStop)] == cut[n]
  {
    ranges := map[];
    for k := 0 to |cut|
      invariant forall n :: 0 <= n < k ==> (cut[n].tokenStart, cut[n].tokenStop) in ranges
                                           && ranges[(cut[n].tokenStart, cut[n].tokenStop)] == cut[n]
    {
      forall n | 0 <= n < k
        ensures cut[n].tokenStart < cut[k].tokenStart
      {
        assert Follows(cut, n, tile) && Follows(cut, k, tile);
        StopsGrow(cut, segments, tile, n, k);
      }
      ranges := ranges[(cut[k].tokenStart, cut[k].tokenStop) := cut[k]];
    }
  }

  // ----- The source

  datatype Prepared = Ranges(ranges: seq<(nat, nat)>) | BadTile | BadBounds | TileTooSmall

  class SolMaterializedSource<V(0)> {
    const tokens: array<V>
    var blocks: array<V>
    var segments: seq<SegmentLayout>
    var ranges: map<(nat, nat), ProjectionRange>

    constructor (capacity: nat)
      ensures fresh(tokens) && tokens.Length == capacity && fresh(blocks) && tokens != blocks && segments == [] && ranges == map[]
    {
      tokens, blocks := new V[capacity], new V[0];
      segments, ranges := [], map[];
    }

    // Everything prepared for these bounds has room.
    ghost predicate Ready(bounds: seq<int>, prepared: seq<ProjectionRange>, tile: nat)
      reads this, tokens, blocks
    {
      && tokens != blocks && LaidOut(segments, bounds) && |segments| == |bounds| - 1
      && bounds[|bounds| - 1] <= tokens.Length && BlockTotal(bounds, |bounds| - 1) <= blocks.Length
      && Partitions(prepared, segments, tile)
      && TokensBefore(prepared, |prepared|) == bounds[|bounds| - 1]
      && BlocksBefore(prepared, |prepared|) == BlockTotal(bounds, |bounds| - 1)
      && forall n :: 0 <= n < |prepared| ==>
           (prepared[n].tokenStart, prepared[n].tokenStop) in ranges
           && ranges[(prepared[n].tokenStart, prepared[n].tokenStop)] == prepared[n]
    }

    method LayOut(bounds: seq<int>) returns (laid: seq<SegmentLayout>, total: nat)
      requires Packed(bounds)
      ensures LaidOut(laid, bounds) && |laid| == |bounds| - 1 && total == BlockTotal(bounds, |bounds| - 1)
    {
      laid, total := [], 0;
      for s := 0 to |bounds| - 1
        invariant LaidOut(laid, bounds) && |laid| == s && total == BlockTotal(bounds, s)
      {
        var count := Blocks(bounds[s + 1] - bounds[s]);
        laid := laid + [SegmentLayout(bounds[s], bounds[s + 1], total, total + count)];
        total := total + count;
      }
    }

    // Block storage only ever grows.
    method EnsureStorage(total: nat)
      modifies this`blocks
      ensures total <= blocks.Length && (blocks == old(blocks) || fresh(blocks))
    {
      if total > blocks.Length {
        blocks := new V[total];
      }
    }

    // Appends the ranges of one segment; fails when the tile cannot hold a block of it.
    method CutSegment(before: seq<ProjectionRange>, ghost bounds: seq<int>, laid: seq<SegmentLayout>, s: nat, tile: nat)
        returns (ok: bool, after: seq<ProjectionRange>)
      requires LaidOut(laid, bounds) && s < |laid| && Partitions(before, laid, tile)
      requires TokensBefore(before, |before|) == bounds[s] && BlocksBefore(before, |before|) == BlockTotal(bounds, s)
      requires Filled(before, laid, tile)
      ensures ok <==> tile >= BLOCK_TOKENS || bounds[s + 1] - bounds[s] <= tile
      ensures ok ==> Partitions(after, laid, tile) && TokensBefore(after, |after|) == bounds[s + 1]
                     && BlocksBefore(after, |after|) == BlockTotal(bounds, s + 1) && Filled(after, laid, tile)
    {
      hide Partitions, Filled, Full, InSegment, LaidOut, Follows;
      var segment := laid[s];
      SegmentAt(laid, bounds, s);
      after := before;
      var local := 0;
      var length := segment.tokenStop - segment.tokenStart;
      while local < length
        invariant local <= length && Partitions(after, laid, tile) && Filled(after, laid, tile)
        invariant local < length ==> local % BLOCK_TOKENS == 0
        invariant tile < BLOCK_TOKENS && length > tile ==> local == 0
        invariant TokensBefore(after, |after|) == segment.tokenStart + local
        invariant BlocksBefore(after, |after|) == if local < length then segment.blockStart + local / BLOCK_TOKENS else segment.blockStop
        decreases length - local
      {
        var count := TileTokens(length - local, tile);
        if count == 0 {
          return false, after;
        }
        NextRange(segment, local, tile);
        var block := segment.blockStart + local / BLOCK_TOKENS;
        var range := ProjectionRange(segment.tokenStart + local, segment.tokenStart + local + count, block, block + Blocks(count));
        Appended(after, laid, tile, range, s);
        FilledAppended(after, laid, tile, range, s);
        after := after + [range];
        local := local + count;
      }
      ok := true;
    }

    /**
     Refused exactly for malformed bounds or a tile too small for some segment.  Otherwise
     the ranges partition tokens and blocks together, never crossing a segment, and none
     could be longer.
     */
    method Prepare(bounds: seq<int>, tile: int) returns (result: Prepared, ghost prepared: seq<ProjectionRange>)
      requires tokens != blocks
      modifies this
      ensures result.BadTile? <==> tile <= 0
      ensures result.Ranges? <==> tile > 0 && WellBounded(bounds, tokens.Length) && Cuttable(bounds, tile)
      ensures result.BadBounds? <==> tile > 0 && !WellBounded(bounds, tokens.Length)
      ensures result.Ranges? ==> Ready(bounds, prepared, tile) && result.ranges == Pairs(prepared)
      ensures result.Ranges? ==> Filled(prepared, segments, tile)
      ensures if result.Ranges? || result.TileTooSmall? then LaidOut(segments, bounds) && |segments| == |bounds| - 1 else segments == old(segments)
      ensures !result.Ranges? ==> ranges == old(ranges)
      ensures tokens != blocks && (blocks == old(blocks) || fresh(blocks))
    {
      prepared := [];
      if tile <= 0 {
        return BadTile, prepared;
      }
      var sound := CheckBounds(bounds);
      if !sound {
        return BadBounds, prepared;
      }
      var laid, total := LayOut(bounds);
      EnsureStorage(total);
      segments := laid;
      var cut: seq<ProjectionRange> := [];
      for s := 0 to |laid|
        invariant Partitions(cut, laid, tile) && Filled(cut, laid, tile) && segments == laid && ranges == old(ranges)
        invariant TokensBefore(cut, |cut|) == bounds[s] && BlocksBefore(cut, |cut|) == BlockTotal(bounds, s)
        invariant tile >= BLOCK_TOKENS || forall r :: 0 <= r < s ==> bounds[r + 1] - bounds[r] <= tile
        invariant tokens != blocks && (blocks == old(blocks) || fresh(blocks))
        invariant total <= blocks.Length
      {
        hide Partitions, Filled, LaidOut;
        var ok, longer := CutSegment(cut, bounds, laid, s, tile);
        if !ok {
          return TileTooSmall, prepared;
        }
        cut := longer;
      }
      ranges := IndexRanges(cut, laid, tile);
      prepared := cut;
      result := Ranges(Pairs(cut));
    }

    method CheckBounds(bounds: seq<int>) returns (sound: bool)
      ensures sound <==> WellBounded(bounds, tokens.Length)
      ensures sound ==> Packed(bounds)
    {
      if |bounds| < 2 || bounds[0] != 0 || bounds[|bounds| - 1] <= 0 || bounds[|bounds| - 1] > tokens.Length {
        return false;
      }
      for i := 1 to |bounds|
        invariant forall a, b :: 0 <= a <= b < i ==> bounds[a] <= bounds[b]
      {
        if bounds[i - 1] > bounds[i] {
          return false;
        }
      }
      sound := true;
    }

    // Stores an encoded range: its tokens, and its blocks at the positions prepared for it.
    method CopyToHost(start: nat, stop: nat, rows: seq<V>, codes: seq<V>)
      requires (start, stop) in ranges && start <= stop <= tokens.Length && |rows| == stop - start
      requires var range := ranges[(start, stop)]; range.blockStart + |codes| == range.blockStop <= blocks.Length
      requires tokens != blocks
      modifies tokens, blocks
      ensures forall t :: 0 <= t < tokens.Length ==> tokens[t] == if start <= t < stop then rows[t - start] else old(tokens[t])
      ensures var range := ranges[(start, stop)];
              forall x :: 0 <= x < blocks.Length ==>
                blocks[x] == if range.blockStart <= x < range.blockStop then codes[x - range.blockStart] else old(blocks[x])
    {
      var range := ranges[(start, stop)];
      forall t | start <= t < stop {
        tokens[t] := rows[t - start];
      }
      forall x | range.blockStart <= x < range.blockStop {
        blocks[x] := codes[x - range.blockStart];
      }
    }

    // Rows and encodings as the projection gives them, up to the n-th range.
    ghost predicate Stored(row: nat -> V, encode: (nat, nat) -> V, tokenLimit: nat, blockLimit: nat)
      reads this, tokens, blocks
    {
      && tokenLimit <= tokens.Length && (forall t :: 0 <= t < tokenLimit ==> tokens[t] == row(t))
      && Encoded(blocks[..], segments, encode, blockLimit)
    }

    /**
     Projects range by range.  It fails exactly when the ranges do not cover the input,
     which for prepared ranges only a wrong input length can cause; afterwards every
     block of every segment has the encoding of its own tokens.
     */
    method RunTiles(inputTokens: nat, bounds: seq<int>, ghost prepared: seq<ProjectionRange>, pairs: seq<(nat, nat)>, tile: nat,
                    row: nat -> V, encode: (nat, nat) -> V) returns (ok: bool)
      requires Ready(bounds, prepared, tile) && pairs == Pairs(prepared)
      modifies tokens, blocks
      ensures ok <==> Covers(pairs, inputTokens, tile)
      ensures ok <==> inputTokens == bounds[|bounds| - 1]
      ensures ok ==> Stored(row, encode, inputTokens, BlockTotal(bounds, |bounds| - 1))
    {
      hide InSome, LaidOut, Encoded, Partitions, Codes, Follows;
      PreparedCovers(prepared, segments, inputTokens, tile);
      var expected := 0;
      NothingEncoded(blocks[..], segments, encode);
      for n := 0 to |pairs|
        invariant expected == TokensBefore(prepared, n) == StopBefore(pairs, n)
        invariant forall m: nat :: m < n ==> Acceptable(pairs, m, inputTokens, tile)
        invariant Stored(row, encode, expected, BlocksBefore(prepared, n))
      {
        var (start, stop) := pairs[n];
        if start != expected || !(start < stop <= inputTokens) || stop - start > tile {
          assert !Acceptable(pairs, n, inputTokens, tile);
          return false;
        }
        ProjectTile(start, stop, bounds, prepared, tile, n, row, encode);
        expected := stop;
      }
      ok := expected == inputTokens;
    }

    // One projected range, stored where it was prepared.
    method ProjectTile(start: nat, stop: nat, ghost bounds: seq<int>, ghost prepared: seq<ProjectionRange>, ghost tile: nat,
                       ghost n: nat, row: nat -> V, encode: (nat, nat) -> V)
      requires Ready(bounds, prepared, tile) && n < |prepared| && (start, stop) == Pairs(prepared)[n]
      requires Stored(row, encode, TokensBefore(prepared, n), BlocksBefore(prepared, n))
      modifies tokens, blocks
      ensures Stored(row, encode, TokensBefore(prepared, n + 1), BlocksBefore(prepared, n + 1))
    {
      hide InSome, LaidOut, Encoded, Code;
      assert Follows(prepared, n, tile) && InSome(prepared[n], segments);
      StopsGrow(prepared, segments, tile, n + 1, |prepared|);
      RangeCount(prepared[n], segments);
      ghost var before := blocks[..];
      CopyToHost(start, stop, seq(stop - start, i requires 0 <= i => row(start + i)), Codes(encode, start, stop));
      StoredRange(before, blocks[..], segments, bounds, encode, prepared[n]);
    }

    /** Loading a K/V tile delivers its rows and the encodings of its blocks. */
    method LoadKV(s: nat, localStart: nat, localStop: nat, rows: array<V>, codes: array<V>, ghost bounds: seq<int>,
                  ghost row: nat -> V, ghost encode: (nat, nat) -> V)
      requires LaidOut(segments, bounds) && s < |segments| == |bounds| - 1
      requires Stored(row, encode, bounds[|bounds| - 1], BlockTotal(bounds, |bounds| - 1))
      requires localStart % BLOCK_TOKENS == 0 && localStart < localStop <= segments[s].tokenStop - segments[s].tokenStart
      requires localStop % BLOCK_TOKENS == 0 || localStop == segments[s].tokenStop - segments[s].tokenStart
      requires localStop - localStart <= rows.Length && Blocks(localStop - localStart) <= codes.Length
      requires rows != codes && {rows, codes} !! {tokens, blocks}
      modifies rows, codes
      ensures var start, stop := segments[s].tokenStart + localStart, segments[s].tokenStart + localStop;
              && (forall i :: 0 <= i < localStop - localStart ==> rows[i] == row(start + i))
              && (forall b :: 0 <= b < Blocks(localStop - localStart) ==> codes[b] == Code(encode, start, stop, b))
    {
      hide LaidOut, Encoded, Code, BlockCode;
      var segment := segments[s];
      var tokenStart, count := segment.tokenStart + localStart, Blocks(localStop - localStart);
      var blockStart := segment.blockStart + localStart / BLOCK_TOKENS;
      ghost var range := ProjectionRange(tokenStart, segment.tokenStart + localStop, blockStart, blockStart + count);
      SegmentAt(segments, bounds, s);
      TotalsGrow(bounds, s + 1, |bounds| - 1);
      EncodedWithin(blocks[..], segments, encode, BlockTotal(bounds, |bounds| - 1), segment.blockStop);
      SegmentCodes(blocks[..], segments, bounds, encode, s, range);
      forall i | 0 <= i < localStop - localStart {
        rows[i] := tokens[tokenStart + i];
      }
      forall b | 0 <= b < count {
        codes[b] := blocks[blockStart + b];
      }
    }
  }

  // Stored blocks of a range inside a segment are the range's own codes.
  lemma SegmentCodes<B>(blocks: seq<B>, segments: seq<SegmentLayout>, bounds: seq<int>, encode: (nat, nat) -> B, s: nat, range: ProjectionRange)
    requires LaidOut(segments, bounds) && s < |segments| && InSegment(range, segments[s])
    requires Encoded(blocks, segments, encode, segments[s].blockStop)
    ensures range.blockStop <= |blocks|
    ensures forall b: nat :: range.blockStart + b < range.blockStop ==>
              blocks[range.blockStart + b] == Code(encode, range.tokenStart, range.tokenStop, b)
  {
    hide Code, BlockCode;
    SegmentAt(segments, bounds, s);
    RangeInside(range, segments[s]);
    var before := range.blockStart - segments[s].blockStart;
    var last := range.blockStop - range.blockStart - 1;
    assert InBlocks(segments[s], before + last, segments[s].blockStop);
    forall b: nat | range.blockStart + b < range.blockStop
      ensures range.blockStart + b < |blocks| && blocks[range.blockStart + b] == Code(encode, range.tokenStart, range.tokenStop, b)
    {
      assert InBlocks(segments[s], before + b, segments[s].blockStop);
      RangeCode(range, segments[s], encode, b);
    }
  }

  lemma EncodedWithin<B>(blocks: seq<B>, segments: seq<SegmentLayout>, encode: (nat, nat) -> B, limit: nat, less: nat)
    requires Encoded(blocks, segments, encode, limit) && less <= limit
    ensures Encoded(blocks, segments, encode, less)
  {
    hide BlockCode;
    forall s, b: nat | 0 <= s < |segments| && InBlocks(segments[s], b, less)
      ensures segments[s].blockStart + b < |blocks| && blocks[segments[s].blockStart + b] == BlockCode(segments[s], encode, b)
    {
      assert InBlocks(segments[s], b, limit);
    }
  }

  lemma NothingEncoded<B>(blocks: seq<B>, segments: seq<SegmentLayout>, encode: (nat, nat) -> B)
    ensures Encoded(blocks, segments, encode, 0)
  {
  }

  lemma RangeCount(range: ProjectionRange, segments: seq<SegmentLayout>)
    requires InSome(range, segments)
    ensures range.blockStop == range.blockStart + Blocks(range.tokenStop - range.tokenStart)
  {
  }
}
