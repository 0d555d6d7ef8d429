/** What the pages and the records of a store measure, told without the formulas that lay them out. */
module PageSizes {
  import opened Basics
  import opened Sums
  import opened Alignment
  import opened PageLayout
  import opened PageTable

  /**
   A full page is the largest whole number of blocks that fits the target size, or one
   block where none fits: a larger whole number of blocks n does not fit.
   */
  lemma TargetIsLargest(bytesPerToken: nat, pageTargetBytes: nat, alignment: nat, n: nat)
    requires bytesPerToken > 0 && alignment > 0 && n % alignment == 0
    ensures var tokens := TargetTokens(bytesPerToken, pageTargetBytes, alignment);
            && tokens % alignment == 0
            && (tokens == alignment || tokens * bytesPerToken <= pageTargetBytes)
            && (n > tokens ==> n * bytesPerToken > pageTargetBytes)
  {
    var tokens := TargetTokens(bytesPerToken, pageTargetBytes, alignment);
    var fit := pageTargetBytes / bytesPerToken;
    assert fit * bytesPerToken <= pageTargetBytes < (fit + 1) * bytesPerToken;
    if tokens > alignment {
      Scale(tokens, fit, bytesPerToken);
    }
    if n > tokens {
      var down := AlignDown(Max(alignment, fit), alignment);
      assert down <= tokens;
      MultiplesApart(down, n, alignment);
      Scale(fit + 1, n, bytesPerToken);
    }
  }

  // Different multiples are at least the alignment apart.
  lemma MultiplesApart(a: nat, b: nat, alignment: nat)
    requires alignment > 0 && a % alignment == 0 && b % alignment == 0 && a < b
    ensures a + alignment <= b
  {
    var x, y := a / alignment, b / alignment;
    assert a == x * alignment && b == y * alignment;
    if y <= x {
      Scale(y, x, alignment);
    } else {
      Scale(x + 1, y, alignment);
      assert (x + 1) * alignment == x * alignment + alignment;
    }
  }

  /** Pages of a segment: every page is full but the last, which has what is left, and they are numbered in order. */
  lemma {:induction false} PageIs(s: nat, start: nat, stop: nat, local: nat, target: nat, alignment: nat, first: nat, i: nat)
    requires target > 0 && alignment > 0 && start + local <= stop
    ensures var pages := SegmentPages(s, start, stop, local, target, alignment, first);
            && (i < |pages| <==> local + i * target < stop - start)
            && (i < |pages| ==>
                  && pages[i].pageId == first + i && pages[i].segmentId == s
                  && pages[i].segmentTokenStart == local + i * target
                  && pages[i].tokenStart == start + pages[i].segmentTokenStart
                  && pages[i].validTokens == Min(target, stop - start - pages[i].segmentTokenStart)
                  && pages[i].paddedTokens == AlignUp(pages[i].validTokens, alignment))
    decreases stop - start - local
  {
    var pages := SegmentPages(s, start, stop, local, target, alignment, first);
    if start + local < stop {
      var valid := Min(target, stop - start - local);
      var rest := SegmentPages(s, start, stop, local + valid, target, alignment, first + 1);
      assert pages[1..] == rest;
      if i > 0 {
        PageIs(s, start, stop, local + valid, target, alignment, first + 1, i - 1);
        assert i * target == (i - 1) * target + target;
        if valid < target {
          Scale(0, i - 1, target);
        }
        assert i < |pages| ==> pages[i] == rest[i - 1];
      }
    } else {
      Scale(0, i, target);
    }
  }

  // Under INT8, two bytes for each head at every token that begins a group.
  function Scales(layout: KVLayout, tokens: nat): int
    requires layout.groupTokens > 0
  {
    Count(0, tokens, Begins(layout.groupTokens, Elements(1, layout.heads, 1, 2)))
  }

  lemma TensorCounted(layout: KVLayout, tokens: nat)
    ensures layout.TensorBytes(tokens) == Elements(tokens, layout.heads, layout.headDim, layout.elementBytes)
  {
    ElementsAre(tokens, layout.heads, layout.headDim, layout.elementBytes);
    assert layout.heads * layout.headDim * layout.elementBytes == layout.heads * (layout.headDim * layout.elementBytes);
  }

  lemma ScalesCounted(layout: KVLayout, tokens: nat)
    requires layout.groupTokens > 0
    ensures layout.ScaleBytes(tokens) == if layout.int8 then Scales(layout, tokens) else 0
  {
    GroupsCounted(tokens, layout.groupTokens, Elements(1, layout.heads, 1, 2));
    ElementsAre(1, layout.heads, 1, 2);
  }

  function Begins(size: nat, each: int): int -> int
    requires size > 0
  {
    t => if t % size == 0 then each else 0
  }

  lemma {:induction false} GroupsCounted(n: nat, size: nat, each: int)
    requires size > 0
    ensures Groups(n, size) * each == Count(0, n, Begins(size, each))
  {
    if n == 0 {
      GroupsAre(0, size, 0);
    } else {
      GroupsCounted(n - 1, size, each);
      CountLast(0, n, Begins(size, each));
      GroupsStep(n, size);
      hide Count, Groups;
      OneMore(Groups(n - 1, size), each);
    }
  }

  lemma OneMore(k: nat, each: int)
    ensures (k + 1) * each == k * each + each
  {
  }

  // A group is added by the token that begins it.
  lemma GroupsStep(n: nat, size: nat)
    requires size > 0 && n > 0
    ensures Groups(n, size) == Groups(n - 1, size) + if (n - 1) % size == 0 then 1 else 0
  {
    hide Groups;
    var x := (n - 1) / size;
    assert n - 1 == x * size + (n - 1) % size && (x + 1) * size == x * size + size;
    GroupsAre(n, size, x + 1);
    GroupsAre(n - 1, size, if (n - 1) % size == 0 then x else x + 1);
  }

  lemma GroupsAre(n: nat, size: nat, k: nat)
    requires size > 0 && n <= k * size < n + size
    ensures Groups(n, size) == k
  {
    var groups := Groups(n, size);
    if groups < k {
      Scale(groups + 1, k, size);
    } else if groups > k {
      Scale(k + 1, groups, size);
    }
  }

  /**
   A record: keys, then as many bytes of values, then under INT8 the scales of the keys
   and those of the values, with nothing between them; the record ends at the first
   position aligned for direct I/O.
   */
  lemma RecordIs(page: PageDescriptor, layout: KVLayout, offset: nat)
    requires layout.groupTokens > 0
    ensures var record := KVRecord(page, layout, offset);
            && record.fileOffset == offset
            && record.kBytes == record.vBytes == Elements(page.paddedTokens, layout.heads, layout.headDim, layout.elementBytes)
            && record.scaleBytes == (if layout.int8 then Scales(layout, page.paddedTokens) else 0)
            && record.vOffset == record.kBytes
            && (if layout.int8 then record.kScaleOffset == record.vOffset + record.vBytes
                                    && record.vScaleOffset == record.kScaleOffset + record.scaleBytes
                else record.kScaleOffset == record.vScaleOffset == 0)
            && record.payloadBytes == record.kBytes + record.vBytes + record.scaleBytes + record.scaleBytes
            && record.storageBytes == record.payloadBytes + record.paddingBytes
            && record.paddingBytes < DIRECT_IO_ALIGNMENT && record.storageBytes % DIRECT_IO_ALIGNMENT == 0
  {
    hide Elements, KVLayout.TensorBytes, KVLayout.ScaleBytes;
    TensorCounted(layout, page.paddedTokens);
    ScalesCounted(layout, page.paddedTokens);
  }

  // A query record has the rows alone.
  lemma QRecordIs(page: PageDescriptor, heads: nat, headDim: nat, elementBytes: nat, offset: nat)
    ensures var record := QRecord(page, heads * headDim * elementBytes, offset);
            && record.fileOffset == offset
            && record.payloadBytes == Elements(page.paddedTokens, heads, headDim, elementBytes)
            && record.storageBytes == record.payloadBytes + record.paddingBytes
            && record.paddingBytes < DIRECT_IO_ALIGNMENT && record.storageBytes % DIRECT_IO_ALIGNMENT == 0
  {
    hide Elements;
    TensorCounted(KVLayout(heads, headDim, elementBytes, false, 1), page.paddedTokens);
  }
}
