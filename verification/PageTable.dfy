/** Page tables of the store: built from packed bounds, laid out as aligned records, checked on opening. */
module PageTable {
  import opened Basics
  import opened Alignment
  import opened PageLayout

  const DIRECT_IO_ALIGNMENT: nat := 4096

  predicate NonDecreasing(bounds: seq<nat>) {
    forall i, j :: 0 <= i < j < |bounds| ==> bounds[i] <= bounds[j]
  }

  // Tokens of a full page: the target size rounded down to whole blocks, at least one block.
  function TargetTokens(bytesPerToken: nat, pageTargetBytes: nat, alignment: nat): (tokens: nat)
    requires bytesPerToken > 0 && alignment > 0
    ensures tokens >= alignment
  {
    Max(alignment, AlignDown(Max(alignment, pageTargetBytes / bytesPerToken), alignment))
  }

  // Pages of segment s from its local token `local` on, numbered from `first`.
  function SegmentPages(s: nat, start: nat, stop: nat, local: nat, target: nat, alignment: nat, first: nat): seq<PageDescriptor>
    requires target > 0 && alignment > 0
    decreases stop - start - local
  {
    if start + local >= stop then []
    else
      var valid := Min(target, stop - start - local);
      [PageDescriptor(first, s, start + local, local, valid, AlignUp(valid, alignment))]
      + SegmentPages(s, start, stop, local + valid, target, alignment, first + 1)
  }

  function BasePages(bounds: seq<nat>, target: nat, alignment: nat, n: nat): seq<PageDescriptor>
    requires target > 0 && alignment > 0 && n < |bounds|
  {
    if n == 0 then []
    else
      var before := BasePages(bounds, target, alignment, n - 1);
      before + SegmentPages(n - 1, bounds[n - 1], bounds[n], 0, target, alignment, |before|)
  }

  method BuildPageDescriptors(bounds: seq<nat>, bytesPerToken: nat, pageTargetBytes: nat, alignment: nat) returns (pages: seq<PageDescriptor>)
    requires |bounds| > 0 && bytesPerToken > 0 && pageTargetBytes > 0 && alignment > 0
    ensures pages == BasePages(bounds, TargetTokens(bytesPerToken, pageTargetBytes, alignment), alignment, |bounds| - 1)
  {
    var target := TargetTokens(bytesPerToken, pageTargetBytes, alignment);
    pages := [];
    for s := 0 to |bounds| - 1
      invariant pages == BasePages(bounds, target, alignment, s)
    {
      pages := CutSegment(pages, s, bounds[s], bounds[s + 1], target, alignment);
    }
  }

  // Appends one segment's pages.
  method CutSegment(before: seq<PageDescriptor>, s: nat, start: nat, stop: nat, target: nat, alignment: nat) returns (pages: seq<PageDescriptor>)
    requires target > 0 && alignment > 0
    ensures pages == before + SegmentPages(s, start, stop, 0, target, alignment, |before|)
  {
    hide AlignUp;
    pages := before;
    var local := 0;
    while start + local < stop
      invariant pages + SegmentPages(s, start, stop, local, target, alignment, |pages|)
             == before + SegmentPages(s, start, stop, 0, target, alignment, |before|)
      decreases stop - start - local
    {
      var valid := Min(target, stop - start - local);
      var page := PageDescriptor(|pages|, s, start + local, local, valid, AlignUp(valid, alignment));
      ghost var rest := SegmentPages(s, start, stop, local + valid, target, alignment, |pages| + 1);
      assert pages + ([page] + rest) == (pages + [page]) + rest;
      pages := pages + [page];
      local := local + valid;
    }
    assert pages + [] == pages;
  }

  // ----- Records

  function FileSize(pages: seq<PageDescriptor>): nat {
    if pages == [] then 0 else pages[|pages| - 1].fileOffset + pages[|pages| - 1].storageBytes
  }

  // The page's record: keys, values, then both scale regions, padded to the I/O alignment.
  function KVRecord(page: PageDescriptor, layout: KVLayout, offset: nat): PageDescriptor
    requires layout.groupTokens > 0
  {
    var tensor, scales := layout.TensorBytes(page.paddedTokens), layout.ScaleBytes(page.paddedTokens);
    var payload := 2 * tensor + 2 * scales;
    var storage := AlignUp(payload, DIRECT_IO_ALIGNMENT);
    page.(fileOffset := offset, payloadBytes := payload, storageBytes := storage, paddingBytes := storage - payload,
          kBytes := tensor, vOffset := tensor, vBytes := tensor,
          kScaleOffset := if layout.int8 then 2 * tensor else 0,
          vScaleOffset := if layout.int8 then 2 * tensor + scales else 0,
          scaleBytes := scales)
  }

  function KVRecords(pages: seq<PageDescriptor>, layout: KVLayout): (records: seq<PageDescriptor>)
    requires layout.groupTokens > 0
    ensures |records| == |pages|
  {
    if pages == [] then []
    else
      var before := KVRecords(pages[..|pages| - 1], layout);
      before + [KVRecord(pages[|pages| - 1], layout, FileSize(before))]
  }

  method BuildKVRecords(pages: seq<PageDescriptor>, layout: KVLayout) returns (records: seq<PageDescriptor>)
    requires layout.groupTokens > 0
    ensures records == KVRecords(pages, layout)
  {
    records := [];
    var offset := 0;
    for i := 0 to |pages|
      invariant records == KVRecords(pages[..i], layout) && offset == FileSize(records)
    {
      hide KVLayout.TensorBytes, KVLayout.ScaleBytes;
      assert pages[..i + 1][..i] == pages[..i];
      var record := KVRecord(pages[i], layout, offset);
      records := records + [record];
      offset := offset + record.storageBytes;
    }
    assert pages[..|pages|] == pages;
  }

  // A query page's record is its rows alone.
  function QRecord(page: PageDescriptor, bytesPerToken: nat, offset: nat): PageDescriptor {
    var payload := page.paddedTokens * bytesPerToken;
    var storage := AlignUp(payload, DIRECT_IO_ALIGNMENT);
    page.(fileOffset := offset, payloadBytes := payload, storageBytes := storage, paddingBytes := storage - payload)
  }

  function QRecords(pages: seq<PageDescriptor>, bytesPerToken: nat): (records: seq<PageDescriptor>)
    ensures |records| == |pages|
  {
    if pages == [] then []
    else
      var before := QRecords(pages[..|pages| - 1], bytesPerToken);
      before + [QRecord(pages[|pages| - 1], bytesPerToken, FileSize(before))]
  }

  method BuildQRecords(pages: seq<PageDescriptor>, bytesPerToken: nat) returns (records: seq<PageDescriptor>)
    ensures records == QRecords(pages, bytesPerToken)
  {
    records := [];
    var offset := 0;
    for i := 0 to |pages|
      invariant records == QRecords(pages[..i], bytesPerToken) && offset == FileSize(records)
    {
      assert pages[..i + 1][..i] == pages[..i];
      var record := QRecord(pages[i], bytesPerToken, offset);
      records := records + [record];
      offset := offset + record.storageBytes;
    }
    assert pages[..|pages|] == pages;
  }

  // Aligned, and each record starts where the one before it ends.
  ghost predicate Laid(records: seq<PageDescriptor>) {
    && (forall i :: 0 <= i < |records| ==> AlignedRecord(records[i]))
    && (forall i :: 0 <= i < |records| ==> records[i].fileOffset == FileSize(records[..i]))
  }

  predicate AlignedRecord(page: PageDescriptor) {
    && page.fileOffset % DIRECT_IO_ALIGNMENT == 0 && page.storageBytes % DIRECT_IO_ALIGNMENT == 0
    && page.payloadBytes + page.paddingBytes == page.storageBytes
  }

  lemma LaidExtends(records: seq<PageDescriptor>, next: PageDescriptor)
    requires Laid(records) && next.fileOffset == FileSize(records)
    requires next.storageBytes % DIRECT_IO_ALIGNMENT == 0 && next.payloadBytes + next.paddingBytes == next.storageBytes
    ensures Laid(records + [next])
  {
    if records != [] {
      var last := records[|records| - 1];
      assert AlignedRecord(last);
      MultiplesAdd(last.fileOffset, last.storageBytes, DIRECT_IO_ALIGNMENT);
    }
    forall i | 0 <= i < |records + [next]|
      ensures (records + [next])[i].fileOffset == FileSize((records + [next])[..i])
    {
      assert (records + [next])[..i] == records[..i];
      assert records[..|records|] == records;
    }
  }

  lemma {:induction false} KVRecordsLaid(pages: seq<PageDescriptor>, layout: KVLayout)
    requires layout.groupTokens > 0
    ensures Laid(KVRecords(pages, layout))
    decreases |pages|
  {
    if pages != [] {
      hide KVLayout.TensorBytes, KVLayout.ScaleBytes;
      var before := KVRecords(pages[..|pages| - 1], layout);
      KVRecordsLaid(pages[..|pages| - 1], layout);
      LaidExtends(before, KVRecord(pages[|pages| - 1], layout, FileSize(before)));
    }
  }

  lemma {:induction false} QRecordsLaid(pages: seq<PageDescriptor>, bytesPerToken: nat)
    ensures Laid(QRecords(pages, bytesPerToken))
    decreases |pages|
  {
    if pages != [] {
      var before := QRecords(pages[..|pages| - 1], bytesPerToken);
      QRecordsLaid(pages[..|pages| - 1], bytesPerToken);
      LaidExtends(before, QRecord(pages[|pages| - 1], bytesPerToken, FileSize(before)));
    }
  }

  /** Records of a laid-out file never overlap. */
  lemma {:induction false} RecordsDisjoint(records: seq<PageDescriptor>, i: nat, j: nat)
    requires Laid(records) && i < j < |records|
    ensures records[i].fileOffset + records[i].storageBytes <= records[j].fileOffset
    decreases j
  {
    assert records[..j][j - 1] == records[j - 1];
    if i < j - 1 {
      RecordsDisjoint(records, i, j - 1);
    }
  }

  // The four regions of a record, in order, inside its payload.
  ghost predicate Regions(page: PageDescriptor, layout: KVLayout)
    requires layout.groupTokens > 0
  {
    var t, c := layout.TensorBytes(page.validTokens), layout.ScaleBytes(page.validTokens);
    && t <= page.vOffset && page.vOffset + t <= page.payloadBytes <= page.storageBytes
    && (layout.int8 ==> page.vOffset + t <= page.kScaleOffset && page.kScaleOffset + c <= page.vScaleOffset
                        && page.vScaleOffset + c <= page.payloadBytes)
  }

  lemma KVRecordRegions(page: PageDescriptor, layout: KVLayout, offset: nat)
    requires layout.groupTokens > 0 && page.validTokens <= page.paddedTokens
    ensures Regions(KVRecord(page, layout, offset), layout)
  {
    SizesMonotone(layout, page.validTokens, page.paddedTokens);
    hide KVLayout.TensorBytes;
  }
}
