/** A Q/K/V store from packed bounds: built, written, opened and read back. */
module PackedStore {
  import opened Basics
  import opened Alignment
  import opened Bytes
  import opened PageLayout
  import opened PageTable
  import opened PageValidation
  import opened QkvStore
  import opened QueryStore

  // ----- Base pages have room for their tokens

  lemma {:induction false} SegmentPagesRoom(s: nat, start: nat, stop: nat, local: nat, target: nat, alignment: nat, first: nat)
    requires target > 0 && alignment > 0
    ensures forall p :: p in SegmentPages(s, start, stop, local, target, alignment, first) ==> p.validTokens <= p.paddedTokens
    decreases stop - start - local
  {
    if start + local < stop {
      var valid := Min(target, stop - start - local);
      SegmentPagesRoom(s, start, stop, local + valid, target, alignment, first + 1);
    }
  }

  lemma {:induction false} BasePagesRoom(bounds: seq<nat>, target: nat, alignment: nat, n: nat)
    requires target > 0 && alignment > 0 && n < |bounds|
    ensures forall p :: p in BasePages(bounds, target, alignment, n) ==> p.validTokens <= p.paddedTokens
  {
    hide SegmentPages;
    if n > 0 {
      BasePagesRoom(bounds, target, alignment, n - 1);
      SegmentPagesRoom(n - 1, bounds[n - 1], bounds[n], 0, target, alignment, |BasePages(bounds, target, alignment, n - 1)|);
    }
  }

  // Packed bounds: they start at zero and never step back.
  ghost predicate PackedBounds(bounds: seq<nat>) {
    |bounds| > 0 && NonDecreasing(bounds)
  }

  function Cut(bounds: seq<nat>, bytesPerToken: nat, pageTargetBytes: nat, alignment: nat): seq<PageDescriptor>
    requires |bounds| > 0 && bytesPerToken > 0 && alignment > 0
  {
    BasePages(bounds, TargetTokens(bytesPerToken, pageTargetBytes, alignment), alignment, |bounds| - 1)
  }

  /** For any packed bounds and layout the K/V table opens, and its records can be written. */
  lemma KVTableSound(bounds: seq<nat>, layout: KVLayout, pageTargetBytes: nat, alignment: nat)
    requires PackedBounds(bounds) && layout.groupTokens > 0 && layout.BytesPerToken() > 0 && alignment > 0
    ensures var records := KVRecords(Cut(bounds, layout.BytesPerToken(), pageTargetBytes, alignment), layout);
            Writable(records, layout) && TableValid(records, bounds, FileSize(records))
  {
    hide KVLayout.BytesPerToken, KVLayout.TensorBytes, KVLayout.ScaleBytes, TableValid, BasePages;
    var target := TargetTokens(layout.BytesPerToken(), pageTargetBytes, alignment);
    var pages := Cut(bounds, layout.BytesPerToken(), pageTargetBytes, alignment);
    BasePagesRoom(bounds, target, alignment, |bounds| - 1);
    BuiltTablesWritable(pages, layout);
    KVRecordsSameBase(pages, layout);
    KVRecordsLaid(pages, layout);
    BuiltTablesPass(bounds, target, alignment, KVRecords(pages, layout));
  }

  /** The same for the query table. */
  lemma QTableSound(bounds: seq<nat>, bytesPerToken: nat, pageTargetBytes: nat, alignment: nat)
    requires PackedBounds(bounds) && bytesPerToken > 0 && alignment > 0
    ensures var records := QRecords(Cut(bounds, bytesPerToken, pageTargetBytes, alignment), bytesPerToken);
            RowsWritable(records, bytesPerToken) && TableValid(records, bounds, FileSize(records))
  {
    hide TableValid, BasePages;
    var target := TargetTokens(bytesPerToken, pageTargetBytes, alignment);
    var pages := Cut(bounds, bytesPerToken, pageTargetBytes, alignment);
    BasePagesRoom(bounds, target, alignment, |bounds| - 1);
    QRecordRoom(pages, bytesPerToken);
    QRecordsSameBase(pages, bytesPerToken);
    QRecordsLaid(pages, bytesPerToken);
    BuiltTablesPass(bounds, target, alignment, QRecords(pages, bytesPerToken));
  }

  // ----- The store

  datatype Store = Store(qFile: seq<byte>, kvFile: seq<byte>)

  datatype Outcome = Saved(store: Store) | Failed(error: WriteResult)

  ghost predicate HoldsRows(file: seq<byte>, page: PageDescriptor, bytesPerToken: nat, rows: seq<byte>) {
    && page.validTokens * bytesPerToken <= page.storageBytes && page.fileOffset + page.storageBytes <= |file|
    && ExtractRows(file, page, bytesPerToken) == rows
  }

  ghost predicate HoldsPage(file: seq<byte>, page: PageDescriptor, layout: KVLayout, data: Payload)
    requires layout.groupTokens > 0
  {
    Regions(page, layout) && page.fileOffset + page.storageBytes <= |file| && Extract(file, page, layout) == data
  }

  class NvmeQKVWriter {
    const qBounds: seq<nat>
    const kBounds: seq<nat>
    const qBytesPerToken: nat
    const layout: KVLayout
    const pageTargetBytes: nat
    const blockN: nat
    const qPages: seq<PageDescriptor>
    const kvPages: seq<PageDescriptor>

    // The tables the constructor lays out.
    ghost predicate Built() {
      && PackedBounds(qBounds) && PackedBounds(kBounds) && qBytesPerToken > 0 && blockN > 0
      && layout.groupTokens > 0 && layout.BytesPerToken() > 0
      && qPages == QRecords(Cut(qBounds, qBytesPerToken, pageTargetBytes, blockN), qBytesPerToken)
      && kvPages == KVRecords(Cut(kBounds, layout.BytesPerToken(), pageTargetBytes, blockN), layout)
    }

    ghost predicate Opens(store: Store) {
      |qBounds| > 0 && |kBounds| > 0 && TableValid(qPages, qBounds, |store.qFile|) && TableValid(kvPages, kBounds, |store.kvFile|)
    }

    // Pages of the demanded number and shapes.
    ghost predicate Fitting(rows: seq<seq<byte>>, datas: seq<Payload>) {
      && |rows| == |qPages| && AllRows(qPages, qBytesPerToken, rows, |qPages|)
      && layout.groupTokens > 0 && |datas| == |kvPages| && AllSized(kvPages, layout, datas, |kvPages|)
    }

    // Every page of the store holds what was handed in for it.
    ghost predicate Holds(store: Store, rows: seq<seq<byte>>, datas: seq<Payload>) {
      && |rows| == |qPages| && |datas| == |kvPages| && layout.groupTokens > 0
      && (forall i :: 0 <= i < |rows| ==> HoldsRows(store.qFile, qPages[i], qBytesPerToken, rows[i]))
      && (forall i :: 0 <= i < |datas| ==> HoldsPage(store.kvFile, kvPages[i], layout, datas[i]))
    }

    constructor (qBounds: seq<nat>, kBounds: seq<nat>, qBytesPerToken: nat, layout: KVLayout, pageTargetBytes: nat, blockN: nat)
      requires PackedBounds(qBounds) && PackedBounds(kBounds) && qBytesPerToken > 0 && blockN > 0 && pageTargetBytes > 0
      requires layout.groupTokens > 0 && layout.BytesPerToken() > 0
      ensures this.qBounds == qBounds && this.kBounds == kBounds && this.qBytesPerToken == qBytesPerToken && this.layout == layout
      ensures Built() && this.pageTargetBytes == pageTargetBytes && this.blockN == blockN
    {
      var qBase := BuildPageDescriptors(qBounds, qBytesPerToken, pageTargetBytes, blockN);
      var kvBase := BuildPageDescriptors(kBounds, layout.BytesPerToken(), pageTargetBytes, blockN);
      var qRecords := BuildQRecords(qBase, qBytesPerToken);
      var kvRecords := BuildKVRecords(kvBase, layout);
      this.qBounds, this.kBounds, this.qBytesPerToken, this.layout := qBounds, kBounds, qBytesPerToken, layout;
      this.pageTargetBytes, this.blockN := pageTargetBytes, blockN;
      qPages, kvPages := qRecords, kvRecords;
    }

    /**
     Writes exactly when every page has its number and shape; the store then opens, and
     every page of it holds what was handed in.
     */
    method WritePages(rows: seq<seq<byte>>, datas: seq<Payload>) returns (outcome: Outcome)
      requires Built()
      ensures outcome.Saved? <==> Fitting(rows, datas)
      ensures outcome.Saved? ==> Opens(outcome.store) && Holds(outcome.store, rows, datas)
    {
      hide Writable, RowsWritable, TableValid, AllRows, AllSized, Sized, Regions, KVLayout.BytesPerToken;
      KVTableSound(kBounds, layout, pageTargetBytes, blockN);
      QTableSound(qBounds, qBytesPerToken, pageTargetBytes, blockN);
      var queries := WriteQueryPages(qPages, qBytesPerToken, rows);
      if !queries.Stored? {
        return Failed(queries);
      }
      var keys := QkvStore.WritePages(kvPages, layout, datas);
      if !keys.Stored? {
        return Failed(keys);
      }
      outcome := Saved(Store(queries.file, keys.file));
      assert qPages[..|qPages|] == qPages && kvPages[..|kvPages|] == kvPages;
      forall i: nat | i < |rows|
        ensures HoldsRows(queries.file, qPages[i], qBytesPerToken, rows[i])
      {
        RowsRoom(qPages, qBytesPerToken, i);
        RowsRoundTrip(qPages, qBytesPerToken, rows, i);
      }
      forall i: nat | i < |datas|
        ensures HoldsPage(keys.file, kvPages[i], layout, datas[i])
      {
        RoundTrip(kvPages, layout, datas, i);
      }
    }

    /** Reading K/V page i delivers what was written for it, tail rows zeroed. */
    method ReadBackKV(store: Store, ghost rows: seq<seq<byte>>, ghost datas: seq<Payload>, i: nat, buffer: array<byte>,
                      k: array<byte>, v: array<byte>, kScales: array<byte>, vScales: array<byte>) returns (ok: bool)
      requires Holds(store, rows, datas) && i < |kvPages|
      requires Separate(kvPages[i], layout, buffer, k, v, kScales, vScales)
      modifies buffer, k, v, kScales, vScales
      ensures ok && Delivered(datas[i], old(v[..]), old(kScales[..]), old(vScales[..]), k[..], v[..], kScales[..], vScales[..])
    {
      hide Regions, Separate, Delivered, Extract;
      assert HoldsPage(store.kvFile, kvPages[i], layout, datas[i]);
      ok := ReadKV(store.kvFile, kvPages[i], layout, buffer, k, v, kScales, vScales);
    }

    /** Reading query page i delivers its rows, then zeros. */
    method ReadBackQ(store: Store, ghost rows: seq<seq<byte>>, ghost datas: seq<Payload>, i: nat, buffer: array<byte>, out: array<byte>)
        returns (ok: bool)
      requires Holds(store, rows, datas) && i < |qPages| && buffer != out
      requires qPages[i].storageBytes <= buffer.Length && |rows[i]| <= out.Length
      modifies buffer, out
      ensures ok && out[..] == rows[i] + Zeros(out.Length - |rows[i]|)
    {
      assert HoldsRows(store.qFile, qPages[i], qBytesPerToken, rows[i]);
      ok := ReadQ(store.qFile, qPages[i], qBytesPerToken, buffer, out);
    }
  }

  lemma RowsRoom(records: seq<PageDescriptor>, bytesPerToken: nat, i: nat)
    requires RowsWritable(records, bytesPerToken) && i < |records|
    ensures records[i].validTokens * bytesPerToken <= records[i].storageBytes
  {
  }

  /** Opening checks both page tables against their files. */
  method OpenStore(writer: NvmeQKVWriter, store: Store) returns (ok: bool)
    requires |writer.qBounds| > 0 && |writer.kBounds| > 0
    ensures ok <==> writer.Opens(store)
  {
    var queries := ValidatePages(writer.qPages, writer.qBounds, |store.qFile|);
    var keys := ValidatePages(writer.kvPages, writer.kBounds, |store.kvFile|);
    ok := queries.Valid? && keys.Valid?;
  }
}
