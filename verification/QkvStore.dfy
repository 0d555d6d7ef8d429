/** Writing page records through an aligned buffer and reading them back. */
module QkvStore {
  import opened Basics
  import opened Alignment
  import opened Bytes
  import opened PageLayout
  import opened PageTable

  // The payload has the sizes the page demands.
  predicate Sized(layout: KVLayout, page: PageDescriptor, data: Payload)
    requires layout.groupTokens > 0
  {
    && |data.k| == |data.v| == layout.TensorBytes(page.validTokens)
    && |data.kScales| == |data.vScales| == layout.ScaleBytes(page.validTokens)
  }

  // The bytes of one record: zeros, with each region copied to its offset.
  function Image(page: PageDescriptor, layout: KVLayout, data: Payload): (image: seq<byte>)
    requires layout.groupTokens > 0 && Placed(page, layout, data)
    ensures |image| == page.storageBytes
  {
    var tensors := Spliced(Spliced(Zeros(page.storageBytes), 0, data.k), page.vOffset, data.v);
    if layout.int8 then Spliced(Spliced(tensors, page.kScaleOffset, data.kScales), page.vScaleOffset, data.vScales) else tensors
  }

  // The payload's pieces lie one after the other inside the record.
  predicate Placed(page: PageDescriptor, layout: KVLayout, data: Payload) {
    && |data.k| <= page.vOffset && page.vOffset + |data.v| <= page.storageBytes
    && (if layout.int8
        then page.vOffset + |data.v| <= page.kScaleOffset && page.kScaleOffset + |data.kScales| <= page.vScaleOffset
             && page.vScaleOffset + |data.vScales| <= page.storageBytes
        else data.kScales == [] && data.vScales == [])
  }

  lemma RegionsPlace(page: PageDescriptor, layout: KVLayout, data: Payload)
    requires layout.groupTokens > 0 && Regions(page, layout) && Sized(layout, page, data)
    ensures Placed(page, layout, data)
  {
    hide KVLayout.TensorBytes;
    if !layout.int8 {
      assert |data.kScales| == 0 && |data.vScales| == 0;
    }
  }

  // The record's regions hold the payload.
  ghost predicate Carries(record: seq<byte>, page: PageDescriptor, layout: KVLayout, data: Payload) {
    && At(record, 0, data.k) && At(record, page.vOffset, data.v)
    && (if layout.int8 then At(record, page.kScaleOffset, data.kScales) && At(record, page.vScaleOffset, data.vScales)
        else data.kScales == [] && data.vScales == [])
  }

  lemma ImageCarries(page: PageDescriptor, layout: KVLayout, data: Payload)
    requires layout.groupTokens > 0 && Placed(page, layout, data)
    ensures Carries(Image(page, layout, data), page, layout, data)
  {
    hide Spliced, At;
    var zeros := Zeros(page.storageBytes);
    var keys := Spliced(zeros, 0, data.k);
    var tensors := Spliced(keys, page.vOffset, data.v);
    SplicedAt(zeros, 0, data.k);
    SplicedAt(keys, page.vOffset, data.v);
    SplicedKeeps(keys, page.vOffset, data.v, 0, data.k);
    if layout.int8 {
      var scaled := Spliced(tensors, page.kScaleOffset, data.kScales);
      SplicedAt(tensors, page.kScaleOffset, data.kScales);
      SplicedKeeps(tensors, page.kScaleOffset, data.kScales, 0, data.k);
      SplicedKeeps(tensors, page.kScaleOffset, data.kScales, page.vOffset, data.v);
      SplicedAt(scaled, page.vScaleOffset, data.vScales);
      SplicedKeeps(scaled, page.vScaleOffset, data.vScales, 0, data.k);
      SplicedKeeps(scaled, page.vScaleOffset, data.vScales, page.vOffset, data.v);
      SplicedKeeps(scaled, page.vScaleOffset, data.vScales, page.kScaleOffset, data.kScales);
    }
  }

  // ----- The file

  // A table the writer lays out: contiguous records with room for their regions.
  ghost predicate Writable(records: seq<PageDescriptor>, layout: KVLayout) {
    && layout.groupTokens > 0 && Laid(records)
    && forall i :: 0 <= i < |records| ==> Regions(records[i], layout)
  }

  ghost predicate AllSized(records: seq<PageDescriptor>, layout: KVLayout, datas: seq<Payload>, n: nat)
    requires layout.groupTokens > 0 && n <= |records| && n <= |datas|
  {
    forall i :: 0 <= i < n ==> Sized(layout, records[i], datas[i])
  }

  // The first n records, one after the other.
  ghost function Written(records: seq<PageDescriptor>, layout: KVLayout, datas: seq<Payload>, n: nat): (file: seq<byte>)
    requires Writable(records, layout) && n <= |records| && n <= |datas| && AllSized(records, layout, datas, n)
    ensures |file| == FileSize(records[..n])
  {
    if n == 0 then []
    else
      RegionsPlace(records[n - 1], layout, datas[n - 1]);
      assert records[..n][..n - 1] == records[..n - 1];
      Written(records, layout, datas, n - 1) + Image(records[n - 1], layout, datas[n - 1])
  }

  // Bytes at..at + |piece| of the file replaced, the file growing with zeros as needed.
  function Overwritten(file: seq<byte>, at: nat, piece: seq<byte>): seq<byte> {
    (if at <= |file| then file[..at] else file + Zeros(at - |file|)) + piece
    + if at + |piece| <= |file| then file[at + |piece|..] else []
  }

  class AlignedFileWriter {
    const buffer: array<byte>
    var file: seq<byte>

    constructor (maxRecordBytes: nat)
      ensures file == [] && fresh(buffer)
      ensures buffer.Length == AlignUp(Max(maxRecordBytes, DIRECT_IO_ALIGNMENT), DIRECT_IO_ALIGNMENT)
    {
      buffer := new byte[AlignUp(Max(maxRecordBytes, DIRECT_IO_ALIGNMENT), DIRECT_IO_ALIGNMENT)];
      file := [];
    }

    method Zero(n: nat)
      requires n <= buffer.Length
      modifies buffer
      ensures buffer[..] == Zeros(n) + old(buffer[..])[n..]
    {
      for i := 0 to n
        invariant forall x :: 0 <= x < i ==> buffer[x] == 0
        invariant forall x :: i <= x < buffer.Length ==> buffer[x] == old(buffer[x])
      {
        buffer[i] := 0;
      }
    }

    // Copies a tensor's bytes into the buffer; refused when they do not fit.
    method CopyTensor(offset: nat, bytes: seq<byte>) returns (ok: bool)
      modifies buffer
      ensures ok <==> offset + |bytes| <= buffer.Length
      ensures ok ==> buffer[..] == Spliced(old(buffer[..]), offset, bytes)
      ensures !ok ==> buffer[..] == old(buffer[..])
    {
      if offset + |bytes| > buffer.Length {
        return false;
      }
      for i := 0 to |bytes|
        invariant buffer[..] == Spliced(old(buffer[..]), offset, bytes[..i])
      {
        buffer[offset + i] := bytes[i];
        assert bytes[..i + 1] == bytes[..i] + [bytes[i]];
      }
      assert bytes[..|bytes|] == bytes;
      ok := true;
    }

    // Writes the buffer's front at a file offset; both must be aligned.
    method Write(offset: nat, storageBytes: nat) returns (ok: bool)
      requires storageBytes <= buffer.Length
      modifies `file
      ensures ok <==> offset % DIRECT_IO_ALIGNMENT == 0 && storageBytes % DIRECT_IO_ALIGNMENT == 0
      ensures file == if ok then Overwritten(old(file), offset, buffer[..storageBytes]) else old(file)
    {
      if offset % DIRECT_IO_ALIGNMENT != 0 || storageBytes % DIRECT_IO_ALIGNMENT != 0 {
        return false;
      }
      file := Overwritten(file, offset, buffer[..storageBytes]);
      ok := true;
    }

    // Zeroes the buffer and fills one record.
    method FillRecord(page: PageDescriptor, layout: KVLayout, data: Payload)
      requires layout.groupTokens > 0 && Placed(page, layout, data) && page.storageBytes <= buffer.Length
      modifies buffer
      ensures buffer[..page.storageBytes] == Image(page, layout, data)
    {
      Zero(page.storageBytes);
      ghost var tail := buffer[page.storageBytes..];
      var ok := CopyTensor(0, data.k);
      SplicedFront(Zeros(page.storageBytes), tail, 0, data.k);
      ok := CopyTensor(page.vOffset, data.v);
      hide Spliced;
      ghost var keys := Spliced(Zeros(page.storageBytes), 0, data.k);
      SplicedFront(keys, tail, page.vOffset, data.v);
      ghost var tensors := Spliced(keys, page.vOffset, data.v);
      assert buffer[..] == tensors + tail;
      if layout.int8 {
        ok := CopyTensor(page.kScaleOffset, data.kScales);
        SplicedFront(tensors, tail, page.kScaleOffset, data.kScales);
        ghost var scaled := Spliced(tensors, page.kScaleOffset, data.kScales);
        ok := CopyTensor(page.vScaleOffset, data.vScales);
        SplicedFront(scaled, tail, page.vScaleOffset, data.vScales);
      }
    }
  }

  // Overwriting inside the front part leaves the tail alone.
  lemma SplicedFront(front: seq<byte>, tail: seq<byte>, at: nat, piece: seq<byte>)
    requires at + |piece| <= |front|
    ensures Spliced(front + tail, at, piece) == Spliced(front, at, piece) + tail
  {
  }

  datatype WriteResult = Stored(file: seq<byte>) | EndedEarly | ExtraPages | WrongShape(page: nat) | SizeMismatch

  lemma RecordsFit(records: seq<PageDescriptor>, most: nat, i: nat)
    requires i < |records| && forall j :: 0 <= j < |records| ==> records[j].storageBytes <= most
    ensures records[i].storageBytes <= AlignUp(Max(most, DIRECT_IO_ALIGNMENT), DIRECT_IO_ALIGNMENT)
  {
  }

  lemma RecordPlaced(records: seq<PageDescriptor>, i: nat)
    requires Laid(records) && i < |records|
    ensures records[i].fileOffset % DIRECT_IO_ALIGNMENT == 0 && records[i].storageBytes % DIRECT_IO_ALIGNMENT == 0
    ensures records[i].fileOffset == FileSize(records[..i])
  {
    assert AlignedRecord(records[i]);
  }

  method LargestRecord(records: seq<PageDescriptor>) returns (most: nat)
    ensures forall j :: 0 <= j < |records| ==> records[j].storageBytes <= most
  {
    most := DIRECT_IO_ALIGNMENT;
    for i := 0 to |records|
      invariant forall j :: 0 <= j < i ==> records[j].storageBytes <= most
    {
      most := Max(most, records[i].storageBytes);
    }
  }

  // One round of the writer's loop.
  method StoreRecord(writer: AlignedFileWriter, records: seq<PageDescriptor>, layout: KVLayout, datas: seq<Payload>, i: nat)
    requires Writable(records, layout) && i < |records| && i < |datas|
    requires AllSized(records, layout, datas, i) && Sized(layout, records[i], datas[i])
    requires records[i].storageBytes <= writer.buffer.Length && writer.file == Written(records, layout, datas, i)
    modifies writer`file, writer.buffer
    ensures AllSized(records, layout, datas, i + 1) && writer.file == Written(records, layout, datas, i + 1)
  {
    hide Laid, Regions, Image, Placed, Overwritten, AlignUp, Sized, AlignedRecord, FileSize;
    RegionsPlace(records[i], layout, datas[i]);
    writer.FillRecord(records[i], layout, datas[i]);
    RecordPlaced(records, i);
    ghost var before := writer.file;
    var ok := writer.Write(records[i].fileOffset, records[i].storageBytes);
    AppendsAtEnd(before, records[i].fileOffset, Image(records[i], layout, datas[i]));
  }

  /** Stores the pages exactly when their number and shapes match the table; the file is the records back to back. */
  method WritePages(records: seq<PageDescriptor>, layout: KVLayout, datas: seq<Payload>) returns (result: WriteResult)
    requires Writable(records, layout)
    ensures result.Stored? <==> |datas| == |records| && AllSized(records, layout, datas, |records|)
    ensures result.Stored? ==> result.file == Written(records, layout, datas, |records|)
  {
    hide Laid, Regions, Image, Placed, Overwritten, AlignUp, Sized, AlignedRecord, FileSize;
    var most := LargestRecord(records);
    var writer := new AlignedFileWriter(most);
    for i := 0 to |records|
      invariant i <= |datas| && AllSized(records, layout, datas, i)
      invariant writer.file == Written(records, layout, datas, i)
      invariant fresh(writer) && fresh(writer.buffer)
      invariant writer.buffer.Length == AlignUp(Max(most, DIRECT_IO_ALIGNMENT), DIRECT_IO_ALIGNMENT)
    {
      if i == |datas| {
        return EndedEarly;
      }
      if !Sized(layout, records[i], datas[i]) {
        return WrongShape(i);
      }
      RecordsFit(records, most, i);
      StoreRecord(writer, records, layout, datas, i);
    }
    if |datas| > |records| {
      return ExtraPages;
    }
    assert records[..|records|] == records;
    if |writer.file| != FileSize(records) {
      return SizeMismatch;
    }
    result := Stored(writer.file);
  }

  lemma AppendsAtEnd(file: seq<byte>, at: nat, piece: seq<byte>)
    requires at == |file|
    ensures Overwritten(file, at, piece) == file + piece
  {
  }

  // ----- Reading back

  // What the file holds for a page.
  ghost function Extract(file: seq<byte>, page: PageDescriptor, layout: KVLayout): (data: Payload)
    requires layout.groupTokens > 0 && Regions(page, layout) && page.fileOffset + page.storageBytes <= |file|
    ensures Sized(layout, page, data)
  {
    var record := file[page.fileOffset..page.fileOffset + page.storageBytes];
    var t, c := layout.TensorBytes(page.validTokens), layout.ScaleBytes(page.validTokens);
    Payload(record[..t], record[page.vOffset..page.vOffset + t],
            if layout.int8 then record[page.kScaleOffset..page.kScaleOffset + c] else [],
            if layout.int8 then record[page.vScaleOffset..page.vScaleOffset + c] else [])
  }

  lemma CarriedIsExtracted(file: seq<byte>, page: PageDescriptor, layout: KVLayout, data: Payload)
    requires layout.groupTokens > 0 && Regions(page, layout) && page.fileOffset + page.storageBytes <= |file|
    requires Sized(layout, page, data)
    requires Carries(file[page.fileOffset..page.fileOffset + page.storageBytes], page, layout, data)
    ensures Extract(file, page, layout) == data
  {
    hide KVLayout.TensorBytes, KVLayout.ScaleBytes;
  }

  lemma {:induction false} WrittenAt(records: seq<PageDescriptor>, layout: KVLayout, datas: seq<Payload>, n: nat, i: nat)
    requires Writable(records, layout) && i < n <= |records| && n <= |datas| && AllSized(records, layout, datas, n)
    ensures Placed(records[i], layout, datas[i])
    ensures At(Written(records, layout, datas, n), records[i].fileOffset, Image(records[i], layout, datas[i]))
  {
    hide Image, Placed, Regions, Sized, Laid, FileSize;
    RegionsPlace(records[n - 1], layout, datas[n - 1]);
    RecordPlaced(records, n - 1);
    var before := Written(records, layout, datas, n - 1);
    var last := Image(records[n - 1], layout, datas[n - 1]);
    assert Written(records, layout, datas, n) == before + last;
    if i == n - 1 {
      assert (before + last)[|before|..|before| + |last|] == last;
    } else {
      WrittenAt(records, layout, datas, n - 1, i);
      var image := Image(records[i], layout, datas[i]);
      assert (before + last)[records[i].fileOffset..records[i].fileOffset + |image|]
          == before[records[i].fileOffset..records[i].fileOffset + |image|];
    }
  }

  /** Whatever was stored for a page is what the file holds for it, for every page of every table. */
  lemma RoundTrip(records: seq<PageDescriptor>, layout: KVLayout, datas: seq<Payload>, i: nat)
    requires Writable(records, layout) && i < |records| == |datas| && AllSized(records, layout, datas, |records|)
    ensures var file := Written(records, layout, datas, |records|);
            && records[i].fileOffset + records[i].storageBytes <= |file|
            && Regions(records[i], layout) && Extract(file, records[i], layout) == datas[i]
  {
    hide Image, Carries, Laid, FileSize;
    WrittenAt(records, layout, datas, |records|, i);
    ImageCarries(records[i], layout, datas[i]);
    CarriedIsExtracted(Written(records, layout, datas, |records|), records[i], layout, datas[i]);
  }

  /** The builder's tables are writable. */
  lemma BuiltTablesWritable(pages: seq<PageDescriptor>, layout: KVLayout)
    requires layout.groupTokens > 0 && forall i :: 0 <= i < |pages| ==> pages[i].validTokens <= pages[i].paddedTokens
    ensures Writable(KVRecords(pages, layout), layout)
  {
    KVRecordsLaid(pages, layout);
    forall i | 0 <= i < |pages|
      ensures Regions(KVRecords(pages, layout)[i], layout)
    {
      RecordAt(pages, layout, i);
      KVRecordRegions(pages[i], layout, FileSize(KVRecords(pages[..i], layout)));
    }
  }

  lemma {:induction false} RecordAt(pages: seq<PageDescriptor>, layout: KVLayout, i: nat)
    requires layout.groupTokens > 0 && i < |pages|
    ensures KVRecords(pages, layout)[i] == KVRecord(pages[i], layout, FileSize(KVRecords(pages[..i], layout)))
    decreases |pages|
  {
    hide KVLayout.TensorBytes, KVLayout.ScaleBytes;
    if i < |pages| - 1 {
      RecordAt(pages[..|pages| - 1], layout, i);
      assert pages[..|pages| - 1][..i] == pages[..i];
    }
  }

  // Reads a record into the bounce buffer; a short read is an error.
  method ReadRecord(file: seq<byte>, page: PageDescriptor, buffer: array<byte>) returns (ok: bool)
    requires page.storageBytes <= buffer.Length
    modifies buffer
    ensures ok <==> page.storageBytes == 0 || page.fileOffset + page.storageBytes <= |file|
    ensures page.fileOffset + page.storageBytes <= |file| ==>
              buffer[..page.storageBytes] == file[page.fileOffset..page.fileOffset + page.storageBytes]
  {
    var available := if page.fileOffset <= |file| then |file| - page.fileOffset else 0;
    var count := Min(page.storageBytes, available);
    for i := 0 to count
      invariant forall x :: 0 <= x < i ==> buffer[x] == file[page.fileOffset + x]
    {
      buffer[i] := file[page.fileOffset + i];
    }
    ok := count == page.storageBytes;
  }

  // Buffers that can take the page, all different.
  ghost predicate Separate(page: PageDescriptor, layout: KVLayout, buffer: array<byte>,
                           k: array<byte>, v: array<byte>, kScales: array<byte>, vScales: array<byte>)
    requires layout.groupTokens > 0
  {
    && page.storageBytes <= buffer.Length && buffer != k && buffer != v && buffer != kScales && buffer != vScales
    && k != v && k != kScales && k != vScales && v != kScales && v != vScales && kScales != vScales
    && layout.TensorBytes(page.validTokens) <= k.Length && layout.TensorBytes(page.validTokens) <= v.Length
    && layout.ScaleBytes(page.validTokens) <= kScales.Length && layout.ScaleBytes(page.validTokens) <= vScales.Length
  }

  /** Delivers what the file holds for the page, the rows past its tokens zeroed. */
  method ReadKV(file: seq<byte>, page: PageDescriptor, layout: KVLayout, buffer: array<byte>,
                k: array<byte>, v: array<byte>, kScales: array<byte>, vScales: array<byte>) returns (ok: bool)
    requires layout.groupTokens > 0 && Regions(page, layout) && Separate(page, layout, buffer, k, v, kScales, vScales)
    modifies buffer, k, v, kScales, vScales
    ensures ok <==> page.storageBytes == 0 || page.fileOffset + page.storageBytes <= |file|
    ensures page.fileOffset + page.storageBytes <= |file| ==>
              Delivered(Extract(file, page, layout), old(v[..]), old(kScales[..]), old(vScales[..]),
                        k[..], v[..], kScales[..], vScales[..])
  {
    hide KVLayout.TensorBytes, KVLayout.ScaleBytes, KVLayout.BytesPerToken;
    ok := ReadRecord(file, page, buffer);
    if !ok {
      return;
    }
    ghost var data := Payload([], [], [], []);
    if page.fileOffset + page.storageBytes <= |file| {
      data := Extract(file, page, layout);
    } else {
      EmptyRecord(page, layout);
    }
    CopyRegions(page, layout, buffer, data, k, v, kScales, vScales);
    var t := layout.TensorBytes(page.validTokens);
    assert k[..t] == data.k && v[..t] == data.v;
    if k.Length > t {
      ZeroFrom(k, t);
      ZeroFrom(v, t);
    }
  }

  // A record of no bytes holds an empty payload.
  lemma EmptyRecord(page: PageDescriptor, layout: KVLayout)
    requires layout.groupTokens > 0 && Regions(page, layout) && page.storageBytes == 0
    ensures Sized(layout, page, Payload([], [], [], []))
    ensures forall record: seq<byte> :: |record| == 0 ==> Carries(record, page, layout, Payload([], [], [], []))
  {
    hide KVLayout.TensorBytes;
  }

  method CopyRegions(page: PageDescriptor, layout: KVLayout, buffer: array<byte>, ghost data: Payload,
                     k: array<byte>, v: array<byte>, kScales: array<byte>, vScales: array<byte>)
    requires layout.groupTokens > 0 && Regions(page, layout) && Separate(page, layout, buffer, k, v, kScales, vScales)
    requires Sized(layout, page, data) && Carries(buffer[..page.storageBytes], page, layout, data)
    modifies k, v, kScales, vScales
    ensures k[..] == data.k + old(k[..])[|data.k|..] && v[..] == data.v + old(v[..])[|data.v|..]
    ensures kScales[..] == data.kScales + old(kScales[..])[|data.kScales|..]
    ensures vScales[..] == data.vScales + old(vScales[..])[|data.vScales|..]
  {
    hide KVLayout.TensorBytes, KVLayout.ScaleBytes, KVLayout.BytesPerToken;
    var t, c := layout.TensorBytes(page.validTokens), layout.ScaleBytes(page.validTokens);
    CopyOut(k, buffer, 0, t, data.k);
    CopyOut(v, buffer, page.vOffset, t, data.v);
    if layout.int8 {
      CopyOut(kScales, buffer, page.kScaleOffset, c, data.kScales);
      CopyOut(vScales, buffer, page.vScaleOffset, c, data.vScales);
    }
  }
}
