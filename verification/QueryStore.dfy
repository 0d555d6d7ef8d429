/** Query records: one region of rows per record, written and read back. */
module QueryStore {
  import opened Basics
  import opened Alignment
  import opened Bytes
  import opened PageLayout
  import opened PageTable
  import opened QkvStore

  // A record holds the page's rows, then zeros.
  function RowsImage(page: PageDescriptor, rows: seq<byte>): (image: seq<byte>)
    requires |rows| <= page.storageBytes
    ensures |image| == page.storageBytes
  {
    rows + Zeros(page.storageBytes - |rows|)
  }

  ghost predicate RowsSized(page: PageDescriptor, bytesPerToken: nat, rows: seq<byte>) {
    |rows| == page.validTokens * bytesPerToken
  }

  // Contiguous aligned records, each with room for its page's rows.
  ghost predicate RowsWritable(records: seq<PageDescriptor>, bytesPerToken: nat) {
    Laid(records) && forall i :: 0 <= i < |records| ==> records[i].validTokens * bytesPerToken <= records[i].storageBytes
  }

  ghost predicate AllRows(records: seq<PageDescriptor>, bytesPerToken: nat, rows: seq<seq<byte>>, n: nat)
    requires n <= |records| && n <= |rows|
  {
    forall i :: 0 <= i < n ==> RowsSized(records[i], bytesPerToken, rows[i])
  }

  ghost function RowsWritten(records: seq<PageDescriptor>, bytesPerToken: nat, rows: seq<seq<byte>>, n: nat): (file: seq<byte>)
    requires RowsWritable(records, bytesPerToken) && n <= |records| && n <= |rows| && AllRows(records, bytesPerToken, rows, n)
    ensures |file| == FileSize(records[..n])
  {
    if n == 0 then []
    else
      assert records[..n][..n - 1] == records[..n - 1];
      RowsWritten(records, bytesPerToken, rows, n - 1) + RowsImage(records[n - 1], rows[n - 1])
  }

  lemma {:induction false} QRecordRoom(pages: seq<PageDescriptor>, bytesPerToken: nat)
    requires forall i :: 0 <= i < |pages| ==> pages[i].validTokens <= pages[i].paddedTokens
    ensures RowsWritable(QRecords(pages, bytesPerToken), bytesPerToken)
    decreases |pages|
  {
    QRecordsLaid(pages, bytesPerToken);
    if pages != [] {
      QRecordRoom(pages[..|pages| - 1], bytesPerToken);
      Scale(pages[|pages| - 1].validTokens, pages[|pages| - 1].paddedTokens, bytesPerToken);
    }
  }

  /** Stores the query pages exactly when their number and sizes match the table. */
  method WriteQueryPages(records: seq<PageDescriptor>, bytesPerToken: nat, rows: seq<seq<byte>>) returns (result: WriteResult)
    requires RowsWritable(records, bytesPerToken)
    ensures result.Stored? <==> |rows| == |records| && AllRows(records, bytesPerToken, rows, |records|)
    ensures result.Stored? ==> result.file == RowsWritten(records, bytesPerToken, rows, |records|)
  {
    hide Laid, Overwritten, AlignUp, AlignedRecord, FileSize, RowsImage;
    var most := LargestRecord(records);
    var writer := new AlignedFileWriter(most);
    for i := 0 to |records|
      invariant i <= |rows| && AllRows(records, bytesPerToken, rows, i)
      invariant writer.file == RowsWritten(records, bytesPerToken, rows, i)
      invariant fresh(writer) && fresh(writer.buffer)
      invariant writer.buffer.Length == AlignUp(Max(most, DIRECT_IO_ALIGNMENT), DIRECT_IO_ALIGNMENT)
    {
      if i == |rows| {
        return EndedEarly;
      }
      if |rows[i]| != records[i].validTokens * bytesPerToken {
        return WrongShape(i);
      }
      RecordsFit(records, most, i);
      StoreRows(writer, records, bytesPerToken, rows, i);
    }
    if |rows| > |records| {
      return ExtraPages;
    }
    assert records[..|records|] == records;
    if |writer.file| != FileSize(records) {
      return SizeMismatch;
    }
    result := Stored(writer.file);
  }

  method StoreRows(writer: AlignedFileWriter, records: seq<PageDescriptor>, bytesPerToken: nat, rows: seq<seq<byte>>, i: nat)
    requires RowsWritable(records, bytesPerToken) && i < |records| && i < |rows|
    requires AllRows(records, bytesPerToken, rows, i) && RowsSized(records[i], bytesPerToken, rows[i])
    requires records[i].storageBytes <= writer.buffer.Length && writer.file == RowsWritten(records, bytesPerToken, rows, i)
    modifies writer`file, writer.buffer
    ensures AllRows(records, bytesPerToken, rows, i + 1) && writer.file == RowsWritten(records, bytesPerToken, rows, i + 1)
  {
    hide Laid, Overwritten, AlignUp, AlignedRecord, FileSize;
    var page := records[i];
    writer.Zero(page.storageBytes);
    var ok := writer.CopyTensor(0, rows[i]);
    assert writer.buffer[..page.storageBytes] == RowsImage(page, rows[i]);
    RecordPlaced(records, i);
    ghost var before := writer.file;
    ok := writer.Write(page.fileOffset, page.storageBytes);
    AppendsAtEnd(before, page.fileOffset, RowsImage(page, rows[i]));
  }

  // The rows the file holds for a page.
  ghost function ExtractRows(file: seq<byte>, page: PageDescriptor, bytesPerToken: nat): (rows: seq<byte>)
    requires page.validTokens * bytesPerToken <= page.storageBytes && page.fileOffset + page.storageBytes <= |file|
    ensures RowsSized(page, bytesPerToken, rows)
  {
    file[page.fileOffset..page.fileOffset + page.validTokens * bytesPerToken]
  }

  lemma {:induction false} RowsAt(records: seq<PageDescriptor>, bytesPerToken: nat, rows: seq<seq<byte>>, n: nat, i: nat)
    requires RowsWritable(records, bytesPerToken) && i < n <= |records| && n <= |rows| && AllRows(records, bytesPerToken, rows, n)
    ensures At(RowsWritten(records, bytesPerToken, rows, n), records[i].fileOffset, RowsImage(records[i], rows[i]))
  {
    hide RowsImage, Laid, FileSize;
    RecordPlaced(records, n - 1);
    var before := RowsWritten(records, bytesPerToken, rows, n - 1);
    var last := RowsImage(records[n - 1], rows[n - 1]);
    assert RowsWritten(records, bytesPerToken, rows, n) == before + last;
    if i == n - 1 {
      assert (before + last)[|before|..|before| + |last|] == last;
    } else {
      RowsAt(records, bytesPerToken, rows, n - 1, i);
      var image := RowsImage(records[i], rows[i]);
      assert (before + last)[records[i].fileOffset..records[i].fileOffset + |image|]
          == before[records[i].fileOffset..records[i].fileOffset + |image|];
    }
  }

  /** Every query page reads back the rows stored for it. */
  lemma RowsRoundTrip(records: seq<PageDescriptor>, bytesPerToken: nat, rows: seq<seq<byte>>, i: nat)
    requires RowsWritable(records, bytesPerToken) && i < |records| == |rows| && AllRows(records, bytesPerToken, rows, |records|)
    ensures var file := RowsWritten(records, bytesPerToken, rows, |records|);
            && records[i].fileOffset + records[i].storageBytes <= |file|
            && ExtractRows(file, records[i], bytesPerToken) == rows[i]
  {
    hide Laid, FileSize;
    RowsAt(records, bytesPerToken, rows, |records|, i);
    var file := RowsWritten(records, bytesPerToken, rows, |records|);
    var image := RowsImage(records[i], rows[i]);
    assert file[records[i].fileOffset..records[i].fileOffset + |image|][..|rows[i]|] == image[..|rows[i]|];
  }

  /** Delivers the page's rows, then zeros to the end of the caller's buffer. */
  method ReadQ(file: seq<byte>, page: PageDescriptor, bytesPerToken: nat, buffer: array<byte>, out: array<byte>) returns (ok: bool)
    requires page.validTokens * bytesPerToken <= page.storageBytes <= buffer.Length && buffer != out
    requires page.validTokens * bytesPerToken <= out.Length
    modifies buffer, out
    ensures ok <==> page.storageBytes == 0 || page.fileOffset + page.storageBytes <= |file|
    ensures page.fileOffset + page.storageBytes <= |file| ==>
              out[..] == ExtractRows(file, page, bytesPerToken) + Zeros(out.Length - page.validTokens * bytesPerToken)
  {
    var n := page.validTokens * bytesPerToken;
    ok := ReadRecord(file, page, buffer);
    if !ok {
      return;
    }
    ghost var rows := buffer[..n];
    assert buffer[0..0 + n] == rows;
    CopyOut(out, buffer, 0, n, rows);
    ZeroFrom(out, n);
    assert page.fileOffset + page.storageBytes <= |file| ==> rows == buffer[..page.storageBytes][..n];
  }
}
