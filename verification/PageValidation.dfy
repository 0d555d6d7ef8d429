/** The check a store runs on its page tables, and why the builder's tables pass it. */
module PageValidation {
  import opened Basics
  import opened Alignment
  import opened PageLayout
  import opened PageTable

  datatype Finding = Valid | BadSegment | BadIds | BadTokens | BadCounts | Unaligned | BadPadding | Uncovered | WrongSize

  // Pages of segment s, in table order.
  function OfSegment(pages: seq<PageDescriptor>, s: nat): seq<PageDescriptor> {
    if pages == [] then []
    else
      var last := pages[|pages| - 1];
      OfSegment(pages[..|pages| - 1], s) + if last.segmentId == s then [last] else []
  }

  // None exactly when some page names a segment that does not exist.
  method PagesBySegment(pages: seq<PageDescriptor>, count: nat) returns (ok: bool, groups: seq<seq<PageDescriptor>>)
    ensures ok <==> forall i :: 0 <= i < |pages| ==> pages[i].segmentId < count
    ensures ok ==> |groups| == count && forall s :: 0 <= s < count ==> groups[s] == OfSegment(pages, s)
  {
    groups := seq(count, s => []);
    for i := 0 to |pages|
      invariant forall j :: 0 <= j < i ==> pages[j].segmentId < count
      invariant |groups| == count && forall s :: 0 <= s < count ==> groups[s] == OfSegment(pages[..i], s)
    {
      assert pages[..i + 1][..i] == pages[..i];
      var s := pages[i].segmentId;
      if s >= count {
        return false, groups;
      }
      groups := groups[s := groups[s] + [pages[i]]];
    }
    assert pages[..|pages|] == pages;
    ok := true;
  }

  // Ids from `first`, tokens end to end from `from`, sensible counts.
  ghost predicate GroupValid(group: seq<PageDescriptor>, s: nat, first: nat, from: nat)
  {
    forall i: nat :: i < |group| ==> MemberValid(group, s, first, from, i)
  }

  predicate MemberValid(group: seq<PageDescriptor>, s: nat, first: nat, from: nat, i: nat)
    requires i < |group|
  {
    && group[i].pageId == first + i
    && group[i].tokenStart == StopBefore(group, from, i) && group[i].segmentId == s
    && group[i].validTokens > 0 && group[i].paddedTokens >= group[i].validTokens
    && AlignedRecord(group[i])
  }

  // Where the first i pages of a group end.
  function StopBefore(group: seq<PageDescriptor>, from: nat, i: nat): nat
    requires i <= |group|
  {
    if i == 0 then from else group[i - 1].TokenStop()
  }

  // Pages in the first n segments.
  function CountBefore(pages: seq<PageDescriptor>, n: nat): nat {
    if n == 0 then 0 else CountBefore(pages, n - 1) + |OfSegment(pages, n - 1)|
  }

  ghost predicate SegmentValid(pages: seq<PageDescriptor>, bounds: seq<nat>, s: nat)
    requires s + 1 < |bounds|
  {
    var group := OfSegment(pages, s);
    GroupValid(group, s, CountBefore(pages, s), bounds[s]) && StopBefore(group, bounds[s], |group|) == bounds[s + 1]
  }

  // Every page in a real segment, every segment covered page by page, and the table as long as the file.
  ghost predicate TableValid(pages: seq<PageDescriptor>, bounds: seq<nat>, fileSize: nat)
    requires |bounds| > 0
  {
    && (forall i :: 0 <= i < |pages| ==> pages[i].segmentId < |bounds| - 1)
    && (forall s: nat :: s < |bounds| - 1 ==> SegmentValid(pages, bounds, s))
    && FileSize(pages) == fileSize
  }

  method ValidateGroup(group: seq<PageDescriptor>, s: nat, first: nat, from: nat) returns (finding: Finding, stop: nat)
    ensures finding.Valid? <==> GroupValid(group, s, first, from)
    ensures finding.Valid? ==> stop == StopBefore(group, from, |group|)
  {
    stop := from;
    for i := 0 to |group|
      invariant stop == StopBefore(group, from, i)
      invariant forall j: nat :: j < i ==> MemberValid(group, s, first, from, j)
    {
      var page := group[i];
      if page.pageId != first + i {
        assert !MemberValid(group, s, first, from, i);
        return BadIds, stop;
      }
      if page.tokenStart != stop || page.segmentId != s {
        assert !MemberValid(group, s, first, from, i);
        return BadTokens, stop;
      }
      if page.validTokens <= 0 || page.paddedTokens < page.validTokens {
        assert !MemberValid(group, s, first, from, i);
        return BadCounts, stop;
      }
      if page.fileOffset % DIRECT_IO_ALIGNMENT != 0 || page.storageBytes % DIRECT_IO_ALIGNMENT != 0 {
        assert !MemberValid(group, s, first, from, i);
        return Unaligned, stop;
      }
      if page.payloadBytes + page.paddingBytes != page.storageBytes {
        assert !MemberValid(group, s, first, from, i);
        return BadPadding, stop;
      }
      stop := page.TokenStop();
    }
    finding := Valid;
  }

  /** Accepts exactly the tables that cover every segment with contiguous, aligned, consistently padded pages. */
  method ValidatePages(pages: seq<PageDescriptor>, bounds: seq<nat>, fileSize: nat) returns (finding: Finding)
    requires |bounds| > 0
    ensures finding.Valid? <==> TableValid(pages, bounds, fileSize)
  {
    var ok, groups := PagesBySegment(pages, |bounds| - 1);
    if !ok {
      return BadSegment;
    }
    var expected := 0;
    for s := 0 to |bounds| - 1
      invariant expected == CountBefore(pages, s)
      invariant forall r: nat :: r < s ==> SegmentValid(pages, bounds, r)
    {
      hide GroupValid;
      var verdict, stop := ValidateGroup(groups[s], s, expected, bounds[s]);
      if !verdict.Valid? {
        assert !SegmentValid(pages, bounds, s);
        return verdict;
      }
      if stop != bounds[s + 1] {
        assert !SegmentValid(pages, bounds, s);
        return Uncovered;
      }
      expected := expected + |groups[s]|;
    }
    finding := if FileSize(pages) == fileSize then Valid else WrongSize;
  }

  // ----- The builder's tables

  predicate SameBase(a: PageDescriptor, b: PageDescriptor) {
    && a.pageId == b.pageId && a.segmentId == b.segmentId && a.tokenStart == b.tokenStart
    && a.validTokens == b.validTokens && a.paddedTokens == b.paddedTokens
  }

  ghost predicate SameBases(a: seq<PageDescriptor>, b: seq<PageDescriptor>) {
    |a| == |b| && forall i :: 0 <= i < |a| ==> SameBase(a[i], b[i])
  }

  lemma {:induction false} KVRecordsSameBase(pages: seq<PageDescriptor>, layout: KVLayout)
    requires layout.groupTokens > 0
    ensures SameBases(KVRecords(pages, layout), pages)
    decreases |pages|
  {
    hide KVLayout.TensorBytes, KVLayout.ScaleBytes;
    if pages != [] {
      KVRecordsSameBase(pages[..|pages| - 1], layout);
    }
  }

  lemma {:induction false} QRecordsSameBase(pages: seq<PageDescriptor>, bytesPerToken: nat)
    ensures SameBases(QRecords(pages, bytesPerToken), pages)
    decreases |pages|
  {
    if pages != [] {
      QRecordsSameBase(pages[..|pages| - 1], bytesPerToken);
    }
  }

  lemma {:induction false} OfSegmentSameBase(a: seq<PageDescriptor>, b: seq<PageDescriptor>, s: nat)
    requires SameBases(a, b)
    ensures SameBases(OfSegment(a, s), OfSegment(b, s))
    decreases |a|
  {
    if a != [] {
      OfSegmentSameBase(a[..|a| - 1], b[..|b| - 1], s);
      assert SameBase(a[|a| - 1], b[|b| - 1]);
    }
  }

  lemma {:induction false} CountSameBase(a: seq<PageDescriptor>, b: seq<PageDescriptor>, n: nat)
    requires SameBases(a, b)
    ensures CountBefore(a, n) == CountBefore(b, n)
  {
    if n > 0 {
      CountSameBase(a, b, n - 1);
      OfSegmentSameBase(a, b, n - 1);
    }
  }

  lemma {:induction false} OfSegmentConcat(a: seq<PageDescriptor>, b: seq<PageDescriptor>, s: nat)
    ensures OfSegment(a + b, s) == OfSegment(a, s) + OfSegment(b, s)
    decreases |b|
  {
    if b == [] {
      assert a + b == a;
    } else {
      assert (a + b)[..|a + b| - 1] == a + b[..|b| - 1];
      OfSegmentConcat(a, b[..|b| - 1], s);
    }
  }

  lemma {:induction false} OneSegment(pages: seq<PageDescriptor>, s: nat, r: nat)
    requires forall i :: 0 <= i < |pages| ==> pages[i].segmentId == s
    ensures OfSegment(pages, r) == if r == s then pages else []
    decreases |pages|
  {
    if pages != [] {
      OneSegment(pages[..|pages| - 1], s, r);
    }
  }

  // The cut of one segment is a valid group, short of its record fields.
  ghost predicate BaseGroup(group: seq<PageDescriptor>, s: nat, first: nat, from: nat) {
    forall i: nat :: i < |group| ==> BaseMember(group, s, first, from, i)
  }

  predicate BaseMember(group: seq<PageDescriptor>, s: nat, first: nat, from: nat, i: nat)
    requires i < |group|
  {
    && group[i].pageId == first + i
    && group[i].tokenStart == StopBefore(group, from, i) && group[i].segmentId == s
    && group[i].validTokens > 0 && group[i].paddedTokens >= group[i].validTokens
  }

  lemma {:induction false} SegmentPagesValid(s: nat, start: nat, stop: nat, local: nat, target: nat, alignment: nat, first: nat)
    requires target > 0 && alignment > 0 && start + local <= stop
    ensures var group := SegmentPages(s, start, stop, local, target, alignment, first);
            BaseGroup(group, s, first, start + local) && StopBefore(group, start + local, |group|) == stop
    decreases stop - start - local
  {
    hide AlignUp;
    if start + local < stop {
      var valid := Min(target, stop - start - local);
      SegmentPagesValid(s, start, stop, local + valid, target, alignment, first + 1);
      var rest := SegmentPages(s, start, stop, local + valid, target, alignment, first + 1);
      var page := PageDescriptor(first, s, start + local, local, valid, AlignUp(valid, alignment));
      var group, from := [page] + rest, start + local;
      assert SegmentPages(s, start, stop, local, target, alignment, first) == group;
      forall i: nat | i < |group|
        ensures BaseMember(group, s, first, from, i)
      {
        if i > 0 {
          assert BaseMember(rest, s, first + 1, start + local + valid, i - 1);
        }
      }
    }
  }

  lemma SegmentNumber(s: nat, start: nat, stop: nat, local: nat, target: nat, alignment: nat, first: nat)
    requires target > 0 && alignment > 0 && start + local <= stop
    ensures forall p :: p in SegmentPages(s, start, stop, local, target, alignment, first) ==> p.segmentId == s
  {
    SegmentPagesValid(s, start, stop, local, target, alignment, first);
    var group, from := SegmentPages(s, start, stop, local, target, alignment, first), start + local;
    hide SegmentPages;
    forall i: nat | i < |group|
      ensures group[i].segmentId == s
    {
      assert BaseMember(group, s, first, from, i);
    }
  }

  lemma {:induction false} BasePagesSegments(bounds: seq<nat>, target: nat, alignment: nat, n: nat, s: nat)
    requires target > 0 && alignment > 0 && n < |bounds| && NonDecreasing(bounds)
    ensures var pages := BasePages(bounds, target, alignment, n);
            && (forall i :: 0 <= i < |pages| ==> pages[i].segmentId < n)
            && (s >= n ==> OfSegment(pages, s) == [])
            && (s < n ==> OfSegment(pages, s) == SegmentPages(s, bounds[s], bounds[s + 1], 0, target, alignment,
                                                              |BasePages(bounds, target, alignment, s)|))
  {
    hide SegmentPages, OfSegment;
    assert OfSegment([], s) == [] by { OneSegment([], s, s); }
    if n > 0 {
      BasePagesSegments(bounds, target, alignment, n - 1, s);
      var before := BasePages(bounds, target, alignment, n - 1);
      var last := SegmentPages(n - 1, bounds[n - 1], bounds[n], 0, target, alignment, |before|);
      SegmentNumber(n - 1, bounds[n - 1], bounds[n], 0, target, alignment, |before|);
      assert forall i :: 0 <= i < |last| ==> last[i] in last && last[i].segmentId == n - 1;
      OneSegment(last, n - 1, s);
      OfSegmentConcat(before, last, s);
    }
  }

  // Ids count on through the segments.
  lemma {:induction false} CountIsLength(bounds: seq<nat>, target: nat, alignment: nat, n: nat, s: nat)
    requires target > 0 && alignment > 0 && n < |bounds| && NonDecreasing(bounds) && s <= n
    ensures CountBefore(BasePages(bounds, target, alignment, n), s) == |BasePages(bounds, target, alignment, s)|
    decreases s
  {
    if s > 0 {
      CountIsLength(bounds, target, alignment, n, s - 1);
      BasePagesSegments(bounds, target, alignment, n, s - 1);
    }
  }

  lemma {:induction false} OfSegmentMember(pages: seq<PageDescriptor>, s: nat)
    ensures forall p :: p in OfSegment(pages, s) ==> p in pages
    decreases |pages|
  {
    if pages != [] {
      OfSegmentMember(pages[..|pages| - 1], s);
    }
  }

  lemma GroupFromBase(group: seq<PageDescriptor>, base: seq<PageDescriptor>, s: nat, first: nat, from: nat)
    requires SameBases(group, base) && BaseGroup(base, s, first, from)
    requires forall i :: 0 <= i < |group| ==> AlignedRecord(group[i])
    ensures GroupValid(group, s, first, from) && StopBefore(group, from, |group|) == StopBefore(base, from, |base|)
  {
    forall i: nat | i < |group|
      ensures MemberValid(group, s, first, from, i)
    {
      assert BaseMember(base, s, first, from, i) && SameBase(group[i], base[i]);
      assert i > 0 ==> SameBase(group[i - 1], base[i - 1]);
    }
    assert |group| > 0 ==> SameBase(group[|group| - 1], base[|base| - 1]);
  }

  /** Tables the writer builds, for any packed bounds, always pass. */
  lemma BuiltTablesPass(bounds: seq<nat>, target: nat, alignment: nat, records: seq<PageDescriptor>)
    requires |bounds| > 0 && NonDecreasing(bounds) && target > 0 && alignment > 0
    requires SameBases(records, BasePages(bounds, target, alignment, |bounds| - 1)) && Laid(records)
    ensures TableValid(records, bounds, FileSize(records))
  {
    var n := |bounds| - 1;
    var base := BasePages(bounds, target, alignment, n);
    BasePagesSegments(bounds, target, alignment, n, 0);
    forall i | 0 <= i < |records|
      ensures records[i].segmentId < n
    {
      assert SameBase(records[i], base[i]);
    }
    forall s: nat | s < n
      ensures SegmentValid(records, bounds, s)
    {
      BuiltSegmentPasses(bounds, target, alignment, records, s);
    }
  }

  lemma BuiltSegmentPasses(bounds: seq<nat>, target: nat, alignment: nat, records: seq<PageDescriptor>, s: nat)
    requires |bounds| > 0 && NonDecreasing(bounds) && target > 0 && alignment > 0 && s < |bounds| - 1
    requires SameBases(records, BasePages(bounds, target, alignment, |bounds| - 1)) && Laid(records)
    ensures SegmentValid(records, bounds, s)
  {
    hide SegmentPages, OfSegment, BasePages, AlignedRecord, SameBases, BaseGroup, GroupValid, CountBefore;
    var n := |bounds| - 1;
    var base := BasePages(bounds, target, alignment, n);
    var group := OfSegment(records, s);
    OfSegmentSameBase(records, base, s);
    CountSameBase(records, base, s);
    CountIsLength(bounds, target, alignment, n, s);
    BasePagesSegments(bounds, target, alignment, n, s);
    assert bounds[s] <= bounds[s + 1];
    SegmentPagesValid(s, bounds[s], bounds[s + 1], 0, target, alignment, CountBefore(records, s));
    OfSegmentMember(records, s);
    forall i | 0 <= i < |group|
      ensures AlignedRecord(group[i])
    {
      assert group[i] in records;
    }
    GroupFromBase(group, OfSegment(base, s), s, CountBefore(records, s), bounds[s]);
  }
}
