/** The preallocated page cache: one byte array split into slots, a pinned and a rolling region. */
module PageCache {
  import opened Basics
  import opened Alignment
  import opened Bytes
  import opened PageLayout
  import opened CachePolicy

  // Sizes fixed at construction: bytes per region and per slot, and the number of slots.
  datatype Geometry = Geometry(tensorBytes: nat, scaleBytes: nat, slotBytes: nat, slotCount: nat)

  // Where a slot starts.
  function Base(g: Geometry, slot: nat): nat {
    slot * g.slotBytes
  }

  ghost predicate Roomy(g: Geometry) {
    g.slotCount > 0 ==> 2 * g.tensorBytes + 2 * g.scaleBytes <= g.slotBytes
  }

  ghost predicate PageFits(g: Geometry, layout: KVLayout, page: PageDescriptor) {
    && layout.groupTokens > 0
    && layout.TensorBytes(page.validTokens) <= g.tensorBytes && layout.ScaleBytes(page.validTokens) <= g.scaleBytes
  }

  // The slot's four regions hold the payload.
  ghost predicate Holds(bytes: seq<byte>, g: Geometry, slot: nat, data: Payload) {
    var base := Base(g, slot);
    && At(bytes, base, data.k) && At(bytes, base + g.tensorBytes, data.v)
    && At(bytes, base + 2 * g.tensorBytes, data.kScales)
    && At(bytes, base + 2 * g.tensorBytes + g.scaleBytes, data.vScales)
  }

  // Payload sizes as the page demands them.
  ghost predicate Sized(layout: KVLayout, page: PageDescriptor, data: Payload)
    requires layout.groupTokens > 0
  {
    && |data.k| == |data.v| == layout.TensorBytes(page.validTokens)
    && |data.kScales| == |data.vScales| == layout.ScaleBytes(page.validTokens)
  }

  // Everything outside the slot is as before.
  ghost predicate OnlySlot(before: seq<byte>, after: seq<byte>, g: Geometry, slot: nat) {
    |after| == |before| &&
    forall x :: 0 <= x < |before| && !(Base(g, slot) <= x < Base(g, slot) + g.slotBytes) ==> after[x] == before[x]
  }

  lemma SlotInside(g: Geometry, slot: nat)
    requires slot < g.slotCount
    ensures Base(g, slot) + g.slotBytes <= g.slotCount * g.slotBytes
  {
    Scale(slot + 1, g.slotCount, g.slotBytes);
  }

  lemma SlotsApart(g: Geometry, a: nat, b: nat)
    requires a != b
    ensures Base(g, a) + g.slotBytes <= Base(g, b) || Base(g, b) + g.slotBytes <= Base(g, a)
  {
    if a < b {
      Scale(a + 1, b, g.slotBytes);
    } else {
      Scale(b + 1, a, g.slotBytes);
    }
  }

  lemma PieceSizes(g: Geometry, layout: KVLayout, page: PageDescriptor, data: Payload)
    requires PageFits(g, layout, page) && Sized(layout, page, data)
    ensures |data.k| <= g.tensorBytes && |data.v| <= g.tensorBytes && |data.kScales| <= g.scaleBytes && |data.vScales| <= g.scaleBytes
  {
  }

  // Overwriting one slot leaves every other slot's payload alone.
  lemma OtherSlotHolds(before: seq<byte>, after: seq<byte>, g: Geometry, layout: KVLayout, slot: nat, other: nat,
                       page: PageDescriptor, data: Payload)
    requires slot < g.slotCount && other < g.slotCount && slot != other && Roomy(g) && PageFits(g, layout, page)
    requires Sized(layout, page, data) && Holds(before, g, other, data) && OnlySlot(before, after, g, slot)
    ensures Holds(after, g, other, data)
  {
    hide At, OnlySlot, Base, Sized, PageFits, KVLayout.TensorBytes, KVLayout.ScaleBytes;
    SlotsApart(g, slot, other);
    PieceSizes(g, layout, page, data);
    var base := Base(g, other);
    AtKept(before, after, g, slot, base, base, data.k);
    AtKept(before, after, g, slot, base, base + g.tensorBytes, data.v);
    AtKept(before, after, g, slot, base, base + 2 * g.tensorBytes, data.kScales);
    AtKept(before, after, g, slot, base, base + 2 * g.tensorBytes + g.scaleBytes, data.vScales);
  }

  lemma AtKept(before: seq<byte>, after: seq<byte>, g: Geometry, slot: nat, base: nat, start: nat, piece: seq<byte>)
    requires At(before, start, piece) && OnlySlot(before, after, g, slot)
    requires base <= start && start + |piece| <= base + g.slotBytes
    requires base + g.slotBytes <= Base(g, slot) || Base(g, slot) + g.slotBytes <= base
    ensures At(after, start, piece)
  {
    assert forall x :: start <= x < start + |piece| ==> after[x] == before[x];
    assert after[start..start + |piece|] == before[start..start + |piece|];
  }

  lemma SplicedInSlot(before: seq<byte>, bytes: seq<byte>, g: Geometry, slot: nat, at: nat, piece: seq<byte>)
    requires OnlySlot(before, bytes, g, slot) && at + |piece| <= |bytes|
    requires Base(g, slot) <= at && at + |piece| <= Base(g, slot) + g.slotBytes
    ensures OnlySlot(before, Spliced(bytes, at, piece), g, slot)
  {
  }

  // The four regions written in turn.
  function Filling(bytes: seq<byte>, g: Geometry, base: nat, data: Payload): (filled: seq<byte>)
    requires |data.k| <= g.tensorBytes && |data.v| <= g.tensorBytes
    requires |data.kScales| <= g.scaleBytes && |data.vScales| <= g.scaleBytes
    requires base + 2 * g.tensorBytes + 2 * g.scaleBytes <= |bytes|
    ensures |filled| == |bytes|
  {
    Spliced(Spliced(Spliced(Spliced(bytes, base, data.k), base + g.tensorBytes, data.v),
                    base + 2 * g.tensorBytes, data.kScales),
            base + 2 * g.tensorBytes + g.scaleBytes, data.vScales)
  }

  lemma FillingSteps(before: seq<byte>, after: seq<byte>, g: Geometry, base: nat, data: Payload)
    requires |data.k| <= g.tensorBytes && |data.v| <= g.tensorBytes
    requires |data.kScales| <= g.scaleBytes && |data.vScales| <= g.scaleBytes
    requires base + 2 * g.tensorBytes + 2 * g.scaleBytes <= |before|
    requires after == Spliced(Spliced(Spliced(Spliced(before, base, data.k), base + g.tensorBytes, data.v),
                                      base + 2 * g.tensorBytes, data.kScales),
                              base + 2 * g.tensorBytes + g.scaleBytes, data.vScales)
    ensures after == Filling(before, g, base, data)
  {
  }

  lemma FillingHolds(bytes: seq<byte>, g: Geometry, slot: nat, data: Payload)
    requires |data.k| <= g.tensorBytes && |data.v| <= g.tensorBytes
    requires |data.kScales| <= g.scaleBytes && |data.vScales| <= g.scaleBytes
    requires 2 * g.tensorBytes + 2 * g.scaleBytes <= g.slotBytes && Base(g, slot) + g.slotBytes <= |bytes|
    ensures Holds(Filling(bytes, g, Base(g, slot), data), g, slot, data)
  {
    hide Spliced, At, Base;
    var base := Base(g, slot);
    var second, third, fourth := base + g.tensorBytes, base + 2 * g.tensorBytes, base + 2 * g.tensorBytes + g.scaleBytes;
    var one := Spliced(bytes, base, data.k);
    SplicedAt(bytes, base, data.k);
    var two := Spliced(one, second, data.v);
    SplicedAt(one, second, data.v);
    SplicedKeeps(one, second, data.v, base, data.k);
    var three := Spliced(two, third, data.kScales);
    SplicedAt(two, third, data.kScales);
    SplicedKeeps(two, third, data.kScales, base, data.k);
    SplicedKeeps(two, third, data.kScales, second, data.v);
    SplicedAt(three, fourth, data.vScales);
    SplicedKeeps(three, fourth, data.vScales, base, data.k);
    SplicedKeeps(three, fourth, data.vScales, second, data.v);
    SplicedKeeps(three, fourth, data.vScales, third, data.kScales);
  }

  lemma Unwritten(bytes: seq<byte>, g: Geometry, slot: nat)
    ensures OnlySlot(bytes, bytes, g, slot)
  {
  }

  lemma FillingInSlot(bytes: seq<byte>, g: Geometry, slot: nat, data: Payload)
    requires |data.k| <= g.tensorBytes && |data.v| <= g.tensorBytes
    requires |data.kScales| <= g.scaleBytes && |data.vScales| <= g.scaleBytes
    requires 2 * g.tensorBytes + 2 * g.scaleBytes <= g.slotBytes && Base(g, slot) + g.slotBytes <= |bytes|
    ensures OnlySlot(bytes, Filling(bytes, g, Base(g, slot), data), g, slot)
  {
    hide Spliced, At, Base, OnlySlot;
    Unwritten(bytes, g, slot);
    var base := Base(g, slot);
    var second, third, fourth := base + g.tensorBytes, base + 2 * g.tensorBytes, base + 2 * g.tensorBytes + g.scaleBytes;
    var one := Spliced(bytes, base, data.k);
    var two := Spliced(one, second, data.v);
    var three := Spliced(two, third, data.kScales);
    SplicedInSlot(bytes, bytes, g, slot, base, data.k);
    SplicedInSlot(bytes, one, g, slot, second, data.v);
    SplicedInSlot(bytes, two, g, slot, third, data.kScales);
    SplicedInSlot(bytes, three, g, slot, fourth, data.vScales);
  }

  // Writes the four regions of a slot that starts at `base`.
  method FillRegions(raw: array<byte>, g: Geometry, base: nat, t: nat, c: nat, ghost data: Payload,
                     k: array<byte>, v: array<byte>, kScales: array<byte>, vScales: array<byte>)
    requires raw != k && raw != v && raw != kScales && raw != vScales
    requires t <= k.Length && t <= v.Length && c <= kScales.Length && c <= vScales.Length
    requires t <= g.tensorBytes && c <= g.scaleBytes && base + 2 * g.tensorBytes + 2 * g.scaleBytes <= raw.Length
    requires data == Payload(k[..t], v[..t], kScales[..c], vScales[..c])
    modifies raw
    ensures raw[..] == Filling(old(raw[..]), g, base, data)
  {
    hide Spliced, Filling;
    CopyIn(raw, base, k, t, data.k);
    CopyIn(raw, base + g.tensorBytes, v, t, data.v);
    CopyIn(raw, base + 2 * g.tensorBytes, kScales, c, data.kScales);
    CopyIn(raw, base + 2 * g.tensorBytes + g.scaleBytes, vScales, c, data.vScales);
    FillingSteps(old(raw[..]), raw[..], g, base, data);
  }

  // Page numbers, pinned slots and the sizes every page must fit.
  ghost predicate WellPaged(pages: seq<PageDescriptor>, layout: KVLayout) {
    && layout.groupTokens > 0
    && (forall i, j :: 0 <= i < j < |pages| ==> pages[i].pageId != pages[j].pageId)
    && (forall i :: 0 <= i < |pages| ==> pages[i].validTokens <= pages[i].paddedTokens)
  }

  // The first pages of the list, by number, each with a slot of its own.
  ghost predicate PinnedSlots(pages: seq<PageDescriptor>, pinned: map<nat, nat>, n: nat)
    requires n <= |pages|
  {
    && (forall i :: 0 <= i < n ==> pages[i].pageId in pinned && pinned[pages[i].pageId] == i)
    && (forall id :: id in pinned ==> pinned[id] < n && pages[pinned[id]].pageId == id)
  }

  // Rolling pages and free slots share the slots from `low` to `high`, without repetition.
  ghost predicate RollingSlots(order: seq<nat>, slots: map<nat, nat>, free: seq<nat>, low: nat, high: nat) {
    && (forall id :: id in slots <==> id in order)
    && (forall id :: id in slots ==> low <= slots[id] < high && slots[id] !in free)
    && (forall a, b :: a in slots && b in slots && a != b ==> slots[a] != slots[b])
    && (forall i :: 0 <= i < |free| ==> low <= free[i] < high)
    && Distinct(free) && |free| + |order| == high - low
  }

  lemma PopFree(order: seq<nat>, slots: map<nat, nat>, free: seq<nat>, low: nat, high: nat, id: nat)
    requires RollingSlots(order, slots, free, low, high) && free != [] && id !in order
    ensures RollingSlots(order + [id], slots[id := free[0]], free[1..], low, high)
  {
    assert free == [free[0]] + free[1..];
  }

  lemma Replace(order: seq<nat>, slots: map<nat, nat>, free: seq<nat>, low: nat, high: nat, id: nat)
    requires RollingSlots(order, slots, free, low, high) && order != [] && id !in order && Distinct(order)
    ensures order[0] in slots
    ensures RollingSlots(order[1..] + [id], (slots - {order[0]})[id := slots[order[0]]], free, low, high)
  {
    assert order == [order[0]] + order[1..];
    var next := (slots - {order[0]})[id := slots[order[0]]];
    assert forall x :: x in next <==> x in order[1..] + [id];
  }

  lemma Reorder(order: seq<nat>, slots: map<nat, nat>, free: seq<nat>, low: nat, high: nat, id: nat)
    requires RollingSlots(order, slots, free, low, high) && id in order && Distinct(order)
    ensures RollingSlots(Without(order, id) + [id], slots, free, low, high)
  {
    WithoutMeans(order, id);
  }

  function SlotFor(pinned: map<nat, nat>, slots: map<nat, nat>, id: nat): nat {
    if id in pinned then pinned[id] else if id in slots then slots[id] else 0
  }

  ghost predicate PageHeld(bytes: seq<byte>, g: Geometry, layout: KVLayout, page: PageDescriptor, slot: nat, data: Payload)
    requires layout.groupTokens > 0
  {
    Sized(layout, page, data) && Holds(bytes, g, slot, data)
  }

  // Every stored page but those numbered in `except` sits intact in its slot.
  ghost predicate Intact(bytes: seq<byte>, g: Geometry, layout: KVLayout, pages: seq<PageDescriptor>,
                         pinned: map<nat, nat>, slots: map<nat, nat>, stored: map<nat, Payload>, except: set<nat>)
    requires layout.groupTokens > 0
  {
    forall i :: 0 <= i < |pages| && pages[i].pageId in stored && pages[i].pageId !in except ==>
      PageHeld(bytes, g, layout, pages[i], SlotFor(pinned, slots, pages[i].pageId), stored[pages[i].pageId])
  }

  // Bookkeeping for one page moves no other page.
  lemma OthersKept(bytes: seq<byte>, g: Geometry, layout: KVLayout, pages: seq<PageDescriptor>, pinned: map<nat, nat>,
                   slots: map<nat, nat>, stored: map<nat, Payload>, newSlots: map<nat, nat>, newStored: map<nat, Payload>, id: nat)
    requires layout.groupTokens > 0 && Intact(bytes, g, layout, pages, pinned, slots, stored, {})
    requires forall other :: other in newStored && other != id ==>
               && other in stored && newStored[other] == stored[other]
               && SlotFor(pinned, newSlots, other) == SlotFor(pinned, slots, other)
    ensures Intact(bytes, g, layout, pages, pinned, newSlots, newStored, {id})
  {
    hide PageHeld;
  }

  // Writing one page's slot completes it and leaves the others alone.
  lemma SlotFilled(before: seq<byte>, after: seq<byte>, g: Geometry, layout: KVLayout, pages: seq<PageDescriptor>,
                   pinned: map<nat, nat>, slots: map<nat, nat>, stored: map<nat, Payload>, page: PageDescriptor)
    requires layout.groupTokens > 0 && Intact(before, g, layout, pages, pinned, slots, stored, {page.pageId})
    requires page.pageId in stored && Roomy(g)
    requires forall i :: 0 <= i < |pages| ==> PageFits(g, layout, pages[i])
    requires forall i :: 0 <= i < |pages| && pages[i].pageId == page.pageId ==> pages[i] == page
    requires var slot := SlotFor(pinned, slots, page.pageId);
             && slot < g.slotCount && OnlySlot(before, after, g, slot)
             && PageHeld(after, g, layout, page, slot, stored[page.pageId])
             && forall id :: id in stored && id != page.pageId ==>
                  SlotFor(pinned, slots, id) != slot && SlotFor(pinned, slots, id) < g.slotCount
    ensures Intact(after, g, layout, pages, pinned, slots, stored, {})
  {
    hide Sized, Holds, Roomy, PageFits, OnlySlot, SlotFor;
    forall i | 0 <= i < |pages| && pages[i].pageId in stored
      ensures PageHeld(after, g, layout, pages[i], SlotFor(pinned, slots, pages[i].pageId), stored[pages[i].pageId])
    {
      var id := pages[i].pageId;
      if id != page.pageId {
        assert PageHeld(before, g, layout, pages[i], SlotFor(pinned, slots, id), stored[id]);
        OtherSlotHolds(before, after, g, layout, SlotFor(pinned, slots, page.pageId), SlotFor(pinned, slots, id), pages[i], stored[id]);
      }
    }
  }

  method MaxTokens(pages: seq<PageDescriptor>) returns (most: nat)
    ensures forall i :: 0 <= i < |pages| ==> pages[i].paddedTokens <= most
    ensures if pages == [] then most == 0 else exists i :: 0 <= i < |pages| && pages[i].paddedTokens == most
  {
    most := 0;
    for i := 0 to |pages|
      invariant forall j :: 0 <= j < i ==> pages[j].paddedTokens <= most
      invariant if i == 0 then most == 0 else exists j :: 0 <= j < i && pages[j].paddedTokens == most
    {
      if i == 0 || pages[i].paddedTokens > most {
        most := pages[i].paddedTokens;
      }
    }
  }

  lemma Affordable(count: nat, slotBytes: nat, capacityBytes: nat)
    requires slotBytes > 0 && count <= capacityBytes / slotBytes
    ensures count * slotBytes <= capacityBytes
  {
    Scale(count, capacityBytes / slotBytes, slotBytes);
  }

  // Slots hold the largest page and are aligned; there are as many as the capacity allows and the pages need.
  ghost predicate PlannedFor(g: Geometry, pages: seq<PageDescriptor>, layout: KVLayout, capacityBytes: nat, most: nat)
    requires layout.groupTokens > 0
  {
    && (forall i :: 0 <= i < |pages| ==> pages[i].paddedTokens <= most)
    && (if pages == [] then most == 0 else exists i :: 0 <= i < |pages| && pages[i].paddedTokens == most)
    && g.tensorBytes == layout.TensorBytes(most) && g.scaleBytes == layout.ScaleBytes(most)
    && (if most == 0 then g.slotBytes == 0 else
          g.slotBytes % 64 == 0 && g.slotBytes - 64 < 2 * g.tensorBytes + 2 * g.scaleBytes <= g.slotBytes)
    && (g.slotBytes == 0 ==> g.slotCount == 0)
    && g.slotCount <= |pages| && g.slotCount * g.slotBytes <= capacityBytes
    && (g.slotBytes > 0 && g.slotCount < |pages| ==> capacityBytes < (g.slotCount + 1) * g.slotBytes)
  }

  method Plan(pages: seq<PageDescriptor>, layout: KVLayout, capacityBytes: nat) returns (g: Geometry)
    requires WellPaged(pages, layout)
    ensures Roomy(g) && forall i :: 0 <= i < |pages| ==> PageFits(g, layout, pages[i])
    ensures exists most :: PlannedFor(g, pages, layout, capacityBytes, most)
  {
    hide KVLayout.TensorBytes, KVLayout.ScaleBytes, AlignUp;
    var maxTokens := MaxTokens(pages);
    var tensorBytes, scaleBytes := layout.TensorBytes(maxTokens), layout.ScaleBytes(maxTokens);
    var slotBytes := if maxTokens > 0 then AlignUp(2 * tensorBytes + 2 * scaleBytes, 64) else 0;
    var affordable := if slotBytes > 0 then capacityBytes / slotBytes else 0;
    var slotCount := if affordable < |pages| then affordable else |pages|;
    g := Geometry(tensorBytes, scaleBytes, slotBytes, slotCount);
    if slotBytes > 0 {
      Affordable(slotCount, slotBytes, capacityBytes);
      NoneLeft(capacityBytes, slotBytes);
    }
    assert PlannedFor(g, pages, layout, capacityBytes, maxTokens);
    forall i | 0 <= i < |pages|
      ensures PageFits(g, layout, pages[i])
    {
      SizesMonotone(layout, pages[i].validTokens, maxTokens);
    }
  }

  lemma NoneLeft(capacityBytes: nat, slotBytes: nat)
    requires slotBytes > 0
    ensures capacityBytes < (capacityBytes / slotBytes + 1) * slotBytes
  {
    var count := capacityBytes / slotBytes;
    assert (count + 1) * slotBytes == count * slotBytes + slotBytes;
  }

  method PinFirst(pages: seq<PageDescriptor>, n: nat) returns (pinned: map<nat, nat>)
    requires n <= |pages| && forall i, j :: 0 <= i < j < |pages| ==> pages[i].pageId != pages[j].pageId
    ensures PinnedSlots(pages, pinned, n)
  {
    pinned := map[];
    for i := 0 to n
      invariant PinnedSlots(pages, pinned, i)
    {
      assert forall id :: id in pinned ==> pages[pinned[id]].pageId == id;
      pinned := pinned[pages[i].pageId := i];
    }
  }

  // Pinned slots: the given share of all slots, at least one when any is asked for.
  function HotSlots(slotCount: nat, hotFraction: real): (hot: nat)
    requires hotFraction >= 0.0
    ensures hot <= slotCount && (hotFraction > 0.0 && slotCount > 0 ==> hot > 0)
  {
    var share := (slotCount as real * hotFraction).Floor;
    var wanted := if hotFraction > 0.0 && slotCount > 0 && share < 1 then 1 else share;
    if wanted < slotCount then wanted else slotCount
  }

  /** n slots are pinned exactly when there are as many and they lie within the share, or n is one and any share is asked for. */
  lemma HotSlotsAre(slotCount: nat, hotFraction: real, n: nat)
    requires hotFraction >= 0.0 && n > 0
    ensures n <= HotSlots(slotCount, hotFraction) <==>
            n <= slotCount && (n as real <= slotCount as real * hotFraction || (n == 1 && hotFraction > 0.0))
  {
  }

  class KVPageCache {
    const pages: seq<PageDescriptor>
    const layout: KVLayout
    const geometry: Geometry
    const hotSlotCount: nat
    const hotSlotById: map<nat, nat>
    const raw: array<byte>
    var hotPresent: set<nat>
    var rolling: seq<nat>
    var slots: map<nat, nat>
    var free: seq<nat>
    var hits: nat
    var misses: nat
    var presentCount: nat
    var peakBytes: nat
    ghost var stored: map<nat, Payload>

    constructor (pages: seq<PageDescriptor>, layout: KVLayout, capacityBytes: nat, hotFraction: real)
      requires WellPaged(pages, layout) && hotFraction >= 0.0
      ensures Valid() && State() == EMPTY && fresh(raw)
      ensures this.pages == pages && this.layout == layout && raw.Length <= capacityBytes
      ensures exists most :: PlannedFor(geometry, pages, layout, capacityBytes, most)
      ensures hotSlotCount == HotSlots(geometry.slotCount, hotFraction) && hits == 0 && misses == 0 && peakBytes == 0
    {
      this.pages := pages;
      this.layout := layout;
      var g := Plan(pages, layout, capacityBytes);
      var hot := HotSlots(g.slotCount, hotFraction);
      var pinned := PinFirst(pages, hot);
      geometry := g;
      hotSlotCount := hot;
      hotSlotById := pinned;
      raw := new byte[g.slotCount * g.slotBytes];
      hotPresent := {};
      rolling := [];
      slots := map[];
      free := seq(g.slotCount - hot, i requires 0 <= i < g.slotCount - hot => hot + i);
      hits := 0;
      misses := 0;
      presentCount := 0;
      peakBytes := 0;
      stored := map[];
    }

    // The cache as the policy sees it.
    ghost function State(): CacheState
      reads `hotPresent, `rolling, `stored
    {
      CacheState(hotPresent, rolling, stored)
    }

    ghost function Policy(): Config {
      Config(hotSlotById.Keys, if hotSlotCount <= geometry.slotCount then geometry.slotCount - hotSlotCount else 0)
    }

    function SlotOf(id: nat): nat
      reads `slots
    {
      SlotFor(hotSlotById, slots, id)
    }

    ghost predicate Fixed() {
      && WellPaged(pages, layout) && Roomy(geometry)
      && (forall i :: 0 <= i < |pages| ==> PageFits(geometry, layout, pages[i]))
      && hotSlotCount <= geometry.slotCount <= |pages|
      && PinnedSlots(pages, hotSlotById, hotSlotCount)
    }

    // Bytes of the slots in use.
    ghost function PresentBytes(): nat
      reads `hotPresent, `rolling
    {
      (|hotPresent| + |rolling|) * geometry.slotBytes
    }

    // Each present page has its own slot, and the slot holds its payload.
    ghost predicate Filled()
      reads `slots, `stored, raw
      requires Fixed()
    {
      && raw.Length == geometry.slotCount * geometry.slotBytes
      && Intact(raw[..], geometry, layout, pages, hotSlotById, slots, stored, {})
    }

    ghost predicate Counted()
      reads `presentCount, `peakBytes, `hotPresent, `rolling
    {
      && presentCount == |hotPresent| + |rolling| && presentCount <= geometry.slotCount
      && peakBytes <= geometry.slotCount * geometry.slotBytes
    }

    ghost predicate Valid()
      reads `hotPresent, `rolling, `slots, `free, `stored, `presentCount, `peakBytes, raw
    {
      && Fixed() && Consistent(Policy(), State())
      && RollingSlots(rolling, slots, free, hotSlotCount, geometry.slotCount)
      && Filled() && Counted()
    }

    // Present pages occupy distinct slots inside the array.
    lemma DistinctSlots(a: nat, b: nat)
      requires Valid() && Present(State(), a) && Present(State(), b) && a != b
      ensures SlotOf(a) < geometry.slotCount && SlotOf(a) != SlotOf(b)
    {
    }

    // Slot of a present page; a rolling page becomes the most recent.
    method FindSlot(id: nat) returns (slot: nat, found: bool)
      requires Valid()
      modifies `rolling
      ensures Valid() && State() == Touch(old(State()), id)
      ensures found == Present(State(), id) == Present(old(State()), id) && (found ==> slot == SlotOf(id) && slot < geometry.slotCount)
    {
      if id in hotSlotById {
        return hotSlotById[id], id in hotPresent;
      }
      if id !in slots {
        return 0, false;
      }
      slot, found := slots[id], true;
      Reorder(rolling, slots, free, hotSlotCount, geometry.slotCount, id);
      WithoutMeans(rolling, id);
      rolling := Without(rolling, id) + [id];
    }

    // What a page's arguments amount to.
    ghost function PayloadOf(page: PageDescriptor, k: array<byte>, v: array<byte>, kScales: array<byte>, vScales: array<byte>): Payload
      reads k, v, kScales, vScales
      requires Supplies(page, k, v, kScales, vScales)
    {
      var t, c := layout.TensorBytes(page.validTokens), layout.ScaleBytes(page.validTokens);
      Payload(k[..t], v[..t], kScales[..c], vScales[..c])
    }

    // Buffers long enough for the page, none of them the cache's own.
    ghost predicate Supplies(page: PageDescriptor, k: array<byte>, v: array<byte>, kScales: array<byte>, vScales: array<byte>) {
      && layout.groupTokens > 0 && raw != k && raw != v && raw != kScales && raw != vScales
      && layout.TensorBytes(page.validTokens) <= k.Length && layout.TensorBytes(page.validTokens) <= v.Length
      && layout.ScaleBytes(page.validTokens) <= kScales.Length && layout.ScaleBytes(page.validTokens) <= vScales.Length
    }

    // Fills one slot's four regions.
    method WritePage(slot: nat, page: PageDescriptor, k: array<byte>, v: array<byte>, kScales: array<byte>, vScales: array<byte>)
      requires Roomy(geometry) && PageFits(geometry, layout, page) && slot < geometry.slotCount
      requires raw.Length == geometry.slotCount * geometry.slotBytes && Supplies(page, k, v, kScales, vScales)
      modifies raw
      ensures Holds(raw[..], geometry, slot, PayloadOf(page, k, v, kScales, vScales))
      ensures OnlySlot(old(raw[..]), raw[..], geometry, slot)
    {
      SlotInside(geometry, slot);
      ghost var data := PayloadOf(page, k, v, kScales, vScales);
      FillingHolds(raw[..], geometry, slot, data);
      FillingInSlot(raw[..], geometry, slot, data);
      var base := Base(geometry, slot);
      var t, c := layout.TensorBytes(page.validTokens), layout.ScaleBytes(page.validTokens);
      assert data == Payload(k[..t], v[..t], kScales[..c], vScales[..c]);
      assert base + 2 * geometry.tensorBytes + 2 * geometry.scaleBytes <= raw.Length;
      hide Base, Filling, Holds, OnlySlot;
      FillRegions(raw, geometry, base, t, c, data, k, v, kScales, vScales);
    }

    // Copies one slot's four regions to the fronts of the caller's buffers.
    method ReadRegions(slot: nat, page: PageDescriptor, ghost data: Payload,
                       k: array<byte>, v: array<byte>, kScales: array<byte>, vScales: array<byte>)
      requires Roomy(geometry) && PageFits(geometry, layout, page) && slot < geometry.slotCount
      requires raw.Length == geometry.slotCount * geometry.slotBytes && Supplies(page, k, v, kScales, vScales)
      requires k != v && k != kScales && k != vScales && v != kScales && v != vScales && kScales != vScales
      requires Sized(layout, page, data) && Holds(raw[..], geometry, slot, data)
      modifies k, v, kScales, vScales
      ensures k[..] == data.k + old(k[..])[|data.k|..] && v[..] == data.v + old(v[..])[|data.v|..]
      ensures kScales[..] == data.kScales + old(kScales[..])[|data.kScales|..]
      ensures vScales[..] == data.vScales + old(vScales[..])[|data.vScales|..]
    {
      hide Base, Roomy, Sized, Holds, PageFits, KVLayout.TensorBytes, KVLayout.ScaleBytes;
      var base := Base(geometry, slot);
      RegionsInside(slot, page, data);
      var t, c := layout.TensorBytes(page.validTokens), layout.ScaleBytes(page.validTokens);
      CopyOut(k, raw, base, t, data.k);
      CopyOut(v, raw, base + geometry.tensorBytes, t, data.v);
      CopyOut(kScales, raw, base + 2 * geometry.tensorBytes, c, data.kScales);
      CopyOut(vScales, raw, base + 2 * geometry.tensorBytes + geometry.scaleBytes, c, data.vScales);
    }

    // Copies one slot's payload out; rows past the page's tokens become zero.
    method ReadPage(slot: nat, page: PageDescriptor, ghost data: Payload,
                    k: array<byte>, v: array<byte>, kScales: array<byte>, vScales: array<byte>)
      requires Roomy(geometry) && PageFits(geometry, layout, page) && slot < geometry.slotCount
      requires raw.Length == geometry.slotCount * geometry.slotBytes && Supplies(page, k, v, kScales, vScales)
      requires k != v && k != kScales && k != vScales && v != kScales && v != vScales && kScales != vScales
      requires Sized(layout, page, data) && Holds(raw[..], geometry, slot, data)
      modifies k, v, kScales, vScales
      ensures Delivered(data, old(v[..]), old(kScales[..]), old(vScales[..]), k[..], v[..], kScales[..], vScales[..])
    {
      var t := layout.TensorBytes(page.validTokens);
      assert |data.k| == t && |data.v| == t && |data.kScales| <= kScales.Length && |data.vScales| <= vScales.Length;
      hide Roomy, PageFits, Supplies, Sized, Holds, KVLayout.TensorBytes, KVLayout.ScaleBytes, KVLayout.BytesPerToken;
      ReadRegions(slot, page, data, k, v, kScales, vScales);
      assert k[..t] == data.k && v[..t] == data.v;
      if k.Length > t {
        ZeroFrom(k, t);
        ZeroFrom(v, t);
      }
    }

    // The regions the reader copies, as slices of the array.
    lemma RegionsInside(slot: nat, page: PageDescriptor, data: Payload)
      requires Roomy(geometry) && PageFits(geometry, layout, page) && slot < geometry.slotCount
      requires raw.Length == geometry.slotCount * geometry.slotBytes
      requires Sized(layout, page, data) && Holds(raw[..], geometry, slot, data)
      ensures var base, t, c := Base(geometry, slot), layout.TensorBytes(page.validTokens), layout.ScaleBytes(page.validTokens);
              && |data.k| == |data.v| == t && |data.kScales| == |data.vScales| == c
              && base + 2 * geometry.tensorBytes + geometry.scaleBytes + c <= raw.Length && t <= geometry.tensorBytes
              && raw[base..base + t] == data.k
              && raw[base + geometry.tensorBytes..base + geometry.tensorBytes + t] == data.v
              && raw[base + 2 * geometry.tensorBytes..base + 2 * geometry.tensorBytes + c] == data.kScales
              && raw[base + 2 * geometry.tensorBytes + geometry.scaleBytes..base + 2 * geometry.tensorBytes + geometry.scaleBytes + c]
                 == data.vScales
    {
      hide Base;
    }

    // A present page's slot holds its payload.
    lemma FoundPage(page: PageDescriptor)
      requires Valid() && page in pages && Present(State(), page.pageId)
      ensures layout.groupTokens > 0 && page.pageId in stored && SlotOf(page.pageId) < geometry.slotCount
      ensures Roomy(geometry) && PageFits(geometry, layout, page) && raw.Length == geometry.slotCount * geometry.slotBytes
      ensures Sized(layout, page, stored[page.pageId])
      ensures Holds(raw[..], geometry, SlotOf(page.pageId), stored[page.pageId])
    {
      hide Holds, Roomy, PageFits;
      var i :| 0 <= i < |pages| && pages[i] == page;
      assert PageHeld(raw[..], geometry, layout, pages[i], SlotOf(page.pageId), stored[page.pageId]);
    }

    /** A hit delivers exactly the payload the page was inserted with, zero-padded; a miss writes nothing. */
    method Get(page: PageDescriptor, k: array<byte>, v: array<byte>, kScales: array<byte>, vScales: array<byte>) returns (hit: bool)
      requires Valid() && page in pages && Supplies(page, k, v, kScales, vScales)
      requires k != v && k != kScales && k != vScales && v != kScales && v != vScales && kScales != vScales
      modifies `rolling, `hits, `misses, k, v, kScales, vScales
      ensures Valid() && State() == Touch(old(State()), page.pageId) && stored == old(stored)
      ensures hit == Present(old(State()), page.pageId)
      ensures hits == old(hits) + (if hit then 1 else 0) && misses == old(misses) + (if hit then 0 else 1)
      ensures hit ==> page.pageId in stored && Sized(layout, page, stored[page.pageId])
      ensures hit ==> Delivered(stored[page.pageId], old(v[..]), old(kScales[..]), old(vScales[..]),
                                k[..], v[..], kScales[..], vScales[..])
      ensures !hit ==> k[..] == old(k[..]) && v[..] == old(v[..]) && kScales[..] == old(kScales[..]) && vScales[..] == old(vScales[..])
    {
      hide Fixed, Filled, Counted, RollingSlots, Consistent, Touch;
      var slot;
      slot, hit := FindSlot(page.pageId);
      if !hit {
        misses := misses + 1;
        return;
      }
      hits := hits + 1;
      FoundPage(page);
      hide *;
      ReadPage(slot, page, stored[page.pageId], k, v, kScales, vScales);
    }

    // All bookkeeping is in order, and `id` has a slot whose bytes are still to be written.
    ghost predicate Claimed(id: nat, slot: nat)
      reads `hotPresent, `rolling, `slots, `free, `stored, `presentCount, `peakBytes, raw
    {
      && Fixed() && Consistent(Policy(), State())
      && RollingSlots(rolling, slots, free, hotSlotCount, geometry.slotCount)
      && raw.Length == geometry.slotCount * geometry.slotBytes
      && Intact(raw[..], geometry, layout, pages, hotSlotById, slots, stored, {id}) && Counted()
      && Present(State(), id) && slot == SlotOf(id) && slot < geometry.slotCount
    }

    // Gives a new page a slot: its pinned one, a free one, or the oldest rolling page's.
    method ClaimSlot(id: nat, ghost data: Payload) returns (slot: nat)
      requires Valid() && !Present(State(), id) && Accepts(Policy(), State(), id)
      modifies `hotPresent, `rolling, `slots, `free, `presentCount, `stored
      ensures Claimed(id, slot) && State() == Insert(Policy(), old(State()), id, data)
    {
      if id in hotSlotById {
        slot := ClaimPinned(id, data);
      } else if |free| > 0 {
        slot := ClaimFree(id, data);
      } else {
        slot := ClaimOldest(id, data);
      }
    }

    method ClaimPinned(id: nat, ghost data: Payload) returns (slot: nat)
      requires Valid() && !Present(State(), id) && id in hotSlotById
      modifies `hotPresent, `presentCount, `stored
      ensures Claimed(id, slot) && State() == Insert(Policy(), old(State()), id, data)
    {
      hide Fixed, RollingSlots, Consistent, Intact, Insert, Policy, Present;
      ghost var next := Insert(Policy(), State(), id, data);
      PinnedJoins(id, data, next);
      slot := hotSlotById[id];
      hotPresent := hotPresent + {id};
      presentCount := presentCount + 1;
      stored := stored[id := data];
      assert State() == next;
    }

    lemma PinnedJoins(id: nat, data: Payload, next: CacheState)
      requires Valid() && !Present(State(), id) && id in hotSlotById && next == Insert(Policy(), State(), id, data)
      ensures next == CacheState(hotPresent + {id}, rolling, stored[id := data])
      ensures Consistent(Policy(), next) && Present(next, id) && id !in hotPresent
      ensures |hotPresent| + |rolling| < geometry.slotCount && hotSlotById[id] < geometry.slotCount
      ensures Intact(raw[..], geometry, layout, pages, hotSlotById, slots, stored[id := data], {id})
    {
      PinnedRoom(id);
      StepConsistent(Policy(), State(), Call.Put(id, data));
      OthersKept(raw[..], geometry, layout, pages, hotSlotById, slots, stored, slots, stored[id := data], id);
    }

    // An absent pinned page leaves room in the pinned region.
    lemma PinnedRoom(id: nat)
      requires Valid() && id in hotSlotById && id !in hotPresent
      ensures |hotPresent| + |rolling| < geometry.slotCount
    {
      KeysBounded(hotSlotById, hotSlotCount);
      assert hotPresent + {id} <= hotSlotById.Keys;
      CardinalityMonotone(hotPresent + {id}, hotSlotById.Keys);
    }

    // A free slot means the rolling region is not full.
    lemma FreeMeansRoom()
      requires Valid() && |free| > 0
      ensures |rolling| < geometry.slotCount - hotSlotCount && hotSlotCount <= free[0] < geometry.slotCount
      ensures forall id :: id in slots <==> id in rolling
      ensures |hotPresent| <= hotSlotCount
    {
      KeysBounded(hotSlotById, hotSlotCount);
      CardinalityMonotone(hotPresent, hotSlotById.Keys);
    }

    method ClaimFree(id: nat, ghost data: Payload) returns (slot: nat)
      requires Valid() && !Present(State(), id) && id !in hotSlotById && |free| > 0
      modifies `rolling, `slots, `free, `presentCount, `stored
      ensures Claimed(id, slot) && State() == Insert(Policy(), old(State()), id, data)
    {
      hide Fixed, RollingSlots, Consistent, Intact, Insert, Policy, Present;
      ghost var next := Insert(Policy(), State(), id, data);
      slot := free[0];
      FreeJoins(id, data, next);
      free := free[1..];
      presentCount := presentCount + 1;
      rolling := rolling + [id];
      slots := slots[id := slot];
      stored := stored[id := data];
      assert State() == next;
    }

    method ClaimOldest(id: nat, ghost data: Payload) returns (slot: nat)
      requires Valid() && !Present(State(), id) && id !in hotSlotById && |free| == 0 && hotSlotCount < geometry.slotCount
      modifies `rolling, `slots, `stored
      ensures Claimed(id, slot) && State() == Insert(Policy(), old(State()), id, data)
    {
      hide Fixed, RollingSlots, Consistent, Intact, Insert, Policy, Present;
      ghost var next := Insert(Policy(), State(), id, data);
      OldestLeaves(id, data, next);
      var oldest := rolling[0];
      slot := slots[oldest];
      rolling := rolling[1..] + [id];
      slots := (slots - {oldest})[id := slot];
      stored := (stored - {oldest})[id := data];
      assert State() == next;
    }

    // Evicting the oldest page moves no other page.
    lemma OldestLeaves(id: nat, data: Payload, next: CacheState)
      requires Valid() && !Present(State(), id) && id !in hotSlotById && |free| == 0 && hotSlotCount < geometry.slotCount
      requires next == Insert(Policy(), State(), id, data)
      ensures |rolling| > 0 && rolling[0] in slots && slots[rolling[0]] < geometry.slotCount
      ensures var oldest := rolling[0];
              && next == CacheState(hotPresent, rolling[1..] + [id], (stored - {oldest})[id := data])
              && Consistent(Policy(), next) && Present(next, id)
              && RollingSlots(rolling[1..] + [id], (slots - {oldest})[id := slots[oldest]], free, hotSlotCount, geometry.slotCount)
              && Intact(raw[..], geometry, layout, pages, hotSlotById, (slots - {oldest})[id := slots[oldest]],
                        (stored - {oldest})[id := data], {id})
    {
      var oldest := rolling[0];
      Replace(rolling, slots, free, hotSlotCount, geometry.slotCount, id);
      StepConsistent(Policy(), State(), Call.Put(id, data));
      assert oldest in rolling;
      OthersKept(raw[..], geometry, layout, pages, hotSlotById, slots, stored,
                 (slots - {oldest})[id := slots[oldest]], (stored - {oldest})[id := data], id);
    }

    // A free slot goes to the new page.
    lemma FreeJoins(id: nat, data: Payload, next: CacheState)
      requires Valid() && !Present(State(), id) && id !in hotSlotById && |free| > 0
      requires next == Insert(Policy(), State(), id, data)
      ensures next == CacheState(hotPresent, rolling + [id], stored[id := data])
      ensures Consistent(Policy(), next) && Present(next, id) && free[0] < geometry.slotCount
      ensures |hotPresent| + |rolling| < geometry.slotCount
      ensures RollingSlots(rolling + [id], slots[id := free[0]], free[1..], hotSlotCount, geometry.slotCount)
      ensures Intact(raw[..], geometry, layout, pages, hotSlotById, slots[id := free[0]], stored[id := data], {id})
    {
      PopFree(rolling, slots, free, hotSlotCount, geometry.slotCount, id);
      StepConsistent(Policy(), State(), Call.Put(id, data));
      FreeMeansRoom();
      OthersKept(raw[..], geometry, layout, pages, hotSlotById, slots, stored, slots[id := free[0]], stored[id := data], id);
    }

    // Writes the claimed slot; the other pages' slots are untouched.
    method FillSlot(page: PageDescriptor, slot: nat, k: array<byte>, v: array<byte>, kScales: array<byte>, vScales: array<byte>)
      requires page in pages && Supplies(page, k, v, kScales, vScales) && Claimed(page.pageId, slot)
      requires stored[page.pageId] == PayloadOf(page, k, v, kScales, vScales)
      modifies raw
      ensures Valid()
    {
      SlotFacts(page, slot);
      hide Holds, OnlySlot, Roomy, PageFits, Sized, RollingSlots, Consistent, WellPaged, PinnedSlots, Intact;
      ghost var before := raw[..];
      WritePage(slot, page, k, v, kScales, vScales);
      SlotFilled(before, raw[..], geometry, layout, pages, hotSlotById, slots, stored, page);
    }

    lemma SlotFacts(page: PageDescriptor, slot: nat)
      requires page in pages && Claimed(page.pageId, slot)
      ensures Roomy(geometry) && PageFits(geometry, layout, page) && layout.groupTokens > 0 && page.pageId in stored
      ensures forall i :: 0 <= i < |pages| ==> PageFits(geometry, layout, pages[i])
      ensures forall id :: id in stored && id != page.pageId ==>
                SlotFor(hotSlotById, slots, id) != slot && SlotFor(hotSlotById, slots, id) < geometry.slotCount
      ensures forall i :: 0 <= i < |pages| && pages[i].pageId == page.pageId ==> pages[i] == page
    {
    }

    method RaisePeak()
      requires Valid()
      modifies `peakBytes
      ensures Valid() && peakBytes == Max(old(peakBytes), PresentBytes())
    {
      hide Fixed, RollingSlots, Consistent, Intact;
      var present := if presentCount < geometry.slotCount then presentCount else geometry.slotCount;
      Scale(present, geometry.slotCount, geometry.slotBytes);
      if peakBytes < present * geometry.slotBytes {
        peakBytes := present * geometry.slotBytes;
      }
    }

    /** Inserts a page under the cache's policy; a present page keeps its first payload. */
    method Put(page: PageDescriptor, k: array<byte>, v: array<byte>, kScales: array<byte>, vScales: array<byte>) returns (accepted: bool)
      requires Valid() && page in pages && Supplies(page, k, v, kScales, vScales)
      modifies `hotPresent, `rolling, `slots, `free, `presentCount, `peakBytes, `stored, raw
      ensures Valid() && accepted == Accepts(Policy(), old(State()), page.pageId)
      ensures State() == Insert(Policy(), old(State()), page.pageId, PayloadOf(page, k, v, kScales, vScales))
      ensures peakBytes == if accepted && !Present(old(State()), page.pageId) then Max(old(peakBytes), PresentBytes()) else old(peakBytes)
    {
      ghost var id, data := page.pageId, PayloadOf(page, k, v, kScales, vScales);
      hide Fixed, RollingSlots, Consistent, Intact, Insert, Accepts, Policy, Touch, Supplies, PayloadOf;
      PutCases(id, data);
      if geometry.slotCount == 0 {
        return false;
      }
      var existing, found := FindSlot(page.pageId);
      if found {
        return true;
      }
      if page.pageId !in hotSlotById && geometry.slotCount == hotSlotCount {
        return false;
      }
      accepted := true;
      InsertNew(page, k, v, kScales, vScales);
    }

    method InsertNew(page: PageDescriptor, k: array<byte>, v: array<byte>, kScales: array<byte>, vScales: array<byte>)
      requires Valid() && page in pages && Supplies(page, k, v, kScales, vScales)
      requires !Present(State(), page.pageId) && Accepts(Policy(), State(), page.pageId)
      modifies `hotPresent, `rolling, `slots, `free, `presentCount, `peakBytes, `stored, raw
      ensures Valid()
      ensures State() == Insert(Policy(), old(State()), page.pageId, PayloadOf(page, k, v, kScales, vScales))
      ensures peakBytes == Max(old(peakBytes), PresentBytes())
    {
      ghost var id, data := page.pageId, PayloadOf(page, k, v, kScales, vScales);
      hide Fixed, RollingSlots, Consistent, Intact, Insert, Accepts, Policy, Touch, Supplies, PayloadOf;
      PutCases(id, data);
      var slot := ClaimSlot(page.pageId, data);
      assert stored[id] == data;
      FillSlot(page, slot, k, v, kScales, vScales);
      hide Counted, Filled, PresentBytes;
      RaisePeak();
    }

    // How an insert will end.
    lemma PutCases(id: nat, data: Payload)
      requires Valid()
      ensures Accepts(Policy(), State(), id) == (Present(State(), id) || id in hotSlotById || geometry.slotCount != hotSlotCount)
      ensures Present(State(), id) ==> Insert(Policy(), State(), id, data) == Touch(State(), id)
      ensures !Present(State(), id) ==> Touch(State(), id) == State()
      ensures !Accepts(Policy(), State(), id) ==> Insert(Policy(), State(), id, data) == State()
      ensures !Present(State(), id) && Accepts(Policy(), State(), id) ==>
                id in Insert(Policy(), State(), id, data).stored && Insert(Policy(), State(), id, data).stored[id] == data
      ensures geometry.slotCount == 0 ==> !Accepts(Policy(), State(), id)
    {
    }
  }

  lemma CardinalityMonotone(a: set<nat>, b: set<nat>)
    requires a <= b
    ensures |a| <= |b|
  {
    assert b == a + (b - a);
  }

  // A map with distinct values below n has at most n keys.
  lemma {:induction false} KeysBounded(m: map<nat, nat>, n: nat)
    requires forall a :: a in m ==> m[a] < n
    requires forall a, b :: a in m && b in m && a != b ==> m[a] != m[b]
    ensures |m.Keys| <= n
  {
    if n == 0 {
      assert m.Keys == {};
    } else if a :| a in m && m[a] == n - 1 {
      KeysBounded(m - {a}, n - 1);
      assert m.Keys == (m - {a}).Keys + {a};
    } else {
      KeysBounded(m, n - 1);
    }
  }
}
