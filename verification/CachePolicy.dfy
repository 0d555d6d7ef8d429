/** The two-region cache as values: what lookups and inserts do, and what every run keeps. */
module CachePolicy {
  import opened Basics
  import opened PageLayout

  // Pinned pages present, rolling pages from least to most recently touched, and their payloads.
  datatype CacheState = CacheState(hot: set<nat>, order: seq<nat>, stored: map<nat, Payload>)

  // Which pages are pinned, and how many rolling slots there are.
  datatype Config = Config(pinned: set<nat>, rollingSlots: nat)

  const EMPTY := CacheState({}, [], map[])

  predicate Present(s: CacheState, id: nat) {
    id in s.hot || id in s.order
  }

  function Without(order: seq<nat>, id: nat): seq<nat> {
    if order == [] then []
    else if order[0] == id then Without(order[1..], id)
    else [order[0]] + Without(order[1..], id)
  }

  // Moves a rolling page to the recent end.
  function Touch(s: CacheState, id: nat): CacheState {
    if id in s.order then s.(order := Without(s.order, id) + [id]) else s
  }

  // Whether an insert is accepted at all.
  predicate Accepts(c: Config, s: CacheState, id: nat) {
    Present(s, id) || id in c.pinned || c.rollingSlots > 0
  }

  function Insert(c: Config, s: CacheState, id: nat, data: Payload): CacheState {
    if Present(s, id) then Touch(s, id)
    else if id in c.pinned then CacheState(s.hot + {id}, s.order, s.stored[id := data])
    else if c.rollingSlots == 0 then s
    else if |s.order| < c.rollingSlots then CacheState(s.hot, s.order + [id], s.stored[id := data])
    else if s.order == [] then s
    else CacheState(s.hot, s.order[1..] + [id], (s.stored - {s.order[0]})[id := data])
  }

  datatype Call = Get(id: nat) | Put(id: nat, data: Payload)

  function Step(c: Config, s: CacheState, call: Call): CacheState {
    match call
    case Get(id) => Touch(s, id)
    case Put(id, data) => Insert(c, s, id, data)
  }

  function Run(c: Config, calls: seq<Call>): CacheState {
    if calls == [] then EMPTY else Step(c, Run(c, calls[..|calls| - 1]), calls[|calls| - 1])
  }

  // ----- What every run keeps

  ghost predicate Consistent(c: Config, s: CacheState) {
    && s.hot <= c.pinned
    && Distinct(s.order) && |s.order| <= c.rollingSlots
    && (forall x :: x in s.order ==> x !in c.pinned)
    && (forall id :: id in s.stored <==> Present(s, id))
  }

  lemma {:induction false} WithoutMeans(order: seq<nat>, id: nat)
    requires Distinct(order)
    ensures Distinct(Without(order, id)) && forall x :: x in Without(order, id) <==> x in order && x != id
    ensures |Without(order, id)| == |order| - if id in order then 1 else 0
  {
    if order != [] {
      assert order == [order[0]] + order[1..];
      WithoutMeans(order[1..], id);
      assert order[0] !in order[1..];
    }
  }

  lemma StepConsistent(c: Config, s: CacheState, call: Call)
    requires Consistent(c, s)
    ensures Consistent(c, Step(c, s, call))
  {
    WithoutMeans(s.order, call.id);
    var t := Step(c, s, call);
    if call.Put? && !Present(s, call.id) && call.id !in c.pinned && c.rollingSlots > 0 && |s.order| == c.rollingSlots {
      assert s.order == [s.order[0]] + s.order[1..];
      assert forall x :: x in t.order <==> x == call.id || (x in s.order && x != s.order[0]);
    }
  }

  lemma {:induction false} RunConsistent(c: Config, calls: seq<Call>)
    ensures Consistent(c, Run(c, calls))
    decreases |calls|
  {
    if calls != [] {
      RunConsistent(c, calls[..|calls| - 1]);
      StepConsistent(c, Run(c, calls[..|calls| - 1]), calls[|calls| - 1]);
    }
  }

  // ----- Transparency

  ghost predicate FromSource(calls: seq<Call>, source: nat -> Payload) {
    forall i :: 0 <= i < |calls| && calls[i].Put? ==> calls[i].data == source(calls[i].id)
  }

  /** Filled from a fixed source, the cache only ever holds what the source would deliver. */
  lemma {:induction false} Transparent(c: Config, calls: seq<Call>, source: nat -> Payload, id: nat)
    requires FromSource(calls, source) && Present(Run(c, calls), id)
    ensures id in Run(c, calls).stored && Run(c, calls).stored[id] == source(id)
    decreases |calls|
  {
    RunConsistent(c, calls);
    if calls != [] {
      var before := Run(c, calls[..|calls| - 1]);
      RunConsistent(c, calls[..|calls| - 1]);
      if Present(before, id) {
        Transparent(c, calls[..|calls| - 1], source, id);
      } else {
        WithoutMeans(before.order, calls[|calls| - 1].id);
      }
    }
  }

  /** A pinned page, once present, stays with the payload it was inserted with. */
  lemma {:induction false} PinnedStays(c: Config, calls: seq<Call>, more: seq<Call>, id: nat)
    requires id in Run(c, calls).hot
    ensures id in Run(c, calls + more).hot && id in Run(c, calls).stored && id in Run(c, calls + more).stored
    ensures Run(c, calls + more).stored[id] == Run(c, calls).stored[id]
    decreases |more|
  {
    RunConsistent(c, calls);
    if more == [] {
      assert calls + more == calls;
    } else {
      PinnedStays(c, calls, more[..|more| - 1], id);
      assert (calls + more)[..|calls + more| - 1] == calls + more[..|more| - 1];
      RunConsistent(c, calls + more[..|more| - 1]);
      StepKeepsPinned(c, Run(c, calls + more[..|more| - 1]), more[|more| - 1], id);
    }
  }

  lemma StepKeepsPinned(c: Config, s: CacheState, call: Call, id: nat)
    requires Consistent(c, s) && id in s.hot
    ensures id in Step(c, s, call).hot && id in Step(c, s, call).stored && Step(c, s, call).stored[id] == s.stored[id]
  {
  }

  // ----- Least recently used

  // Distinct page numbers of an access history, by last access.
  function ByRecency(accesses: seq<nat>): seq<nat> {
    if accesses == [] then []
    else Without(ByRecency(accesses[..|accesses| - 1]), accesses[|accesses| - 1]) + [accesses[|accesses| - 1]]
  }

  function LastOf(order: seq<nat>, n: nat): seq<nat> {
    if |order| <= n then order else order[|order| - n..]
  }

  lemma {:induction false} RecencyDistinct(accesses: seq<nat>)
    ensures Distinct(ByRecency(accesses)) && forall x :: x in ByRecency(accesses) <==> x in accesses
    decreases |accesses|
  {
    if accesses != [] {
      hide Without;
      var init, last := accesses[..|accesses| - 1], accesses[|accesses| - 1];
      RecencyDistinct(init);
      WithoutMeans(ByRecency(init), last);
      assert accesses == init + [last];
    }
  }

  // Rolling pages in the order they were touched: by an insert, or by a lookup that
  // found the page among the most recently touched ones.
  function Touches(c: Config, calls: seq<Call>): seq<nat> {
    if calls == [] then []
    else
      var before, call := Touches(c, calls[..|calls| - 1]), calls[|calls| - 1];
      if call.id !in c.pinned && (call.Put? || call.id in LastOf(ByRecency(before), c.rollingSlots)) then before + [call.id]
      else before
  }

  lemma {:induction false} WithoutConcat(a: seq<nat>, b: seq<nat>, id: nat)
    ensures Without(a + b, id) == Without(a, id) + Without(b, id)
  {
    hide Without;
    if a == [] {
      assert a + b == b;
      assert Without([], id) == [] by { WithoutEmpty(id); }
    } else {
      WithoutConcat(a[1..], b, id);
      assert (a + b)[0] == a[0] && (a + b)[1..] == a[1..] + b;
      WithoutHead(a, id);
      WithoutHead(a + b, id);
    }
  }

  lemma WithoutEmpty(id: nat)
    ensures Without([], id) == []
  {
  }

  lemma WithoutHead(order: seq<nat>, id: nat)
    requires order != []
    ensures Without(order, id) == (if order[0] == id then [] else [order[0]]) + Without(order[1..], id)
  {
  }

  lemma {:induction false} WithoutAbsent(order: seq<nat>, id: nat)
    requires id !in order
    ensures Without(order, id) == order
  {
    if order != [] {
      WithoutAbsent(order[1..], id);
    }
  }

  // The kept part of a recency list: full, or everything there is.
  ghost predicate Kept(older: seq<nat>, kept: seq<nat>, n: nat) {
    Distinct(older + kept) && (|kept| == n || (older == [] && |kept| <= n))
  }

  lemma KeptParts(older: seq<nat>, kept: seq<nat>, n: nat)
    requires Kept(older, kept, n)
    ensures Distinct(older) && Distinct(kept) && forall x :: x in kept ==> x !in older
  {
    var all := older + kept;
    assert older == all[..|older|] && kept == all[|older|..];
  }

  lemma RecencyHit(older: seq<nat>, kept: seq<nat>, id: nat, n: nat)
    requires Kept(older, kept, n) && id in kept
    ensures LastOf(Without(older + kept, id) + [id], n) == Without(kept, id) + [id]
  {
    hide Without, Distinct, LastOf;
    KeptParts(older, kept, n);
    WithoutConcat(older, kept, id);
    WithoutAbsent(older, id);
    WithoutMeans(kept, id);
    LastOfSuffix(older, Without(kept, id) + [id], n);
    assert older + Without(kept, id) + [id] == older + (Without(kept, id) + [id]);
  }

  lemma RecencyMiss(older: seq<nat>, kept: seq<nat>, id: nat, n: nat)
    requires Kept(older, kept, n) && id !in kept && n > 0
    ensures LastOf(Without(older + kept, id) + [id], n) == if |kept| < n then kept + [id] else kept[1..] + [id]
  {
    hide Without, Distinct, LastOf;
    WithoutConcat(older, kept, id);
    WithoutAbsent(kept, id);
    var rest := Without(older, id);
    if |kept| < n {
      WithoutAbsent(older, id);
      LastOfSuffix([], kept + [id], n);
      assert rest + kept + [id] == [] + (kept + [id]);
    } else {
      LastOfSuffix(rest + [kept[0]], kept[1..] + [id], n);
      assert rest + kept + [id] == (rest + [kept[0]]) + (kept[1..] + [id]);
    }
  }

  // Keeping the last n of a recency list and then accessing `id` is the same as the reverse.
  lemma RecencyStep(order: seq<nat>, id: nat, n: nat)
    requires Distinct(order) && n > 0
    ensures var kept := LastOf(order, n);
            LastOf(Without(order, id) + [id], n) ==
            if id in kept then Without(kept, id) + [id]
            else if |kept| < n then kept + [id] else kept[1..] + [id]
  {
    hide Without, Distinct;
    var kept := LastOf(order, n);
    var older := order[..|order| - |kept|];
    assert order == older + kept;
    if id in kept {
      RecencyHit(older, kept, id, n);
    } else {
      RecencyMiss(older, kept, id, n);
    }
  }

  lemma LastOfSuffix(older: seq<nat>, recent: seq<nat>, n: nat)
    requires |recent| == n || (older == [] && |recent| <= n)
    ensures LastOf(older + recent, n) == recent
  {
  }

  /**
   Whatever the interleaving of lookups and inserts, the rolling region holds the most
   recently touched distinct pages, in order of their last touch.
   */
  lemma {:induction false} LeastRecentlyUsed(c: Config, calls: seq<Call>)
    ensures Run(c, calls).order == LastOf(ByRecency(Touches(c, calls)), c.rollingSlots)
    decreases |calls|
  {
    if calls != [] {
      var init, call := calls[..|calls| - 1], calls[|calls| - 1];
      LeastRecentlyUsed(c, init);
      RunConsistent(c, init);
      RecencyDistinct(Touches(c, init));
      TouchRecency(c, Run(c, init), Touches(c, init), call);
    }
  }

  // One call, against the touches so far.
  lemma TouchRecency(c: Config, s: CacheState, touches: seq<nat>, call: Call)
    requires Consistent(c, s) && Distinct(ByRecency(touches)) && s.order == LastOf(ByRecency(touches), c.rollingSlots)
    ensures var touched := if call.id !in c.pinned && (call.Put? || call.id in s.order) then touches + [call.id] else touches;
            Step(c, s, call).order == LastOf(ByRecency(touched), c.rollingSlots)
  {
    hide Without, Distinct, LastOf;
    assert (touches + [call.id])[..|touches|] == touches;
    assert ByRecency(touches + [call.id]) == Without(ByRecency(touches), call.id) + [call.id];
    assert call.id in s.order ==> call.id !in c.pinned;
    if c.rollingSlots > 0 {
      RecencyStep(ByRecency(touches), call.id, c.rollingSlots);
    } else {
      NoneKept(ByRecency(touches));
      NoneKept(ByRecency(touches + [call.id]));
    }
  }

  lemma NoneKept(order: seq<nat>)
    ensures LastOf(order, 0) == []
  {
  }

  /** The pinned pages present are exactly those inserted before. */
  lemma {:induction false} PinnedPresent(c: Config, calls: seq<Call>, id: nat)
    ensures id in Run(c, calls).hot <==> id in c.pinned && exists i :: 0 <= i < |calls| && calls[i].Put? && calls[i].id == id
    decreases |calls|
  {
    if calls != [] {
      var init, last := calls[..|calls| - 1], calls[|calls| - 1];
      PinnedPresent(c, init, id);
      RunConsistent(c, init);
      if id in c.pinned && last.Put? && last.id == id {
        assert calls[|calls| - 1] == last;
      }
    }
  }

  // Position of the last touch of a page, -1 without one.
  function LastTouch(touches: seq<nat>, id: nat): int {
    if touches == [] then -1
    else if touches[|touches| - 1] == id then |touches| - 1
    else LastTouch(touches[..|touches| - 1], id)
  }

  lemma {:induction false} LastTouchBefore(touches: seq<nat>, id: nat)
    ensures LastTouch(touches, id) < |touches|
    decreases |touches|
  {
    if touches != [] {
      LastTouchBefore(touches[..|touches| - 1], id);
    }
  }

  // Each page was last touched before the pages after it.
  ghost predicate ByLastTouch(order: seq<nat>, touches: seq<nat>) {
    forall i, j :: 0 <= i < j < |order| ==> LastTouch(touches, order[i]) < LastTouch(touches, order[j])
  }

  lemma {:induction false} WithoutKeepsOrder(order: seq<nat>, touches: seq<nat>, id: nat)
    requires ByLastTouch(order, touches)
    ensures ByLastTouch(Without(order, id), touches)
  {
    hide LastTouch;
    if order != [] {
      WithoutKeepsOrder(order[1..], touches, id);
      OnlyKnown(order[1..], id);
      var rest := Without(order[1..], id);
      forall j | 0 <= j < |rest|
        ensures LastTouch(touches, order[0]) < LastTouch(touches, rest[j])
      {
        assert rest[j] in order[1..];
      }
    }
  }

  lemma {:induction false} RecencyIsByTouch(touches: seq<nat>)
    ensures ByLastTouch(ByRecency(touches), touches)
    decreases |touches|
  {
    if touches != [] {
      hide Without;
      var init, last := touches[..|touches| - 1], touches[|touches| - 1];
      RecencyIsByTouch(init);
      RecencyDistinct(init);
      WithoutKeepsOrder(ByRecency(init), init, last);
      WithoutMeans(ByRecency(init), last);
      var kept := Without(ByRecency(init), last);
      forall i | 0 <= i < |kept|
        ensures LastTouch(touches, kept[i]) == LastTouch(init, kept[i]) < LastTouch(touches, last)
      {
        assert kept[i] in kept;
        LastTouchBefore(init, kept[i]);
      }
    }
  }

  /** Only an insert that misses a full rolling region evicts, and the victim is the page whose last touch is oldest. */
  lemma VictimIsOldest(c: Config, calls: seq<Call>, call: Call, victim: nat)
    requires victim in Run(c, calls).order && victim !in Run(c, calls + [call]).order
    ensures call.Put? && !Present(Run(c, calls), call.id) && |Run(c, calls).order| == c.rollingSlots
    ensures forall x :: x in Run(c, calls).order && x != victim ==>
              LastTouch(Touches(c, calls), victim) < LastTouch(Touches(c, calls), x)
  {
    assert (calls + [call])[..|calls|] == calls;
    var s := Run(c, calls);
    RunConsistent(c, calls);
    WithoutMeans(s.order, call.id);
    LeastRecentlyUsed(c, calls);
    RecencyIsByTouch(Touches(c, calls));
    assert forall x :: x in s.order ==> x == s.order[0] || x in s.order[1..];
    hide Run, Without, Touches, LastTouch, ByRecency;
    assert victim == s.order[0];
  }

  lemma {:induction false} OnlyKnown(order: seq<nat>, id: nat)
    ensures forall x :: x in Without(order, id) ==> x in order
  {
    if order != [] {
      OnlyKnown(order[1..], id);
    }
  }

  // ----- One access at a time

  // A history without interleaving: each lookup that misses is followed by its own insert.
  function Alternating(c: Config, accesses: seq<nat>, source: nat -> Payload): seq<Call> {
    if accesses == [] then []
    else
      var before, id := Alternating(c, accesses[..|accesses| - 1], source), accesses[|accesses| - 1];
      before + if Present(Run(c, before), id) then [Get(id)] else [Get(id), Put(id, source(id))]
  }

  function Rolling(c: Config, accesses: seq<nat>): seq<nat> {
    if accesses == [] then []
    else
      var init, id := accesses[..|accesses| - 1], accesses[|accesses| - 1];
      Rolling(c, init) + if id in c.pinned then [] else [id]
  }

  /** Then every access is a touch: the region holds the most recently accessed distinct pages. */
  lemma {:induction false} AccessesAreTouches(c: Config, accesses: seq<nat>, source: nat -> Payload)
    ensures Touches(c, Alternating(c, accesses, source)) == Rolling(c, accesses)
    ensures Run(c, Alternating(c, accesses, source)).order == LastOf(ByRecency(Rolling(c, accesses)), c.rollingSlots)
    decreases |accesses|
  {
    LeastRecentlyUsed(c, Alternating(c, accesses, source));
    if accesses != [] {
      hide LastOf, ByRecency, Run, Touches;
      AccessesAreTouches(c, accesses[..|accesses| - 1], source);
      AccessTouches(c, Alternating(c, accesses[..|accesses| - 1], source), accesses[|accesses| - 1], source);
    } else {
      assert Touches(c, []) == [];
    }
  }

  // One access: a hit touches the page, a miss is followed by the insert that does.
  lemma AccessTouches(c: Config, before: seq<Call>, id: nat, source: nat -> Payload)
    ensures var calls := before + if Present(Run(c, before), id) then [Get(id)] else [Get(id), Put(id, source(id))];
            Touches(c, calls) == Touches(c, before) + if id in c.pinned then [] else [id]
  {
    hide LastOf, ByRecency, Run;
    LeastRecentlyUsed(c, before);
    RunConsistent(c, before);
    assert (before + [Get(id)])[..|before|] == before;
    assert (before + [Get(id), Put(id, source(id))])[..|before| + 1] == before + [Get(id)];
  }
}
