/** Sorted reservation calendars and the earliest common gap. */
module Calendar {

  datatype Interval = Interval(left: real, right: real)

  type Resource = string
  type Calendars = map<Resource, seq<Interval>>

  function Entries(calendars: Calendars, r: Resource): seq<Interval> {
    if r in calendars then calendars[r] else []
  }

  // Nonempty intervals, in order and without overlap.
  ghost predicate Orderly(calendar: seq<Interval>) {
    && (forall i :: 0 <= i < |calendar| ==> calendar[i].left < calendar[i].right)
    && (forall i, j :: 0 <= i < j < |calendar| ==> calendar[i].right <= calendar[j].left)
  }

  ghost predicate AllOrderly(calendars: Calendars) {
    forall r :: r in calendars ==> Orderly(calendars[r])
  }

  // The interval start..start + duration meets no entry.
  ghost predicate Clear(calendar: seq<Interval>, start: real, duration: real) {
    forall i :: 0 <= i < |calendar| ==> calendar[i].right <= start || start + duration <= calendar[i].left
  }

  ghost predicate Free(calendars: Calendars, resources: seq<Resource>, start: real, duration: real) {
    forall r :: r in resources ==> Clear(Entries(calendars, r), start, duration)
  }

  // The earliest start from `earliest` on at which all resources are free.
  ghost predicate LeastFree(calendars: Calendars, resources: seq<Resource>, earliest: real, duration: real, start: real) {
    && earliest <= start
    && Free(calendars, resources, start, duration)
    && forall s :: earliest <= s < start ==> !Free(calendars, resources, s, duration)
  }

  lemma LeastFreeUnique(calendars: Calendars, resources: seq<Resource>, earliest: real, duration: real, s: real, t: real)
    requires LeastFree(calendars, resources, earliest, duration, s)
    requires LeastFree(calendars, resources, earliest, duration, t)
    ensures s == t
  {
  }

  // First index whose interval starts after `start`.
  method BisectRight(calendar: seq<Interval>, start: real) returns (index: nat)
    requires Orderly(calendar)
    ensures index <= |calendar|
    ensures forall i :: 0 <= i < index ==> calendar[i].left <= start
    ensures forall i :: index <= i < |calendar| ==> start < calendar[i].left
  {
    var lo, hi := 0, |calendar|;
    while lo < hi
      invariant 0 <= lo <= hi <= |calendar|
      invariant forall i :: 0 <= i < lo ==> calendar[i].left <= start
      invariant forall i :: hi <= i < |calendar| ==> start < calendar[i].left
    {
      var mid := (lo + hi) / 2;
      if start < calendar[mid].left {
        hi := mid;
      } else {
        lo := mid + 1;
      }
    }
    index := lo;
  }

  // Entry i meets start..start + duration and ends at `until`.
  ghost predicate Blocks(calendar: seq<Interval>, i: int, start: real, duration: real, until: real) {
    0 <= i < |calendar| && calendar[i].right == until && calendar[i].left < start + duration
  }

  // The end of the entry that blocks `start`, or `start` itself when none does.
  method BlockedUntil(calendar: seq<Interval>, start: real, duration: real) returns (until: real)
    requires Orderly(calendar) && duration > 0.0
    ensures until == start ==> Clear(calendar, start, duration)
    ensures until != start ==> start < until && exists i :: Blocks(calendar, i, start, duration, until)
  {
    var skip := BisectRight(calendar, start);
    var index := if skip == 0 then 0 else skip - 1;
    until := start;
    assert forall i :: 0 <= i < index ==> calendar[i].right <= calendar[index].left <= start;
    while index < |calendar|
      invariant 0 <= index <= |calendar|
      invariant forall i :: 0 <= i < index ==> calendar[i].right <= start
    {
      if calendar[index].right <= start {
        index := index + 1;
      } else if start + duration <= calendar[index].left {
        return start;
      } else {
        assert Blocks(calendar, index, start, duration, calendar[index].right);
        return calendar[index].right;
      }
    }
  }

  // Ends of reservations still ahead of `start`.
  ghost function EndsAfter(calendars: Calendars, resources: seq<Resource>, start: real): set<real> {
    set r, i | r in resources && 0 <= i < |Entries(calendars, r)| && start < Entries(calendars, r)[i].right
      :: Entries(calendars, r)[i].right
  }

  /** The least start at which every resource is free; the search terminates. */
  method FirstGap(calendars: Calendars, resources: seq<Resource>, earliest: real, duration: real) returns (start: real)
    requires AllOrderly(calendars) && (resources != [] ==> duration > 0.0)
    ensures LeastFree(calendars, resources, earliest, duration, start)
    ensures start == earliest ||
            exists r, i :: r in resources && 0 <= i < |Entries(calendars, r)| && Entries(calendars, r)[i].right == start
  {
    start := earliest;
    while true
      invariant earliest <= start
      invariant forall s :: earliest <= s < start ==> !Free(calendars, resources, s, duration)
      invariant start == earliest ||
                exists r, i :: r in resources && 0 <= i < |Entries(calendars, r)| && Entries(calendars, r)[i].right == start
      decreases EndsAfter(calendars, resources, start)
    {
      var until := start;
      ghost var blocker, entry := "", 0;
      for k := 0 to |resources|
        invariant start <= until
        invariant until == start ==> forall n :: 0 <= n < k ==> Clear(Entries(calendars, resources[n]), start, duration)
        invariant until != start ==> blocker in resources && Blocks(Entries(calendars, blocker), entry, start, duration, until)
      {
        var candidate := BlockedUntil(Entries(calendars, resources[k]), start, duration);
        if until < candidate {
          blocker := resources[k];
          until := candidate;
          entry :| Blocks(Entries(calendars, blocker), entry, start, duration, until);
        }
      }
      if until == start {
        return;
      }
      forall s | start <= s < until
        ensures !Free(calendars, resources, s, duration)
      {
        assert !Clear(Entries(calendars, blocker), s, duration);
      }
      assert until in EndsAfter(calendars, resources, start);
      start := until;
    }
  }

  // Reservations only push the least start later.
  lemma LeastFreeMonotone(a: Calendars, b: Calendars, resources: seq<Resource>, earliest: real, duration: real, s: real, t: real)
    requires LeastFree(a, resources, earliest, duration, s) && LeastFree(b, resources, earliest, duration, t)
    requires forall r, i :: r in resources && 0 <= i < |Entries(a, r)| ==> Entries(a, r)[i] in Entries(b, r)
    ensures s <= t
  {
    forall r | r in resources
      ensures Clear(Entries(a, r), t, duration)
    {
      forall i | 0 <= i < |Entries(a, r)|
        ensures Entries(a, r)[i].right <= t || t + duration <= Entries(a, r)[i].left
      {
        assert Entries(a, r)[i] in Entries(b, r);
      }
    }
    assert Free(a, resources, t, duration);
  }

  function Work(calendar: seq<Interval>): real {
    if calendar == [] then 0.0
    else Work(calendar[..|calendar| - 1]) + (calendar[|calendar| - 1].right - calendar[|calendar| - 1].left)
  }

  lemma {:induction false} WorkConcat(a: seq<Interval>, b: seq<Interval>)
    ensures Work(a + b) == Work(a) + Work(b)
    decreases |b|
  {
    if b == [] {
      assert a + b == a;
    } else {
      assert (a + b)[..|a + b| - 1] == a + b[..|b| - 1];
      WorkConcat(a, b[..|b| - 1]);
    }
  }

  // Disjoint reservations from time zero fit before the last end.
  lemma {:induction false} WorkFits(calendar: seq<Interval>)
    requires Orderly(calendar) && forall i :: 0 <= i < |calendar| ==> 0.0 <= calendar[i].left
    ensures calendar == [] ==> Work(calendar) == 0.0
    ensures calendar != [] ==> Work(calendar) <= calendar[|calendar| - 1].right
    decreases |calendar|
  {
    if calendar != [] {
      WorkFits(calendar[..|calendar| - 1]);
    }
  }

  lemma InsertionOrderly(calendar: seq<Interval>, entry: Interval, index: nat)
    requires Orderly(calendar) && entry.left < entry.right && Clear(calendar, entry.left, entry.right - entry.left)
    requires index <= |calendar|
    requires forall i :: 0 <= i < index ==> calendar[i].left <= entry.left
    requires forall i :: index <= i < |calendar| ==> entry.left < calendar[i].left
    ensures Orderly(calendar[..index] + [entry] + calendar[index..])
  {
    assert forall i :: 0 <= i < index ==> calendar[i].right <= entry.left;
    assert forall i :: index <= i < |calendar| ==> entry.right <= calendar[i].left;
  }

  lemma InsertionWork(calendar: seq<Interval>, entry: Interval, index: nat)
    requires index <= |calendar|
    ensures Work(calendar[..index] + [entry] + calendar[index..]) == Work(calendar) + (entry.right - entry.left)
  {
    assert calendar == calendar[..index] + calendar[index..];
    WorkConcat(calendar[..index] + [entry], calendar[index..]);
    WorkConcat(calendar[..index], [entry]);
    WorkConcat(calendar[..index], calendar[index..]);
    assert [entry][..0] == [];
  }

  /** Inserts a reservation that meets no entry, keeping the calendar orderly. */
  method Insort(calendar: seq<Interval>, entry: Interval) returns (inserted: seq<Interval>)
    requires Orderly(calendar) && entry.left < entry.right && Clear(calendar, entry.left, entry.right - entry.left)
    ensures Orderly(inserted)
    ensures forall iv :: iv in inserted <==> iv in calendar || iv == entry
    ensures Work(inserted) == Work(calendar) + (entry.right - entry.left)
  {
    var index := BisectRight(calendar, entry.left);
    inserted := calendar[..index] + [entry] + calendar[index..];
    InsertionOrderly(calendar, entry, index);
    InsertionWork(calendar, entry, index);
    hide Orderly, Clear, Work;
    assert calendar == calendar[..index] + calendar[index..];
  }
}
