/** Sorting by a total order, as the built-in sort does. */
module Sorting {
  import opened Basics

  ghost predicate TotalOrder<T(!new)>(before: (T, T) -> bool) {
    && (forall a, b :: before(a, b) || before(b, a))
    && (forall a, b, c :: before(a, b) && before(b, c) ==> before(a, c))
  }

  ghost predicate Sorted<T>(s: seq<T>, before: (T, T) -> bool) {
    forall i, j :: 0 <= i < j < |s| ==> before(s[i], s[j])
  }

  // Puts x in front of the first element it may precede.
  function Insert<T>(s: seq<T>, x: T, before: (T, T) -> bool): seq<T> {
    if s == [] then [x]
    else if before(x, s[0]) then [x] + s
    else [s[0]] + Insert(s[1..], x, before)
  }

  function Sort<T>(s: seq<T>, before: (T, T) -> bool): seq<T> {
    if s == [] then [] else Insert(Sort(s[1..], before), s[0], before)
  }

  lemma {:induction false} InsertElements<T(!new)>(s: seq<T>, x: T, before: (T, T) -> bool)
    ensures multiset(Insert(s, x, before)) == multiset(s) + multiset{x}
  {
    if s != [] && !before(x, s[0]) {
      InsertElements(s[1..], x, before);
      assert s == [s[0]] + s[1..];
    }
  }

  lemma {:induction false} InsertSorted<T(!new)>(s: seq<T>, x: T, before: (T, T) -> bool)
    requires TotalOrder(before) && Sorted(s, before)
    ensures Sorted(Insert(s, x, before), before)
  {
    if s != [] && !before(x, s[0]) {
      InsertSorted(s[1..], x, before);
      InsertElements(s[1..], x, before);
      var rest := Insert(s[1..], x, before);
      hide Insert;
      forall i | 0 <= i < |rest|
        ensures before(s[0], rest[i])
      {
        assert rest[i] in multiset(rest);
        assert rest[i] == x || rest[i] in s[1..];
      }
    } else if s != [] {
      assert forall i :: 0 <= i < |s| ==> before(s[0], s[i]);
    }
  }

  // The result is ordered and has the same elements, each as often.
  lemma {:induction false} SortSorts<T(!new)>(s: seq<T>, before: (T, T) -> bool)
    requires TotalOrder(before)
    ensures Sorted(Sort(s, before), before) && multiset(Sort(s, before)) == multiset(s)
    ensures forall x :: x in Sort(s, before) <==> x in s
  {
    hide TotalOrder, Sorted, Insert;
    if s != [] {
      SortSorts(s[1..], before);
      InsertElements(Sort(s[1..], before), s[0], before);
      InsertSorted(Sort(s[1..], before), s[0], before);
      assert s == [s[0]] + s[1..];
    } else {
      NothingSorted(before);
    }
    SameMembers(Sort(s, before), s);
  }

  lemma NothingSorted<T(!new)>(before: (T, T) -> bool)
    ensures Sorted([], before)
  {
  }

  lemma SameMembers<T>(a: seq<T>, b: seq<T>)
    requires multiset(a) == multiset(b)
    ensures forall x :: x in a <==> x in b
  {
    assert forall x :: x in a <==> x in multiset(a);
    assert forall x :: x in b <==> x in multiset(b);
  }

  lemma CountOnce<T>(s: seq<T>, i: int)
    requires Distinct(s) && 0 <= i < |s|
    ensures multiset(s)[s[i]] == 1
  {
    assert s == s[..i] + [s[i]] + s[i + 1..];
    assert s[i] !in multiset(s[..i]) && s[i] !in multiset(s[i + 1..]);
  }

  lemma RearrangedDistinct<T>(s: seq<T>, t: seq<T>)
    requires Distinct(s) && multiset(t) == multiset(s)
    ensures Distinct(t)
  {
    forall i, j | 0 <= i < j < |t|
      ensures t[i] != t[j]
    {
      if t[i] == t[j] {
        assert t == t[..i] + [t[i]] + t[i + 1..j] + [t[j]] + t[j + 1..];
        assert multiset(t)[t[i]] >= 2;
        assert t[i] in multiset(s);
        var k :| 0 <= k < |s| && s[k] == t[i];
        CountOnce(s, k);
        assert false;
      }
    }
  }

  // The elements of a set in order.
  method Arrange<T(==,!new)>(elements: set<T>, before: (T, T) -> bool) returns (ordered: seq<T>)
    requires TotalOrder(before)
    ensures Sorted(ordered, before) && Distinct(ordered) && forall x :: x in ordered <==> x in elements
  {
    var listed: seq<T>, rest: set<T> := [], elements;
    while rest != {}
      invariant rest <= elements && Distinct(listed) && forall x :: x in listed <==> x in elements && x !in rest
      decreases rest
    {
      var x :| x in rest;
      assert forall i :: 0 <= i < |listed| ==> listed[i] in listed;
      listed := listed + [x];
      rest := rest - {x};
    }
    SortSorts(listed, before);
    ordered := Sort(listed, before);
    RearrangedDistinct(listed, ordered);
  }
}
