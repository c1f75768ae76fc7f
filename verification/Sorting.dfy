/** Sorting a list by a strict order, as `sorted(..., key=...)` does. */
module Sorting {

  /** `before` compares any two different elements, one way, and consistently. */
  ghost predicate StrictOrder<T(!new)>(before: (T, T) -> bool) {
    && (forall x, y, z {:trigger before(x, y), before(y, z)} :: before(x, y) && before(y, z) ==> before(x, z))
    && (forall x, y :: before(x, y) ==> !before(y, x))
  }

  /** No element comes after one it should precede. */
  ghost predicate Ordered<T(!new)>(q: seq<T>, before: (T, T) -> bool) {
    forall i, j :: 0 <= i < j < |q| ==> !before(q[j], q[i])
  }

  /** Any two elements of the list can be told apart by the order. */
  ghost predicate Comparable<T(!new)>(q: seq<T>, before: (T, T) -> bool) {
    forall x, y :: x in q && y in q && x != y ==> before(x, y) || before(y, x)
  }

  function Insert<T>(x: T, q: seq<T>, before: (T, T) -> bool): (r: seq<T>)
    ensures |r| == |q| + 1
  {
    if q == [] || before(x, q[0]) then [x] + q else [q[0]] + Insert(x, q[1..], before)
  }

  function SortBy<T>(q: seq<T>, before: (T, T) -> bool): (r: seq<T>)
    ensures |r| == |q|
  {
    if q == [] then [] else Insert(q[0], SortBy(q[1..], before), before)
  }

  lemma {:induction false} InsertElements<T>(x: T, q: seq<T>, before: (T, T) -> bool)
    ensures multiset(Insert(x, q, before)) == multiset(q) + multiset{x}
    decreases |q|
  {
    if q != [] && !before(x, q[0]) {
      InsertElements(x, q[1..], before);
      assert q == [q[0]] + q[1..];
    }
  }

  /** Sorting loses nothing and adds nothing. */
  lemma {:induction false} SortElements<T>(q: seq<T>, before: (T, T) -> bool)
    ensures multiset(SortBy(q, before)) == multiset(q)
    decreases |q|
  {
    if q != [] {
      SortElements(q[1..], before);
      InsertElements(q[0], SortBy(q[1..], before), before);
      assert q == [q[0]] + q[1..];
    }
  }

  lemma SortMembers<T>(q: seq<T>, before: (T, T) -> bool)
    ensures forall x :: x in SortBy(q, before) <==> x in q
  {
    SortElements(q, before);
    forall x
      ensures x in SortBy(q, before) <==> x in q
    {
      assert x in SortBy(q, before) <==> x in multiset(SortBy(q, before));
      assert x in q <==> x in multiset(q);
    }
  }

  lemma SortMember<T>(q: seq<T>, before: (T, T) -> bool, x: T)
    ensures x in SortBy(q, before) <==> x in q
  {
    SortMembers(q, before);
  }

  lemma {:induction false} InsertOrdered<T(!new)>(x: T, q: seq<T>, before: (T, T) -> bool)
    requires StrictOrder(before) && Ordered(q, before)
    requires forall y :: y in q && y != x ==> before(x, y) || before(y, x)
    ensures Ordered(Insert(x, q, before), before)
    decreases |q|
  {
    if q == [] {
    } else if before(x, q[0]) {
      var r := [x] + q;
      forall i, j | 0 <= i < j < |r|
        ensures !before(r[j], r[i])
      {
        assert j > 1 ==> !before(q[j - 1], q[0]);
      }
    } else {
      InsertOrdered(x, q[1..], before);
      var rest := Insert(x, q[1..], before);
      InsertElements(x, q[1..], before);
      forall j | 0 <= j < |rest|
        ensures !before(rest[j], q[0])
      {
        assert rest[j] in multiset(rest);
        assert rest[j] == x || rest[j] in q[1..];
      }
    }
  }

  /** And it orders whatever the order can compare. */
  lemma {:induction false} SortOrdered<T(!new)>(q: seq<T>, before: (T, T) -> bool)
    requires StrictOrder(before) && Comparable(q, before)
    ensures Ordered(SortBy(q, before), before)
    decreases |q|
  {
    if q != [] {
      assert forall x :: x in q[1..] ==> x in q;
      SortOrdered(q[1..], before);
      SortMembers(q[1..], before);
      InsertOrdered(q[0], SortBy(q[1..], before), before);
    }
  }

  /** Every two elements, at different places, are related. */
  ghost predicate Pairwise<T(!new)>(q: seq<T>, apart: (T, T) -> bool) {
    forall i, j :: 0 <= i < j < |q| ==> apart(q[i], q[j])
  }

  lemma {:induction false} InsertPairwise<T(!new)>(x: T, q: seq<T>, before: (T, T) -> bool, apart: (T, T) -> bool)
    requires Pairwise(q, apart)
    requires forall y :: y in q ==> apart(x, y) && apart(y, x)
    ensures Pairwise(Insert(x, q, before), apart)
    decreases |q|
  {
    if q != [] && !before(x, q[0]) {
      InsertPairwise(x, q[1..], before, apart);
      InsertElements(x, q[1..], before);
      var rest := Insert(x, q[1..], before);
      forall j | 0 <= j < |rest|
        ensures apart(q[0], rest[j])
      {
        assert rest[j] in multiset(rest);
        assert rest[j] == x || rest[j] in q[1..];
      }
    }
  }

  /** A symmetric relation between any two elements outlives sorting. */
  lemma {:induction false} SortPairwise<T(!new)>(q: seq<T>, before: (T, T) -> bool, apart: (T, T) -> bool)
    requires Pairwise(q, apart)
    requires forall x, y :: apart(x, y) ==> apart(y, x)
    ensures Pairwise(SortBy(q, before), apart)
    decreases |q|
  {
    if q != [] {
      SortPairwise(q[1..], before, apart);
      SortMembers(q[1..], before);
      InsertPairwise(q[0], SortBy(q[1..], before), before, apart);
    }
  }

  /** A list without repeats sorts into strict order. */
  lemma SortStrict<T(!new)>(q: seq<T>, before: (T, T) -> bool)
    requires StrictOrder(before) && Comparable(q, before)
    requires forall i, j :: 0 <= i < j < |q| ==> q[i] != q[j]
    ensures Pairwise(SortBy(q, before), before)
  {
    var sorted := SortBy(q, before);
    SortOrdered(q, before);
    SortPairwise(q, before, (x, y) => x != y);
    SortMembers(q, before);
    forall i, j | 0 <= i < j < |sorted|
      ensures before(sorted[i], sorted[j])
    {
      assert sorted[i] in sorted && sorted[j] in sorted;
      assert sorted[i] in q && sorted[j] in q;
      assert !before(sorted[j], sorted[i]);
    }
  }
}
