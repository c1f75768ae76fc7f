/** The orders the projection sorts by: ids by value, slugs by code point. */
module Orders {
  import opened Sums

  // ----- Sorting a set of ids -----

  lemma {:induction false} LeastExists(s: set<int>)
    requires s != {}
    ensures exists m :: m in s && forall x :: x in s ==> m <= x
    decreases |s|
  {
    var x := Pick(s);
    if s != {x} {
      LeastExists(s - {x});
      var m :| m in s - {x} && forall y :: y in s - {x} ==> m <= y;
      var n := if x < m then x else m;
      assert forall y :: y in s ==> y == x || y in s - {x};
      assert n in s && forall y :: y in s ==> n <= y;
    } else {
      assert x in s && forall y :: y in s ==> x <= y;
    }
  }

  function Least(s: set<int>): (m: int)
    requires s != {}
    ensures m in s && forall x :: x in s ==> m <= x
  {
    LeastExists(s);
    var m :| m in s && forall x :: x in s ==> m <= x;
    m
  }

  predicate Increasing(q: seq<int>) {
    forall i, j :: 0 <= i < j < |q| ==> q[i] < q[j]
  }

  function Sorted(s: set<int>): (q: seq<int>)
    ensures Increasing(q)
    ensures forall x :: x in q <==> x in s
    ensures |q| == |s|
    decreases |s|
  {
    if s == {} then [] else
      var m := Least(s);
      [m] + Sorted(s - {m})
  }

  lemma SortedElements(s: set<int>)
    ensures (set x | x in Sorted(s)) == s
  {
  }

  // ----- Slugs -----

  /** Strings by code point, a proper prefix first. */
  predicate Before(a: string, b: string) {
    if b == "" then false
    else if a == "" then true
    else a[0] < b[0] || (a[0] == b[0] && Before(a[1..], b[1..]))
  }

  /** The two agree up to `k`, where the first one ends or has the lower code point. */
  ghost predicate LowerAt(a: string, b: string, k: nat) {
    k <= |a| && k < |b| && a[..k] == b[..k] && (k == |a| || a[k] < b[k])
  }

  lemma LowerAtTail(a: string, b: string, k: nat)
    requires a != "" && b != "" && a[0] == b[0]
    ensures LowerAt(a[1..], b[1..], k) <==> LowerAt(a, b, k + 1)
  {
    if k < |a| && k < |b| {
      assert a[..k + 1] == [a[0]] + a[1..][..k] && b[..k + 1] == [b[0]] + b[1..][..k];
    }
  }

  /** Where two strings first differ the lower code point comes first, or else the shorter one. */
  lemma {:induction false} BeforeIff(a: string, b: string)
    ensures Before(a, b) <==> exists k: nat :: LowerAt(a, b, k)
  {
    if a == "" || b == "" || a[0] < b[0] {
      assert b != "" ==> LowerAt(a, b, 0);
    } else if a[0] == b[0] {
      BeforeIff(a[1..], b[1..]);
      if k: nat :| LowerAt(a[1..], b[1..], k) {
        LowerAtTail(a, b, k);
      }
      if k: nat :| LowerAt(a, b, k) {
        assert k > 0;
        LowerAtTail(a, b, k - 1);
      }
    } else {
      forall k | 0 < k <= |a| && k < |b|
        ensures a[..k] != b[..k]
      {
        assert a[..k][0] == a[0] && b[..k][0] == b[0];
      }
    }
  }

  lemma {:induction false} BeforeTotal(a: string, b: string)
    ensures a == b || Before(a, b) || Before(b, a)
  {
    if a != "" && b != "" && a[0] == b[0] {
      BeforeTotal(a[1..], b[1..]);
      assert a == [a[0]] + a[1..] && b == [b[0]] + b[1..];
    }
  }

  lemma {:induction false} BeforeAsymmetric(a: string, b: string)
    ensures !(Before(a, b) && Before(b, a))
  {
    if a != "" && b != "" {
      BeforeAsymmetric(a[1..], b[1..]);
    }
  }

  lemma {:induction false} BeforeTransitive(a: string, b: string, c: string)
    requires Before(a, b) && Before(b, c)
    ensures Before(a, c)
  {
    if a != "" && a[0] == b[0] == c[0] {
      BeforeTransitive(a[1..], b[1..], c[1..]);
    }
  }
}
