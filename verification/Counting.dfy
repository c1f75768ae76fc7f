/** Counts and tallies over lists, which no order of the list can change. */
module Counting {

  ghost function Tally<T(!new)>(q: seq<T>, f: T -> real): real {
    if q == [] then 0.0 else Tally(q[..|q| - 1], f) + f(q[|q| - 1])
  }

  ghost function CountOf<T(!new)>(q: seq<T>, p: T -> bool): nat {
    if q == [] then 0 else
      var n := |q| - 1;
      CountOf(q[..n], p) + if p(q[n]) then 1 else 0
  }

  lemma CountStep<T(!new)>(q: seq<T>, k: nat, p: T -> bool)
    requires k < |q|
    ensures CountOf(q[..k + 1], p) == CountOf(q[..k], p) + if p(q[k]) then 1 else 0
  {
    assert q[..k + 1][..k] == q[..k];
  }

  lemma {:induction false} TallyJoined<T(!new)>(q: seq<T>, r: seq<T>, f: T -> real)
    ensures Tally(q + r, f) == Tally(q, f) + Tally(r, f)
    decreases |r|
  {
    if r == [] {
      assert q + r == q;
    } else {
      var n := |r| - 1;
      assert (q + r)[..|q + r| - 1] == q + r[..n];
      TallyJoined(q, r[..n], f);
    }
  }

  lemma TallyWithout<T(!new)>(a: seq<T>, x: T, b: seq<T>, f: T -> real)
    ensures Tally(a + [x] + b, f) == Tally(a + b, f) + f(x)
  {
    TallyJoined(a + [x], b, f);
    TallyJoined(a, [x], f);
    TallyJoined(a, b, f);
    assert [x][..0] == [];
  }

  /** A tally does not depend on the order it is made in. */
  lemma {:induction false} TallyPermuted<T(!new)>(q: seq<T>, r: seq<T>, f: T -> real)
    requires multiset(q) == multiset(r)
    ensures Tally(q, f) == Tally(r, f)
    decreases |q|
  {
    if q == [] {
      assert r == [] by {
        assert |multiset(r)| == 0;
      }
    } else {
      var n := |q| - 1;
      assert q == q[..n] + [q[n]];
      assert q[n] in multiset(r);
      var i :| 0 <= i < |r| && r[i] == q[n];
      var a, b := r[..i], r[i + 1..];
      assert r == a + [q[n]] + b;
      TallyWithout(a, q[n], b, f);
      assert multiset(q[..n]) == multiset(q) - multiset{q[n]} == multiset(a + b);
      TallyPermuted(q[..n], a + b, f);
    }
  }

  ghost function OneIf<T(!new)>(p: T -> bool): T -> real {
    x => if p(x) then 1.0 else 0.0
  }

  lemma {:induction false} CountIsTally<T(!new)>(q: seq<T>, p: T -> bool)
    ensures CountOf(q, p) as real == Tally(q, OneIf(p))
  {
    if q != [] {
      CountIsTally(q[..|q| - 1], p);
    }
  }

  /** Nor does a count. */
  lemma CountPermuted<T(!new)>(q: seq<T>, r: seq<T>, p: T -> bool)
    requires multiset(q) == multiset(r)
    ensures CountOf(q, p) == CountOf(r, p)
  {
    CountIsTally(q, p);
    CountIsTally(r, p);
    TallyPermuted(q, r, OneIf(p));
  }

  lemma {:induction false} CountAgrees<T(!new)>(q: seq<T>, p: T -> bool, p': T -> bool)
    requires forall x :: p(x) <==> p'(x)
    ensures CountOf(q, p) == CountOf(q, p')
  {
    if q != [] {
      CountAgrees(q[..|q| - 1], p, p');
    }
  }

  lemma {:induction false} CountAtMost<T(!new)>(q: seq<T>, p: T -> bool, m: nat)
    requires m <= |q| && forall k :: m <= k < |q| ==> !p(q[k])
    ensures CountOf(q, p) <= m
    decreases |q|
  {
    if m < |q| {
      CountAtMost(q[..|q| - 1], p, m);
    } else if q != [] {
      CountAtMost(q[..|q| - 1], p, m - 1);
    }
  }

  lemma {:induction false} CountAtMostRest<T(!new)>(q: seq<T>, p: T -> bool, m: nat)
    requires m <= |q| && forall k :: 0 <= k < m ==> !p(q[k])
    ensures CountOf(q, p) <= |q| - m
    decreases |q|
  {
    if m < |q| {
      CountAtMostRest(q[..|q| - 1], p, m);
    } else if q != [] {
      CountAtMostRest(q[..|q| - 1], p, m - 1);
    }
  }

  lemma SameElements<T>(q: seq<T>, r: seq<T>, x: T)
    requires multiset(q) == multiset(r)
    ensures x in q <==> x in r
  {
    assert x in q <==> x in multiset(q);
    assert x in r <==> x in multiset(r);
  }
}
