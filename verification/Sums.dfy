/** Sums of real weights over finite sets.

    A sum is defined by taking the elements away one at a time in an order nobody
    fixes; the lemmas say that the order cannot matter. */
module Sums {

  lemma Pick<T>(s: set<T>) returns (x: T)
    requires s != {}
    ensures x in s
  {
    x :| x in s;
  }

  lemma SubsetNoLarger<T>(a: set<T>, b: set<T>)
    requires a <= b
    ensures |a| <= |b|
  {
    assert b == a + (b - a);
  }

  ghost function Sum<T(!new)>(s: set<T>, f: T -> real): real {
    if s == {} then 0.0 else
      var x :| x in s;
      f(x) + Sum(s - {x}, f)
  }

  /** Any element may be taken out first. */
  lemma {:induction false} SumTakeOut<T(!new)>(s: set<T>, x: T, f: T -> real)
    requires x in s
    ensures Sum(s, f) == f(x) + Sum(s - {x}, f)
    decreases |s|
  {
    var y :| y in s && Sum(s, f) == f(y) + Sum(s - {y}, f);
    if y != x {
      SumTakeOut(s - {y}, x, f);
      SumTakeOut(s - {x}, y, f);
      assert s - {y} - {x} == s - {x} - {y};
    }
  }

  lemma SumPutIn<T(!new)>(s: set<T>, x: T, f: T -> real)
    requires x !in s
    ensures Sum(s + {x}, f) == Sum(s, f) + f(x)
  {
    SumTakeOut(s + {x}, x, f);
    assert s + {x} - {x} == s;
  }

  lemma SumOfOne<T(!new)>(x: T, f: T -> real)
    ensures Sum({x}, f) == f(x)
  {
    SumTakeOut({x}, x, f);
    assert {x} - {x} == {};
  }

  lemma {:induction false} SumUnion<T(!new)>(a: set<T>, b: set<T>, f: T -> real)
    requires a !! b
    ensures Sum(a + b, f) == Sum(a, f) + Sum(b, f)
    decreases |a|
  {
    if a == {} {
      assert a + b == b;
    } else {
      var x :| x in a;
      SumTakeOut(a, x, f);
      SumTakeOut(a + b, x, f);
      assert a + b - {x} == (a - {x}) + b;
      SumUnion(a - {x}, b, f);
    }
  }

  lemma {:induction false} SumAgree<T(!new)>(s: set<T>, f: T -> real, h: T -> real)
    requires forall x :: x in s ==> f(x) == h(x)
    ensures Sum(s, f) == Sum(s, h)
    decreases |s|
  {
    if s != {} {
      var x :| x in s;
      SumTakeOut(s, x, f);
      SumTakeOut(s, x, h);
      SumAgree(s - {x}, f, h);
    }
  }

  lemma {:induction false} SumSplit<T(!new)>(s: set<T>, f: T -> real, h: T -> real, both: T -> real)
    requires forall x :: x in s ==> both(x) == f(x) + h(x)
    ensures Sum(s, both) == Sum(s, f) + Sum(s, h)
    decreases |s|
  {
    if s != {} {
      var x :| x in s;
      SumTakeOut(s, x, f);
      SumTakeOut(s, x, h);
      SumTakeOut(s, x, both);
      SumSplit(s - {x}, f, h, both);
    }
  }

  lemma {:induction false} SumOfZeros<T(!new)>(s: set<T>, f: T -> real)
    requires forall x :: x in s ==> f(x) == 0.0
    ensures Sum(s, f) == 0.0
    decreases |s|
  {
    if s != {} {
      var x :| x in s;
      SumTakeOut(s, x, f);
      SumOfZeros(s - {x}, f);
    }
  }

  lemma {:induction false} SumNonNegative<T(!new)>(s: set<T>, f: T -> real)
    requires forall x :: x in s ==> f(x) >= 0.0
    ensures Sum(s, f) >= 0.0
    decreases |s|
  {
    if s != {} {
      var x :| x in s;
      SumTakeOut(s, x, f);
      SumNonNegative(s - {x}, f);
    }
  }

  /** Elements that contribute nothing may be left out. */
  lemma SumSupport<T(!new)>(small: set<T>, big: set<T>, f: T -> real)
    requires small <= big
    requires forall x :: x in big - small ==> f(x) == 0.0
    ensures Sum(big, f) == Sum(small, f)
  {
    SumUnion(small, big - small, f);
    SumOfZeros(big - small, f);
    assert small + (big - small) == big;
  }

  /** Moving one summand by `d` moves the sum by `d`. */
  lemma SumShift<T(!new)>(s: set<T>, x: T, f: T -> real, h: T -> real, d: real)
    requires x in s
    requires h(x) == f(x) + d
    requires forall y :: y in s && y != x ==> h(y) == f(y)
    ensures Sum(s, h) == Sum(s, f) + d
  {
    SumTakeOut(s, x, f);
    SumTakeOut(s, x, h);
    SumAgree(s - {x}, f, h);
  }

  /** Folding one summand into another, with `d` to spare, moves the sum by `d`. */
  lemma SumFold<T(!new)>(s: set<T>, keep: T, drop: T, f: T -> real, h: T -> real, d: real)
    requires keep in s && drop in s && keep != drop
    requires h(keep) == f(keep) + f(drop) + d
    requires forall y :: y in s && y != keep && y != drop ==> h(y) == f(y)
    ensures Sum(s - {drop}, h) == Sum(s, f) + d
  {
    SumTakeOut(s, drop, f);
    SumShift(s - {drop}, keep, f, h, f(drop) + d);
  }

  lemma {:induction false} SumConstant<T(!new)>(s: set<T>, f: T -> real, c: real)
    requires forall x :: x in s ==> f(x) == c
    ensures Sum(s, f) == c * |s| as real
    decreases |s|
  {
    if s != {} {
      var x :| x in s;
      SumTakeOut(s, x, f);
      SumConstant(s - {x}, f, c);
      assert |s| as real == |s - {x}| as real + 1.0;
    }
  }

  ghost function Bonus<T(!new)>(done: set<T>, c: real): T -> real {
    x => if x in done then c else 0.0
  }

  /** Giving `c` more to each element of `done` adds `c` once for each. */
  lemma SumWithBonus<T(!new)>(base: set<T>, done: set<T>, f: T -> real, h: T -> real, c: real)
    requires forall x :: x !in base ==> f(x) == 0.0
    requires forall x :: h(x) == f(x) + if x in done then c else 0.0
    ensures Sum(base + done, h) == Sum(base, f) + c * |done| as real
  {
    SumSplit(base + done, f, Bonus(done, c), h);
    SumSupport(base, base + done, f);
    SumSupport(done, base + done, Bonus(done, c));
    SumConstant(done, Bonus(done, c), c);
  }
}
