/** Facts about reals that nonlinear reasoning is better kept away from elsewhere, and rounding
    as `round` does it: to the nearest, ties to the even neighbour. */
module Reals {

  lemma PositiveProduct(a: real, b: real, s: real)
    requires a > 0.0 && b > 0.0 && s == a * b
    ensures s > 0.0
  {
    assert a * b > 0.0;
  }

  function Nearest(x: real): int {
    var below := x.Floor;
    var past := x - below as real;
    if past < 0.5 || (past == 0.5 && below % 2 == 0) then below else below + 1
  }

  /** No whole number is nearer, and of two as near it is the even one. */
  lemma NearestIsNearest(x: real, n: int)
    ensures var here, there := Nearest(x) as real - x, n as real - x;
      && (if here >= 0.0 then here else -here) <= (if there >= 0.0 then there else -there)
      && (n != Nearest(x) && (here == there || here == -there) ==> Nearest(x) % 2 == 0)
  {
  }

  lemma NearestMonotone(x: real, y: real)
    requires x <= y
    ensures Nearest(x) <= Nearest(y)
  {
    assert x.Floor <= y.Floor;
  }

  lemma WholeUnits(x: real, units: real)
    requires units > 0.0
    ensures Nearest(x) as real / units * units == Nearest(x) as real == (Nearest(x) as real).Floor as real
  {
    assert Nearest(x) as real / units * units == Nearest(x) as real;
  }

  /** `round(x, 4)` */
  function RoundedTo4(x: real): real {
    Nearest(x * 10000.0) as real / 10000.0
  }

  /** `round(x, 6)` */
  function RoundedTo6(x: real): real {
    Nearest(x * 1000000.0) as real / 1000000.0
  }

  /** A rounded weight has four places and is within half a unit of the fourth. */
  lemma RoundedTo4Near(x: real)
    ensures (RoundedTo4(x) * 10000.0).Floor as real == RoundedTo4(x) * 10000.0
    ensures -0.00005 <= RoundedTo4(x) - x <= 0.00005
  {
    WholeUnits(x * 10000.0, 10000.0);
  }

  /** Rounding takes nothing past a bound of four places or fewer. */
  lemma RoundedTo4Within(x: real, low: int, high: int)
    requires low as real / 10000.0 <= x <= high as real / 10000.0
    ensures low as real / 10000.0 <= RoundedTo4(x) <= high as real / 10000.0
  {
    assert Nearest(low as real) == low && Nearest(high as real) == high;
    NearestMonotone(low as real, x * 10000.0);
    NearestMonotone(x * 10000.0, high as real);
  }

  /** Rounding may make a tie, and never turns an order round. */
  lemma RoundedTo6Monotone(x: real, y: real)
    requires x <= y
    ensures RoundedTo6(x) <= RoundedTo6(y)
  {
    NearestMonotone(x * 1000000.0, y * 1000000.0);
  }

  lemma RoundedTo6Near(x: real)
    ensures (RoundedTo6(x) * 1000000.0).Floor as real == RoundedTo6(x) * 1000000.0
    ensures -0.0000005 <= RoundedTo6(x) - x <= 0.0000005
  {
    WholeUnits(x * 1000000.0, 1000000.0);
  }
}
