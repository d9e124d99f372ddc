/**
  The internal-rate-of-return solver: a present-value residual over a list
  of cash flows paid at periods 1..n, found by bisection on a bracket or by
  Newton's method from a seed, and the driver's inputs.
*/
module Irr {
  import opened CashFlows
  import opened RootFinding

  /** f(r): the cash flows discounted at r, less the price x paid for them. */
  function Residual(x: real, c: seq<real>, r: real): real
    requires 1.0 + r != 0.0
  {
    PresentValue(c, r) - x
  }

  /**
    f as the source computes it: an outer loop over the periods and an inner
    loop that divides a running discount by (1 + r) once per period elapsed.
  */
  method ResidualByDivision(x: real, c: seq<real>, r: real) returns (value: real)
    requires 1.0 + r != 0.0
    ensures value == Residual(x, c, r)
    ensures value == PowerSumTo(c, r, |c|) - x
  {
    value := 0.0;
    var i := 1;
    while i <= |c|
      invariant 1 <= i <= |c| + 1
      invariant value == PresentValueTo(c, r, i - 1)
    {
      var discount := 1.0;
      var j := 1;
      while j <= i
        invariant 1 <= j <= i + 1
        invariant discount == Discount(r, j - 1)
      {
        discount := discount / (1.0 + r);
        j := j + 1;
      }
      value := value + discount * c[i - 1];
      i := i + 1;
    }
    value := value - x;
    PresentValueIsPowerSum(c, r, |c|);
  }

  /** Bisection for the IRR: the generic bisection on f, with the early exits
      and the sign-keeping narrowing it guarantees: a converged rate where f
      is not zero has f(high)'s sign, and a point just below it f(low)'s. */
  method Bisection(x: real, c: seq<real>, low: real, high: real, error: real) returns (s: Solve)
    requires low < high
    requires low > -1.0 || high < -1.0
    requires error > 0.0
    ensures Residual(x, c, low) == 0.0 ==> s == Converged(low)
    ensures Residual(x, c, low) != 0.0 && Residual(x, c, high) == 0.0 ==> s == Converged(high)
    ensures Residual(x, c, low) != 0.0 && Residual(x, c, high) != 0.0 ==>
              (s == NoBracket <==> Residual(x, c, low) * Residual(x, c, high) > 0.0)
    ensures s == NoBracket || s.Converged?
    ensures s.Converged? ==> low <= s.rate <= high
    ensures s.Converged? && Residual(x, c, s.rate) != 0.0 ==> SameSign(Residual(x, c, s.rate), Residual(x, c, high))
    ensures s.Converged? && Residual(x, c, s.rate) != 0.0 ==>
              exists a :: low <= a < s.rate && s.rate - a < error &&
                          OppositeSigns(Residual(x, c, a), Residual(x, c, s.rate)) &&
                          SameSign(Residual(x, c, a), Residual(x, c, low))
  {
    var f := (t: real) requires 1.0 + t != 0.0 => Residual(x, c, t);
    s := Bisect(f, low, high, error);
    if s.Converged? && Residual(x, c, s.rate) != 0.0 {
      var a :| low <= a < s.rate && s.rate - a < error && OppositeSigns(f(a), f(s.rate)) && SameSign(f(a), f(low));
      assert OppositeSigns(Residual(x, c, a), Residual(x, c, s.rate));
      assert SameSign(Residual(x, c, a), Residual(x, c, low));
    }
  }

  /** One Newton update r - f(r)/f'(r), defined where f'(r) is not zero. */
  function NewtonStep(x: real, c: seq<real>, r: real): real
    requires 1.0 + r != 0.0
    requires Slope(c, r) != 0.0
  {
    r - Residual(x, c, r) / Slope(c, r)
  }

  /** The k-th Newton iterate from r0; an iterate at which no step is defined
      is kept, since the solver stops there anyway. */
  function Iterate(x: real, c: seq<real>, r0: real, k: nat): real
  {
    if k == 0 then r0
    else
      var p := Iterate(x, c, r0, k - 1);
      if 1.0 + p != 0.0 && Slope(c, p) != 0.0 then NewtonStep(x, c, p) else p
  }

  function Abs(v: real): real
  {
    if v < 0.0 then -v else v
  }

  /** At iterate j the solver updates r and goes round again: f and f' are
      defined there, f' is not zero, and |f| is not yet below the tolerance. */
  predicate Continues(x: real, c: seq<real>, r0: real, error: real, j: nat)
  {
    var p := Iterate(x, c, r0, j);
    1.0 + p != 0.0 && Slope(c, p) != 0.0 && Abs(Residual(x, c, p)) >= error
  }

  /** At iterate j the solver updates r for the last time: f and f' are
      defined there, f' is not zero, and |f| is below the tolerance. */
  predicate Settles(x: real, c: seq<real>, r0: real, error: real, j: nat)
  {
    var p := Iterate(x, c, r0, j);
    1.0 + p != 0.0 && Slope(c, p) != 0.0 && Abs(Residual(x, c, p)) < error
  }

  /** At iterate j, f' is defined and zero. */
  predicate Flat(x: real, c: seq<real>, r0: real, j: nat)
  {
    var p := Iterate(x, c, r0, j);
    1.0 + p != 0.0 && Slope(c, p) == 0.0
  }

  /**
    Newton's method for the IRR as a do-while loop: compute f and f' at r;
    stop with ZeroDerivative, r untouched, when f' == 0; otherwise update
    r := r - f/f' and stop once the |f| computed BEFORE the update is below
    the tolerance, returning the updated r. The source has no iteration cap;
    `fuel` bounds the number of updates and `steps` reports how many ran.
  */
  method Newton(x: real, c: seq<real>, r0: real, error: real, fuel: nat) returns (s: Solve, steps: nat)
    ensures steps <= fuel
    ensures s.Converged? || s.ZeroDerivative? || s.NoConvergence? || s.Singular?
    ensures forall j :: 0 <= j < steps - 1 ==> Continues(x, c, r0, error, j)
    ensures s.Converged? ==> steps >= 1 && Settles(x, c, r0, error, steps - 1)
    ensures s.Converged? ==> s.rate == Iterate(x, c, r0, steps)
    ensures !s.Converged? ==> forall j :: 0 <= j < steps ==> Continues(x, c, r0, error, j)
    ensures s.ZeroDerivative? ==> Flat(x, c, r0, steps)
    ensures s.Singular? ==> 1.0 + Iterate(x, c, r0, steps) == 0.0
    ensures s.NoConvergence? ==> steps == fuel
  {
    var r := r0;
    steps := 0;
    while steps < fuel
      invariant steps <= fuel
      invariant r == Iterate(x, c, r0, steps)
      invariant forall j :: 0 <= j < steps ==> Continues(x, c, r0, error, j)
      decreases fuel - steps
    {
      if 1.0 + r == 0.0 {
        return Singular, steps;
      }
      var value := Residual(x, c, r);
      var derivative := Slope(c, r);
      if derivative == 0.0 {
        return ZeroDerivative, steps;
      }
      r := r - value / derivative;
      steps := steps + 1;
      if Abs(value) < error {
        return Converged(r), steps;
      }
    }
    return NoConvergence, steps;
  }

  // The driver's inputs: price -9702 for flows -19700 and 10000.
  const DriverPrice: real := -9702.0
  const DriverFlows: seq<real> := [-19700.0, 10000.0]
  const DriverTolerance: real := 0.000000000001

  /** f at the driver's bracket ends: positive at 0 and 0.03, negative at
      0.015, so both brackets [0, 0.015] and [0.015, 0.03] straddle a root. */
  lemma DriverBracketSigns()
    ensures Residual(DriverPrice, DriverFlows, 0.0) == 2.0
    ensures Residual(DriverPrice, DriverFlows, 0.015) < 0.0
    ensures Residual(DriverPrice, DriverFlows, 0.03) > 0.0
  {
    DriverResidual(0.0);
    DriverResidual(0.015);
    DriverResidual(0.03);
  }

  /** With v = 1/(1+r) the driver's f is the quadratic 10000 v^2 - 19700 v + 9702. */
  lemma DriverResidual(r: real)
    requires r > -1.0
    ensures Residual(DriverPrice, DriverFlows, r)
         == 10000.0 * Discount(r, 1) * Discount(r, 1) - 19700.0 * Discount(r, 1) + 9702.0
  {
    var v := Discount(r, 1);
    assert v == Discount(r, 0) / (1.0 + r) == 1.0 / (1.0 + r);
    assert Discount(r, 2) == v / (1.0 + r) == v * v;
    assert PresentValueTo(DriverFlows, r, 1) == -19700.0 * v;
    assert PresentValueTo(DriverFlows, r, 2) == -19700.0 * v + 10000.0 * (v * v);
  }

  /** The two exact roots: the discount factors 0.99 and 0.98. */
  lemma DriverRoots()
    ensures Residual(DriverPrice, DriverFlows, 1.0 / 0.99 - 1.0) == 0.0
    ensures Residual(DriverPrice, DriverFlows, 1.0 / 0.98 - 1.0) == 0.0
  {
    DriverResidual(1.0 / 0.99 - 1.0);
    assert Discount(1.0 / 0.99 - 1.0, 1) == 0.99;
    DriverResidual(1.0 / 0.98 - 1.0);
    assert Discount(1.0 / 0.98 - 1.0, 1) == 0.98;
  }

  /** f' vanishes at discount factor 0.985, i.e. r = 1/0.985 - 1 (about
      0.0152284), the seed the driver notes as giving f'(r) = 0. */
  lemma DriverStationaryPoint()
    ensures Slope(DriverFlows, 1.0 / 0.985 - 1.0) == 0.0
  {
    var r := 1.0 / 0.985 - 1.0;
    assert Discount(r, 1) == 0.985;
    assert Discount(r, 2) == 0.985 * 0.985;
  }

  /** The driver's two bisections: neither bracket is rejected, and each
      yields a rate inside its bracket. */
  method DriverBisections() returns (first: Solve, second: Solve)
    ensures first.Converged? && 0.0 <= first.rate <= 0.015
    ensures second.Converged? && 0.015 <= second.rate <= 0.03
  {
    DriverBracketSigns();
    first := Bisection(DriverPrice, DriverFlows, 0.0, 0.015, DriverTolerance);
    second := Bisection(DriverPrice, DriverFlows, 0.015, 0.03, DriverTolerance);
  }

  /** Newton seeded at the stationary point stops at once with the sentinel. */
  method DriverStationarySeed(fuel: nat) returns (s: Solve, steps: nat)
    requires fuel >= 1
    ensures s == ZeroDerivative && steps == 0
    ensures Sentinel(s) == -1.0
  {
    DriverStationaryPoint();
    var seed := 1.0 / 0.985 - 1.0;
    assert !Continues(DriverPrice, DriverFlows, seed, DriverTolerance, 0);
    s, steps := Newton(DriverPrice, DriverFlows, seed, DriverTolerance, fuel);
  }
}
