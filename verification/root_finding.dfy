/**
  The one-dimensional bisection used by both the IRR solver and the bond
  yield solver, over any residual function defined on the bracket, and the
  outcome type shared by every solver of the model.
*/
module RootFinding {

  /** What a solve produces. The C++ solvers return a double and signal every
      failure with the sentinel -1; the model keeps the cases apart. */
  datatype Solve =
    | Converged(rate: real)
    | NoBracket        // f(low) * f(high) > 0 before any iteration
    | ZeroDerivative   // Newton met f'(r) == 0
    | NoConvergence    // Newton used up its iteration budget
    | Singular         // a Newton iterate landed on r == -1, where f is undefined

  /** The double the C++ solvers hand back for an outcome. */
  function Sentinel(s: Solve): real
  {
    if s.Converged? then s.rate else -1.0
  }

  /** x and y are non-zero and of opposite signs. */
  predicate OppositeSigns(x: real, y: real)
  {
    (x < 0.0 && y > 0.0) || (x > 0.0 && y < 0.0)
  }

  /** x and y are non-zero and of the same sign. */
  predicate SameSign(x: real, y: real)
  {
    (x > 0.0 && y > 0.0) || (x < 0.0 && y < 0.0)
  }

  /** Halving a width of at least one tolerance lowers the whole number of
      tolerances it spans: the bisection loop's termination measure. */
  lemma HalvingLowersFloor(w: real, e: real)
    requires e > 0.0
    requires w >= e
    ensures 0 <= ((w / 2.0) / e).Floor < (w / e).Floor
  {
    var t := w / e;
    assert (w / 2.0) / e == t / 2.0;
    assert t >= 1.0;
    var k := t.Floor;
    assert k >= 1;
    assert (t / 2.0).Floor as real <= t / 2.0 < (k as real + 1.0) / 2.0 <= k as real;
  }

  /**
    Bisection on [low, high] to tolerance `error`. The stored `lowValue` is the
    residual at the ORIGINAL low end and is never recomputed: the step compares
    f(mid) with it. The loop invariant shows this is sound, because f(lo)
    always keeps the sign of the original f(low) and f(hi) that of the
    original f(high).
  */
  method Bisect(f: real --> real, low: real, high: real, error: real) returns (s: Solve)
    requires low < high
    requires error > 0.0
    requires forall t :: low <= t <= high ==> f.requires(t)
    ensures f(low) == 0.0 ==> s == Converged(low)
    ensures f(low) != 0.0 && f(high) == 0.0 ==> s == Converged(high)
    ensures f(low) != 0.0 && f(high) != 0.0 ==> (s == NoBracket <==> f(low) * f(high) > 0.0)
    ensures s == NoBracket || s.Converged?
    ensures s.Converged? ==> low <= s.rate <= high
    ensures s.Converged? && f(s.rate) != 0.0 ==> SameSign(f(s.rate), f(high))
    ensures s.Converged? && f(s.rate) != 0.0 ==>
              exists a :: low <= a < s.rate && s.rate - a < error && OppositeSigns(f(a), f(s.rate))
                          && SameSign(f(a), f(low))
  {
    var lowValue := f(low);
    var highValue := f(high);
    if lowValue == 0.0 {
      return Converged(low);
    } else if highValue == 0.0 {
      return Converged(high);
    } else if lowValue * highValue > 0.0 {
      return NoBracket;
    }
    assert OppositeSigns(lowValue, highValue);
    var lo, hi := low, high;
    while hi - lo >= error
      invariant low <= lo < hi <= high
      invariant f(lo) != 0.0 && (f(lo) > 0.0 <==> lowValue > 0.0)
      invariant f(hi) != 0.0 && (f(hi) > 0.0 <==> highValue > 0.0)
      decreases ((hi - lo) / error).Floor
    {
      HalvingLowersFloor(hi - lo, error);
      var mid := (lo + hi) / 2.0;
      var midValue := f(mid);
      if midValue == 0.0 {
        return Converged(mid);
      } else if (midValue > 0.0 && lowValue > 0.0) || (midValue < 0.0 && lowValue < 0.0) {
        lo := mid;
      } else {
        hi := mid;
      }
    }
    assert OppositeSigns(f(lo), f(hi)) && SameSign(f(lo), lowValue) && SameSign(f(hi), highValue);
    return Converged(hi);
  }
}
