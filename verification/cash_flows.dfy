/**
  Exact-arithmetic building blocks shared by the IRR solver, the bond engine
  and the duration calculator: integer powers, the discount factor obtained by
  repeated division, and the three sums taken over a schedule of cash flows
  paid at periods 1..n (present value, time-weighted present value and the
  closed-form derivative of the present value).
*/
module CashFlows {

  /** x^k for a natural exponent. */
  function Pow(x: real, k: nat): (p: real)
    ensures x != 0.0 ==> p != 0.0
    ensures x > 0.0 ==> p > 0.0
  {
    if k == 0 then 1.0 else x * Pow(x, k - 1)
  }

  /** The discount factor for period i at rate r, obtained as the inner loops
      of the IRR solver obtain it: start from 1 and divide by (1 + r) i times. */
  function Discount(r: real, i: nat): real
    requires 1.0 + r != 0.0
  {
    if i == 0 then 1.0 else Discount(r, i - 1) / (1.0 + r)
  }

  /** Repeated division leaves exactly the reciprocal of the i-th power. */
  lemma {:induction false} DiscountIsReciprocalPow(r: real, i: nat)
    requires 1.0 + r != 0.0
    ensures Discount(r, i) == 1.0 / Pow(1.0 + r, i)
    ensures Discount(r, i) * Pow(1.0 + r, i) == 1.0
  {
    if i > 0 {
      DiscountIsReciprocalPow(r, i - 1);
      var b := 1.0 + r;
      var p := Pow(b, i - 1);
      calc {
        Discount(r, i) * Pow(b, i);
        == (Discount(r, i - 1) / b) * (b * p);
        == { assert Discount(r, i - 1) / b * b == Discount(r, i - 1); }
           Discount(r, i - 1) * p;
        == 1.0;
      }
    }
  }

  /** Under a rate above -1 every discount factor is positive. */
  lemma {:induction false} DiscountPositive(r: real, i: nat)
    requires r > -1.0
    ensures Discount(r, i) > 0.0
  {
    if i > 0 {
      DiscountPositive(r, i - 1);
      var d := Discount(r, i - 1);
      assert d / (1.0 + r) > 0.0;
    }
  }

  /** The sum of cf[i-1] * Discount(r, i) over the first k periods. */
  function PresentValueTo(cf: seq<real>, r: real, k: nat): real
    requires 1.0 + r != 0.0
    requires k <= |cf|
  {
    if k == 0 then 0.0
    else PresentValueTo(cf, r, k - 1) + cf[k - 1] * Discount(r, k)
  }

  /** The sum of i * cf[i-1] * Discount(r, i) over the first k periods. */
  function WeightedValueTo(cf: seq<real>, r: real, k: nat): real
    requires 1.0 + r != 0.0
    requires k <= |cf|
  {
    if k == 0 then 0.0
    else WeightedValueTo(cf, r, k - 1) + (k as real) * cf[k - 1] * Discount(r, k)
  }

  /** The sum of -i * cf[i-1] * (1 + r)^-(i+1) over the first k periods, with
      the factor formed as Discount(r, i) / (1 + r), as the Newton loop does. */
  function SlopeTo(cf: seq<real>, r: real, k: nat): real
    requires 1.0 + r != 0.0
    requires k <= |cf|
  {
    if k == 0 then 0.0
    else SlopeTo(cf, r, k - 1) + (-(k as real)) * (Discount(r, k) / (1.0 + r)) * cf[k - 1]
  }

  /** Present value of the whole schedule. */
  function PresentValue(cf: seq<real>, r: real): real
    requires 1.0 + r != 0.0
  {
    PresentValueTo(cf, r, |cf|)
  }

  /** Time-weighted present value of the whole schedule. */
  function WeightedValue(cf: seq<real>, r: real): real
    requires 1.0 + r != 0.0
  {
    WeightedValueTo(cf, r, |cf|)
  }

  /** Closed-form derivative of PresentValue with respect to r. */
  function Slope(cf: seq<real>, r: real): real
    requires 1.0 + r != 0.0
  {
    SlopeTo(cf, r, |cf|)
  }

  /** The derivative is the time-weighted value, negated and discounted one
      more period: d/dr PV = -(sum i * cf_i * v^i) / (1 + r). */
  lemma {:induction false} SlopeIsDiscountedWeight(cf: seq<real>, r: real, k: nat)
    requires 1.0 + r != 0.0
    requires k <= |cf|
    ensures SlopeTo(cf, r, k) * (1.0 + r) == -WeightedValueTo(cf, r, k)
  {
    if k > 0 {
      SlopeIsDiscountedWeight(cf, r, k - 1);
      var b := 1.0 + r;
      var d := Discount(r, k);
      var t := (-(k as real)) * (d / b) * cf[k - 1];
      assert t * b == -((k as real) * cf[k - 1] * d) by {
        assert d / b * b == d;
      }
    }
  }

  /** The sum of cf[i-1] / (1 + r)^i over the first k periods, each factor
      written as a power rather than by repeated division. */
  function PowerSumTo(cf: seq<real>, r: real, k: nat): real
    requires 1.0 + r != 0.0
    requires k <= |cf|
  {
    if k == 0 then 0.0
    else PowerSumTo(cf, r, k - 1) + cf[k - 1] / Pow(1.0 + r, k)
  }

  /** Discounting by repeated division and dividing by powers agree. */
  lemma {:induction false} PresentValueIsPowerSum(cf: seq<real>, r: real, k: nat)
    requires 1.0 + r != 0.0
    requires k <= |cf|
    ensures PresentValueTo(cf, r, k) == PowerSumTo(cf, r, k)
  {
    if k > 0 {
      PresentValueIsPowerSum(cf, r, k - 1);
      DiscountIsReciprocalPow(r, k);
      var p := Pow(1.0 + r, k);
      assert cf[k - 1] * (1.0 / p) == cf[k - 1] / p;
    }
  }

  /** A level-coupon bond's schedule: coupon c in each of n periods and the
      redemption fv added to the last one. */
  function Level(c: real, fv: real, n: nat): (cf: seq<real>)
    ensures |cf| == n
    ensures forall i :: 0 <= i < n ==> cf[i] == c + (if i == n - 1 then fv else 0.0)
  {
    seq(n, i requires 0 <= i < n => if i == n - 1 then c + fv else c)
  }

  /** Discounting a prefix of coupons only: the redemption has not been reached. */
  lemma {:induction false} LevelPrefixValue(c: real, fv: real, n: nat, r: real, k: nat)
    requires 1.0 + r != 0.0
    requires k < n
    ensures PresentValueTo(Level(c, fv, n), r, k) == c * CouponAnnuity(r, k)
    ensures WeightedValueTo(Level(c, fv, n), r, k) == c * WeightedAnnuity(r, k)
  {
    if k > 0 {
      LevelPrefixValue(c, fv, n, r, k - 1);
    }
  }

  /** Sum of Discount(r, i) for i in 1..k. */
  function CouponAnnuity(r: real, k: nat): real
    requires 1.0 + r != 0.0
  {
    if k == 0 then 0.0 else CouponAnnuity(r, k - 1) + Discount(r, k)
  }

  /** Sum of i * Discount(r, i) for i in 1..k. */
  function WeightedAnnuity(r: real, k: nat): real
    requires 1.0 + r != 0.0
  {
    if k == 0 then 0.0 else WeightedAnnuity(r, k - 1) + (k as real) * Discount(r, k)
  }

  /** The whole level schedule: coupons over all n periods plus the discounted
      redemption, counted once, at period n. */
  lemma {:induction false} LevelValue(c: real, fv: real, n: nat, r: real)
    requires 1.0 + r != 0.0
    requires n >= 1
    ensures PresentValue(Level(c, fv, n), r) == c * CouponAnnuity(r, n) + fv * Discount(r, n)
    ensures WeightedValue(Level(c, fv, n), r)
         == c * WeightedAnnuity(r, n) + (n as real) * fv * Discount(r, n)
  {
    var cf := Level(c, fv, n);
    var d := Discount(r, n);
    var m := n as real;
    LevelPrefixValue(c, fv, n, r, n - 1);
    var a := CouponAnnuity(r, n - 1);
    var w := WeightedAnnuity(r, n - 1);
    assert cf[n - 1] == c + fv;
    assert PresentValue(cf, r) == c * a + (c + fv) * d;
    assert CouponAnnuity(r, n) == a + d;
    assert (c + fv) * d == c * d + fv * d;
    assert c * (a + d) == c * a + c * d;
    assert WeightedValue(cf, r) == c * w + m * (c + fv) * d;
    assert WeightedAnnuity(r, n) == w + m * d;
    assert m * (c + fv) * d == c * (m * d) + m * fv * d;
    assert c * (w + m * d) == c * w + c * (m * d);
  }
}
