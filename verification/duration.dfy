/**
  Macaulay duration of a level-coupon bond redeemed at 100, the modified
  duration derived from it and the first-order price-change estimate for a
  one-basis-point move in yield.
*/
module Duration {
  import opened CashFlows

  /** The face value the duration calculator hard-codes. */
  const Redemption: real := 100.0
  /** One basis point, the yield move of the price-change estimate. */
  const BasisPoint: real := 0.0001

  /** The bond's flows: coupon c in periods 1..n, plus 100 at period n. */
  function Flows(n: nat, c: real): seq<real>
  {
    Level(c, Redemption, n)
  }

  /** Time-weighted present values of non-negative flows sit between one and
      k times the plain present value. */
  lemma {:induction false} WeightBetweenOneAndK(cf: seq<real>, r: real, k: nat)
    requires r > -1.0
    requires k <= |cf|
    requires forall i :: 0 <= i < |cf| ==> cf[i] >= 0.0
    ensures 0.0 <= PresentValueTo(cf, r, k)
    ensures PresentValueTo(cf, r, k) <= WeightedValueTo(cf, r, k) <= (k as real) * PresentValueTo(cf, r, k)
  {
    if k > 0 {
      WeightBetweenOneAndK(cf, r, k - 1);
      WeightBetweenStep(cf, r, k);
    }
  }

  lemma WeightBetweenStep(cf: seq<real>, r: real, k: nat)
    requires r > -1.0
    requires 0 < k <= |cf|
    requires cf[k - 1] >= 0.0
    requires 0.0 <= PresentValueTo(cf, r, k - 1)
    requires PresentValueTo(cf, r, k - 1) <= WeightedValueTo(cf, r, k - 1)
    requires WeightedValueTo(cf, r, k - 1) <= ((k - 1) as real) * PresentValueTo(cf, r, k - 1)
    ensures 0.0 <= PresentValueTo(cf, r, k)
    ensures PresentValueTo(cf, r, k) <= WeightedValueTo(cf, r, k)
    ensures WeightedValueTo(cf, r, k) <= (k as real) * PresentValueTo(cf, r, k)
  {
    var d := Discount(r, k);
    var t := cf[k - 1] * d;
    assert t >= 0.0 by {
      DiscountPositive(r, k);
    }
    assert k as real * cf[k - 1] * d == k as real * t;
    WeightStep(PresentValueTo(cf, r, k - 1), WeightedValueTo(cf, r, k - 1), t, (k - 1) as real, k as real);
  }

  /** Adding a non-negative term t at weight m >= 1 keeps the weighted sum w
      between the plain sum and m times it. */
  lemma WeightStep(p: real, w: real, t: real, previous: real, m: real)
    requires m >= 1.0 && previous == m - 1.0
    requires p >= 0.0 && t >= 0.0
    requires p <= w <= previous * p
    ensures 0.0 <= p + t
    ensures p + t <= w + m * t <= m * (p + t)
  {
    assert previous * p <= m * p;
    assert m * t >= t;
    assert m * (p + t) == m * p + m * t;
  }

  /** One pass of the MD loop adds the period's coupon, and on the last
      period the redemption, to both sums. */
  lemma MDStep(n: nat, c: real, r: real, i: nat, discount: real)
    requires 1.0 + r != 0.0
    requires 1 <= i <= n
    requires discount == Discount(r, i)
    ensures i < n ==> PresentValueTo(Flows(n, c), r, i)
                      == PresentValueTo(Flows(n, c), r, i - 1) + discount * c
    ensures i == n ==> PresentValueTo(Flows(n, c), r, i)
                       == PresentValueTo(Flows(n, c), r, i - 1) + discount * c + discount * 100.0
    ensures i < n ==> WeightedValueTo(Flows(n, c), r, i)
                      == WeightedValueTo(Flows(n, c), r, i - 1) + (i as real) * c * discount
    ensures i == n ==> WeightedValueTo(Flows(n, c), r, i)
                       == WeightedValueTo(Flows(n, c), r, i - 1) + (i as real) * c * discount
                          + (n as real) * 100.0 * discount
  {
    var cf := Flows(n, c);
    var m := i as real;
    var extra := if i == n then Redemption else 0.0;
    assert cf[i - 1] == c + extra;
    assert (c + extra) * discount == discount * c + discount * extra;
    assert m * (c + extra) * discount == m * c * discount + m * extra * discount;
  }

  /** The calculator's discount factor, one over a power of (1 + r); it is the
      repeated-division factor. */
  function PowerDiscount(r: real, i: nat): (d: real)
    requires 1.0 + r != 0.0
    ensures d == Discount(r, i)
  {
    DiscountIsReciprocalPow(r, i);
    1.0 / Pow(1.0 + r, i)
  }

  /**
    The calculator's MD: one loop over periods 1..n accumulating the
    discounted coupons into the value and, weighted by the period, into the
    duration; on the last period only, the discounted 100 is added to both.
    The result is the weighted sum over the value. With no coupon it is
    exactly n; for a non-negative coupon and a rate above -1 it lies between
    1 and n.
  */
  method MD(n: nat, c: real, r: real) returns (duration: real)
    requires 1.0 + r != 0.0
    requires PresentValue(Flows(n, c), r) != 0.0
    ensures duration == WeightedValue(Flows(n, c), r) / PresentValue(Flows(n, c), r)
    ensures c == 0.0 ==> duration == n as real
    ensures c >= 0.0 && r > -1.0 ==> 1.0 <= duration <= n as real
  {
    var value;
    value, duration := DiscountedSums(n, c, r);
    duration := duration / value;
    DurationFacts(n, c, r);
  }

  /** MD's loop: the bond's value and its time-weighted value. */
  method DiscountedSums(n: nat, c: real, r: real) returns (value: real, duration: real)
    requires 1.0 + r != 0.0
    ensures value == PresentValue(Flows(n, c), r)
    ensures duration == WeightedValue(Flows(n, c), r)
  {
    value := 0.0;
    duration := 0.0;
    var i := 1;
    while i <= n
      invariant 1 <= i <= n + 1
      invariant value == PresentValueTo(Flows(n, c), r, i - 1)
      invariant duration == WeightedValueTo(Flows(n, c), r, i - 1)
    {
      var discount := PowerDiscount(r, i);
      MDStep(n, c, r, i, discount);
      duration := duration + (i as real) * c * discount;
      value := value + discount * c;
      if i == n {
        duration := duration + (n as real) * 100.0 * discount;
        value := value + discount * 100.0;
      }
      i := i + 1;
    }
  }

  /** The cases MD promises, gathered for its contract. */
  lemma DurationFacts(n: nat, c: real, r: real)
    requires 1.0 + r != 0.0
    requires PresentValue(Flows(n, c), r) != 0.0
    ensures c == 0.0 ==> WeightedValue(Flows(n, c), r) / PresentValue(Flows(n, c), r) == n as real
    ensures c >= 0.0 && r > -1.0 ==>
              1.0 <= WeightedValue(Flows(n, c), r) / PresentValue(Flows(n, c), r) <= n as real
  {
    if c == 0.0 {
      ZeroCouponDuration(n, r);
    }
    if c >= 0.0 && r > -1.0 {
      DurationBounds(n, c, r);
    }
  }

  /** b over a positive d lies between 1 and m when b does between d and m * d. */
  lemma RatioBetween(b: real, d: real, m: real)
    requires d > 0.0
    requires d <= b <= m * d
    ensures 1.0 <= b / d <= m
  {
  }

  /** A zero-coupon bond's duration is its maturity. */
  lemma ZeroCouponDuration(n: nat, r: real)
    requires 1.0 + r != 0.0
    requires PresentValue(Flows(n, 0.0), r) != 0.0
    ensures WeightedValue(Flows(n, 0.0), r) / PresentValue(Flows(n, 0.0), r) == n as real
  {
    if n >= 1 {
      LevelValue(0.0, Redemption, n, r);
    }
  }

  /** With a non-negative coupon and a rate above -1, the duration lies
      between the first period and the last. */
  lemma DurationBounds(n: nat, c: real, r: real)
    requires c >= 0.0
    requires r > -1.0
    requires PresentValue(Flows(n, c), r) != 0.0
    ensures 1.0 <= WeightedValue(Flows(n, c), r) / PresentValue(Flows(n, c), r) <= n as real
  {
    var cf := Flows(n, c);
    WeightBetweenOneAndK(cf, r, n);
    RatioBetween(WeightedValue(cf, r), PresentValue(cf, r), n as real);
  }

  /** For n >= 1, a non-negative coupon and a rate above -1 the value, the
      divisor of MD, is positive, so MD is always defined there. */
  lemma ValuePositive(n: nat, c: real, r: real)
    requires n >= 1
    requires c >= 0.0
    requires r > -1.0
    ensures PresentValue(Flows(n, c), r) > 0.0
  {
    LevelValue(c, Redemption, n, r);
    DiscountPositive(r, n);
    AnnuityNonNegative(r, n);
    assert c * CouponAnnuity(r, n) >= 0.0;
  }

  lemma {:induction false} AnnuityNonNegative(r: real, k: nat)
    requires r > -1.0
    ensures CouponAnnuity(r, k) >= 0.0
  {
    if k > 0 {
      AnnuityNonNegative(r, k - 1);
      DiscountPositive(r, k);
    }
  }

  /** The weighted annuity is at most k times the plain one. */
  lemma {:induction false} WeightedAnnuityBound(r: real, k: nat)
    requires r > -1.0
    ensures WeightedAnnuity(r, k) <= (k as real) * CouponAnnuity(r, k)
  {
    if k > 0 {
      WeightedAnnuityBound(r, k - 1);
      AnnuityNonNegative(r, k - 1);
      var m := k as real;
      var a := CouponAnnuity(r, k - 1);
      assert (m - 1.0) * a <= m * a;
      assert m * (a + Discount(r, k)) == m * a + m * Discount(r, k);
    }
  }

  /** a / b <= e / d for positive b and d when a * d <= e * b. */
  lemma CrossMultiplied(a: real, b: real, e: real, d: real)
    requires b > 0.0 && d > 0.0
    requires a * d <= e * b
    ensures a / b <= e / d
  {
    assert a / b == (a * d) / (b * d);
    assert e / d == (e * b) / (b * d);
  }

  /**
    Raising the coupon never lengthens the duration: more of the value sits
    in early coupons. This orders the calculator's three coupon scenarios
    (the coupon, 10% above it, 10% below it).
  */
  lemma HigherCouponShorterDuration(n: nat, c1: real, c2: real, r: real)
    requires n >= 1
    requires 0.0 <= c1 <= c2
    requires r > -1.0
    ensures PresentValue(Flows(n, c1), r) > 0.0 && PresentValue(Flows(n, c2), r) > 0.0
    ensures WeightedValue(Flows(n, c2), r) / PresentValue(Flows(n, c2), r)
         <= WeightedValue(Flows(n, c1), r) / PresentValue(Flows(n, c1), r)
  {
    ValuePositive(n, c1, r);
    ValuePositive(n, c2, r);
    LevelValue(c1, Redemption, n, r);
    LevelValue(c2, Redemption, n, r);
    var m := n as real;
    var f := Redemption * Discount(r, n);
    assert m * Redemption * Discount(r, n) == m * f;
    DiscountPositive(r, n);
    AnnuityNonNegative(r, n);
    WeightedAnnuityBound(r, n);
    DurationRatioOrder(CouponAnnuity(r, n), WeightedAnnuity(r, n), m, f, c1, c2);
  }

  /** The duration (c w + m f) / (c a + f) of coupon c over annuity a, weighted
      annuity w <= m a and discounted redemption f > 0 falls as c grows. */
  lemma DurationRatioOrder(a: real, w: real, m: real, f: real, c1: real, c2: real)
    requires a >= 0.0 && f > 0.0
    requires w <= m * a
    requires 0.0 <= c1 <= c2
    ensures c1 * a + f > 0.0 && c2 * a + f > 0.0
    ensures (c2 * w + m * f) / (c2 * a + f) <= (c1 * w + m * f) / (c1 * a + f)
  {
    var p1 := c1 * a + f;
    var p2 := c2 * a + f;
    var w1 := c1 * w + m * f;
    var w2 := c2 * w + m * f;
    assert c1 * a >= 0.0 && c2 * a >= 0.0;
    assert (c2 - c1) * f * (w - m * a) <= 0.0 by {
      assert (c2 - c1) * f >= 0.0;
    }
    assert w2 * p1 - w1 * p2 == (c2 - c1) * f * (w - m * a);
    CrossMultiplied(w2, p2, w1, p1);
  }

  /** Modified duration: Macaulay duration over 1 + y. */
  function ModifiedDuration(macaulay: real, y: real): (modified: real)
    requires 1.0 + y != 0.0
    ensures modified * (1.0 + y) == macaulay
    ensures macaulay > 0.0 && 1.0 + y > 0.0 ==> modified > 0.0
  {
    macaulay / (1.0 + y)
  }

  /** Modified duration is the bond's price sensitivity: minus the derivative
      of the value over the value. */
  lemma ModifiedDurationIsSensitivity(n: nat, c: real, r: real)
    requires 1.0 + r != 0.0
    requires PresentValue(Flows(n, c), r) != 0.0
    ensures ModifiedDuration(WeightedValue(Flows(n, c), r) / PresentValue(Flows(n, c), r), r)
         == -Slope(Flows(n, c), r) / PresentValue(Flows(n, c), r)
  {
    var cf := Flows(n, c);
    var p := PresentValue(cf, r);
    var w := WeightedValue(cf, r);
    var b := 1.0 + r;
    SlopeIsDiscountedWeight(cf, r, |cf|);
    assert -Slope(cf, r) == w / b;
    assert (w / p) / b == (w / b) / p;
  }

  /** The first-order price change, in fraction of price, for a yield move. */
  function PriceChange(modified: real, deltaRate: real): real
  {
    -modified * deltaRate
  }

  /** The estimate is the tangent line: the relative price change the
      derivative of the value predicts for the yield move. */
  lemma PriceChangeIsTangent(n: nat, c: real, r: real, deltaRate: real)
    requires 1.0 + r != 0.0
    requires PresentValue(Flows(n, c), r) != 0.0
    ensures PriceChange(ModifiedDuration(WeightedValue(Flows(n, c), r) / PresentValue(Flows(n, c), r), r), deltaRate)
         == Slope(Flows(n, c), r) * deltaRate / PresentValue(Flows(n, c), r)
  {
    ModifiedDurationIsSensitivity(n, c, r);
    var s := Slope(Flows(n, c), r);
    var p := PresentValue(Flows(n, c), r);
    assert -(-s / p) * deltaRate == s * deltaRate / p;
  }

  /** The calculator's report for one bond. */
  datatype Report = Report(
    macaulay: real,       // MD at the bond's coupon
    zeroCoupon: real,     // MD with the coupon set to 0
    couponUp: real,       // MD with the coupon raised by 10%
    couponDown: real,     // MD with the coupon lowered by 10%
    modified: real,       // modified duration
    priceChange: real)    // relative price change for one basis point

  /**
    The calculator's driver for its first bond: n annual periods (the
    maturity year less the offering year), coupon c, yield in percent. Each
    duration is the time-weighted value over the value of its scenario's
    flows at the yield; the zero-coupon duration is the maturity, the coupon scenarios order the
    durations, and a one-basis-point rise in yield lowers the price.
  */
  method Analyse(n: nat, c: real, yieldPercent: real) returns (rep: Report)
    requires n >= 1
    requires c >= 0.0
    requires yieldPercent > -100.0
    ensures PresentValue(Flows(n, c), yieldPercent / 100.0) > 0.0
    ensures PresentValue(Flows(n, 0.0), yieldPercent / 100.0) > 0.0
    ensures PresentValue(Flows(n, c * 1.1), yieldPercent / 100.0) > 0.0
    ensures PresentValue(Flows(n, c * 0.9), yieldPercent / 100.0) > 0.0
    ensures rep.macaulay == WeightedValue(Flows(n, c), yieldPercent / 100.0) / PresentValue(Flows(n, c), yieldPercent / 100.0)
    ensures rep.zeroCoupon == WeightedValue(Flows(n, 0.0), yieldPercent / 100.0) / PresentValue(Flows(n, 0.0), yieldPercent / 100.0)
    ensures rep.couponUp == WeightedValue(Flows(n, c * 1.1), yieldPercent / 100.0) / PresentValue(Flows(n, c * 1.1), yieldPercent / 100.0)
    ensures rep.couponDown == WeightedValue(Flows(n, c * 0.9), yieldPercent / 100.0) / PresentValue(Flows(n, c * 0.9), yieldPercent / 100.0)
    ensures rep.zeroCoupon == n as real
    ensures 1.0 <= rep.macaulay <= n as real
    ensures rep.couponUp <= rep.macaulay <= rep.couponDown <= rep.zeroCoupon
    ensures rep.modified * (1.0 + yieldPercent / 100.0) == rep.macaulay
    ensures rep.priceChange == -rep.modified * BasisPoint
    ensures rep.priceChange < 0.0
  {
    var y := yieldPercent / 100.0;
    var md1, md2, md3, md4 := Scenarios(n, c, y);
    var md5 := ModifiedDuration(md1, y);
    assert md5 > 0.0;
    rep := Report(md1, md2, md3, md4, md5, PriceChange(md5, BasisPoint));
  }

  /**
    The durations of the driver's four coupon scenarios at rate y: the
    bond's coupon, no coupon, the coupon raised by 10% and lowered by 10%.
    Each is the time-weighted value over the value of its flows; they fall
    as the coupon rises, with the zero-coupon duration equal to the maturity.
  */
  method Scenarios(n: nat, c: real, y: real) returns (macaulay: real, zeroCoupon: real, couponUp: real, couponDown: real)
    requires n >= 1
    requires c >= 0.0
    requires y > -1.0
    ensures PresentValue(Flows(n, c), y) > 0.0
    ensures PresentValue(Flows(n, 0.0), y) > 0.0
    ensures PresentValue(Flows(n, c * 1.1), y) > 0.0
    ensures PresentValue(Flows(n, c * 0.9), y) > 0.0
    ensures macaulay == WeightedValue(Flows(n, c), y) / PresentValue(Flows(n, c), y)
    ensures zeroCoupon == WeightedValue(Flows(n, 0.0), y) / PresentValue(Flows(n, 0.0), y)
    ensures couponUp == WeightedValue(Flows(n, c * 1.1), y) / PresentValue(Flows(n, c * 1.1), y)
    ensures couponDown == WeightedValue(Flows(n, c * 0.9), y) / PresentValue(Flows(n, c * 0.9), y)
    ensures zeroCoupon == n as real
    ensures 1.0 <= macaulay <= n as real
    ensures couponUp <= macaulay <= couponDown <= zeroCoupon
  {
    ValuePositive(n, c, y);
    ValuePositive(n, 0.0, y);
    ValuePositive(n, c * 1.1, y);
    ValuePositive(n, c * 0.9, y);
    macaulay := MD(n, c, y);
    zeroCoupon := MD(n, 0.0, y);
    couponUp := MD(n, c * 1.1, y);
    couponDown := MD(n, c * 0.9, y);
    HigherCouponShorterDuration(n, c, c * 1.1, y);
    HigherCouponShorterDuration(n, c * 0.9, c, y);
    HigherCouponShorterDuration(n, 0.0, c * 0.9, y);
  }
}
