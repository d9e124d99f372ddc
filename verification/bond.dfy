/**
  The bond engine: the yield residual of a level-coupon bond, the
  approximate-yield seed and the bracketed yield solve, the accrual fraction
  omega under Actual/Actual and 30/360, and the dirty, accrued and clean
  prices. Coupons are semiannual: a period is half a year, the per-period
  coupon is coupon / 2 and the per-period rate is the annual yield / 2.
*/
module Bond {
  import opened CashFlows
  import opened RootFinding
  import opened Calendar

  const FaceValue: real := 100.0
  const Tolerance: real := 0.000000000001
  /** Half-width of the bracket put around the approximate yield. */
  const Range: real := 0.1

  /** Sum of c / (1 + r)^i for i in 1..k. */
  function CouponSum(c: real, r: real, k: nat): (sum: real)
    requires 1.0 + r != 0.0
    ensures c >= 0.0 && 1.0 + r > 0.0 ==> sum >= 0.0
  {
    if k == 0 then 0.0 else CouponSum(c, r, k - 1) + c / Pow(1.0 + r, k)
  }

  /** f(P, FV, c, n, r): coupons c for n periods and the face value at period
      n, discounted at r, less the price P. */
  function YieldResidual(price: real, fv: real, c: real, n: nat, r: real): (f: real)
    requires 1.0 + r != 0.0
    ensures c >= 0.0 && fv > 0.0 && 1.0 + r > 0.0 ==> f > -price
  {
    CouponSum(c, r, n) + fv / Pow(1.0 + r, n) - price
  }

  lemma {:induction false} CouponSumIsAnnuity(c: real, r: real, k: nat)
    requires 1.0 + r != 0.0
    ensures CouponSum(c, r, k) == c * CouponAnnuity(r, k)
  {
    if k > 0 {
      CouponSumIsAnnuity(c, r, k - 1);
      DiscountIsReciprocalPow(r, k);
      var p := Pow(1.0 + r, k);
      assert c / p == c * (1.0 / p);
    }
  }

  /** The residual is the present value of the bond's schedule of flows, with
      the redemption paid once, in the last period, less the price. */
  lemma YieldResidualIsSchedule(price: real, fv: real, c: real, n: nat, r: real)
    requires 1.0 + r != 0.0
    requires n >= 1
    ensures YieldResidual(price, fv, c, n, r) == PresentValue(Level(c, fv, n), r) - price
  {
    LevelValue(c, fv, n, r);
    CouponSumIsAnnuity(c, r, n);
    DiscountIsReciprocalPow(r, n);
    var p := Pow(1.0 + r, n);
    assert fv / p == fv * (1.0 / p);
  }

  /** At a per-period rate r, coupons r * fv plus the discounted face value
      are worth exactly the face value, whatever the number of periods. */
  lemma {:induction false} ParValue(fv: real, r: real, k: nat)
    requires 1.0 + r != 0.0
    ensures CouponSum(r * fv, r, k) + fv / Pow(1.0 + r, k) == fv
  {
    if k > 0 {
      ParValue(fv, r, k - 1);
      var p := Pow(1.0 + r, k - 1);
      assert Pow(1.0 + r, k) == (1.0 + r) * p;
      ParStep(fv, r, p);
    }
  }

  /** One more period at the par rate: coupon plus face value, discounted one
      period further, is worth the face value discounted one period less. */
  lemma ParStep(fv: real, r: real, p: real)
    requires 1.0 + r != 0.0
    requires p != 0.0
    ensures (r * fv) / ((1.0 + r) * p) + fv / ((1.0 + r) * p) == fv / p
  {
    var b := 1.0 + r;
    assert (r * fv) / (b * p) + fv / (b * p) == (r * fv + fv) / (b * p);
    assert r * fv + fv == b * fv;
    assert (b * fv) / (b * p) == fv / p;
  }

  /** The seed: (C + (FV - P) / N) / ((FV + P) / 2). */
  function ApproxYtm(price: real, fv: real, c: real, n: int): (y: real)
    requires n != 0
    requires fv + price != 0.0
    ensures price == fv ==> y == c / fv
    ensures n > 0 && fv + price > 0.0 && c >= 0.0 && price <= fv ==> y >= 0.0
  {
    (c + (fv - price) / (n as real)) / ((fv + price) / 2.0)
  }

  /** At par the seed is the coupon rate, which is the exact yield: the
      residual vanishes there for every number of periods. */
  lemma ApproxYtmExactAtPar(fv: real, c: real, n: nat)
    requires fv > 0.0
    requires n >= 1
    requires 1.0 + c / fv != 0.0
    ensures ApproxYtm(fv, fv, c, n) == c / fv
    ensures YieldResidual(fv, fv, c, n, ApproxYtm(fv, fv, c, n)) == 0.0
  {
    var r := c / fv;
    assert (fv - fv) / (n as real) == 0.0;
    assert ApproxYtm(fv, fv, c, n) == r;
    assert r * fv == c;
    ParValue(fv, r, n);
    assert CouponSum(r * fv, r, n) == CouponSum(c, r, n);
  }

  /** The residual the yield solve bisects: f(P, 100, coupon/2, n, r). */
  function YtmResidual(n: nat, coupon: real, price: real, r: real): real
    requires 1.0 + r != 0.0
  {
    YieldResidual(price, FaceValue, coupon / 2.0, n, r)
  }

  /** The centre of the yield bracket: the approximate yield per period. */
  function Seed(n: nat, coupon: real, price: real): real
    requires n >= 1
    requires FaceValue + price != 0.0
  {
    ApproxYtm(price, FaceValue, coupon / 2.0, n)
  }

  /**
    The yield per period: bisect f(P, 100, coupon/2, n, .) on the bracket
    [a - 0.1, a + 0.1] around the approximate yield a, to tolerance 1e-12,
    with the early exits and the sign-keeping narrowing of the bisection.
    The driver doubles the result to an annual yield.
  */
  method Ytm(n: nat, coupon: real, price: real) returns (s: Solve)
    requires n >= 1
    requires FaceValue + price != 0.0
    requires Seed(n, coupon, price) - Range > -1.0
    ensures YtmResidual(n, coupon, price, Seed(n, coupon, price) - Range) == 0.0 ==>
              s == Converged(Seed(n, coupon, price) - Range)
    ensures YtmResidual(n, coupon, price, Seed(n, coupon, price) - Range) != 0.0 &&
            YtmResidual(n, coupon, price, Seed(n, coupon, price) + Range) == 0.0 ==>
              s == Converged(Seed(n, coupon, price) + Range)
    ensures YtmResidual(n, coupon, price, Seed(n, coupon, price) - Range) != 0.0 &&
            YtmResidual(n, coupon, price, Seed(n, coupon, price) + Range) != 0.0 ==>
              (s == NoBracket <==>
                 YtmResidual(n, coupon, price, Seed(n, coupon, price) - Range)
                 * YtmResidual(n, coupon, price, Seed(n, coupon, price) + Range) > 0.0)
    ensures s == NoBracket || s.Converged?
    ensures s.Converged? ==> Seed(n, coupon, price) - Range <= s.rate <= Seed(n, coupon, price) + Range
    ensures s.Converged? && YtmResidual(n, coupon, price, s.rate) != 0.0 ==>
              SameSign(YtmResidual(n, coupon, price, s.rate), YtmResidual(n, coupon, price, Seed(n, coupon, price) + Range))
    ensures s.Converged? && YtmResidual(n, coupon, price, s.rate) != 0.0 ==>
              exists t :: Seed(n, coupon, price) - Range <= t < s.rate && s.rate - t < Tolerance &&
                          OppositeSigns(YtmResidual(n, coupon, price, t), YtmResidual(n, coupon, price, s.rate)) &&
                          SameSign(YtmResidual(n, coupon, price, t), YtmResidual(n, coupon, price, Seed(n, coupon, price) - Range))
  {
    var a := Seed(n, coupon, price);
    var f := (r: real) requires 1.0 + r != 0.0 => YtmResidual(n, coupon, price, r);
    s := Bisect(f, a - Range, a + Range, Tolerance);
    if s.Converged? && f(s.rate) != 0.0 {
      var t :| a - Range <= t < s.rate && s.rate - t < Tolerance && OppositeSigns(f(t), f(s.rate)) && SameSign(f(t), f(a - Range));
      assert OppositeSigns(YtmResidual(n, coupon, price, t), YtmResidual(n, coupon, price, s.rate));
      assert SameSign(YtmResidual(n, coupon, price, t), YtmResidual(n, coupon, price, a - Range));
    }
  }

  /** Actual/Actual omega: the share of the coupon period, `period` days long,
      still to run after `settle` days. */
  function OmegaActual(settle: int, period: real): (w: real)
    requires period != 0.0
    ensures settle == 0 ==> w == 1.0
    ensures 0.0 < period && 0 <= settle && settle as real <= period ==> 0.0 <= w <= 1.0
    ensures w * period + settle as real == period
  {
    (period - settle as real) / period
  }

  /** 30/360 omega: the share of a 180-day period still to run. */
  function Omega30360(settle: int): (w: real)
    ensures settle == 0 ==> w == 1.0
    ensures 0 <= settle <= 180 ==> 0.0 <= w <= 1.0
    ensures 180.0 * w + settle as real == 180.0
  {
    (180.0 - settle as real) / 180.0
  }

  /**
    Fractional powers are not computed by the model: `pow` stands for the
    library power function, taken to be positive on the base and to agree
    with integer powers at natural exponents.
  */
  ghost predicate IsPowerFor(pow: (real, real) -> real, b: real)
  {
    && b > 0.0
    && (forall e: real :: pow(b, e) > 0.0)
    && (forall k: nat :: pow(b, k as real) == Pow(b, k))
  }

  /** Sum of c / b^(j + omega) for j in 0..k-1. */
  function CouponTerms(pow: (real, real) -> real, b: real, omega: real, c: real, k: nat): (t: real)
    requires IsPowerFor(pow, b)
    ensures c >= 0.0 ==> t >= 0.0
  {
    if k == 0 then 0.0 else CouponTerms(pow, b, omega, c, k - 1) + c / pow(b, (k - 1) as real + omega)
  }

  /** Dirty price at annual yield y: the coupons coupon/2 at exponents j + omega
      for j in 0..n-1, and the face value 100 at exponent n - 1 + omega. */
  function DirtyPrice(pow: (real, real) -> real, y: real, omega: real, coupon: real, n: nat): (p: real)
    requires IsPowerFor(pow, 1.0 + y / 2.0)
    ensures coupon >= 0.0 ==> p > 0.0
  {
    var b := 1.0 + y / 2.0;
    CouponTerms(pow, b, omega, coupon / 2.0, n) + FaceValue / pow(b, (n as real) - 1.0 + omega)
  }

  /** Dirty, accrued and clean price under one day-count convention. */
  datatype Quote = Quote(dirty: real, accrued: real, clean: real)

  /**
    Settlement prices at annual yield y and accrual fraction omega: the
    accrued interest is the coupon's elapsed share coupon/2 * (1 - omega) and
    the clean price is the dirty price less it.
  */
  function Settlement(pow: (real, real) -> real, y: real, omega: real, coupon: real, n: nat): (q: Quote)
    requires IsPowerFor(pow, 1.0 + y / 2.0)
    ensures q.clean + q.accrued == q.dirty
    ensures q.accrued + coupon / 2.0 * omega == coupon / 2.0
    ensures 0.0 <= omega <= 1.0 && coupon >= 0.0 ==> 0.0 <= q.accrued <= coupon / 2.0
    ensures omega == 1.0 ==> q.accrued == 0.0 && q.clean == q.dirty
    ensures omega == 1.0 ==> q.dirty == YieldResidual(0.0, FaceValue, coupon / 2.0, n, y / 2.0)
  {
    var dirty := DirtyPrice(pow, y, omega, coupon, n);
    var accrued := coupon / 2.0 * (1.0 - omega);
    AccruedShare(coupon, omega);
    DirtyPriceAtCouponDate(pow, y, coupon, n);
    Quote(dirty, accrued, dirty - accrued)
  }

  /** Within the period the accrued share of a non-negative coupon is
      between nothing and the whole coupon. */
  lemma AccruedShare(coupon: real, omega: real)
    ensures 0.0 <= omega <= 1.0 && coupon >= 0.0 ==> 0.0 <= coupon / 2.0 * (1.0 - omega) <= coupon / 2.0
  {
    if 0.0 <= omega <= 1.0 && coupon >= 0.0 {
      assert coupon / 2.0 * omega >= 0.0;
    }
  }

  lemma {:induction false} CouponTermsAtCouponDate(pow: (real, real) -> real, b: real, c: real, k: nat)
    requires IsPowerFor(pow, b)
    ensures CouponTerms(pow, b, 1.0, c, k) == CouponSum(c, b - 1.0, k)
  {
    if k > 0 {
      CouponTermsAtCouponDate(pow, b, c, k - 1);
      assert (k - 1) as real + 1.0 == k as real;
      assert pow(b, k as real) == Pow(b, k);
    }
  }

  /** On a coupon date (omega = 1) the dirty price is the yield residual at
      price 0: the exponents j + 1 and n are the integer periods 1..n. */
  lemma DirtyPriceAtCouponDate(pow: (real, real) -> real, y: real, coupon: real, n: nat)
    requires IsPowerFor(pow, 1.0 + y / 2.0)
    ensures DirtyPrice(pow, y, 1.0, coupon, n) == YieldResidual(0.0, FaceValue, coupon / 2.0, n, y / 2.0)
  {
    var b := 1.0 + y / 2.0;
    CouponTermsAtCouponDate(pow, b, coupon / 2.0, n);
    assert (n as real) - 1.0 + 1.0 == n as real;
    assert pow(b, n as real) == Pow(b, n);
  }

  /** On a coupon date, pricing at twice a per-period rate that zeroes the
      yield residual at price P gives back P, dirty and clean. */
  lemma PricesAtYield(pow: (real, real) -> real, rate: real, coupon: real, n: nat, price: real)
    requires IsPowerFor(pow, 1.0 + rate)
    requires YtmResidual(n, coupon, price, rate) == 0.0
    ensures Settlement(pow, 2.0 * rate, 1.0, coupon, n).dirty == price
    ensures Settlement(pow, 2.0 * rate, 1.0, coupon, n).clean == price
  {
    assert (2.0 * rate) / 2.0 == rate;
  }

  /** The quotient of two positive counts, as a real. */
  function PositiveRatio(a: int, b: int): (q: real)
    requires a > 0 && b > 0
    ensures q > 0.0
  {
    a as real / b as real
  }

  /** One bond of the input table: dates as (year, month, day) triples. */
  datatype BondRecord = BondRecord(
    maturity: Date,
    offering: Date,
    offeringPrice: real,
    offeringYield: real,
    delivery: Date,
    coupon: real)

  /** The calendar quantities the driver derives for one bond. */
  datatype Accrual = Accrual(
    halfYears: int,       // coupon periods from offering to maturity
    settleDays: nat,      // actual days from offering to delivery
    totalDays: nat,       // actual days from offering to maturity
    omegaActual: real,
    days30360: int,       // 30/360 days from offering to maturity, after borrows
    settle30360: int,     // 30/360 days from offering to delivery
    omega30360: real)

  /**
    The calendar half of the driver's loop for one bond: the borrowed
    maturity-minus-offering span and its period count, the two day-by-day
    walks, the Actual/Actual period length totalDays / halfYears and both
    accrual fractions. Both walks must end, so delivery and maturity may not
    precede the offering date; the period count must be positive, or the
    period length divides by zero.
  */
  method AccrualOf(rec: BondRecord) returns (a: Accrual)
    requires ValidDate(rec.maturity) && ValidDate(rec.offering) && ValidDate(rec.delivery)
    requires !Before(rec.delivery, rec.offering)
    requires !Before(rec.maturity, rec.offering)
    requires TotalMonths(BorrowedSpan(rec.maturity, rec.offering)) > 0
    ensures a.halfYears == HalfYears(TotalMonths(BorrowedSpan(rec.maturity, rec.offering)))
    ensures a.halfYears >= 1
    ensures 6 * (a.halfYears - 1) < TotalMonths(BorrowedSpan(rec.maturity, rec.offering)) <= 6 * a.halfYears
    ensures a.settleDays == Ordinal(rec.delivery) - Ordinal(rec.offering)
    ensures a.totalDays == Ordinal(rec.maturity) - Ordinal(rec.offering)
    ensures a.days30360 == Days30360(rec.maturity, rec.offering)
    ensures a.settle30360 == Days30360(rec.delivery, rec.offering)
    ensures a.totalDays > 0
    ensures a.omegaActual == OmegaActual(a.settleDays, PositiveRatio(a.totalDays, a.halfYears))
    ensures a.omega30360 == Omega30360(a.settle30360)
    ensures rec.delivery == rec.offering ==> a.omegaActual == 1.0 && a.omega30360 == 1.0
  {
    var span := BorrowedSpan(rec.maturity, rec.offering);
    var halfYears := HalfYears(TotalMonths(span));
    var settle := DaysBetween(rec.offering, rec.delivery);
    var total := DaysBetween(rec.offering, rec.maturity);
    if total == 0 {
      OrdinalInjective(rec.offering, rec.maturity);
    }
    assert halfYears >= 1;
    assert total > 0;
    var period := PositiveRatio(total, halfYears);
    var omegaActual := OmegaActual(settle, period);
    var settle30360 := Days30360(rec.delivery, rec.offering);
    var omega30360 := Omega30360(settle30360);
    if rec.delivery == rec.offering {
      assert settle == 0 && settle30360 == 0;
    }
    a := Accrual(halfYears, settle, total, omegaActual, SpanDays(span), settle30360, omega30360);
  }

  /** The residuals at the two ends of the yield bracket around the seed
      have one strict sign, so the solve reports no bracket. */
  predicate NoYieldBracket(n: nat, coupon: real, price: real)
    requires n >= 1
    requires FaceValue + price != 0.0
    requires Seed(n, coupon, price) - Range > -1.0
  {
    YtmResidual(n, coupon, price, Seed(n, coupon, price) - Range)
    * YtmResidual(n, coupon, price, Seed(n, coupon, price) + Range) > 0.0
  }

  /** What the yield solve promises of a per-period rate it converges to:
      the rate lies in the bracket around the seed; it is the lower end when
      the residual vanishes there, and else the upper end when it vanishes
      there; and unless the residual vanishes at the rate, the residual has
      the upper end's sign at the rate and the lower end's sign at a point
      less than the tolerance below it. */
  ghost predicate BracketedYield(n: nat, coupon: real, price: real, rate: real)
    requires n >= 1
    requires FaceValue + price != 0.0
    requires Seed(n, coupon, price) - Range > -1.0
  {
    var lo := Seed(n, coupon, price) - Range;
    var hi := Seed(n, coupon, price) + Range;
    && lo <= rate <= hi
    && (YtmResidual(n, coupon, price, lo) == 0.0 ==> rate == lo)
    && (YtmResidual(n, coupon, price, lo) != 0.0 && YtmResidual(n, coupon, price, hi) == 0.0 ==> rate == hi)
    && (YtmResidual(n, coupon, price, rate) != 0.0 ==>
          && SameSign(YtmResidual(n, coupon, price, rate), YtmResidual(n, coupon, price, hi))
          && exists t :: lo <= t < rate && rate - t < Tolerance
                         && OppositeSigns(YtmResidual(n, coupon, price, t), YtmResidual(n, coupon, price, rate))
                         && SameSign(YtmResidual(n, coupon, price, t), YtmResidual(n, coupon, price, lo)))
  }

  /** Every positive base has a power that agrees with integer powers. */
  ghost predicate IsPower(pow: (real, real) -> real)
  {
    forall b: real :: b > 0.0 ==> IsPowerFor(pow, b)
  }

  /** The yield and settlement quotes the driver prints for one bond. */
  datatype Pricing =
    | Priced(annualYield: real, actual: Quote, thirty: Quote)
    | Unpriced   // the yield solve found no bracket

  /**
    The yield half of the driver's loop body: the yield per period over n
    coupon periods, doubled to an annual yield, and the dirty, accrued and
    clean prices at that yield for the Actual/Actual and 30/360 accrual
    fractions.
  */
  method QuotesAtYield(pow: (real, real) -> real, n: nat, coupon: real, price: real,
                       omegaActual: real, omega30360: real) returns (p: Pricing)
    requires IsPower(pow)
    requires n >= 1
    requires FaceValue + price != 0.0
    requires Seed(n, coupon, price) - Range > -1.0
    ensures p.Unpriced? <==> NoYieldBracket(n, coupon, price)
    ensures p.Priced? ==> Seed(n, coupon, price) - Range <= p.annualYield / 2.0 <= Seed(n, coupon, price) + Range
    ensures p.Priced? ==> BracketedYield(n, coupon, price, p.annualYield / 2.0)
    ensures p.Priced? ==> p.actual == Settlement(pow, p.annualYield, omegaActual, coupon, n)
    ensures p.Priced? ==> p.thirty == Settlement(pow, p.annualYield, omega30360, coupon, n)
    ensures p.Priced? ==> p.actual.clean + p.actual.accrued == p.actual.dirty
    ensures p.Priced? ==> p.thirty.clean + p.thirty.accrued == p.thirty.dirty
    ensures p.Priced? ==> p.actual.accrued + coupon / 2.0 * omegaActual == coupon / 2.0
    ensures p.Priced? ==> p.thirty.accrued + coupon / 2.0 * omega30360 == coupon / 2.0
    ensures p.Priced? && omegaActual == 1.0 && YtmResidual(n, coupon, price, p.annualYield / 2.0) == 0.0 ==>
              p.actual.dirty == price && p.actual.clean == price
    ensures p.Priced? && omega30360 == 1.0 && YtmResidual(n, coupon, price, p.annualYield / 2.0) == 0.0 ==>
              p.thirty.dirty == price && p.thirty.clean == price
  {
    var s := Ytm(n, coupon, price);
    if s.NoBracket? {
      assert NoYieldBracket(n, coupon, price);
      return Unpriced;
    }
    var y := 2.0 * s.rate;
    assert y / 2.0 == s.rate;
    assert IsPowerFor(pow, 1.0 + y / 2.0);
    var actual := Settlement(pow, y, omegaActual, coupon, n);
    var thirty := Settlement(pow, y, omega30360, coupon, n);
    if YtmResidual(n, coupon, price, s.rate) == 0.0 {
      PricesAtYield(pow, s.rate, coupon, n, price);
    }
    p := Priced(y, actual, thirty);
  }

  /**
    The driver's loop body for one bond: the calendar quantities, then the
    yield and the settlement quotes at the two accrual fractions. On a
    coupon date, a yield whose residual vanishes prices the bond at its
    offering price under both conventions.
  */
  method PriceBond(pow: (real, real) -> real, rec: BondRecord) returns (a: Accrual, p: Pricing)
    requires IsPower(pow)
    requires ValidDate(rec.maturity) && ValidDate(rec.offering) && ValidDate(rec.delivery)
    requires !Before(rec.delivery, rec.offering)
    requires !Before(rec.maturity, rec.offering)
    requires TotalMonths(BorrowedSpan(rec.maturity, rec.offering)) > 0
    requires FaceValue + rec.offeringPrice != 0.0
    requires Seed(HalfYears(TotalMonths(BorrowedSpan(rec.maturity, rec.offering))), rec.coupon, rec.offeringPrice) - Range > -1.0
    ensures a.halfYears == HalfYears(TotalMonths(BorrowedSpan(rec.maturity, rec.offering)))
    ensures p.Unpriced? <==> NoYieldBracket(a.halfYears, rec.coupon, rec.offeringPrice)
    ensures a.halfYears >= 1
    ensures a.settleDays == Ordinal(rec.delivery) - Ordinal(rec.offering)
    ensures a.totalDays == Ordinal(rec.maturity) - Ordinal(rec.offering)
    ensures a.totalDays > 0
    ensures a.settle30360 == Days30360(rec.delivery, rec.offering)
    ensures a.omegaActual == OmegaActual(a.settleDays, PositiveRatio(a.totalDays, a.halfYears))
    ensures a.omega30360 == Omega30360(a.settle30360)
    ensures p.Priced? ==> p.annualYield / 2.0 > -1.0
    ensures p.Priced? ==> BracketedYield(a.halfYears, rec.coupon, rec.offeringPrice, p.annualYield / 2.0)
    ensures p.Priced? ==> p.actual == Settlement(pow, p.annualYield, a.omegaActual, rec.coupon, a.halfYears)
    ensures p.Priced? ==> p.thirty == Settlement(pow, p.annualYield, a.omega30360, rec.coupon, a.halfYears)
    ensures p.Priced? && rec.delivery == rec.offering
            && YtmResidual(a.halfYears, rec.coupon, rec.offeringPrice, p.annualYield / 2.0) == 0.0 ==>
              && p.actual.dirty == rec.offeringPrice && p.actual.clean == rec.offeringPrice
              && p.thirty.dirty == rec.offeringPrice && p.thirty.clean == rec.offeringPrice
  {
    a := AccrualOf(rec);
    p := QuotesAtYield(pow, a.halfYears, rec.coupon, rec.offeringPrice, a.omegaActual, a.omega30360);
  }
}
