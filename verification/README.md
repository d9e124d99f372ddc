# Fixed-income and option-arbitrage calculators, modelled in Dafny

This project models the computational core of a set of C++ coursework
programs on fixed income and derivatives. Everything is in exact real
arithmetic.

- **IRR solver** (`hw1`). The residual `f(r)` is the cash flows discounted
  at `r`, less the price; its discount factor comes from repeated division
  by `1 + r`. The IRR is found by bisection on a bracket, or by Newton's
  method from a seed.
- **Bond engine** (`hw2`). It provides:
  - the Gregorian leap-year rule and the day-by-day date walk behind the
    Actual/Actual day count;
  - the borrow-normalised year/month/day difference behind 30/360;
  - the number of semiannual coupon periods;
  - the approximate yield and the bracketed yield-to-maturity solve;
  - the accrual fraction omega under both conventions;
  - the dirty, accrued and clean prices;
  - the per-bond run that doubles the per-period yield into the annual
    yield it prices at.
- **Duration calculator** (`hw3`). It computes Macaulay duration with the
  redemption of 100 added in the last period, modified duration, and the
  first-order price change for a one-basis-point move in yield.
- **Option arbitrage scanner** (`hw10/claude.cpp`). It provides:
  - the transaction-cost formula;
  - the put-call parity and put-call-futures parity rules;
  - the pairing of the first call and first put quoted at each strike;
  - the scan over strikes in increasing order. The strike scale is a
    parameter: the program as written divides the strike field by 100000
    (`Arbitrage.WrittenStrikeScale`), and the corrected reading divides it
    by 1000 (`Arbitrage.StrikeScale`; see Findings);
  - the selection of the most profitable opportunity per strike;
  - the listing of the positive ones;
  - the filter that decides which option records are scanned.
- **Quoted-field splitter** (`hw10/111511141.cpp`). It splits lines of
  double-quoted, comma-separated fields such as
  `"11/03/2020","3,369.20","3,336.20"`. That file's `transaction_cost`
  (lines 36-39) is the same formula as the scanner's
  `calculateTransactionCost`, and `Arbitrage.TransactionCost` models both.

The Dafny modules follow that structure:

| module | file | models |
|---|---|---|
| `CashFlows` | cash_flows.dfy | integer powers, discount factors, present / time-weighted / derivative sums, level-coupon schedules |
| `RootFinding` | root_finding.dfy | the solver outcome type and the bisection shared by `hw1` and `hw2` |
| `Irr` | irr.dfy | `hw1`: `f`, `bisection`, `newton` and the driver's inputs |
| `Calendar` | calendar.dfy | `hw2`: leap years, the one-day step and the walk, 30/360 differences, half-years |
| `Bond` | bond.dfy | `hw2`: yield residual, approximate yield, YTM, omega, dirty / accrued / clean price |
| `Duration` | duration.dfy | `hw3`: `MD`, modified duration, price change |
| `Arbitrage` | arbitrage.dfy | `hw10/claude.cpp`: cost, parity scans, pairing, best per strike, listing |
| `QuotedFields` | quoted_fields.dfy | `hw10/111511141.cpp`: the quoted-field splitter and its inverse |
| `Wrappers` | wrappers.dfy | `Option` |

The C++ solvers return a `double` and signal every failure with `-1`. The
model returns a `Solve` outcome instead:

- `Converged(rate)`;
- `NoBracket`;
- `ZeroDerivative`;
- `NoConvergence`;
- `Singular`.

`RootFinding.Sentinel` gives the double the program prints for three of
these outcomes: the rate for `Converged`, and `-1` for `NoBracket` and for
`ZeroDerivative`. The other two have no printed counterpart:

- `Singular` is an iterate at `r = -1`. There the source divides by zero,
  its f and f' become infinite or NaN, and the next iterate is NaN.
  `fabs(NaN) >= error` is false, so the loop returns NaN.
- `NoConvergence` marks the model's iteration bound running out. The source
  has no iteration cap and never returns.

For the `hw1` driver's data:

- `f(0) = 2`, `f(0.015) < 0` and `f(0.03) > 0`
  (`Irr.DriverBracketSigns`), so both of its brackets `[0, 0.015]` and
  `[0.015, 0.03]` straddle a root, and both bisections converge
  (`Irr.DriverBisections`).
- The exact roots are the rates with discount factors 0.99 and 0.98, about
  1.0101% and 2.0408% (`Irr.DriverRoots`).
- `f'` vanishes at `1/0.985 - 1`, about 1.52% (`Irr.DriverStationaryPoint`).
  That is the seed the driver's comment notes as giving `f'(r) = 0`.

## Model

| member | source | states |
|---|---|---|
| CashFlows.Pow | hw3/HW3-111511141.cpp:32 | a power of a non-zero base is non-zero, and of a positive base positive |
| CashFlows.DiscountIsReciprocalPow | hw1/hw1_111511141.cpp:9-12 | dividing 1 by `1 + r` i times leaves exactly `1 / (1 + r)^i` |
| CashFlows.DiscountPositive | hw1/hw1_111511141.cpp:9-12 | under a rate above -1 every discount factor is positive |
| CashFlows.SlopeIsDiscountedWeight | hw1/hw1_111511141.cpp:61 | Newton's derivative sum times `(1 + r)` is minus the time-weighted present value, i.e. the derivative of the present value |
| CashFlows.PresentValueIsPowerSum | hw1/hw1_111511141.cpp:8-14 | discounting by repeated division gives the same sum as dividing each flow by `(1 + r)^i` |
| CashFlows.Level | hw3/HW3-111511141.cpp:30-39 | a level bond's schedule has n flows, each the coupon, with the redemption added to the last only |
| CashFlows.LevelPrefixValue | hw3/HW3-111511141.cpp:33-34 | before the last period the two sums hold coupons only: coupon times the annuity and the weighted annuity |
| CashFlows.LevelValue | hw3/HW3-111511141.cpp:30-39 | the whole schedule's value is coupon annuity plus discounted redemption counted once at period n; likewise for the weighted value with weight n |
| RootFinding.HalvingLowersFloor | hw1/hw1_111511141.cpp:34-47 | each halving of a width of at least one tolerance lowers the whole number of tolerances it spans, so the bisection loop ends |
| RootFinding.Bisect | hw1/hw1_111511141.cpp:19-49 | an exact zero at low, else at high, is returned; no bracket exactly when the end values are of one sign; otherwise a rate in the bracket where f has f(high)'s sign, within one tolerance above a point where f has f(low)'s sign, though the loop only ever compares with the original f(low) |
| Irr.ResidualByDivision | hw1/hw1_111511141.cpp:5-17 | the nested division loop computes the present value less the price, equal to the power-sum form |
| Irr.Bisection | hw1/hw1_111511141.cpp:19-49 | the IRR bisection on f has the early exits and the no-bracket test; a converged rate has f(high)'s sign and lies within one tolerance above a point with f(low)'s sign |
| Irr.Newton | hw1/hw1_111511141.cpp:51-76 | each step before the last updated r with f and f' defined, f' non-zero and abs f at or above the tolerance; ZeroDerivative leaves r where f' is zero; on convergence the returned rate is one step past the iterate whose abs f was below the tolerance |
| Irr.DriverResidual | hw1/hw1_111511141.cpp:79-80 | the driver's f is the quadratic `10000 v^2 - 19700 v + 9702` in the discount factor v |
| Irr.DriverBracketSigns | hw1/hw1_111511141.cpp:85-93 | f is 2 at 0, negative at 0.015 and positive at 0.03 |
| Irr.DriverRoots | hw1/hw1_111511141.cpp:79-80 | the driver's f vanishes at discount factors 0.99 and 0.98 |
| Irr.DriverStationaryPoint | hw1/hw1_111511141.cpp:112 | f' vanishes at the rate with discount factor 0.985 (about 0.0152284) |
| Irr.DriverBisections | hw1/hw1_111511141.cpp:84-98 | both of the driver's bisections converge, each to a rate inside its own bracket |
| Irr.DriverStationarySeed | hw1/hw1_111511141.cpp:111-116 | Newton seeded at the stationary point stops at once with ZeroDerivative, printed as -1 |
| Calendar.IsLeapYear | hw2/HW2-111511141.cpp:18-29 | the nested tests give exactly the Gregorian rule: divisible by 4, and not by 100 unless by 400 |
| Calendar.NextDay | hw2/HW2-111511141.cpp:250-264 | from a valid date the step reaches a valid, later date; 31 December rolls to 1 January; 28 February goes to the 29th exactly in leap years |
| Calendar.DaysBeforeMonth | hw2/HW2-111511141.cpp:15 | the days before month m lie between 28 and 31 per earlier month |
| Calendar.Advance | hw2/HW2-111511141.cpp:247-265 | k steps of the walk reach a valid date whose day number is k more |
| Calendar.NextDayOrdinal | hw2/HW2-111511141.cpp:250-264 | the one-day step raises the day number by exactly one, across month and year ends |
| Calendar.OrdinalMonotone | hw2/HW2-111511141.cpp:247-249 | day numbers follow the calendar order of (year, month, day) |
| Calendar.OrdinalInjective | hw2/HW2-111511141.cpp:247-249 | distinct valid dates have distinct day numbers, so the walk's equality test is a day-number test |
| Calendar.DaysBetween | hw2/HW2-111511141.cpp:245-265 | the walk counts the difference of day numbers, ends at the target and meets it at no earlier step |
| Calendar.WalkNeverReachesEarlier | hw2/HW2-111511141.cpp:247-265 | started after its target, the walk never meets it (the program does not terminate) |
| Calendar.BorrowedSpan | hw2/HW2-111511141.cpp:216-226 | the borrows keep the 30/360 day count of the raw field differences, and leave days in 0..30 and months in -1..11 for valid dates |
| Calendar.HalfYears | hw2/HW2-111511141.cpp:227-231 | for non-negative month counts the ceiling of months over 6; for negative ones, truncating division plus one on a remainder |
| Bond.CouponSum | hw2/HW2-111511141.cpp:48-50 | the discounted coupons of a non-negative coupon at a rate above -1 sum to at least zero |
| Bond.YieldResidual | hw2/HW2-111511141.cpp:46-54 | with a non-negative coupon, a positive face value and a rate above -1, the bond is worth more than nothing, so the residual exceeds minus the price |
| Bond.CouponSumIsAnnuity | hw2/HW2-111511141.cpp:48-50 | the coupon loop's sum is the coupon times the annuity of discount factors |
| Bond.YieldResidualIsSchedule | hw2/HW2-111511141.cpp:46-54 | the bond residual is the present value of the level schedule, redemption paid once at period n, less the price |
| Bond.ParValue | hw2/HW2-111511141.cpp:46-54 | at a rate equal to coupon over face value, the bond is worth its face value for any number of periods |
| Bond.ApproxYtm | hw2/HW2-111511141.cpp:112-115 | at a price equal to face value the estimate is the coupon rate; at or below par with a non-negative coupon and positive periods it is non-negative |
| Bond.ApproxYtmExactAtPar | hw2/HW2-111511141.cpp:112-115 | at a price equal to face value the approximate yield is the coupon rate, and it zeroes the residual exactly |
| Bond.Ytm | hw2/HW2-111511141.cpp:118-131 | bisection of f(P, 100, coupon/2, n, .) on the approximate yield plus or minus 0.1, with tolerance 1e-12: early exits, no-bracket test, a rate in the bracket with the upper end's residual sign, within one tolerance above a point with the lower end's sign |
| Bond.OmegaActual | hw2/HW2-111511141.cpp:289-292 | omega times the period length plus the settle days is the period length; omega is 1 with no settle days and in 0..1 within the period |
| Bond.Omega30360 | hw2/HW2-111511141.cpp:315-321 | 180 omega plus the 30/360 settle days is 180; 1 with no settle days, in 0..1 within 180 days |
| Bond.CouponTerms | hw2/HW2-111511141.cpp:297-298 | the fractional-exponent coupon terms of a non-negative coupon sum to at least zero |
| Bond.DirtyPrice | hw2/HW2-111511141.cpp:296-300 | the dirty price of a bond with a non-negative coupon is positive |
| Bond.AccruedShare | hw2/HW2-111511141.cpp:304 | within the period the accrued interest of a non-negative coupon lies between nothing and the whole coupon |
| Bond.CouponTermsAtCouponDate | hw2/HW2-111511141.cpp:297-299 | with omega = 1 the fractional-exponent coupon terms are the integer-period coupon sum |
| Bond.DirtyPriceAtCouponDate | hw2/HW2-111511141.cpp:296-300 | on a coupon date the dirty price is the bond residual at price 0 (exponents j + 1 and n - 1 + 1) |
| Bond.Settlement | hw2/HW2-111511141.cpp:296-305 | clean plus accrued is dirty; accrued plus coupon/2 times omega is coupon/2; accrued is within 0..coupon/2; at omega = 1 clean is dirty and dirty is the plain present value |
| Bond.AccrualOf | hw2/HW2-111511141.cpp:216-321 | the derived quantities: half-years the ceiling of the borrowed months over 6, both walks' day counts as day-number differences, a positive period, omegas from the two conventions, both 1 when delivery is the offering date |
| Bond.PricesAtYield | hw2/HW2-111511141.cpp:233-234 | on a coupon date, at the annual yield twice a per-period rate that zeroes the residual, the dirty and clean prices are the offering price |
| Bond.QuotesAtYield | hw2/HW2-111511141.cpp:233-234 | no pricing exactly when the yield bracket has one sign at both ends; otherwise the annual yield is twice a rate the yield solve can return (`BracketedYield`: in the bracket, the bracket's end on an early exit, the upper end's residual sign and a point within tolerance below with the lower end's); each convention's quote is the settlement at that yield and its omega (dirty at fractional exponents, accrued share, clean as dirty less accrued); at omega 1 with a zero residual dirty and clean are the offering price |
| Bond.PriceBond | hw2/HW2-111511141.cpp:227-330 | per bond: the half-years, day counts and both omegas are the calendar definitions; no pricing exactly when the yield bracket fails; otherwise the yield is one the solve can return and each quote is the settlement at it and its convention's omega; a bond delivered on its offering date at a yield that zeroes the residual is priced at its offering price under both conventions |
| Duration.MDStep | hw3/HW3-111511141.cpp:33-38 | one pass adds coupon times discount to the value and i times it to the duration, plus the redemption terms in period n only |
| Duration.PowerDiscount | hw3/HW3-111511141.cpp:31-32 | `1 / (1 + r)^i` is the repeated-division discount factor |
| Duration.DiscountedSums | hw3/HW3-111511141.cpp:30-39 | the loop computes the present value and the time-weighted present value of the level schedule |
| Duration.MD | hw3/HW3-111511141.cpp:25-43 | MD is weighted value over value; with no coupon it is exactly n; for a non-negative coupon and rate above -1 it lies in 1..n |
| Duration.WeightBetweenOneAndK | hw3/HW3-111511141.cpp:33-34 | for non-negative flows the weighted sum over k periods lies between the plain sum and k times it |
| Duration.ZeroCouponDuration | hw3/HW3-111511141.cpp:115-117 | a zero-coupon bond's duration is its maturity |
| Duration.DurationBounds | hw3/HW3-111511141.cpp:41-42 | the duration lies between the first and the last period |
| Duration.ValuePositive | hw3/HW3-111511141.cpp:41 | for n >= 1, coupon >= 0 and rate > -1 the divisor of MD is positive |
| Duration.HigherCouponShorterDuration | hw3/HW3-111511141.cpp:121-131 | a higher coupon never lengthens the duration, ordering the 10% up and down scenarios |
| Duration.DurationRatioOrder | hw3/HW3-111511141.cpp:121-131 | the closed-form duration (c w + n f)/(c a + f) falls as the coupon c grows |
| Duration.ModifiedDuration | hw3/HW3-111511141.cpp:135 | modified duration times (1 + y) is the Macaulay duration, positive with it |
| Duration.ModifiedDurationIsSensitivity | hw3/HW3-111511141.cpp:133-136 | MD over (1 + y) equals minus the derivative of the bond value over the value |
| Duration.PriceChangeIsTangent | hw3/HW3-111511141.cpp:138-144 | `-modified * delta_r` is the relative price change the value's derivative predicts |
| Duration.Analyse | hw3/HW3-111511141.cpp:108-145 | each of the four durations is the time-weighted value over the positive value of its scenario's flows at y = yield/100; zero-coupon duration is n; MD lies in 1..n; coupon-up <= MD <= coupon-down <= zero-coupon; modified times (1 + y) is MD; a one-basis-point rise lowers the price |
| Duration.Scenarios | hw3/HW3-111511141.cpp:108-145 | the four coupon scenarios' durations are each weighted value over positive value of their flows, fall as the coupon rises, and the zero-coupon one is n |
| Arbitrage.TransactionCost | hw10/claude.cpp:61-66 | the cost of non-negative trade counts is non-negative |
| Arbitrage.TransactionCostAdditive | hw10/111511141.cpp:36-39 | the cost of a combined trade is the sum of its parts' costs |
| Arbitrage.StrategyCosts | hw10/claude.cpp:86-143 | index strategies cost $201 and futures strategies $450 |
| Arbitrage.Record | hw10/claude.cpp:90-103 | an opportunity is recorded exactly when the gap in points exceeds cost over 100; its profit, gap times 100 less cost, is then positive |
| Arbitrage.ScanPutCallParity | hw10/claude.cpp:68-124 | nothing unless strikes agree; long-call exactly when parity (K = strike field / scale) minus the low side exceeds 2.01, short-call exactly when the high side minus parity does; recorded at K, profit positive and equal to gap times 100 less $201 |
| Arbitrage.ScanPutCallFuturesParity | hw10/claude.cpp:126-175 | nothing unless strikes agree and a future is quoted; long-call exactly when the high side exceeds futures parity (K = strike field / scale) by more than 4.5, short-call exactly when the low side falls 4.5 short; recorded at K |
| Arbitrage.FirstWithFlag | hw10/claude.cpp:327-335 | nothing found exactly when no quote has the flag; otherwise the position of a quote with the flag and none before it |
| Arbitrage.PairCallPut | hw10/claude.cpp:323-335 | the pairing loop picks the first call and the first put of a strike's quotes |
| Arbitrage.FirstWithFlagExtend | hw10/claude.cpp:327-335 | one more quote changes the first match only if none was found yet and the quote carries the flag |
| Arbitrage.FirstCall | hw10/claude.cpp:327-330 | the call the pairing loop keeps is a call of the group |
| Arbitrage.FirstPut | hw10/claude.cpp:331-333 | the put the pairing loop keeps is a put of the group |
| Arbitrage.RetainOptions | hw10/claude.cpp:293-297 | exactly the European options with positive bid and offer are kept |
| Arbitrage.RetainLineByLine | hw10/claude.cpp:267-303 | filtering two record runs back to back is filtering each, in order |
| Arbitrage.InsertKey | hw10/claude.cpp:313-317 | inserting a key into a strictly increasing list keeps it strictly increasing and adds just that key |
| Arbitrage.OrderedKeys | hw10/claude.cpp:313-322 | the strikes of the map come once each, in strictly increasing order, and are exactly the strikes that occur |
| Arbitrage.AtStrike | hw10/claude.cpp:315-317 | a strike's group holds exactly the options with that strike |
| Arbitrage.AtStrikeInOrder | hw10/claude.cpp:315-317 | grouping keeps the input order: the group of two runs read back to back is the group of each, in order, and one quote is its own group exactly when it has the strike |
| Arbitrage.ScanStrike | hw10/claude.cpp:322-350 | opportunities at a strike are profitable, at that strike, need the index or future quote their strategy uses, and need both a call and a put |
| Arbitrage.ScanStrikeIffFires | hw10/claude.cpp:322-350 | a strike's scan records a strategy exactly when its rule fires on the first call and first put, and prices it at their strike and gap less the strategy's cost |
| Arbitrage.ScanStrikeFires | hw10/claude.cpp:340-348 | the two rule halves together record exactly the strategies whose rules fire |
| Arbitrage.IndexRulesFire | hw10/claude.cpp:68-124 | the put-call parity half records only index strategies, and exactly those that fire |
| Arbitrage.FuturesRulesFire | hw10/claude.cpp:126-175 | the put-call-futures parity half records only futures strategies, and exactly those that fire |
| Arbitrage.ScanStrikeAt | hw10/claude.cpp:322-350 | at a strike's group, whatever fires is recorded at that strike field over the scale, and whatever is recorded fired |
| Arbitrage.ScanKeys | hw10/claude.cpp:322-350 | over any list of strikes the recorded opportunities are profitable, gated and empty without puts |
| Arbitrage.ScanKeysHolds | hw10/claude.cpp:322-350 | what the scan at one listed strike records, the scan over the list records |
| Arbitrage.ScanKeysFrom | hw10/claude.cpp:322-350 | what the scan over a list records, the scan at one of its strikes recorded |
| Arbitrage.ScanKeysFiring | hw10/claude.cpp:322-350 | over a list of strikes, a rule firing at one of them is recorded there, and every record fired at one of them |
| Arbitrage.ScanAll | hw10/claude.cpp:311-351 | every recorded opportunity is profitable after costs and at a scanned strike; none without index and future quotes or without a put; every rule that fires at any strike is recorded at it |
| Arbitrage.ScanAllFires | hw10/claude.cpp:311-351 | over the map's strikes, what fires is recorded and what is recorded fired |
| Arbitrage.RecordedFired | hw10/claude.cpp:311-351 | each recorded opportunity's rule fires at the strike field its strike is read from (strike times the scale) |
| Arbitrage.RecordedAt | hw10/claude.cpp:311-351 | a record of the scan over a list of strikes was made at one of them, where its rule fired, and carries that strike field over the scale |
| Arbitrage.FiresAtField | hw10/claude.cpp:71 | a rule firing at strike field k fires at the field its recorded strike k / scale is read back to |
| Arbitrage.ScanFindsIffFires | hw10/claude.cpp:311-351 | the scan finds something exactly when some rule fires at some strike |
| Arbitrage.FiringStrikesScanned | hw10/claude.cpp:313-322 | a strike at which a rule fires is one of the map's keys |
| Arbitrage.BestOfHolds | hw10/claude.cpp:368-375 | exactly the strikes that occur are held, each by an input opportunity at that strike |
| Arbitrage.BestOfMaximal | hw10/claude.cpp:368-375 | each held opportunity has maximal profit at its strike |
| Arbitrage.BestOfEarliest | hw10/claude.cpp:368-375 | among equals the one visited first is held |
| Arbitrage.BestByStrike | hw10/claude.cpp:367-375 | the selection loop maps each occurring strike to its earliest most profitable opportunity |
| Arbitrage.Listing | hw10/claude.cpp:380-388 | an entry is listed exactly when it is the held opportunity of a key and its profit is positive |
| Arbitrage.ListingOrdered | hw10/claude.cpp:380-388 | listed in increasing key order, the entries' strikes strictly increase |
| Arbitrage.Display | hw10/claude.cpp:353-394 | the first message exactly when nothing was recorded; otherwise profitable input entries in increasing strike order, maximal per strike, and every strike with a profitable opportunity listed; the second message only when no profit is positive |
| Arbitrage.Scan | hw10/claude.cpp:311-394 | the "after transaction costs" message is never shown; without index and future quotes nothing is found; the first message exactly when no rule fires at any strike of the retained options; otherwise listed entries come from their scan and every strike where a rule fires is listed |
| Arbitrage.ReportShowsFiring | hw10/claude.cpp:353-394 | from the scan's two directions and the report's contract: the report is empty exactly when nothing fires, and lists every strike where something fires |
| Arbitrage.SampleStrikeAsWritten | hw10/claude.cpp:71-72 | the sample record's strike field 100000 read at the parity rules' scale is 1 point, and the sample call is then offered 99.5 points below its exercise value |
| Arbitrage.SampleStrikeCorrected | hw10/claude.cpp:288 | read at the scale of the loader's comment the sample strike is 100 points, and the call's ask is within a point of its exercise value |
| Arbitrage.SamplePaired | hw10/claude.cpp:322-335 | the sample call and put form a pair whose first call and first put are those two records |
| Arbitrage.SampleScanAsWritten | hw10/claude.cpp:68-102 | the program as written scans the sample strike (index 3369.20, no discounting, call bid 3263.4 offer 3268.7, put bid 0.05 offer 0.10, strike field 100000) into one long-call opportunity of $10289 at strike 1 |
| Arbitrage.SampleScanCorrected | hw10/claude.cpp:288 | at the corrected scale the same strike yields one long-call opportunity of $389 at strike 100 |
| QuotedFields.FindFrom | hw10/111511141.cpp:62 | a found position lies between the start and the end of the line |
| QuotedFields.FindFromSpec | hw10/111511141.cpp:62 | nothing is found exactly when no position from the start holds the character; otherwise the first such position |
| QuotedFields.FindFromFirst | hw10/111511141.cpp:62 | a holding position with none before it is what the search finds |
| QuotedFields.FindFromLooksAhead | hw10/111511141.cpp:62 | the search depends only on positions from its start on |
| QuotedFields.Erase | hw10/111511141.cpp:68 | erasing n characters leaves the suffix of the line, empty when n reaches the length |
| QuotedFields.TokensQuoteFree | hw10/111511141.cpp:60-73 | no field contains a quote |
| QuotedFields.SplitConsumes | hw10/111511141.cpp:60-73 | each field uses at least two characters, and the text left is a suffix of the line |
| QuotedFields.SplitStops | hw10/111511141.cpp:69-72 | the loop stops only on an empty line or one with no quote after position 0, which it leaves whole |
| QuotedFields.SplitLine | hw10/111511141.cpp:60-73 | the loop computes the recursive split, whose fields hold no quote and number at most half the line's length |
| QuotedFields.SplitUnfold | hw10/111511141.cpp:62-68 | one pass takes the text between position 1 and the quote and continues after the character that follows it |
| QuotedFields.SplitAdvances | hw10/111511141.cpp:62-68 | one pass keeps fields taken plus split of the remainder equal to the split of the whole line |
| QuotedFields.SplitStopsAt | hw10/111511141.cpp:69-72 | with no quote after position 0 nothing is taken and the line is left |
| QuotedFields.ClosingQuote | hw10/111511141.cpp:62 | in a line that starts with a quoted quote-free field, the first quote after position 0 closes it |
| QuotedFields.SplitField | hw10/111511141.cpp:62-68 | a quoted field is taken whole and the split continues after the tail's first character |
| QuotedFields.FieldPieces | hw10/111511141.cpp:65-68 | the substring is the field, and erasing through the comma leaves the rest of the line |
| QuotedFields.SplitLastField | hw10/111511141.cpp:68 | the last field's erase is clamped to the line, leaving nothing |
| QuotedFields.SplitJoin | hw10/111511141.cpp:60-73 | splitting a line of quoted quote-free fields joined by commas gives back the fields with nothing left over |
| QuotedFields.FirstCharacterIgnored | hw10/111511141.cpp:62-65 | character 0 is never inspected: lines differing only there give the same fields |

## Left out

- File reading, header skipping, the CSV/TSV tokenising with `getline` and
  `stod`/`stoi`, and all console output and formatting are not modelled.
  That includes `to_string` of prices, `setprecision`, the opportunity
  `details` text, the strategy names and the final `* 100` percent
  conversions. Operations take parsed values as parameters.
- Floating point is not modelled: all arithmetic is exact real arithmetic,
  so IEEE rounding, overflow and the exact number of bisection steps
  rounding would produce are out of scope.
- The swap-curve bootstrapper (`hw8`) is not part of this model. It needs
  `exp` and `log`.
- `exp(-r * T)` in the parity rules is the parameter `disc`: transcendental
  functions cannot be computed in exact arithmetic.
- `pow` with a fractional exponent (`j + omega`) is a function parameter.
  The only requirement on it is that it be positive and agree with integer
  powers at natural exponents (`Bond.IsPowerFor`).
- Irr.Newton: the source loop has no iteration cap. The model takes a
  `fuel` bound and reports NoConvergence when it is used up. An iterate
  with `1 + r = 0`, where the source divides by zero, is reported as
  Singular.
- Irr.Bisection, Bond.Ytm: rates with `1 + r = 0` are excluded by the
  requires, because the source divides by zero there. Bond.Ytm requires the
  bracket to stay above -1 for the same reason.
- Bond.ApproxYtm, Bond.Ytm: a period count of 0 and a price with
  `FaceValue + price = 0` are excluded by the requires, and so in
  Bond.NoYieldBracket, Bond.QuotesAtYield and Bond.PriceBond. `Approx_YTM`
  (hw2/HW2-111511141.cpp:112-115) divides by `N` and by `(FV + P) / 2`, so
  at those inputs the source carries an infinite or NaN seed into the
  bisection; the model does not follow it. Bond.Ytm also requires at least
  one period, which a negative count (`half_year_diff < 0`) does not meet.
- Duration.MD: `n` is a natural number, and a zero present value is
  excluded (the source divides by it and gets infinity or NaN). With a
  negative `n` the source's loop does not run and it returns 0/0.
- Duration.Analyse: requires n >= 1, a non-negative coupon and a yield
  above -100%. It does not model the source's evaluation on arbitrary
  record values.
- Calendar.DaysBetween: requires the target not to precede the start. The
  source's walk never ends otherwise (`Calendar.WalkNeverReachesEarlier`).
  The walk is also modelled only for valid dates.
- Bond.AccrualOf: requires valid dates, delivery and maturity not before
  the offering date, and a positive month count. With zero half-years the
  source divides by zero.
- Arbitrage.Display: the descending sort by profit that precedes the
  selection is not modelled; the selection runs in recording order.
  `std::sort` is not stable, so which of several equally profitable
  opportunities at one strike the source keeps is unspecified. The model
  keeps the earliest; the contract promises only one of maximal profit,
  which both satisfy. Since the sort is in place, the reordering of the
  stored opportunities is not modelled either.
- Arbitrage.Scan: the `option_id`, `date`, `exdate` and `volume` fields are
  not modelled. Neither are the loader's skipping of empty and comment
  lines, its field-count check and its `stod` exceptions. Lines that fail to
  parse are simply absent from the parsed input.
- The "Checking Strike" log line is output only and is not modelled. It
  divides the strike field by 1000, the model's `Arbitrage.StrikeScale`
  (see Findings).
- Bond.PriceBond: when the yield bracket fails the model returns `Unpriced`
  and stops. The source instead doubles the `-1` it gets back into a yield
  of -2. It then prices at base `1 + (-2)/2 = 0` and divides by
  `pow(0, ...)`, printing infinities or NaN. Bond.QuotesAtYield likewise.
- The index and futures loaders' fixed bid/ask spreads (0.1% and 0.05%
  around the last price) are not modelled. The `Market` quotes are
  parameters.

## Findings

| source | as written | input that shows it | evidently intended | confidence | as-written member | corrected member |
|---|---|---|---|---|---|---|
| hw10/claude.cpp:71-72 | both parity rules (lines 71-72 and 130) read the strike as the strike field / 100000, and record that as the opportunity's strike (lines 98 and 117); the source gives three readings of the field: / 100000 in the code, / 100 in the comment on line 72 ("100000 = 1000.00"), and / 1000 in the loader's comment (line 288) and the strike log (line 338) | the sample call of 3 November 2020 in hw10/111511141.cpp:111-112 (strike field 100000, bid 3263.4, offer 3268.7), the S&P 500 at 3369.20 that day (line 44 there), no discounting and a put at that strike bid 0.05, offered at 0.10: as written the strike is 1, the call sits 104.9 points under parity and $10289 is recorded at strike 1, while the call's ask is 99.5 points below its exercise value, which no quoted market allows | strike field / 1000, the reading of the loader and the log: a strike of 100, the call's ask within a point of its exercise value, and $389 recorded at strike 100 | medium, not executed | Arbitrage.SampleScanAsWritten | Arbitrage.SampleScanCorrected |

The scanner's members take the strike scale as a parameter. The program as
written is the scan at `Arbitrage.WrittenStrikeScale` (100000); the
corrected program is the same scan at `Arbitrage.StrikeScale` (1000), whose
recorded strikes are the strikes the program logs for their groups
(`Arbitrage.ScanStrikeAt`). `Arbitrage.SampleStrikeAsWritten` and
`Arbitrage.SampleStrikeCorrected` give the exercise-value arithmetic
behind the two readings.
