/**
  Calendar arithmetic of the bond engine: the Gregorian leap-year rule, the
  one-day step and the day-by-day walk behind Actual/Actual day counts, the
  borrow-normalised year/month/day difference behind the 30/360 count, and
  the number of semiannual coupon periods.
*/
module Calendar {

  /** A calendar date as a (year, month, day) triple of integers. */
  datatype Date = Date(year: int, month: int, day: int)

  /** The Gregorian rule, as nested tests: divisible by 4, and not by 100
      unless also by 400. */
  function IsLeapYear(year: int): (leap: bool)
    ensures leap <==> year % 4 == 0 && (year % 100 != 0 || year % 400 == 0)
  {
    if year % 4 == 0 then
      if year % 100 == 0 then
        if year % 400 == 0 then true else false
      else true
    else false
  }

  /** Month lengths of a common year, January first. */
  const MonthLengths: seq<int> := [31, 28, 31, 30, 31, 30, 31, 31, 30, 31, 30, 31]

  function DaysInMonth(year: int, month: int): int
    requires 1 <= month <= 12
  {
    if month == 2 && IsLeapYear(year) then 29 else MonthLengths[month - 1]
  }

  predicate ValidDate(d: Date)
  {
    1 <= d.month <= 12 && 1 <= d.day <= DaysInMonth(d.year, d.month)
  }

  /** Strict lexicographic order on (year, month, day). */
  predicate Before(a: Date, b: Date)
  {
    a.year < b.year
    || (a.year == b.year && a.month < b.month)
    || (a.year == b.year && a.month == b.month && a.day < b.day)
  }

  /**
    The walk's one-day step: bump the day; in February of a leap year roll
    over after the 29th, otherwise after the common-year length of the month,
    and roll December over into January of the next year.
  */
  function NextDay(d: Date): (next: Date)
    requires 1 <= d.month <= 12
    ensures ValidDate(d) ==> ValidDate(next) && Before(d, next)
    ensures ValidDate(d) && d.month == 12 && d.day == 31 ==> next == Date(d.year + 1, 1, 1)
    ensures ValidDate(d) && d.month == 2 && d.day == 28 ==>
              next == (if IsLeapYear(d.year) then Date(d.year, 2, 29) else Date(d.year, 3, 1))
  {
    var day := d.day + 1;
    if IsLeapYear(d.year) && d.month == 2 then
      if day > 29 then Date(d.year, d.month + 1, 1) else Date(d.year, d.month, day)
    else if day > MonthLengths[d.month - 1] then
      if d.month + 1 > 12 then Date(d.year + 1, 1, 1) else Date(d.year, d.month + 1, 1)
    else
      Date(d.year, d.month, day)
  }

  /** The date reached after k one-day steps. */
  function Advance(d: Date, k: nat): (e: Date)
    requires ValidDate(d)
    ensures ValidDate(e)
    ensures Ordinal(e) == Ordinal(d) + k
  {
    if k == 0 then d
    else
      var prev := Advance(d, k - 1);
      NextDayOrdinal(prev);
      NextDay(prev)
  }

  function YearLength(year: int): int
  {
    if IsLeapYear(year) then 366 else 365
  }

  /** Days from the start of year 0 to the start of `year`, negative before it. */
  function YearStart(year: int): int
    decreases if year >= 0 then year else -year
  {
    if year == 0 then 0
    else if year > 0 then YearStart(year - 1) + YearLength(year - 1)
    else YearStart(year + 1) - YearLength(year)
  }

  function DaysBeforeMonth(year: int, month: int): (days: int)
    requires 1 <= month <= 12
    ensures 31 * (month - 1) >= days >= 28 * (month - 1)
  {
    if month == 1 then 0 else DaysBeforeMonth(year, month - 1) + DaysInMonth(year, month - 1)
  }

  /** A day number: consecutive valid dates get consecutive numbers. */
  function Ordinal(d: Date): int
    requires 1 <= d.month <= 12
  {
    YearStart(d.year) + DaysBeforeMonth(d.year, d.month) + d.day
  }

  lemma YearStartStep(year: int)
    ensures YearStart(year + 1) == YearStart(year) + YearLength(year)
  {
  }

  lemma {:induction false} YearStartMonotone(a: int, b: int)
    requires a <= b
    ensures YearStart(a) + YearLength(a) <= YearStart(b) + YearLength(b)
    ensures a < b ==> YearStart(a) + YearLength(a) <= YearStart(b)
    decreases b - a
  {
    if a < b {
      YearStartMonotone(a, b - 1);
      YearStartStep(b - 1);
    }
  }

  /** The month offsets of a year add up to its length. */
  lemma YearOfMonths(year: int)
    ensures DaysBeforeMonth(year, 12) + 31 == YearLength(year)
  {
    assert DaysBeforeMonth(year, 1) == 0;
    assert DaysBeforeMonth(year, 2) == 31;
    assert DaysBeforeMonth(year, 3) == 31 + DaysInMonth(year, 2);
    assert DaysBeforeMonth(year, 4) == 62 + DaysInMonth(year, 2);
    assert DaysBeforeMonth(year, 5) == 92 + DaysInMonth(year, 2);
    assert DaysBeforeMonth(year, 6) == 123 + DaysInMonth(year, 2);
    assert DaysBeforeMonth(year, 7) == 153 + DaysInMonth(year, 2);
    assert DaysBeforeMonth(year, 8) == 184 + DaysInMonth(year, 2);
    assert DaysBeforeMonth(year, 9) == 215 + DaysInMonth(year, 2);
    assert DaysBeforeMonth(year, 10) == 245 + DaysInMonth(year, 2);
    assert DaysBeforeMonth(year, 11) == 276 + DaysInMonth(year, 2);
    assert DaysBeforeMonth(year, 12) == 306 + DaysInMonth(year, 2);
  }

  /** A month ends no later than the year does. */
  lemma {:induction false} MonthEndWithinYear(year: int, a: int, b: int)
    requires 1 <= a <= b <= 12
    ensures DaysBeforeMonth(year, a) + DaysInMonth(year, a) <= DaysBeforeMonth(year, b) + DaysInMonth(year, b)
    ensures a < b ==> DaysBeforeMonth(year, a) + DaysInMonth(year, a) <= DaysBeforeMonth(year, b)
    decreases b - a
  {
    if a < b {
      MonthEndWithinYear(year, a, b - 1);
    }
  }

  /** The one-day step advances the day number by exactly one. */
  lemma NextDayOrdinal(d: Date)
    requires ValidDate(d)
    ensures Ordinal(NextDay(d)) == Ordinal(d) + 1
  {
    var n := NextDay(d);
    if n.year == d.year + 1 {
      YearOfMonths(d.year);
      YearStartStep(d.year);
    }
  }

  /** A valid date's number lies within its year. */
  lemma OrdinalWithinYear(d: Date)
    requires ValidDate(d)
    ensures YearStart(d.year) < Ordinal(d) <= YearStart(d.year) + YearLength(d.year)
  {
    MonthEndWithinYear(d.year, d.month, 12);
    YearOfMonths(d.year);
    assert DaysInMonth(d.year, 12) == 31;
  }

  /** Day numbers follow the calendar order. */
  lemma OrdinalMonotone(a: Date, b: Date)
    requires ValidDate(a) && ValidDate(b)
    requires Before(a, b)
    ensures Ordinal(a) < Ordinal(b)
  {
    if a.year < b.year {
      OrdinalWithinYear(a);
      OrdinalWithinYear(b);
      YearStartMonotone(a.year, b.year);
    } else if a.month < b.month {
      MonthEndWithinYear(a.year, a.month, b.month);
    }
  }

  /** Distinct valid dates have distinct day numbers. */
  lemma OrdinalInjective(a: Date, b: Date)
    requires ValidDate(a) && ValidDate(b)
    requires Ordinal(a) == Ordinal(b)
    ensures a == b
  {
    if Before(a, b) {
      OrdinalMonotone(a, b);
    } else if Before(b, a) {
      OrdinalMonotone(b, a);
    }
  }

  /**
    The Actual/Actual day count: walk one day at a time from `from` until the
    date equals `to`, counting steps. The walk ends only when `from` is not
    after `to` (see WalkNeverReachesEarlier), which is what this requires.
  */
  method DaysBetween(from: Date, to: Date) returns (count: nat)
    requires ValidDate(from) && ValidDate(to)
    requires !Before(to, from)
    ensures count == Ordinal(to) - Ordinal(from)
    ensures Advance(from, count) == to
    ensures forall k: nat :: k < count ==> Advance(from, k) != to
  {
    NotBeforeOrdinal(from, to);
    var cur := from;
    count := 0;
    while cur != to
      invariant cur == Advance(from, count)
      invariant Ordinal(cur) <= Ordinal(to)
      decreases Ordinal(to) - Ordinal(cur)
    {
      StepTowards(cur, to);
      cur := NextDay(cur);
      count := count + 1;
    }
    WalkMissesUntilArrival(from, to, count);
  }

  /** A date not after another has a day number not above it. */
  lemma NotBeforeOrdinal(a: Date, b: Date)
    requires ValidDate(a) && ValidDate(b)
    requires !Before(b, a)
    ensures Ordinal(a) <= Ordinal(b)
  {
    if a != b {
      OrdinalMonotone(a, b);
    }
  }

  /** Stepping from a date short of the target stays within the target. */
  lemma StepTowards(cur: Date, to: Date)
    requires ValidDate(cur) && ValidDate(to)
    requires cur != to
    requires Ordinal(cur) <= Ordinal(to)
    ensures Ordinal(NextDay(cur)) == Ordinal(cur) + 1
    ensures Ordinal(cur) + 1 <= Ordinal(to)
  {
    if Ordinal(cur) == Ordinal(to) {
      OrdinalInjective(cur, to);
    }
    NextDayOrdinal(cur);
  }

  /** Before arriving, the walk has not met the target. */
  lemma WalkMissesUntilArrival(from: Date, to: Date, count: nat)
    requires ValidDate(from) && ValidDate(to)
    requires Ordinal(to) == Ordinal(from) + count
    ensures forall k: nat :: k < count ==> Advance(from, k) != to
  {
  }

  /** Started after its target, the walk never meets it: the source loops
      forever on such input. */
  lemma WalkNeverReachesEarlier(from: Date, to: Date, k: nat)
    requires ValidDate(from) && ValidDate(to)
    requires Before(to, from)
    ensures Advance(from, k) != to
  {
    OrdinalMonotone(to, from);
  }

  /** A difference of dates in years, months and days. */
  datatype Span = Span(years: int, months: int, days: int)

  /** 30/360 days of a span. */
  function SpanDays(s: Span): int
  {
    360 * s.years + 30 * s.months + s.days
  }

  /** The raw 30/360 day count of `later` minus `earlier`, without borrows. */
  function Days30360(later: Date, earlier: Date): int
  {
    SpanDays(Span(later.year - earlier.year, later.month - earlier.month, later.day - earlier.day))
  }

  /**
    Field-wise difference with borrows: a negative month difference borrows a
    year (12 months), then a negative day difference borrows a month taken as
    30 days. The borrows never change the 30/360 day count.
  */
  function BorrowedSpan(later: Date, earlier: Date): (s: Span)
    ensures SpanDays(s) == Days30360(later, earlier)
    ensures ValidDate(later) && ValidDate(earlier) ==> 0 <= s.days <= 30 && -1 <= s.months <= 11
  {
    var years := later.year - earlier.year;
    var months := later.month - earlier.month;
    var afterMonthBorrow :=
      if months < 0 then Span(years - 1, months + 12, 0) else Span(years, months, 0);
    var days := later.day - earlier.day;
    if days < 0 then Span(afterMonthBorrow.years, afterMonthBorrow.months - 1, days + 30)
    else Span(afterMonthBorrow.years, afterMonthBorrow.months, days)
  }

  /** Months of a span. */
  function TotalMonths(s: Span): int
  {
    12 * s.years + s.months
  }

  /** C's integer division and remainder, truncating toward zero. */
  function TruncDiv(a: int, b: int): int
    requires b > 0
  {
    if a >= 0 then a / b else -((-a) / b)
  }

  function TruncRem(a: int, b: int): int
    requires b > 0
  {
    a - b * TruncDiv(a, b)
  }

  /**
    Coupon periods: the month count over 6, truncated, plus one when the
    remainder is non-zero. For a non-negative count that is the ceiling; for
    a negative count that is not a multiple of 6 it is one above the ceiling.
  */
  function HalfYears(totalMonths: int): (h: int)
    ensures totalMonths >= 0 ==> 6 * (h - 1) < totalMonths <= 6 * h
    ensures totalMonths < 0 && totalMonths % 6 == 0 ==> 6 * h == totalMonths
    ensures totalMonths < 0 && totalMonths % 6 != 0 ==> 6 * (h - 2) < totalMonths < 6 * (h - 1)
  {
    var h := TruncDiv(totalMonths, 6);
    if TruncRem(totalMonths, 6) != 0 then h + 1 else h
  }
}
