/** Calendar arithmetic on plain (year, month, day) values.

    The application keeps every date in a JavaScript `Date` and asks it, or the
    date-fns helpers, for the month, the year, the weekday and the length of a
    month. This module states those questions directly. Months are numbered
    0..11, as `Date.getMonth()` numbers them, and weekdays 0..6 with Sunday = 0,
    as `Date.getDay()` numbers them. Time of day and time zones play no part. */
module Dates {

  /** A calendar date. `month` is 0-based (January = 0). */
  datatype Date = Date(year: int, month: int, day: int)

  /** The identity of one calendar month; also the label of a spending bucket. */
  datatype YearMonth = YearMonth(year: int, month: int)

  predicate ValidMonth(ym: YearMonth) {
    0 <= ym.month < 12
  }

  /** The Gregorian leap-year rule: every fourth year, except centuries that
      are not divisible by 400. */
  predicate IsLeapYear(y: int) {
    y % 4 == 0 && (y % 100 != 0 || y % 400 == 0)
  }

  /** The Gregorian table of month lengths. */
  function MonthLength(y: int, m: int): (n: int)
    requires 0 <= m < 12
    ensures 28 <= n <= 31
  {
    if m == 1 then (if IsLeapYear(y) then 29 else 28)
    else if m == 3 || m == 5 || m == 8 || m == 10 then 30
    else 31
  }

  /** A date that a JavaScript `Date` can denote: the month is in range and the
      day exists in that month. */
  predicate ValidDate(d: Date) {
    0 <= d.month < 12 && 1 <= d.day <= MonthLength(d.year, d.month)
  }

  function MonthOf(d: Date): YearMonth {
    YearMonth(d.year, d.month)
  }

  /** `new Date(year, month, 1)`. */
  function FirstOf(ym: YearMonth): Date {
    Date(ym.year, ym.month, 1)
  }

  /** Months counted from January of year 0; consecutive months differ by one. */
  function MonthIndex(ym: YearMonth): int {
    12 * ym.year + ym.month
  }

  /** `new Date(y, m + k, 1)` normalises a month number outside 0..11 by moving
      whole years; this is that normalisation. */
  function AddMonths(ym: YearMonth, k: int): (r: YearMonth)
    ensures ValidMonth(r)
    ensures MonthIndex(r) == MonthIndex(ym) + k
  {
    var n := MonthIndex(ym) + k;
    YearMonth(n / 12, n % 12)
  }

  /** Two valid months with the same index are the same month. */
  lemma MonthIndexInjective(a: YearMonth, b: YearMonth)
    requires ValidMonth(a) && ValidMonth(b)
    requires MonthIndex(a) == MonthIndex(b)
    ensures a == b
  {
  }

  /** One month forward wraps December into January of the next year. */
  lemma AddMonthsNext(ym: YearMonth)
    requires ValidMonth(ym)
    ensures AddMonths(ym, 1) == if ym.month == 11 then YearMonth(ym.year + 1, 0)
                                else YearMonth(ym.year, ym.month + 1)
  {
    var r := AddMonths(ym, 1);
    var e := if ym.month == 11 then YearMonth(ym.year + 1, 0) else YearMonth(ym.year, ym.month + 1);
    MonthIndexInjective(r, e);
  }

  /** One month back wraps January into December of the previous year. */
  lemma AddMonthsPrevious(ym: YearMonth)
    requires ValidMonth(ym)
    ensures AddMonths(ym, -1) == if ym.month == 0 then YearMonth(ym.year - 1, 11)
                                 else YearMonth(ym.year, ym.month - 1)
  {
    var r := AddMonths(ym, -1);
    var e := if ym.month == 0 then YearMonth(ym.year - 1, 11) else YearMonth(ym.year, ym.month - 1);
    MonthIndexInjective(r, e);
  }

  /** Moving k months and then k months back returns to the starting month. */
  lemma AddMonthsInverse(ym: YearMonth, k: int)
    requires ValidMonth(ym)
    ensures AddMonths(AddMonths(ym, k), -k) == ym
  {
    MonthIndexInjective(AddMonths(AddMonths(ym, k), -k), ym);
  }

  /** Moving a then b months is moving a + b months. */
  lemma AddMonthsCompose(ym: YearMonth, a: int, b: int)
    ensures AddMonths(AddMonths(ym, a), b) == AddMonths(ym, a + b)
  {
    MonthIndexInjective(AddMonths(AddMonths(ym, a), b), AddMonths(ym, a + b));
  }

  /** date-fns `addMonths(date, k)`: the same day in the month k months away,
      cut back to that month's last day when it is shorter. */
  function AddMonthsToDate(d: Date, k: int): (r: Date)
    ensures MonthOf(r) == AddMonths(MonthOf(d), k)
    ensures 1 <= d.day ==> ValidDate(r)
    ensures 1 <= d.day <= 28 ==> r.day == d.day
    ensures d.day <= MonthLength(r.year, r.month) ==> r.day == d.day
    ensures r.day == d.day || r.day == MonthLength(r.year, r.month) < d.day
  {
    var ym := AddMonths(MonthOf(d), k);
    var last := MonthLength(ym.year, ym.month);
    Date(ym.year, ym.month, if d.day < last then d.day else last)
  }

  /** Days from the 1st of March of year 0 to the 1st of March of year y
      (years counted from March, so that the leap day ends a year). */
  function MarchYearStart(y: int): int {
    var era := y / 400;
    var yoe := y % 400;
    era * 146097 + yoe * 365 + yoe / 4 - yoe / 100
  }

  /** Days since 1 January 1970 (day 0), for the proleptic Gregorian calendar. */
  function DayNumber(d: Date): int {
    var marchYear := if d.month <= 1 then d.year - 1 else d.year;
    MarchYearStart(marchYear) + MonthOffset(d.month) + d.day - 1 - 719468
  }

  /** Days from the 1st of March to the 1st of month m, in a year counted from
      March (the month lengths 31, 30, 31, 30, 31, 31, 30, … in closed form). */
  function MonthOffset(m: int): int {
    (153 * ((m + 10) % 12) + 2) / 5
  }

  /** `Date.getDay()`: Sunday = 0 … Saturday = 6; 1 January 1970 was a Thursday. */
  function Weekday(d: Date): (w: int)
    ensures 0 <= w < 7
  {
    (DayNumber(d) + 4) % 7
  }

  /** Quotient and remainder are determined by any decomposition n == d * q + r
      with 0 <= r < d; one lemma per divisor the day count uses. */
  lemma DivMod4(n: int, q: int, r: int)
    requires n == 4 * q + r && 0 <= r < 4
    ensures n / 4 == q && n % 4 == r
  {
  }

  lemma DivMod100(n: int, q: int, r: int)
    requires n == 100 * q + r && 0 <= r < 100
    ensures n / 100 == q && n % 100 == r
  {
  }

  lemma DivMod400(n: int, q: int, r: int)
    requires n == 400 * q + r && 0 <= r < 400
    ensures n / 400 == q && n % 400 == r
  {
  }

  /** Counting one more year adds one to n / 4 exactly when n + 1 is a multiple of 4. */
  lemma QuarterStep(n: int)
    ensures (n + 1) / 4 - n / 4 == if (n + 1) % 4 == 0 then 1 else 0
  {
    var q, r := n / 4, n % 4;
    if r < 3 { DivMod4(n + 1, q, r + 1); } else { DivMod4(n + 1, q + 1, 0); }
  }

  lemma CenturyStep(n: int)
    ensures (n + 1) / 100 - n / 100 == if (n + 1) % 100 == 0 then 1 else 0
  {
    var q, r := n / 100, n % 100;
    if r < 99 { DivMod100(n + 1, q, r + 1); } else { DivMod100(n + 1, q + 1, 0); }
  }

  /** A whole number of 400-year eras changes neither n % 4 nor n % 100. */
  lemma EraShift(era: int, s: int)
    ensures (400 * era + s) % 4 == s % 4
    ensures (400 * era + s) % 100 == s % 100
  {
    DivMod4(400 * era + s, 100 * era + s / 4, s % 4);
    DivMod100(400 * era + s, 4 * era + s / 100, s % 100);
  }

  /** The year that starts in March of y and ends in February of y + 1 has 366
      days exactly when y + 1 is a leap year. */
  lemma MarchYearLength(y: int)
    ensures MarchYearStart(y + 1) - MarchYearStart(y) == if IsLeapYear(y + 1) then 366 else 365
  {
    var era, yoe := y / 400, y % 400;
    if yoe < 399 {
      DivMod400(y + 1, era, yoe + 1);
      QuarterStep(yoe);
      CenturyStep(yoe);
      EraShift(era, yoe + 1);
    } else {
      DivMod400(y + 1, era + 1, 0);
      EraShift(era + 1, 0);
    }
  }

  /** Between two months of one March-based year, the offsets differ by the
      length of the earlier month. */
  lemma MonthOffsetStep(m: int)
    requires 0 <= m < 11 && m != 1
    ensures MonthOffset(m + 1) - MonthOffset(m) == if m == 3 || m == 5 || m == 8 || m == 10 then 30 else 31
  {
    if m == 0 {
    } else if m == 2 {
    } else if m == 3 {
    } else if m == 4 {
    } else if m == 5 {
    } else if m == 6 {
    } else if m == 7 {
    } else if m == 8 {
    } else if m == 9 {
    } else {
    }
  }

  /** The 1st of the following month lies exactly MonthLength days after the
      1st of this month. */
  lemma FirstsOfConsecutiveMonths(ym: YearMonth)
    requires ValidMonth(ym)
    ensures DayNumber(FirstOf(AddMonths(ym, 1))) - DayNumber(FirstOf(ym)) == MonthLength(ym.year, ym.month)
  {
    AddMonthsNext(ym);
    var y, m := ym.year, ym.month;
    if m == 11 {
      assert MonthOffset(11) == 275 && MonthOffset(0) == 306;
    } else if m == 1 {
      MarchYearLength(y - 1);
      assert MonthOffset(1) == 337 && MonthOffset(2) == 0;
    } else {
      MonthOffsetStep(m);
    }
  }

  /** Within a month, day numbers run consecutively from the 1st. */
  lemma DayNumberInMonth(ym: YearMonth, d: int)
    ensures DayNumber(Date(ym.year, ym.month, d)) == DayNumber(FirstOf(ym)) + d - 1
  {
  }

  /** Fixed points of the day count: 1 January 1970 is day 0, and
      1 October 2024 was a Tuesday. */
  lemma DayNumberAnchors()
    ensures DayNumber(Date(1970, 0, 1)) == 0
    ensures Weekday(Date(2024, 9, 1)) == 2
  {
  }
}
