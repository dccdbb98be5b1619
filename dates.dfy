/** Calendar dates as the price series and the date pickers carry them: a day of the
    proleptic Gregorian calendar at midnight, its calendar month (the "Year-Month"
    period the schedule groups by) and its day number, from which elapsed days are
    computed when cash flows are discounted. */
module Dates {

  datatype Date = Date(year: int, month: int, day: int)

  predicate IsLeapYear(y: int) {
    y % 4 == 0 && (y % 100 != 0 || y % 400 == 0)
  }

  function DaysInMonth(y: int, m: int): int
    requires 1 <= m <= 12
  {
    if m == 2 then (if IsLeapYear(y) then 29 else 28)
    else if m == 4 || m == 6 || m == 9 || m == 11 then 30
    else 31
  }

  function DaysInYear(y: int): int {
    if IsLeapYear(y) then 366 else 365
  }

  /** A date that exists in the calendar (years from 1 on). */
  predicate ValidDate(d: Date) {
    1 <= d.year && 1 <= d.month <= 12 && 1 <= d.day <= DaysInMonth(d.year, d.month)
  }

  /** Strict chronological order: `a < b` on timestamps at midnight. */
  predicate Before(a: Date, b: Date) {
    a.year < b.year
    || (a.year == b.year && (a.month < b.month || (a.month == b.month && a.day < b.day)))
  }

  /** `a <= b` on timestamps at midnight. */
  predicate AtOrBefore(a: Date, b: Date) {
    Before(a, b) || a == b
  }

  /** The calendar month of a date as one integer, ordered like the months themselves
      (the monthly period of the date). */
  function MonthKey(d: Date): (k: int)
    ensures 1 <= d.month <= 12 ==> k / 12 == d.year && k % 12 == d.month - 1
  {
    d.year * 12 + (d.month - 1)
  }

  /** Days in the years before year `y`. */
  function DaysBeforeYear(y: int): int
    requires 1 <= y
  {
    var p := y - 1;
    p * 365 + p / 4 - p / 100 + p / 400
  }

  /** Days in the months of year `y` before month `m`. */
  function DaysBeforeMonth(y: int, m: int): int
    requires 1 <= m <= 12
  {
    var common :=
      if m == 1 then 0 else if m == 2 then 31 else if m == 3 then 59
      else if m == 4 then 90 else if m == 5 then 120 else if m == 6 then 151
      else if m == 7 then 181 else if m == 8 then 212 else if m == 9 then 243
      else if m == 10 then 273 else if m == 11 then 304 else 334;
    common + (if m > 2 && IsLeapYear(y) then 1 else 0)
  }

  /** The ordinal of a date: 1 for the first of January of year 1, one more for each
      following day. */
  function DayNumber(d: Date): (n: int)
    requires ValidDate(d)
    ensures DaysBeforeYear(d.year) < n <= DaysBeforeYear(d.year) + DaysInYear(d.year)
  {
    DayOfYearBound(d);
    DaysBeforeYear(d.year) + DaysBeforeMonth(d.year, d.month) + d.day
  }

  /** Whole days from `a` to `b`, the `.days` of the difference of two timestamps. */
  function DaysBetween(a: Date, b: Date): int
    requires ValidDate(a) && ValidDate(b)
  {
    DayNumber(b) - DayNumber(a)
  }

  lemma FloorStep4(p: int)
    requires 0 <= p
    ensures (p + 1) / 4 - p / 4 == if (p + 1) % 4 == 0 then 1 else 0
  {
  }

  lemma FloorStep100(p: int)
    requires 0 <= p
    ensures (p + 1) / 100 - p / 100 == if (p + 1) % 100 == 0 then 1 else 0
  {
  }

  lemma FloorStep400(p: int)
    requires 0 <= p
    ensures (p + 1) / 400 - p / 400 == if (p + 1) % 400 == 0 then 1 else 0
  {
  }

  /** A multiple of 400 is a multiple of 100, and a multiple of 100 one of 4. */
  lemma DivisorChain(y: int)
    ensures y % 400 == 0 ==> y % 100 == 0
    ensures y % 100 == 0 ==> y % 4 == 0
  {
    if y % 400 == 0 {
      MultipleMod100(4 * (y / 400));
    }
    if y % 100 == 0 {
      MultipleMod4(25 * (y / 100));
    }
  }

  lemma MultipleMod100(j: int)
    ensures (100 * j) % 100 == 0
  {
  }

  lemma MultipleMod4(j: int)
    ensures (4 * j) % 4 == 0
  {
  }

  /** Consecutive years are as far apart as the earlier one is long. */
  lemma DaysBeforeNextYear(y: int)
    requires 1 <= y
    ensures DaysBeforeYear(y + 1) == DaysBeforeYear(y) + DaysInYear(y)
  {
    var p := y - 1;
    FloorStep4(p);
    FloorStep100(p);
    FloorStep400(p);
    DivisorChain(y);
    var leap4 := y / 4 - p / 4;
    var leap100 := y / 100 - p / 100;
    var leap400 := y / 400 - p / 400;
    assert DaysBeforeYear(y + 1) - DaysBeforeYear(y) == 365 + leap4 - leap100 + leap400;
    assert DaysInYear(y) == 365 + leap4 - leap100 + leap400;
  }

  lemma {:induction false} DaysBeforeYearMonotone(y1: int, y2: int)
    requires 1 <= y1 < y2
    ensures DaysBeforeYear(y1) + DaysInYear(y1) <= DaysBeforeYear(y2)
    decreases y2 - y1
  {
    DaysBeforeNextYear(y1);
    if y1 + 1 < y2 {
      DaysBeforeYearMonotone(y1 + 1, y2);
    }
  }

  /** Each month ends where the next one starts, and December ends with the year. */
  lemma DaysBeforeNextMonth(y: int, m: int)
    requires 1 <= m <= 12
    ensures DaysBeforeMonth(y, m) + DaysInMonth(y, m)
            == if m == 12 then DaysInYear(y) else DaysBeforeMonth(y, m + 1)
  {
  }

  lemma {:induction false} DaysBeforeMonthMonotone(y: int, m1: int, m2: int)
    requires 1 <= m1 < m2 <= 12
    ensures DaysBeforeMonth(y, m1) + DaysInMonth(y, m1) <= DaysBeforeMonth(y, m2)
    decreases m2 - m1
  {
    DaysBeforeNextMonth(y, m1);
    if m1 + 1 < m2 {
      DaysBeforeMonthMonotone(y, m1 + 1, m2);
    }
  }

  /** The last day of a year is the year's length into it. */
  lemma DayOfYearBound(d: Date)
    requires ValidDate(d)
    ensures DaysBeforeMonth(d.year, d.month) + d.day <= DaysInYear(d.year)
  {
    DaysBeforeNextMonth(d.year, d.month);
    if d.month < 12 {
      DaysBeforeMonthMonotone(d.year, d.month, 12);
      DaysBeforeNextMonth(d.year, 12);
    }
  }

  /** The day number increases strictly along the calendar. */
  lemma DayNumberIncreases(a: Date, b: Date)
    requires ValidDate(a) && ValidDate(b) && Before(a, b)
    ensures DayNumber(a) < DayNumber(b)
  {
    if a.year < b.year {
      DayOfYearBound(a);
      DaysBeforeYearMonotone(a.year, b.year);
    } else if a.month < b.month {
      DaysBeforeMonthMonotone(a.year, a.month, b.month);
    }
  }

  /** Chronological order and day-number order agree in both directions, so the day
      number names each valid date exactly once. */
  lemma DayNumberOrder(a: Date, b: Date)
    requires ValidDate(a) && ValidDate(b)
    ensures Before(a, b) <==> DayNumber(a) < DayNumber(b)
    ensures a == b <==> DayNumber(a) == DayNumber(b)
  {
    if Before(a, b) {
      DayNumberIncreases(a, b);
    } else if Before(b, a) {
      DayNumberIncreases(b, a);
    }
  }

  /** Elapsed days are never negative going forward in time, and zero only on the same day. */
  lemma DaysBetweenSign(a: Date, b: Date)
    requires ValidDate(a) && ValidDate(b)
    ensures AtOrBefore(a, b) <==> DaysBetween(a, b) >= 0
    ensures DaysBetween(a, b) == 0 <==> a == b
  {
    DayNumberOrder(a, b);
    DayNumberOrder(b, a);
  }

  /** Chronological order never puts a later month first; equal month keys mean the same
      calendar month. */
  lemma MonthKeyOrder(a: Date, b: Date)
    requires ValidDate(a) && ValidDate(b)
    ensures AtOrBefore(a, b) ==> MonthKey(a) <= MonthKey(b)
    ensures MonthKey(a) == MonthKey(b) <==> a.year == b.year && a.month == b.month
  {
    if a.year < b.year {
      assert MonthKey(a) <= a.year * 12 + 11 < b.year * 12 <= MonthKey(b);
    } else if b.year < a.year {
      assert MonthKey(b) <= b.year * 12 + 11 < a.year * 12 <= MonthKey(a);
    }
  }
}
