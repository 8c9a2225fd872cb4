/** Calendar dates as the program receives them: a (year, month, day) triple
    standing for a Python `date` / pandas `Timestamp` on the proleptic
    Gregorian calendar. */
module Dates {

  datatype Date = Date(year: int, month: int, day: int)

  predicate IsLeapYear(y: int) {
    y % 4 == 0 && (y % 100 != 0 || y % 400 == 0)
  }

  function DaysInMonth(y: int, m: int): (n: int)
    requires 1 <= m <= 12
    ensures 28 <= n <= 31
  {
    if m == 2 then (if IsLeapYear(y) then 29 else 28)
    else if m == 4 || m == 6 || m == 9 || m == 11 then 30
    else 31
  }

  function DaysInYear(y: int): int {
    if IsLeapYear(y) then 366 else 365
  }

  /** A date Python's `date` type can represent. */
  predicate Valid(d: Date) {
    1 <= d.year <= 9999 && 1 <= d.month <= 12 && 1 <= d.day <= DaysInMonth(d.year, d.month)
  }

  /** pandas `.dt.quarter`: months 1-3 are quarter 1, and so on. */
  function Quarter(d: Date): (q: int)
    requires 1 <= d.month <= 12
    ensures 1 <= q <= 4
    ensures 3 * (q - 1) < d.month <= 3 * q
  {
    (d.month - 1) / 3 + 1
  }

  /** Chronological order of dates (lexicographic on the triple). */
  predicate NotAfter(a: Date, b: Date) {
    a.year < b.year
    || (a.year == b.year && a.month < b.month)
    || (a.year == b.year && a.month == b.month && a.day <= b.day)
  }

  function Later(a: Date, b: Date): (c: Date)
    ensures NotAfter(a, c) && NotAfter(b, c)
    ensures c == a || c == b
  {
    if NotAfter(a, b) then b else a
  }

  /** Days before January 1st of year `y`, counted from 0001-01-01. */
  function DaysBeforeYear(y: int): int
    requires y >= 1
  {
    var p := y - 1;
    p * 365 + p / 4 - p / 100 + p / 400
  }

  /** Days in the months of year `y` before month `m`. */
  function DaysBeforeMonth(y: int, m: int): (n: int)
    requires 1 <= m <= 13
    ensures n >= 0
  {
    if m == 1 then 0 else DaysBeforeMonth(y, m - 1) + DaysInMonth(y, m - 1)
  }

  /** Python's `date.toordinal()`: 0001-01-01 is day 1. */
  function Ordinal(d: Date): int
    requires Valid(d)
  {
    DaysBeforeYear(d.year) + DaysBeforeMonth(d.year, d.month) + d.day
  }

  /** `(date2 - date1).days`: the whole-day difference of two dates. */
  function DaysBetween(date1: Date, date2: Date): int
    requires Valid(date1) && Valid(date2)
  {
    Ordinal(date2) - Ordinal(date1)
  }

  lemma {:induction false} DaysBeforeMonthGrows(y: int, m1: int, m2: int)
    requires 1 <= m1 < m2 <= 13
    ensures DaysBeforeMonth(y, m1) + DaysInMonth(y, m1) <= DaysBeforeMonth(y, m2)
  {
    if m2 > m1 + 1 {
      DaysBeforeMonthGrows(y, m1, m2 - 1);
    }
  }

  lemma WholeYear(y: int)
    ensures DaysBeforeMonth(y, 13) == DaysInYear(y)
  {
    assert DaysBeforeMonth(y, 2) == 31;
    assert DaysBeforeMonth(y, 3) == 31 + DaysInMonth(y, 2);
    assert DaysBeforeMonth(y, 4) == 62 + DaysInMonth(y, 2);
    assert DaysBeforeMonth(y, 5) == 92 + DaysInMonth(y, 2);
    assert DaysBeforeMonth(y, 6) == 123 + DaysInMonth(y, 2);
    assert DaysBeforeMonth(y, 7) == 153 + DaysInMonth(y, 2);
    assert DaysBeforeMonth(y, 8) == 184 + DaysInMonth(y, 2);
    assert DaysBeforeMonth(y, 9) == 215 + DaysInMonth(y, 2);
    assert DaysBeforeMonth(y, 10) == 245 + DaysInMonth(y, 2);
    assert DaysBeforeMonth(y, 11) == 276 + DaysInMonth(y, 2);
    assert DaysBeforeMonth(y, 12) == 306 + DaysInMonth(y, 2);
  }

  lemma DaysBeforeNextYear(y: int)
    requires y >= 1
    ensures DaysBeforeYear(y + 1) == DaysBeforeYear(y) + DaysInYear(y)
  {
    var p := y - 1;
    assert y / 4 == p / 4 + (if y % 4 == 0 then 1 else 0);
    assert y / 100 == p / 100 + (if y % 100 == 0 then 1 else 0);
    assert y / 400 == p / 400 + (if y % 400 == 0 then 1 else 0);
  }

  lemma {:induction false} DaysBeforeYearGrows(y1: int, y2: int)
    requires 1 <= y1 < y2
    ensures DaysBeforeYear(y1) + DaysInYear(y1) <= DaysBeforeYear(y2)
    decreases y2 - y1
  {
    DaysBeforeNextYear(y1);
    if y2 > y1 + 1 {
      DaysBeforeYearGrows(y1 + 1, y2);
      DaysBeforeNextYear(y2 - 1);
    }
  }

  /** The ordinal is strictly increasing in chronological order. */
  lemma OrdinalIncreasing(a: Date, b: Date)
    requires Valid(a) && Valid(b)
    requires NotAfter(a, b) && a != b
    ensures Ordinal(a) < Ordinal(b)
  {
    if a.year < b.year {
      if a.month < 12 {
        DaysBeforeMonthGrows(a.year, a.month, 13);
      }
      WholeYear(a.year);
      DaysBeforeYearGrows(a.year, b.year);
    } else if a.month < b.month {
      DaysBeforeMonthGrows(a.year, a.month, b.month);
    }
  }

  /** `(date2 - date1).days` is zero exactly when the two dates are the same. */
  lemma DaysBetweenZero(date1: Date, date2: Date)
    requires Valid(date1) && Valid(date2)
    ensures DaysBetween(date1, date2) == 0 <==> date1 == date2
  {
    if date1 != date2 {
      if NotAfter(date1, date2) {
        OrdinalIncreasing(date1, date2);
      } else {
        OrdinalIncreasing(date2, date1);
      }
    }
  }
}
