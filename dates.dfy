/** A small proleptic Gregorian calendar, standing in for System.DateTime:
    leap years, month lengths, the day of the year (counted from 1, as
    DateTime.DayOfYear does) and its inverse, and the weekday, computed from
    an ordinal day count in which 0001-01-01 is day 0 and a Monday. */
module Dates {

  datatype Date = Date(year: int, month: int, day: int)

  /** The years DateTime can represent; its constructor throws outside them. */
  predicate ValidYear(year: int) {
    1 <= year <= 9999
  }

  predicate IsLeapYear(y: int) {
    y % 4 == 0 && (y % 100 != 0 || y % 400 == 0)
  }

  function DaysInYear(y: int): (r: int) {
    if IsLeapYear(y) then 366 else 365
  }

  function DaysInMonth(y: int, m: int): (r: int)
    requires 1 <= m <= 12
    ensures 28 <= r <= 31
  {
    if m == 2 then (if IsLeapYear(y) then 29 else 28)
    else if m == 4 || m == 6 || m == 9 || m == 11 then 30
    else 31
  }

  /** Days of year `y` that lie before the first of month `m`; month 13
      stands for the end of the year. */
  function DaysBeforeMonth(y: int, m: int): (r: int)
    requires 1 <= m <= 13
  {
    var common :=
      if m == 1 then 0 else if m == 2 then 31 else if m == 3 then 59
      else if m == 4 then 90 else if m == 5 then 120 else if m == 6 then 151
      else if m == 7 then 181 else if m == 8 then 212 else if m == 9 then 243
      else if m == 10 then 273 else if m == 11 then 304 else if m == 12 then 334
      else 365;
    common + (if IsLeapYear(y) && m > 2 then 1 else 0)
  }

  /** The cumulative table agrees with the month lengths, month by month,
      and ends at the length of the year. */
  lemma MonthsFillYear(y: int, m: int)
    requires 1 <= m <= 12
    ensures DaysBeforeMonth(y, m + 1) == DaysBeforeMonth(y, m) + DaysInMonth(y, m)
    ensures DaysBeforeMonth(y, 13) == DaysInYear(y)
  {
  }

  predicate ValidDate(d: Date) {
    1 <= d.month <= 12 && 1 <= d.day <= DaysInMonth(d.year, d.month)
  }

  /** DateTime.DayOfYear: 1 for January 1st, 365 or 366 for December 31st. */
  function DayOfYear(d: Date): (r: int)
    requires ValidDate(d)
    ensures DaysBeforeMonth(d.year, d.month) < r <= DaysBeforeMonth(d.year, d.month + 1)
    ensures 1 <= r <= DaysInYear(d.year)
  {
    MonthsFillYear(d.year, d.month);
    DaysBeforeMonth(d.year, d.month) + d.day
  }

  /** The month of year `y` that holds day `n` of the year, searched from month `m` on. */
  function MonthContaining(y: int, n: int, m: int): (r: int)
    requires 1 <= m <= 12 && DaysBeforeMonth(y, m) < n <= DaysInYear(y)
    ensures m <= r <= 12
    ensures DaysBeforeMonth(y, r) < n <= DaysBeforeMonth(y, r + 1)
    decreases 12 - m
  {
    MonthsFillYear(y, m);
    if m == 12 || n <= DaysBeforeMonth(y, m + 1) then m else MonthContaining(y, n, m + 1)
  }

  /** The date that is day `n` of year `y`: the inverse of DayOfYear. */
  function DateAt(y: int, n: int): (r: Date)
    requires 1 <= n <= DaysInYear(y)
    ensures ValidDate(r) && r.year == y
    ensures DayOfYear(r) == n
  {
    var m := MonthContaining(y, n, 1);
    MonthsFillYear(y, m);
    Date(y, m, n - DaysBeforeMonth(y, m))
  }

  /** The other half of the round trip: a valid date is recovered from its day of the year. */
  lemma DateAtDayOfYear(d: Date)
    requires ValidDate(d)
    ensures DateAt(d.year, DayOfYear(d)) == d
  {
    var n := DayOfYear(d);
    var r := DateAt(d.year, n);
    MonthsFillYear(d.year, r.month);
    MonthsFillYear(d.year, d.month);
    if r.month < d.month {
      DaysBeforeMonthMonotone(d.year, r.month + 1, d.month);
    } else if d.month < r.month {
      DaysBeforeMonthMonotone(d.year, d.month + 1, r.month);
    }
  }

  lemma DaysBeforeMonthMonotone(y: int, m1: int, m2: int)
    requires 1 <= m1 <= m2 <= 13
    ensures DaysBeforeMonth(y, m1) <= DaysBeforeMonth(y, m2)
  {
  }

  /** Days from 0001-01-01 to January 1st of year `y`. */
  function DaysBeforeYear(y: int): (r: int) {
    var p := y - 1;
    365 * p + p / 4 - p / 100 + p / 400
  }

  /** Consecutive years are laid end to end: year `y + 1` starts right after
      the last day of year `y`. */
  lemma DaysBeforeNextYear(y: int)
    ensures DaysBeforeYear(y + 1) == DaysBeforeYear(y) + DaysInYear(y)
  {
    var p := y - 1;
    assert y / 4 - p / 4 == (if y % 4 == 0 then 1 else 0);
    assert y / 100 - p / 100 == (if y % 100 == 0 then 1 else 0);
    assert y / 400 - p / 400 == (if y % 400 == 0 then 1 else 0);
  }

  /** Days from 0001-01-01 to `d`. */
  function Ordinal(d: Date): (r: int)
    requires ValidDate(d)
  {
    DaysBeforeYear(d.year) + DayOfYear(d) - 1
  }

  /** The numbering of System.DayOfWeek: Sunday is 0, Saturday is 6. */
  datatype DayOfWeek = Sunday | Monday | Tuesday | Wednesday | Thursday | Friday | Saturday

  function DayOfWeekNumber(w: DayOfWeek): (r: int)
    ensures 0 <= r < 7
  {
    match w
    case Sunday => 0
    case Monday => 1
    case Tuesday => 2
    case Wednesday => 3
    case Thursday => 4
    case Friday => 5
    case Saturday => 6
  }

  function DayOfWeekFromNumber(k: int): (w: DayOfWeek)
    requires 0 <= k < 7
    ensures DayOfWeekNumber(w) == k
  {
    if k == 0 then Sunday
    else if k == 1 then Monday
    else if k == 2 then Tuesday
    else if k == 3 then Wednesday
    else if k == 4 then Thursday
    else if k == 5 then Friday
    else Saturday
  }

  /** The weekday of day `n` counted from January 1st of year `y` (n == 1);
      `n` may run past the year, as "December 31st + 1" does. Day 0 of the
      ordinal count is a Monday, so the .NET number is (ordinal + 1) % 7. */
  function DayOfWeekAt(y: int, n: int): (w: DayOfWeek) {
    DayOfWeekFromNumber((DaysBeforeYear(y) + n) % 7)
  }

  /** Moving `j` days on moves the weekday `j` places on, modulo 7. */
  lemma DayOfWeekShift(y: int, n: int, j: int)
    ensures DayOfWeekNumber(DayOfWeekAt(y, n + j)) == (DayOfWeekNumber(DayOfWeekAt(y, n)) + j) % 7
  {
  }

  /** DateTime.DayOfWeek. */
  function DayOfWeekOf(d: Date): (w: DayOfWeek)
    requires ValidDate(d)
    ensures DayOfWeekNumber(w) == (Ordinal(d) + 1) % 7
  {
    DayOfWeekAt(d.year, DayOfYear(d))
  }

  /** The proleptic calendar starts on a Monday, 0001-01-01, as in .NET. */
  lemma FirstDayIsMonday()
    ensures Ordinal(Date(1, 1, 1)) == 0
    ensures DayOfWeekOf(Date(1, 1, 1)) == Monday
  {
  }
}
