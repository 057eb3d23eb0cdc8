/**
 * Calendar days as integers. A day is its ordinal in the proleptic Gregorian
 * calendar counted from the common era, 0001-01-01 being day 1 (the numbering
 * of chrono's `num_days_from_ce`). That day was a Monday.
 * Comparing two well-formed ISO-8601 date strings lexicographically orders
 * them exactly as their day numbers are ordered, so the model compares days.
 */
module Calendar {

  datatype Weekday = Mon | Tue | Wed | Thu | Fri | Sat | Sun

  /** The weekday of a day number (day 1 is a Monday). */
  function WeekdayOf(d: int): Weekday
  {
    var k := (d + 6) % 7;
    if k == 0 then Mon
    else if k == 1 then Tue
    else if k == 2 then Wed
    else if k == 3 then Thu
    else if k == 4 then Fri
    else if k == 5 then Sat
    else Sun
  }

  predicate IsLeapYear(y: int)
  {
    y % 4 == 0 && (y % 100 != 0 || y % 400 == 0)
  }

  /** Number of days in the years 1 .. y-1. */
  function DaysBeforeYear(y: int): int
    requires y >= 1
  {
    var p := y - 1;
    365 * p + p / 4 - p / 100 + p / 400
  }

  function DaysInMonth(y: int, m: int): int
    requires 1 <= m <= 12
  {
    if m == 2 then (if IsLeapYear(y) then 29 else 28)
    else if m == 4 || m == 6 || m == 9 || m == 11 then 30
    else 31
  }

  /** Number of days of year y before the first of month m. */
  function DaysBeforeMonth(y: int, m: int): int
    requires 1 <= m <= 12
    decreases m
  {
    if m == 1 then 0 else DaysBeforeMonth(y, m - 1) + DaysInMonth(y, m - 1)
  }

  /** The day number of the date y-m-d. */
  function DayNumber(y: int, m: int, d: int): int
    requires y >= 1 && 1 <= m <= 12 && 1 <= d <= DaysInMonth(y, m)
  {
    DaysBeforeYear(y) + DaysBeforeMonth(y, m) + d
  }

  /** The day number of January 1st of year y, as the string "y-01-01" denotes it. */
  function YearStart(y: int): int
    requires y >= 1
  {
    DayNumber(y, 1, 1)
  }

  /** Weekdays repeat with period seven. */
  lemma WeekdayPeriodic(d: int, k: int)
    ensures WeekdayOf(d + 7 * k) == WeekdayOf(d)
  {
    assert (d + 7 * k + 6) % 7 == (d + 6) % 7;
  }
}
