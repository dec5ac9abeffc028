/**
 * Wall-clock time as whole minutes counted from midnight at the start of
 * Thursday 1 January 1970, in the single time zone the application works in.
 * Day numbers count whole days from that midnight; weekdays use the
 * JavaScript `getDay` numbering (0 = Sunday, ..., 6 = Saturday).
 */
module Time {
  const MinutesPerHour := 60
  const MinutesPerDay := 1440

  /** The day a minute falls on (floor division, so negative times work too). */
  function Day(t: int): int { t / MinutesPerDay }

  /** Minutes elapsed since midnight of the day `t` falls on. */
  function MinuteOfDay(t: int): int { t % MinutesPerDay }

  /** Midnight at the start of day `d`. */
  function Midnight(d: int): int { d * MinutesPerDay }

  /** `startOfDay(t)`. */
  function DayStart(t: int): int { Midnight(Day(t)) }

  /** `setMinutes(setHours(t, hour), 0)`: the given hour on the day of `t`. */
  function At(t: int, hour: int): int { DayStart(t) + hour * MinutesPerHour }

  /** `startOfDay(addDays(t, k))` followed by `setHours(hour)`, `setMinutes(0)`. */
  function HourOfDayAfter(t: int, k: int, hour: int): int {
    Midnight(Day(t) + k) + hour * MinutesPerHour
  }

  /** The weekday of day number `d`: day 0 was a Thursday. */
  function WeekdayOfDay(d: int): int { (d + 4) % 7 }

  function Weekday(t: int): int { WeekdayOfDay(Day(t)) }

  predicate IsWeekendDay(d: int) { WeekdayOfDay(d) == 0 || WeekdayOfDay(d) == 6 }

  /** date-fns `isWeekend`. */
  predicate IsWeekend(t: int) { IsWeekendDay(Day(t)) }

  lemma DayOfMidnightPlus(d: int, m: int)
    requires 0 <= m < MinutesPerDay
    ensures Day(Midnight(d) + m) == d && MinuteOfDay(Midnight(d) + m) == m
  {
  }

  lemma DayDecomposition(t: int)
    ensures t == Midnight(Day(t)) + MinuteOfDay(t)
    ensures 0 <= MinuteOfDay(t) < MinutesPerDay
  {
  }

  /** Moving `k` days on moves the weekday `k` places on, modulo the week. */
  lemma WeekdayShift(d: int, k: int)
    ensures WeekdayOfDay(d + k) == (WeekdayOfDay(d) + k) % 7
  {
  }

  /** A time on day `d` at an hour inside the day is on day `d`. */
  lemma HourOfDayAfterFacts(t: int, k: int, hour: int)
    requires 0 <= hour < 24
    ensures Day(HourOfDayAfter(t, k, hour)) == Day(t) + k
    ensures At(HourOfDayAfter(t, k, hour), hour) == HourOfDayAfter(t, k, hour)
  {
    DayOfMidnightPlus(Day(t) + k, hour * MinutesPerHour);
  }

  /** Sunday start of the week containing day `d` (date-fns `startOfWeek`, weekStartsOn 0). */
  function StartOfWeek(d: int): (s: int)
    ensures s <= d < s + 7 && WeekdayOfDay(s) == 0
  {
    d - WeekdayOfDay(d)
  }

  /** Saturday end of the week containing day `d` (date-fns `endOfWeek`, weekStartsOn 0). */
  function EndOfWeek(d: int): (e: int)
    ensures e - 7 < d <= e && WeekdayOfDay(e) == 6
  {
    StartOfWeek(d) + 6
  }

  // ---------------------------------------------------------------------
  // Civil (proleptic Gregorian) calendar, for month grids and week titles.
  // ---------------------------------------------------------------------

  datatype CivilDate = CivilDate(year: int, month: int, day: int)

  predicate IsLeapYear(y: int) { y % 4 == 0 && (y % 100 != 0 || y % 400 == 0) }

  function DaysInMonth(y: int, m: int): (n: int)
    requires 1 <= m <= 12
    ensures 28 <= n <= 31
  {
    if m == 2 then (if IsLeapYear(y) then 29 else 28)
    else if m == 4 || m == 6 || m == 9 || m == 11 then 30
    else 31
  }

  /** Day number of a civil date (days-from-civil; March-based years). */
  function DaysFromCivil(y: int, m: int, d: int): int
    requires 1 <= m <= 12
  {
    var y' := if m <= 2 then y - 1 else y;
    var era := y' / 400;
    var yoe := y' - era * 400;
    var mp := if m > 2 then m - 3 else m + 9;
    var doy := (153 * mp + 2) / 5 + d - 1;
    var doe := yoe * 365 + yoe / 4 - yoe / 100 + doy;
    era * 146097 + doe - 719468
  }

  /** Civil date of a day number (the civil-from-days algorithm). */
  function CivilFromDays(z: int): (c: CivilDate)
    ensures 1 <= c.month <= 12
  {
    var z' := z + 719468;
    var era := z' / 146097;
    var doe := z' - era * 146097;
    var yoe := (doe - doe / 1460 + doe / 36524 - doe / 146096) / 365;
    var doy := doe - (365 * yoe + yoe / 4 - yoe / 100);
    var mp := (5 * doy + 2) / 153;
    var d := doy - (153 * mp + 2) / 5 + 1;
    var m := if mp < 10 then mp + 3 else mp - 9;
    CivilDate(yoe + era * 400 + (if m <= 2 then 1 else 0), m, d)
  }

  /** The first and last day numbers of the month that day `d` belongs to. */
  function StartOfMonth(d: int): int {
    var c := CivilFromDays(d);
    DaysFromCivil(c.year, c.month, 1)
  }

  function EndOfMonth(d: int): int {
    var c := CivilFromDays(d);
    DaysFromCivil(c.year, c.month, DaysInMonth(c.year, c.month))
  }

  lemma MonthBoundsOrdered(d: int)
    ensures StartOfMonth(d) + 27 <= EndOfMonth(d) <= StartOfMonth(d) + 30
  {
  }

  /** date-fns `isSameMonth`. */
  predicate IsSameMonth(d1: int, d2: int) {
    CivilFromDays(d1).year == CivilFromDays(d2).year &&
    CivilFromDays(d1).month == CivilFromDays(d2).month
  }

  /**
   * An ISO 8601 string field of a request body: absent or empty, a string
   * `parseISO` turns into an invalid date, or an instant.
   */
  datatype IsoTime = NoTime | InvalidTime | TimeAt(t: int)
}
