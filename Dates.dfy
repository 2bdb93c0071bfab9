/** Calendar dates as UTC day numbers (day 0 is 1970-01-01), the weekday
    of a date, and the injected clock. The handlers parse `"YYYY-MM-DD"`
    with `parseDateUTC` and `getDayOfWeek`, whose bodies are not part of this
    model: both are taken to decompose the text into year, month and day and
    to go through `Date.UTC`, so the weekday is the weekday of the parsed
    day number. */
module Dates {
  import opened TimeText

  const MsPerDay: int := 24 * 60 * 60 * 1000
  const MsPerMinute: int := 60 * 1000

  /** `^\d{4}-\d{2}-\d{2}$` */
  predicate IsValidDateFormat(s: string) {
    && |s| == 10
    && IsDigit(s[0]) && IsDigit(s[1]) && IsDigit(s[2]) && IsDigit(s[3])
    && s[4] == '-'
    && IsDigit(s[5]) && IsDigit(s[6])
    && s[7] == '-'
    && IsDigit(s[8]) && IsDigit(s[9])
  }

  function YearOf(s: string): nat
    requires IsValidDateFormat(s)
  {
    DigitValue(s[0]) * 1000 + DigitValue(s[1]) * 100 + DigitValue(s[2]) * 10 + DigitValue(s[3])
  }

  function MonthOf(s: string): nat
    requires IsValidDateFormat(s)
  {
    DigitValue(s[5]) * 10 + DigitValue(s[6])
  }

  function DayOf(s: string): nat
    requires IsValidDateFormat(s)
  {
    DigitValue(s[8]) * 10 + DigitValue(s[9])
  }

  /** Days from 1970-01-01 to the given proleptic Gregorian date
      (month 1..12), by the usual era/day-of-era decomposition. Dafny's
      `/` and `%` on a positive divisor floor, as the decomposition needs. */
  function DaysFromCivil(y: int, m: int, d: int): int
    requires 1 <= m <= 12
  {
    var yy := if m <= 2 then y - 1 else y;
    var era := yy / 400;
    var yoe := yy % 400;
    var mp := (m + 9) % 12;
    var doy := (153 * mp + 2) / 5 + d - 1;
    var doe := yoe * 365 + yoe / 4 - yoe / 100 + doy;
    era * 146097 + doe - 719468
  }

  /** `Date.UTC(y, monthIndex, d)` in whole days: a month index past 11
      rolls into later years and a day past the month's end (or day 0)
      rolls into the neighbouring month. JavaScript's `Date.UTC` also reads
      a year from 0 to 99 as 1900 to 1999; this function does not, which
      changes no handler's answer, since such a date is in the past either
      way. */
  function DateUTC(y: int, monthIndex: int, d: int): int {
    DaysFromCivil(y + monthIndex / 12, monthIndex % 12 + 1, 1) + d - 1
  }

  /** `parseDateUTC`: the UTC midnight of the text's year, month and day. */
  function ParseDateUTC(s: string): int
    requires IsValidDateFormat(s)
  {
    DateUTC(YearOf(s), MonthOf(s) - 1, DayOf(s))
  }

  predicate IsLeapYear(y: int) {
    y % 4 == 0 && (y % 100 != 0 || y % 400 == 0)
  }

  function DaysInMonth(y: int, m: int): nat
    requires 1 <= m <= 12
  {
    if m == 2 then (if IsLeapYear(y) then 29 else 28)
    else if m == 4 || m == 6 || m == 9 || m == 11 then 30
    else 31
  }

  /** A date text that `toISOString().split('T')[0]` could have produced:
      its month and day exist. Such a text equals the ISO rendering of a
      stored date exactly when it parses to that date. */
  predicate IsCanonicalDate(s: string) {
    IsValidDateFormat(s) && 1 <= MonthOf(s) <= 12 && 1 <= DayOf(s) <= DaysInMonth(YearOf(s), MonthOf(s))
  }

  /** The keys of a `workingHours` object. */
  datatype Weekday = Sunday | Monday | Tuesday | Wednesday | Thursday | Friday | Saturday

  /** The UTC weekday of a day number; 1970-01-01 was a Thursday. */
  function DayOfWeek(day: int): Weekday {
    match (day + 4) % 7
    case 0 => Sunday
    case 1 => Monday
    case 2 => Tuesday
    case 3 => Wednesday
    case 4 => Thursday
    case 5 => Friday
    case _ => Saturday
  }

  /** `getDayOfWeek`: the weekday of the parsed date. */
  function GetDayOfWeek(s: string): Weekday
    requires IsValidDateFormat(s)
  {
    DayOfWeek(ParseDateUTC(s))
  }

  /** The clock the handlers read: the current instant in milliseconds
      since the epoch, and the server's local minute of the day (the
      availability handler uses local `getHours`/`getMinutes`). */
  datatype Clock = Clock(nowMs: int, localMinuteOfDay: int)

  /** The UTC calendar day containing an instant (`toISOString` date part). */
  function UtcDay(ms: int): (day: int)
    ensures day * MsPerDay <= ms < day * MsPerDay + MsPerDay
  {
    ms / MsPerDay
  }

  /** `todayUTC`: midnight UTC of the current day. */
  function Today(c: Clock): int {
    UtcDay(c.nowMs)
  }

  /** Weekdays repeat every seven days. */
  lemma WeekdayPeriodic(day: int)
    ensures DayOfWeek(day + 7) == DayOfWeek(day)
  {
    assert (day + 7 + 4) % 7 == (day + 4) % 7;
  }

  /** The example of the booking handler: 2026-02-23 is day 20507 and a Monday. */
  lemma ExampleDate()
    ensures IsValidDateFormat("2026-02-23")
    ensures ParseDateUTC("2026-02-23") == 20507
    ensures GetDayOfWeek("2026-02-23") == Monday
  {
    var s := "2026-02-23";
    assert s[0] == '2' && s[1] == '0' && s[2] == '2' && s[3] == '6' && s[5] == '0' && s[6] == '2';
    assert s[8] == '2' && s[9] == '3';
    assert YearOf(s) == 2026 && MonthOf(s) == 2 && DayOf(s) == 23;
    assert DaysFromCivil(2026, 2, 1) == 20485;
  }

  /** `Date.UTC` normalises an overflowing month: "2026-13-01" is 2027-01-01. */
  lemma MonthOverflowExample()
    ensures IsValidDateFormat("2026-13-01") && IsValidDateFormat("2027-01-01")
    ensures ParseDateUTC("2026-13-01") == ParseDateUTC("2027-01-01")
    ensures !IsCanonicalDate("2026-13-01") && IsCanonicalDate("2027-01-01")
  {
    var a, b := "2026-13-01", "2027-01-01";
    assert a[0] == '2' && a[1] == '0' && a[2] == '2' && a[3] == '6' && a[5] == '1' && a[6] == '3';
    assert a[8] == '0' && a[9] == '1';
    assert b[0] == '2' && b[1] == '0' && b[2] == '2' && b[3] == '7' && b[5] == '0' && b[6] == '1';
    assert b[8] == '0' && b[9] == '1';
    assert YearOf(a) == 2026 && MonthOf(a) == 13 && DayOf(a) == 1;
    assert YearOf(b) == 2027 && MonthOf(b) == 1 && DayOf(b) == 1;
  }
}
