/**
 * The part of .NET's `DateTime` the analytics code relies on: a proleptic Gregorian
 * calendar, instants counted in seconds from 0001-01-01 00:00, `AddMonths` and
 * `AddYears` (which clamp the day to the end of a shorter month), `AddDays` and `.Date`.
 */
module Calendar {
  const SecondsPerDay: int := 86400

  predicate IsLeapYear(y: int) {
    y % 4 == 0 && (y % 100 != 0 || y % 400 == 0)
  }

  function DaysInMonth(y: int, m: int): (n: int)
    requires 1 <= m <= 12
    ensures 28 <= n <= 31
    ensures n == 29 <==> m == 2 && IsLeapYear(y)
  {
    if m == 2 then (if IsLeapYear(y) then 29 else 28)
    else if m == 4 || m == 6 || m == 9 || m == 11 then 30
    else 31
  }

  function DaysInYear(y: int): int {
    if IsLeapYear(y) then 366 else 365
  }

  /** Days from 0001-01-01 to January 1st of year `y`. */
  function DaysBeforeYear(y: int): int {
    var p := y - 1;
    365 * p + p / 4 - p / 100 + p / 400
  }

  /** Days from January 1st to the first of month `m`. */
  function DaysBeforeMonth(y: int, m: int): int
    requires 1 <= m <= 12
  {
    var common := [0, 31, 59, 90, 120, 151, 181, 212, 243, 273, 304, 334][m - 1];
    if m > 2 && IsLeapYear(y) then common + 1 else common
  }

  /** A calendar date with a time of day, as `DateTime` stores it (in seconds). */
  datatype DateTime = DateTime(year: int, month: int, day: int, secondOfDay: int)

  predicate ValidDateTime(d: DateTime) {
    1 <= d.month <= 12 && 1 <= d.day <= DaysInMonth(d.year, d.month) && 0 <= d.secondOfDay < SecondsPerDay
  }

  /** Days since 0001-01-01. */
  function DayNumber(d: DateTime): int
    requires ValidDateTime(d)
  {
    DaysBeforeYear(d.year) + DaysBeforeMonth(d.year, d.month) + d.day - 1
  }

  /** The instant as seconds since 0001-01-01 00:00. */
  function ToSeconds(d: DateTime): int
    requires ValidDateTime(d)
  {
    DayNumber(d) * SecondsPerDay + d.secondOfDay
  }

  /** `.Date` of an instant given in seconds: its day number. */
  function DayOf(seconds: int): int {
    seconds / SecondsPerDay
  }

  lemma DayOfToSeconds(d: DateTime)
    requires ValidDateTime(d)
    ensures DayOf(ToSeconds(d)) == DayNumber(d)
  {
  }

  /** `d.AddMonths(n)`: move by whole months and clamp the day to the target month's length. */
  function AddMonths(d: DateTime, n: int): (r: DateTime)
    requires ValidDateTime(d)
    ensures ValidDateTime(r)
    ensures r.year * 12 + r.month == d.year * 12 + d.month + n
    ensures r.day == if d.day <= DaysInMonth(r.year, r.month) then d.day else DaysInMonth(r.year, r.month)
    ensures r.secondOfDay == d.secondOfDay
  {
    var t := d.year * 12 + (d.month - 1) + n;
    var y, m := t / 12, t % 12 + 1;
    var last := DaysInMonth(y, m);
    DateTime(y, m, if d.day <= last then d.day else last, d.secondOfDay)
  }

  /** `d.AddYears(n)`, which .NET computes as `AddMonths(12 * n)`. */
  function AddYears(d: DateTime, n: int): (r: DateTime)
    requires ValidDateTime(d)
    ensures ValidDateTime(r)
    ensures r.year == d.year + n && r.month == d.month && r.secondOfDay == d.secondOfDay
    ensures !(d.month == 2 && d.day == 29 && !IsLeapYear(r.year)) ==> r.day == d.day
    ensures d.month == 2 && d.day == 29 && !IsLeapYear(r.year) ==> r.day == 28
  {
    AddMonths(d, 12 * n)
  }

  /** A year before February 29th is February 28th. */
  lemma LeapDayYearBack()
    ensures AddYears(DateTime(2024, 2, 29, 3600), -1) == DateTime(2023, 2, 28, 3600)
  {
  }

  /** Consecutive years are a year's length apart. */
  lemma DaysBeforeNextYear(y: int)
    ensures DaysBeforeYear(y + 1) == DaysBeforeYear(y) + DaysInYear(y)
  {
    QuotientStep4(y);
    QuotientStep100(y);
    QuotientStep400(y);
  }

  /** The leap-year counts step up exactly at the multiples of 4, 100 and 400. */
  lemma QuotientStep4(y: int)
    ensures y / 4 - (y - 1) / 4 == if y % 4 == 0 then 1 else 0
  {
  }

  lemma QuotientStep100(y: int)
    ensures y / 100 - (y - 1) / 100 == if y % 100 == 0 then 1 else 0
  {
  }

  lemma QuotientStep400(y: int)
    ensures y / 400 - (y - 1) / 400 == if y % 400 == 0 then 1 else 0
  {
  }

  /** One month after the first of a month is the first of the following month. */
  lemma FirstOfNextMonth(y: int, m: int)
    requires 1 <= m <= 12
    ensures AddMonths(DateTime(y, m, 1, 0), 1) == if m == 12 then DateTime(y + 1, 1, 1, 0) else DateTime(y, m + 1, 1, 0)
  {
    var t := y * 12 + (m - 1) + 1;
    if m == 12 {
      assert t == (y + 1) * 12;
      assert t / 12 == y + 1 && t % 12 == 0;
    } else {
      assert t == y * 12 + m && 0 <= m < 12;
      assert t / 12 == y && t % 12 == m;
    }
  }

  /** The first of the next month comes the day after the last day of this month. */
  lemma NextMonthFollowsLastDay(y: int, m: int)
    requires 1 <= m <= 12
    ensures var last := DateTime(y, m, DaysInMonth(y, m), 0);
      var next := AddMonths(DateTime(y, m, 1, 0), 1);
      next.day == 1 && DayNumber(next) == DayNumber(last) + 1
  {
    FirstOfNextMonth(y, m);
    if m == 12 {
      DaysBeforeNextYear(y);
    }
  }

  /** The first day of the month `i` months before the month of `today`. */
  function MonthStart(today: DateTime, i: int): (r: DateTime)
    requires ValidDateTime(today)
    ensures ValidDateTime(r) && r.day == 1 && r.secondOfDay == 0
  {
    AddMonths(DateTime(today.year, today.month, 1, 0), -i)
  }

  /** `monthStart.AddMonths(1).AddDays(-1)`: midnight at the start of the month's last day. */
  function MonthEnd(monthStart: DateTime): int
    requires ValidDateTime(monthStart)
  {
    ToSeconds(AddMonths(monthStart, 1)) - SecondsPerDay
  }

  /** The end of a month window is the start of its last day, not its end. */
  lemma MonthEndIsLastMidnight(monthStart: DateTime)
    requires ValidDateTime(monthStart) && monthStart.day == 1 && monthStart.secondOfDay == 0
    ensures var lastDay := DateTime(monthStart.year, monthStart.month, DaysInMonth(monthStart.year, monthStart.month), 0);
      MonthEnd(monthStart) == ToSeconds(lastDay)
  {
    NextMonthFollowsLastDay(monthStart.year, monthStart.month);
  }
}
