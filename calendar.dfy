/** The proleptic Gregorian calendar as Python's `datetime` uses it
    (ISO 8601:2004, sections 4.1.2.2 and 4.1.3). */
module Calendar {

  /** A naive `datetime.datetime`: calendar date and wall-clock time. */
  datatype DateTime = DateTime(year: int, month: int, day: int,
                               hour: int, minute: int, second: int, microsecond: int)

  predicate IsLeapYear(year: int) {
    year % 4 == 0 && (year % 100 != 0 || year % 400 == 0)
  }

  function DaysInYear(year: int): (n: int)
    ensures n == 365 || n == 366
    ensures n == 366 <==> IsLeapYear(year)
  {
    if IsLeapYear(year) then 366 else 365
  }

  function DaysInMonth(year: int, month: int): (n: int)
    requires 1 <= month <= 12
    ensures 28 <= n <= 31
    ensures n == 29 <==> month == 2 && IsLeapYear(year)
  {
    if month == 2 then (if IsLeapYear(year) then 29 else 28)
    else if month == 4 || month == 6 || month == 9 || month == 11 then 30
    else 31
  }

  /** Python's `datetime` accepts years 1 to 9999. */
  predicate ValidDate(year: int, month: int, day: int) {
    1 <= year <= 9999 && 1 <= month <= 12 && 1 <= day <= DaysInMonth(year, month)
  }

  predicate ValidDateTime(dt: DateTime) {
    && ValidDate(dt.year, dt.month, dt.day)
    && 0 <= dt.hour < 24 && 0 <= dt.minute < 60 && 0 <= dt.second < 60
    && 0 <= dt.microsecond < 1000000
  }

  /** A `datetime` object: Python never constructs one with out-of-range fields. */
  type Instant = dt: DateTime | ValidDateTime(dt) witness DateTime(1, 1, 1, 0, 0, 0, 0)

  predicate IsMidnight(dt: DateTime) {
    dt.hour == 0 && dt.minute == 0 && dt.second == 0 && dt.microsecond == 0
  }

  function Midnight(year: int, month: int, day: int): (dt: DateTime)
    ensures IsMidnight(dt)
    ensures dt.year == year && dt.month == month && dt.day == day
  {
    DateTime(year, month, day, 0, 0, 0, 0)
  }

  /** Number of days in the months of `year` that precede `month`. */
  function DaysBeforeMonth(year: int, month: int): (n: int)
    requires 1 <= month <= 13
    decreases month
  {
    if month == 1 then 0 else DaysBeforeMonth(year, month - 1) + DaysInMonth(year, month - 1)
  }

  /** The months before `month` have between 28 and 31 days each, and all twelve
      months together make up the year. */
  lemma {:induction false} DaysBeforeMonthBounds(year: int, month: int)
    requires 1 <= month <= 13
    ensures 28 * (month - 1) <= DaysBeforeMonth(year, month) <= 31 * (month - 1)
    ensures month == 13 ==> DaysBeforeMonth(year, month) == DaysInYear(year)
    ensures month == 12 ==> DaysBeforeMonth(year, month) == DaysInYear(year) - 31
    decreases month
  {
    if month > 1 {
      DaysBeforeMonthBounds(year, month - 1);
    }
  }

  /** A later month of the same year starts after every day of an earlier month. */
  lemma {:induction false} DaysBeforeMonthGrows(year: int, m1: int, m2: int)
    requires 1 <= m1 < m2 <= 13
    ensures DaysBeforeMonth(year, m1) + DaysInMonth(year, m1) <= DaysBeforeMonth(year, m2)
    decreases m2
  {
    if m2 > m1 + 1 {
      DaysBeforeMonthGrows(year, m1, m2 - 1);
    }
  }

  /** The ordinal day of the year (`tm_yday`): 1 January is day 1. */
  function DayOfYear(year: int, month: int, day: int): (n: int)
    requires ValidDate(year, month, day)
    ensures 1 <= n <= DaysInYear(year)
  {
    DaysBeforeMonthBounds(year, month);
    DaysBeforeMonthGrows(year, month, 13);
    DaysBeforeMonthBounds(year, 13);
    DaysBeforeMonth(year, month) + day
  }

  /** Only 1 January is day 1, and only 31 December is the last day of the year. */
  lemma DayOfYearEnds(year: int, month: int, day: int)
    requires ValidDate(year, month, day)
    ensures DayOfYear(year, month, day) == 1 <==> month == 1 && day == 1
    ensures DayOfYear(year, month, day) == DaysInYear(year) <==> month == 12 && day == 31
  {
    DaysBeforeMonthBounds(year, month);
    DaysBeforeMonthBounds(year, 12);
    if month < 12 {
      DaysBeforeMonthGrows(year, month, 12);
    }
  }

  /** Python's comparison of naive datetimes: field by field, most significant first. */
  predicate Before(a: DateTime, b: DateTime) {
    if a.year != b.year then a.year < b.year
    else if a.month != b.month then a.month < b.month
    else if a.day != b.day then a.day < b.day
    else if a.hour != b.hour then a.hour < b.hour
    else if a.minute != b.minute then a.minute < b.minute
    else if a.second != b.second then a.second < b.second
    else a.microsecond < b.microsecond
  }

  predicate NotAfter(a: DateTime, b: DateTime) {
    a == b || Before(a, b)
  }

  /** Two datetimes are equal or one comes before the other. */
  lemma BeforeTotal(a: DateTime, b: DateTime)
    ensures a == b || Before(a, b) || Before(b, a)
  {
  }

  /** No datetime comes both before and after another. */
  lemma BeforeAsymmetric(a: DateTime, b: DateTime)
    requires Before(a, b)
    ensures !Before(b, a) && a != b
  {
  }

  lemma BeforeTransitive(a: DateTime, b: DateTime, c: DateTime)
    requires Before(a, b) && Before(b, c)
    ensures Before(a, c)
  {
  }
}
