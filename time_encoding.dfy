/** Phase encodings of timestamps: the fraction of the day and of the year that has
    elapsed (`notebooks/utils/time.py`). */
module TimeEncoding {
  import opened Calendar

  /** `(dt - midnight).total_seconds()`: the clock part in seconds, microseconds included. */
  function SecondsSinceMidnight(dt: Instant): (s: real)
    ensures 0.0 <= s < 86400.0
  {
    (dt.hour * 3600 + dt.minute * 60 + dt.second) as real + dt.microsecond as real / 1000000.0
  }

  /** `_time_of_day`: the elapsed part of the day, seconds since midnight over 86400. */
  function TimeOfDay(dt: Instant): (r: real)
    ensures 0.0 <= r < 1.0
    ensures r * 86400.0 == SecondsSinceMidnight(dt)
  {
    SecondsSinceMidnight(dt) / 86400.0
  }

  /** The time of day depends on the clock alone, not on the date. */
  lemma TimeOfDayIgnoresDate(a: Instant, b: Instant)
    requires a.hour == b.hour && a.minute == b.minute && a.second == b.second
    requires a.microsecond == b.microsecond
    ensures TimeOfDay(a) == TimeOfDay(b)
  {
  }

  /** Within a day the encoding keeps the order of the clock: a strictly earlier time of
      the same date has a strictly smaller time of day. */
  lemma TimeOfDayIncreases(a: Instant, b: Instant)
    requires a.year == b.year && a.month == b.month && a.day == b.day
    requires Before(a, b)
    ensures TimeOfDay(a) < TimeOfDay(b)
  {
    var ca := a.hour * 3600 + a.minute * 60 + a.second;
    var cb := b.hour * 3600 + b.minute * 60 + b.second;
    if ca == cb {
      assert a.hour == b.hour && a.minute == b.minute && a.second == b.second;
      assert a.microsecond < b.microsecond;
    } else {
      assert ca < cb;
      assert ca + 1 <= cb;
    }
  }

  /** Two times of day are equal only for the same clock reading. */
  lemma TimeOfDayInjective(a: Instant, b: Instant)
    requires a.year == b.year && a.month == b.month && a.day == b.day
    requires TimeOfDay(a) == TimeOfDay(b)
    ensures a == b
  {
    if Before(a, b) {
      TimeOfDayIncreases(a, b);
    } else if Before(b, a) {
      TimeOfDayIncreases(b, a);
    }
  }

  /** The five cases of the unit test for `_time_of_day`. */
  lemma TimeOfDayExamples()
    ensures TimeOfDay(DateTime(2020, 1, 1, 0, 0, 0, 0)) == 0.0
    ensures TimeOfDay(DateTime(2020, 1, 1, 6, 0, 0, 0)) == 0.25
    ensures TimeOfDay(DateTime(2020, 1, 1, 12, 0, 0, 0)) == 0.5
    ensures TimeOfDay(DateTime(2020, 1, 1, 18, 0, 0, 0)) == 0.75
    ensures TimeOfDay(DateTime(2020, 1, 2, 0, 0, 0, 0)) == 0.0
  {
  }

  /** `_time_of_year`: the days elapsed before this one over a fixed 365-day year. */
  function TimeOfYear(dt: Instant): (r: real)
    ensures 0.0 <= r <= 1.0
  {
    (DayOfYear(dt.year, dt.month, dt.day) - 1) as real / 365.0
  }

  /** 1 January, and only 1 January, is the start of the year. */
  lemma TimeOfYearStart(dt: Instant)
    ensures TimeOfYear(dt) == 0.0 <==> dt.month == 1 && dt.day == 1
  {
    DayOfYearEnds(dt.year, dt.month, dt.day);
  }

  /** Because the divisor is always 365, the value 1.0 is reached only on 31 December of a
      leap year; in other years the largest value is 364/365. */
  lemma TimeOfYearEnd(dt: Instant)
    ensures TimeOfYear(dt) == 1.0 <==> IsLeapYear(dt.year) && dt.month == 12 && dt.day == 31
    ensures !IsLeapYear(dt.year) ==> TimeOfYear(dt) <= 364.0 / 365.0
    ensures !IsLeapYear(dt.year) && dt.month == 12 && dt.day == 31 ==> TimeOfYear(dt) == 364.0 / 365.0
  {
    DayOfYearEnds(dt.year, dt.month, dt.day);
  }

  /** Within a year a later date has a larger time of year, and the clock plays no part. */
  lemma TimeOfYearIncreases(a: Instant, b: Instant)
    requires a.year == b.year
    requires a.month < b.month || (a.month == b.month && a.day < b.day)
    ensures TimeOfYear(a) < TimeOfYear(b)
  {
    if a.month < b.month {
      DaysBeforeMonthGrows(a.year, a.month, b.month);
    }
  }

  /** The cases of the unit test for `_time_of_year`: 1 January gives 0, 2 July 2020 (day
      184) gives 183/365, which rounds to 0.50, and 31 December 2020 gives 1. */
  lemma TimeOfYearExamples()
    ensures TimeOfYear(DateTime(2020, 1, 1, 0, 0, 0, 0)) == 0.0
    ensures TimeOfYear(DateTime(2020, 7, 2, 0, 0, 0, 0)) == 183.0 / 365.0
    ensures 0.495 <= 183.0 / 365.0 < 0.505
    ensures TimeOfYear(DateTime(2020, 12, 31, 0, 0, 0, 0)) == 1.0
  {
    assert DaysBeforeMonth(2020, 7) == 182;
    TimeOfYearEnd(DateTime(2020, 12, 31, 0, 0, 0, 0));
  }

  /** An `xarray.DataArray` over a time coordinate. */
  datatype DataArray = DataArray(coords: seq<Instant>, data: seq<real>)

  /** `_apply_to_dates`: the encoding of every date, in date order. */
  function ApplyToDates(f: Instant -> real, dates: seq<Instant>): (values: seq<real>)
    ensures |values| == |dates|
    ensures forall i :: 0 <= i < |dates| ==> values[i] == f(dates[i])
  {
    if dates == [] then [] else [f(dates[0])] + ApplyToDates(f, dates[1..])
  }

  /** `get_time_of_day`: one time of day per date, labelled by that date. */
  function GetTimeOfDay(dates: seq<Instant>): (a: DataArray)
    ensures a.coords == dates && |a.data| == |dates|
    ensures forall i :: 0 <= i < |dates| ==> a.data[i] == TimeOfDay(dates[i]) && 0.0 <= a.data[i] < 1.0
  {
    DataArray(dates, ApplyToDates(TimeOfDay, dates))
  }

  /** `get_time_of_year`: one time of year per date, labelled by that date. */
  function GetTimeOfYear(dates: seq<Instant>): (a: DataArray)
    ensures a.coords == dates && |a.data| == |dates|
    ensures forall i :: 0 <= i < |dates| ==> a.data[i] == TimeOfYear(dates[i]) && 0.0 <= a.data[i] <= 1.0
  {
    DataArray(dates, ApplyToDates(TimeOfYear, dates))
  }

  /** `get_time_of_day_and_year`: both encodings over the same dates. */
  function GetTimeOfDayAndYear(dates: seq<Instant>): (r: (DataArray, DataArray))
    ensures r.0 == GetTimeOfDay(dates) && r.1 == GetTimeOfYear(dates)
  {
    (GetTimeOfDay(dates), GetTimeOfYear(dates))
  }

  /** The unit test of `get_time_of_day_and_year`: midnight and 01:00 on 1 January 2020
      give the times of day 0 and 1/24 and the time of year 0 for both. */
  lemma TimeOfDayAndYearExample()
    ensures var dates := [DateTime(2020, 1, 1, 0, 0, 0, 0), DateTime(2020, 1, 1, 1, 0, 0, 0)];
      var (day, year) := GetTimeOfDayAndYear(dates);
      && day == DataArray(dates, [0.0, 1.0 / 24.0])
      && year == DataArray(dates, [0.0, 0.0])
  {
    var dates: seq<Instant> := [DateTime(2020, 1, 1, 0, 0, 0, 0), DateTime(2020, 1, 1, 1, 0, 0, 0)];
    var (day, year) := GetTimeOfDayAndYear(dates);
    assert day.data == [0.0, 1.0 / 24.0];
    assert year.data == [0.0, 0.0];
  }
}
