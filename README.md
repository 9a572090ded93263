# climetlab-plugin-a6 (4castRenewables): a verified model of its data logic

This project models the small, deterministic logic behind the MAELSTROM power-production
plugin and its notebooks in Dafny, and proves what that logic promises:

- **Date requests of the weather datasets** (`weather/abc.py`): parsing `%Y-%m-%d` strings
  the way `datetime.strptime` does, checking them against the daily dates 2017-01-01 to
  2020-12-31, sorting them, and expanding each date into its two remote file names
  `YYYYMMDD_00` and `YYYYMMDD_12`. The `Weather` dataset is a class whose `date` field is
  set by its construction.
- **Nearest grid point and hourly production clean-up** (`notebooks/utils/data.py`):
  closest coordinate per axis, with a unique exact match short-circuiting the search;
  hourly resampling by flooring timestamps and averaging; restriction to the hours
  of a date list; clipping negative values in place in an array.
- **Feature alignment** (`notebooks/utils/model.py`): intersecting the time coordinates of
  the feature series with a narrowing loop, selecting each series at the sorted common
  dates, and zipping the selections into rows in the feature order that training and
  prediction share.
- **Phase encoding of timestamps** (`notebooks/utils/time.py`): time of day and time of
  year, the latter over the proleptic Gregorian calendar with a fixed 365-day divisor.
- **Model-level pressure** (`notebooks/utils/pressure.py`): the mean of two affine maps
  `A + B * p_s` with the mid-level coefficients of a level and of the level above.
- **Error metrics** (`notebooks/utils/metrics.py`): the one-sided filtering of pairs driven
  by `assym`, the choice of normalization, and the normalized mean absolute error.

Every exception the Python code raises is an `Err` value of a `Result`. Timestamps of the
notebook helpers are whole seconds (`int`), the dates of `time.py` and `abc.py` are
`datetime` fields, and floating-point values are exact `real`s.

Files: `results.dfy` (Option and Result), `calendar.dfy` (leap years, day of year, order
of datetimes), `time_index.dfy` (sorted sets of timestamps), `statistics.dfy` (sum, mean,
max, min, variance), `date_ranges.dfy` (the days of whole years), `weather_dates.dfy`,
`grid_data.dfy`, `feature_alignment.dfy`, `time_encoding.dfy`, `pressure.dfy`,
`metrics.dfy`.

## Model

| member | source | states |
|---|---|---|
| Calendar.DaysInYear | notebooks/utils/time.py:65-68 | a year has 366 days exactly when it is a leap year, otherwise 365 |
| Calendar.DaysInMonth | notebooks/utils/time.py:68 | every month has 28 to 31 days, and 29 only for February of a leap year |
| Calendar.DayOfYear | notebooks/utils/time.py:68 | the ordinal day (`tm_yday`) of a valid date lies between 1 and the length of its year |
| Calendar.DayOfYearEnds | notebooks/utils/time.py:68 | the ordinal day is 1 exactly on 1 January, and the last day of the year exactly on 31 December |
| Calendar.BeforeTotal | climetlab_maelstrom_power_production/weather/abc.py:107 | any two datetimes are equal or ordered one way, so `sorted` is defined on them |
| Calendar.BeforeAsymmetric | climetlab_maelstrom_power_production/weather/abc.py:107 | no datetime comes both before and after another |
| Calendar.BeforeTransitive | climetlab_maelstrom_power_production/weather/abc.py:107 | the order of datetimes is transitive |
| TimeIndex.SortedSet | notebooks/utils/model.py:76 | `sorted(set)` holds exactly the set's elements, strictly increasing, each once |
| TimeIndex.SortedSetUnique | notebooks/utils/model.py:76 | any strictly increasing sequence with the set's elements is the sorted set |
| Statistics.Max | notebooks/utils/metrics.py:94 | `np.max` of a non-empty series is one of its values and no value exceeds it |
| Statistics.Min | notebooks/utils/metrics.py:94 | `np.min` of a non-empty series is one of its values and no value is below it |
| Statistics.VarianceNonNegative | notebooks/utils/metrics.py:100 | the population variance is never negative |
| GridData.ExactMatches | notebooks/utils/data.py:115 | the exact matches are as many as the occurrences of the value in the axis, and all equal it |
| GridData.FirstClosestIndex | notebooks/utils/data.py:119 | `min(..., key=abs(x - value))` picks an element no farther than any other and strictly nearer than every earlier one |
| GridData.ClosestCoordinate | notebooks/utils/data.py:114-119 | a value occurring once is returned as is; occurring more than once is an error; an empty axis is an error; otherwise an axis element at minimal distance, the first such one |
| GridData.StrictlyNearestWins | notebooks/utils/data.py:119 | without an exact match, an element strictly nearer than all others is the result |
| GridData.DuplicateMatchExample | notebooks/utils/data.py:117 | the value 2 occurring twice in [2, 5, 2] makes `[match] = exact_match` fail |
| GridData.NearestInIntegerAxis | notebooks/utils/test_data.py:71-75 | 1.4 on the axis 1, 2, 3 gives 1 |
| GridData.NearestInSortedAxis | notebooks/utils/test_data.py:76-80 | 16 on the axis 10, 20, 30 gives 20 |
| GridData.NearestInUnsortedAxis | notebooks/utils/test_data.py:81-85 | 16 on the axis 30, 10, 20 gives 20 |
| GridData.ClosestGridPoint | notebooks/utils/data.py:104-111 | a successful grid point has one value per axis, and there are at least as many coordinates as axes |
| GridData.ClosestGridPointSucceeds | notebooks/utils/data.py:104-111 | the grid point exists exactly when every axis resolves, and then entry i is the closest value on axis i to coordinate i |
| GridData.ClosestGridPointFails | notebooks/utils/data.py:104-111 | a failing grid point raises the error of the first axis that does not resolve, every earlier axis resolving |
| GridData.MissingCoordinateExample | notebooks/utils/data.py:107 | two axes with one coordinate fail on the missing coordinate (`coordinates[index]` raises) |
| GridData.GridPointOnDescendingAxes | notebooks/utils/test_data.py:45-49 | (1.4, 1.4) on two axes 3, 2, 1 gives (1, 1) |
| GridData.GridPointOnMixedAxes | notebooks/utils/test_data.py:50-54 | (1.6, 1.6) on the axes 3, 1, 2 and 3, 2, 1 gives (2, 2) |
| GridData.GridPointWithDifferentTargets | notebooks/utils/test_data.py:55-59 | (1.4, 1.6) on two axes 1, 2, 3 gives (1, 2) |
| GridData.HourIndex | notebooks/utils/data.py:168 | a timestamp lies within the 3600 seconds of its hour |
| GridData.HourOf | notebooks/utils/data.py:168 | flooring to the hour gives a whole hour at or before the timestamp and less than an hour before it |
| GridData.ValuesInHour | notebooks/utils/data.py:168 | an hour has no values exactly when no reading floors to it; its values are exactly those of the readings that floor to it, no more than there are readings |
| GridData.FirstIndex | notebooks/utils/data.py:168 | the first resampled hour is the earliest hour of any reading |
| GridData.LastIndex | notebooks/utils/data.py:168 | the last resampled hour is the latest hour of any reading |
| GridData.Resample | notebooks/utils/data.py:159-168 | the resampled series is empty exactly when there are no readings |
| GridData.ResampleLength | notebooks/utils/data.py:168 | one entry per hour from the first reading's hour to the last one's, both included |
| GridData.ResampleHourAt | notebooks/utils/data.py:168 | entry k is the k-th hour after the first reading's hour |
| GridData.ResampleMeanAt | notebooks/utils/data.py:168 | each entry holds the mean of the readings that floor to its hour, NaN (`None`) when there are none |
| GridData.ResampledHours | notebooks/utils/data.py:168 | the hours are whole, strictly increasing, one hour apart, between the first and last reading's hours, and include every reading's hour |
| GridData.ResampledValueAt | notebooks/utils/data.py:148 | looking an hour up in the resampled series gives the mean of that hour's readings |
| GridData.IntersectionOfDates | notebooks/utils/data.py:171-174 | the intersection holds exactly the hours that are both resampled and in the date list, strictly increasing |
| GridData.ValueAt | notebooks/utils/data.py:148 | `.loc[hour]` gives the value of an entry labelled with that hour |
| GridData.LookUp | notebooks/utils/data.py:148 | `.loc[hours]` gives one value per requested hour |
| GridData.LookUpResampled | notebooks/utils/data.py:148 | the looked-up values are the means of the readings of the requested hours, in request order |
| GridData.Clip | notebooks/utils/data.py:149 | a clipped value is never negative, NaN stays NaN, non-negative values are kept and negative ones become 0 |
| GridData.ClipNegatives | notebooks/utils/data.py:149 | in place, each negative value becomes 0 and every other value, NaN included, is kept |
| GridData.NoOverlap | notebooks/utils/data.py:151-154 | the intersection is empty exactly when no date is a resampled hour |
| GridData.ClippedMeansPerHour | notebooks/utils/data.py:147-149 | after clipping, each selected hour holds the clipped mean of its readings |
| GridData.ResampleAndClear | notebooks/utils/data.py:122-156 | RuntimeError exactly when no date is a resampled hour; otherwise the hours are the sorted intersection with the dates and each holds the clipped mean of its readings |
| GridData.ValuesAllInHour | notebooks/utils/data.py:168 | when every reading floors to the hour, the hour's values are all the readings' values, in order |
| GridData.ValuesInHourAppend | notebooks/utils/data.py:168 | an hour's values in two runs of readings are those of the first run followed by those of the second |
| GridData.ResampleExample | notebooks/utils/test_data.py:152-180 | readings 0..6 every ten minutes from midnight give two hours: 2.5 at 00:00 and 6 at 01:00 |
| FeatureAlignment.CommonTimes | notebooks/utils/model.py:73-75 | a timestamp is common exactly when every series has it |
| FeatureAlignment.AlignedDates | notebooks/utils/model.py:73-76 | the dates are exactly the timestamps of every series, strictly increasing (sorted, no duplicates) |
| FeatureAlignment.IntersectingDates | notebooks/utils/model.py:67-76 | zero series is an error; otherwise the narrowing loop ends with the sorted timestamps common to all series |
| FeatureAlignment.Select | notebooks/utils/model.py:83 | `.sel(time=dates)` succeeds exactly when the series has every date, and gives its values in date order |
| FeatureAlignment.SelectSubset | notebooks/utils/model.py:79-83 | one column per series, in argument order, column j holding series j at the dates in date order; it fails exactly when some series lacks a date |
| FeatureAlignment.MinLength | notebooks/utils/model.py:64 | the length of the shortest column |
| FeatureAlignment.Zip | notebooks/utils/model.py:64 | `zip(*columns)` gives as many rows as the shortest column, row i holding entry i of every column |
| FeatureAlignment.ZipTwice | notebooks/utils/model.py:64 | zipping columns of one common positive length twice gives them back |
| FeatureAlignment.AlignedRows | notebooks/utils/model.py:61-64 | one row per common date, one entry per series, row i column j being series j at the i-th date |
| FeatureAlignment.PrepareX | notebooks/utils/model.py:61-64 | zero series is an error; otherwise the result is the aligned rows |
| FeatureAlignment.FeatureOrder | notebooks/utils/model.py:23-30 | training and prediction pass five series |
| FeatureAlignment.FeatureRows | notebooks/utils/model.py:23-30 | each row holds air density, wind speed, wind direction, time of day and time of year of its date, in that order |
| FeatureAlignment.TrainingInputs | notebooks/utils/model.py:9-32 | the regressor is fitted on the aligned feature rows and on the production values as given |
| FeatureAlignment.PredictionInputs | notebooks/utils/model.py:35-58 | prediction builds the same rows in the same feature order as training |
| FeatureAlignment.PrepareXExample | notebooks/utils/test_model.py:9-31 | series valued 1, 2 on 1 and 2 January and 2, 3 on 2 and 3 January give the single row (2, 2) |
| TimeEncoding.SecondsSinceMidnight | notebooks/utils/time.py:54-55 | the seconds since midnight lie in [0, 86400) |
| TimeEncoding.TimeOfDay | notebooks/utils/time.py:48-56 | the time of day lies in [0, 1) and is the seconds since midnight divided by 86400 |
| TimeEncoding.TimeOfDayIgnoresDate | notebooks/utils/time.py:54-55 | two datetimes with the same clock reading have the same time of day, whatever their dates |
| TimeEncoding.TimeOfDayIncreases | notebooks/utils/time.py:54-56 | within a day a strictly later time has a strictly larger time of day |
| TimeEncoding.TimeOfDayInjective | notebooks/utils/time.py:54-56 | within a day equal times of day mean equal datetimes |
| TimeEncoding.TimeOfDayExamples | notebooks/utils/test_time.py:27-40 | midnight, 06:00, 12:00, 18:00 and the next midnight give 0, 0.25, 0.5, 0.75 and 0 |
| TimeEncoding.TimeOfYear | notebooks/utils/time.py:59-68 | the time of year lies in [0, 1] |
| TimeEncoding.TimeOfYearStart | notebooks/utils/time.py:68 | the time of year is 0 exactly on 1 January |
| TimeEncoding.TimeOfYearEnd | notebooks/utils/time.py:65-68 | with the fixed divisor 365 the value 1 is reached exactly on 31 December of a leap year; other years peak at 364/365 |
| TimeEncoding.TimeOfYearIncreases | notebooks/utils/time.py:68 | within a year a later date has a larger time of year |
| TimeEncoding.TimeOfYearExamples | notebooks/utils/test_time.py:43-55 | 1 January 2020 gives 0, 2 July 2020 gives 183/365 (0.50 rounded), 31 December 2020 gives 1 |
| TimeEncoding.ApplyToDates | notebooks/utils/time.py:44-45 | one value per date, value i being the function at date i |
| TimeEncoding.GetTimeOfDay | notebooks/utils/time.py:22-30 | an array over the given dates whose entry i is the time of day of date i |
| TimeEncoding.GetTimeOfYear | notebooks/utils/time.py:33-41 | an array over the given dates whose entry i is the time of year of date i |
| TimeEncoding.GetTimeOfDayAndYear | notebooks/utils/time.py:13-19 | both encodings over the same dates |
| TimeEncoding.TimeOfDayAndYearExample | notebooks/utils/test_time.py:9-24 | midnight and 01:00 on 1 January 2020 give times of day 0 and 1/24 and times of year 0 and 0 |
| Pressure.LevelAt | notebooks/utils/pressure.py:26-27 | the lookup succeeds exactly when row 0 has the level, giving its coefficients, and otherwise fails with that level |
| Pressure.PressureLevels | notebooks/utils/pressure.py:38-58 | one pressure per surface pressure, each A + B * p_s |
| Pressure.Average | notebooks/utils/pressure.py:34 | the entrywise mean of two equally long sequences |
| Pressure.CalculatePressure | notebooks/utils/pressure.py:26-34 | the pressure exists exactly when the level and the level above are in row 0, with one value per surface pressure; otherwise the lookup of one of the two levels fails |
| Pressure.CalculatePressureDefined | notebooks/utils/pressure.py:26-27 | the pressure exists exactly when the level and the level above are in the table; otherwise the first missing one is reported |
| Pressure.CalculatePressureAffine | notebooks/utils/pressure.py:26-34 | one pressure per surface pressure, affine in it with the averaged `hyam` and `hybm` of the two levels |
| Pressure.CalculatePressureBetweenLevels | notebooks/utils/pressure.py:32-34 | each pressure lies between the two level pressures it averages |
| Pressure.OnlyMidLevelCoefficientsMatter | notebooks/utils/pressure.py:26-31 | tables agreeing on `hyam`/`hybm` of row `dim0 = 0` at the two levels give the same pressure, whatever their `hyai`/`hybi` and other rows |
| Pressure.PressureLevelsExamples | notebooks/utils/test_pressure.py:57-81 | p_s = 1, A = 1, B = 1 gives 2, and p_s = 2, A = 1, B = 2 gives 5 |
| Pressure.CalculatePressureExample | notebooks/utils/test_pressure.py:8-54 | `hyam` = `hybm` = 1, 2, 0, surface pressures 1 and 2, level 1 give 3.0 and 4.5 |
| DateRanges.MonthDates | climetlab_maelstrom_power_production/weather/abc.py:32-34 | the days of a month at midnight, in order, as many as the month has |
| DateRanges.YearDatesMembers | climetlab_maelstrom_power_production/weather/abc.py:32-34 | the days of a year from a month on are exactly the valid midnights of that year from that month on |
| DateRanges.YearDatesIncreasing | climetlab_maelstrom_power_production/weather/abc.py:32-34 | those days are strictly increasing |
| DateRanges.YearDatesEnds | climetlab_maelstrom_power_production/weather/abc.py:32-34 | they run from the 1st of the month to 31 December |
| DateRanges.YearListsDays | climetlab_maelstrom_power_production/weather/abc.py:32-34 | the days of one year list every day of it once, in order, from 1 January to 31 December |
| DateRanges.JoinYears | climetlab_maelstrom_power_production/weather/abc.py:32-34 | the days of some years followed by the days of the next years list every day of all of them once, in order |
| WeatherDates.MonthMatches | climetlab_maelstrom_power_production/weather/abc.py:112 | every match of `%m` is a month 1 to 12 of one or two characters |
| WeatherDates.DayMatches | climetlab_maelstrom_power_production/weather/abc.py:112 | every match of `%d` is a day 1 to 31 of one or two characters |
| WeatherDates.MatchDateFormat | climetlab_maelstrom_power_production/weather/abc.py:112 | a match of `%Y-%m-%d` has a year of four digits, a month 1 to 12 and a day 1 to 31 |
| WeatherDates.Parse | climetlab_maelstrom_power_production/weather/abc.py:110-116 | a parsed date is at midnight, and every failure is IncorrectDateFormatException for that string |
| WeatherDates.ParseFormatIso | climetlab_maelstrom_power_production/weather/abc.py:110-116 | parsing the `%Y-%m-%d` text of a date gives that date at midnight |
| WeatherDates.DecodeNameOf | climetlab_maelstrom_power_production/weather/abc.py:92-95 | the name `YYYYMMDD_<timestamp>` gives back the date's fields and the timestamp |
| WeatherDates.AvailableDates | climetlab_maelstrom_power_production/weather/abc.py:32-34 | `AVAILABLE_DATA_DATES` lists every day of 2017 to 2020 once, in order, at midnight, from 2017-01-01 to 2020-12-31 |
| WeatherDates.DateIsAvailable | climetlab_maelstrom_power_production/weather/abc.py:130-131 | a date is available exactly when it is a midnight of a year from 2017 to 2020 |
| WeatherDates.DateIsAvailableIff | climetlab_maelstrom_power_production/weather/abc.py:130-131 | a date is available exactly when it is one of the daily dates 2017-01-01 to 2020-12-31 |
| WeatherDates.CheckDatesAvailability | climetlab_maelstrom_power_production/weather/abc.py:119-127 | passes exactly when every date is available, and otherwise raises DateUnavailableException for the first unavailable date |
| WeatherDates.UnavailableMessage | climetlab_maelstrom_power_production/weather/abc.py:122-126 | the error names the first and last available dates, 2017-01-01 and 2020-12-31 |
| WeatherDates.ParseAll | climetlab_maelstrom_power_production/weather/abc.py:105 | every string parsed in order when all parse; otherwise IncorrectDateFormatException for the first string that does not parse |
| WeatherDates.Insert | climetlab_maelstrom_power_production/weather/abc.py:107 | inserting into sorted dates keeps them sorted and adds exactly that date |
| WeatherDates.SortDates | climetlab_maelstrom_power_production/weather/abc.py:107 | `sorted` gives the same dates, duplicates kept, in ascending order |
| WeatherDates.ConvertDates | climetlab_maelstrom_power_production/weather/abc.py:101-107 | a format error comes first; otherwise success exactly when every date is available, with the parsed dates sorted, else the first unavailable date's error |
| WeatherDates.RemoteDate | climetlab_maelstrom_power_production/weather/abc.py:92 | `%Y%m%d` has eight characters |
| WeatherDates.Product | climetlab_maelstrom_power_production/weather/abc.py:93-96 | two pairs per date |
| WeatherDates.ProductAt | climetlab_maelstrom_power_production/weather/abc.py:93-96 | date i is paired with "00" at position 2i and with "12" at 2i + 1 |
| WeatherDates.NamesWithTimestamps | climetlab_maelstrom_power_production/weather/abc.py:94-98 | two names per date |
| WeatherDates.Weather.constructor | climetlab_maelstrom_power_production/weather/abc.py:63 | the dataset covers the dates it is given, which must all be available and sorted, so the dataset is valid |
| WeatherDates.Weather.Create | climetlab_maelstrom_power_production/weather/abc.py:61-63 | no date selects all available dates; otherwise the converted request: the first format error, else DateUnavailableException for the first unavailable date, else the parsed dates; a created dataset has only available dates, sorted |
| WeatherDates.Weather.AddTimestampsToEachDate | climetlab_maelstrom_power_production/weather/abc.py:91-98 | 2 * \|dates\| names; names 2i and 2i + 1 read back as date i with "00" and with "12" |
| WeatherDates.AvailableDatesValid | climetlab_maelstrom_power_production/weather/abc.py:63 | the full list of available dates is available and sorted |
| WeatherDates.ParseIsoDate | tests/unit/weather/test_abc.py:29 | "2020-01-01" parses to 1 January 2020 at midnight |
| WeatherDates.ParseDayFirstDate | tests/unit/weather/test_abc.py:30 | "01-01-2020" raises IncorrectDateFormatException |
| WeatherDates.ParseOneDigitFields | climetlab_maelstrom_power_production/weather/abc.py:112 | "2020-1-5" parses, as `%m` and `%d` take one digit |
| WeatherDates.ParseSpacePaddedDay | climetlab_maelstrom_power_production/weather/abc.py:112 | "2020-01- 5" parses, as `%d` takes a space before one digit |
| WeatherDates.ParseRejectsMissingDay | climetlab_maelstrom_power_production/weather/abc.py:112-116 | "2019-02-29" matches the pattern but is not a date, so it raises IncorrectDateFormatException |
| WeatherDates.ParseRejectsTrailingText | climetlab_maelstrom_power_production/weather/abc.py:112-116 | "2020-01-011" leaves unconverted text, so it raises IncorrectDateFormatException |
| WeatherDates.AvailabilityExamples | climetlab_maelstrom_power_production/weather/abc.py:130-131 | test_abc's cases: 2019-01-01 is available and 2000-01-01 is not; also, by the same membership rule, 2021-01-01 and 2019-01-01 12:00 are not |
| WeatherDates.ParseAllExample | tests/unit/weather/test_abc.py:14 | the two strings 2019-01-01 and 2019-01-02 parse to those two dates |
| WeatherDates.SortDatesExample | climetlab_maelstrom_power_production/weather/abc.py:107 | 2 January then 1 January sort to 1 January then 2 January |
| WeatherDates.NamesExample | climetlab_maelstrom_power_production/weather/abc.py:91-98 | 1 January 2019 gives "20190101_00" and "20190101_12" |
| Metrics.Restrict | notebooks/utils/metrics.py:111-116 | one mask on both sequences: the outputs have equal length, at most the input's |
| Metrics.RestrictDatapoints | notebooks/utils/metrics.py:108-116 | `assym == 0` returns both sequences unchanged |
| Metrics.KeptIndicesExact | notebooks/utils/metrics.py:111-114 | the kept positions are exactly those whose pair passes the mask (y_pred >= y_true for positive `assym`, y_pred <= y_true for negative), ascending, each once |
| Metrics.RestrictPicksKept | notebooks/utils/metrics.py:115-116 | the masked sequences hold the true and predicted values at the kept positions, in their original order |
| Metrics.EqualPairsSurvive | notebooks/utils/metrics.py:25-27 | equal pairs survive both directions, every pair survives at least one, and only equal pairs survive both |
| Metrics.Lower | notebooks/utils/metrics.py:92 | lower-casing keeps the length and maps each character |
| Metrics.StatisticNamed | notebooks/utils/metrics.py:93-100 | "spread", "mean", "std" and "var" name their statistics, and only they |
| Metrics.StatisticOf | notebooks/utils/metrics.py:93-100 | only the spread of an empty series fails (`np.max` raises); the other statistics of an empty series are NaN; of a non-empty series they are its range, mean, square root of the population variance and population variance |
| Metrics.GetNormalization | notebooks/utils/metrics.py:89-105 | a number is returned as is, a value neither number nor string gives `None`, and it fails exactly for an unknown name or the spread of an empty series |
| Metrics.NormalizationIgnoresCase | notebooks/utils/metrics.py:92-100 | a name and its lower-cased form are accepted alike and give the same normalization |
| Metrics.KnownNames | notebooks/utils/metrics.py:101-105 | ValueError exactly when the lower-cased name is none of spread, mean, std, var |
| Metrics.SpreadIsRange | notebooks/utils/metrics.py:93-94 | "spread" of a non-empty series is its maximum minus its minimum |
| Metrics.NamedNormalizations | notebooks/utils/metrics.py:95-100 | "mean", "std" and "var" in any case give the mean, the root of the population variance and the population variance of a non-empty `y_true` |
| Metrics.RangeNonNegative | notebooks/utils/metrics.py:94 | the spread is never negative, and zero exactly when all values are equal |
| Metrics.AbsoluteErrors | notebooks/utils/metrics.py:36-38 | one absolute difference per pair |
| Metrics.MeanAbsoluteError | notebooks/utils/metrics.py:36-38 | the MAE is never negative, and zero exactly when the predictions equal the true values |
| Metrics.MeanAbsoluteErrorSymmetric | notebooks/utils/metrics.py:36-38 | the MAE does not depend on which sequence is the true one |
| Metrics.Divide | notebooks/utils/metrics.py:39 | dividing by a non-zero number gives the quotient, and by the square root of a non-zero variance the quotient over that root; dividing by zero (a zero number or a zero variance) or by NaN gives a non-finite value |
| Metrics.NormalizedMeanAbsoluteError | notebooks/utils/metrics.py:8-39 | a normalization error is raised first; then no kept pair is an error, then a `None` normalization is an error; otherwise the kept pairs' mean absolute error divided by the normalization |
| Metrics.StdNormalization | notebooks/utils/metrics.py:34-39 | with "std" in any case, the masked pairs' MAE over the square root of the population variance of the whole y_true, non-finite for a constant y_true, existing exactly when the mask keeps a pair |
| Metrics.ScaleIgnoresMask | notebooks/utils/metrics.py:34-39 | the result is the masked pairs' MAE divided by the normalization of the whole y_true, and exists exactly when the mask keeps a pair |
| Metrics.NormalizedErrorSign | notebooks/utils/metrics.py:34-39 | with a positive normalization the error is finite, not negative, and zero exactly when the kept predictions are exact |
| Metrics.NormalizationBeforeMask | notebooks/utils/metrics.py:29-39 | y_true = [1, 3], y_pred = [2, 2], "MEAN", `assym = 1` give 0.5: the mean of both true values divides the MAE of the single kept pair |
| Metrics.UnderPredictionsKept | notebooks/utils/metrics.py:113-114 | negative `assym` keeps the under-prediction (3, 2) and the exact pair (4, 4) and drops (1, 2) |
| Metrics.UnknownNameRejected | notebooks/utils/metrics.py:101-105 | "median" raises ValueError |
| Metrics.VarianceNormalization | notebooks/utils/metrics.py:99-100 | "Var" of [1, 3] is the population variance 1 |

## Left out

- `notebooks/utils/density.py` and `notebooks/utils/wind.py`: closed-form transcendental float formulas (`exp`, `sqrt`, `arctan`).
- `notebooks/utils/plot.py`, the dataset classes, the mergers, the production download and the constants dataset: remote I/O, `xr.open_mfdataset` and class metadata.
- Loading the weather files (`Weather._get_data`, `_load_source`) and the `_merger`/`source` fields of `Weather.__init__`: remote I/O; only the date selection is modelled.
- The xarray/pandas accessors `_get_wind_turbine_coordinates`, `_get_grid_coordinates`, `get_power_rating` and `get_dates_from_time_coordinate`: grid axes and date lists are inputs of the model.
- `GradientBoostingRegressor().fit`/`predict`: an external library; the model stops at the rows handed to it.
- `normalized_root_mean_squared_error`, `root_mean_squared_error`, and the `sample_weight`/`multioutput` arguments forwarded to sklearn: square roots and sklearn internals; the MAE is the unweighted mean absolute difference.
- Metrics.StatisticOf: the `std` normalization is kept as the variance whose square root it is (`RootOf`), because the model has no square root; dividing by it is `OverRoot`.
- Metrics.Restrict: requires equally long sequences; numpy's broadcasting or shape errors for other lengths are not modelled.
- Metrics.NormalizedMeanAbsoluteError: requires equally long sequences, as sklearn does before computing.
- Metrics.Lower: lower-cases ASCII letters only; no non-ASCII character lower-cases to a letter of spread, mean, std or var, so names are accepted and rejected as in Python.
- Floating point: values are exact reals; NaN is `None` (resampling) or `NotANumber` (metrics), infinities and division by zero are `NonFinite`, rounding is not modelled.
- WeatherDates.Parse: ASCII digits only; Python's `\d` also accepts other Unicode decimal digits.
- WeatherDates.Weather.Create: the source keeps a pandas `DatetimeIndex` when no date is given and a list otherwise; both are a sequence of dates here.
- Pressure.LevelAt: `table[d][k]` is the point labelled `dim0 = d`, `dim0_0 = k`, so the model assumes the labels of the constants dataset are the positions 0, 1, 2, ...; other labellings are not modelled.
- Time zones: every datetime is naive, as in the source.
- GridData.ClosestCoordinate: integer and float axes are both reals, so `1 == 1.0` matches as in Python.
- The series of `model.py` are maps from timestamps to values, so duplicate time labels cannot occur.
- `train_model` does not align `y` with the rows (`FeatureAlignment.TrainingInputs` hands `production` over unchanged); aligned shapes are a caller precondition in the source.
