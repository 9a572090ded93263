/** Aligning feature series on their common timestamps and turning them into rows for the
    regressor (`notebooks/utils/model.py`). */
module FeatureAlignment {
  import opened Results
  import opened TimeIndex

  /** A labelled series: its time coordinate and the value at each timestamp. Time labels
      are unique, as in the series the notebooks build. */
  type Series = map<Timestamp, real>

  datatype AlignError =
    | NoSeries     // `args["time"]` on the empty tuple of series: TypeError
    | MissingDate  // `.sel(time=dates)` with a date the series lacks: KeyError

  /** `t` is in the time coordinate of every series. */
  predicate InEvery(series: seq<Series>, t: Timestamp) {
    forall j :: 0 <= j < |series| ==> t in series[j]
  }

  /** The timestamps that every series has. */
  function CommonTimes(series: seq<Series>): (common: set<Timestamp>)
    requires |series| > 0
    ensures forall t :: t in common <==> InEvery(series, t)
  {
    set t | t in series[0].Keys && InEvery(series, t)
  }

  /** The dates the rows are built for: the common timestamps in ascending order. */
  function AlignedDates(series: seq<Series>): (dates: seq<Timestamp>)
    requires |series| > 0
    ensures StrictlyIncreasing(dates)
    ensures forall t :: t in dates <==> InEvery(series, t)
  {
    SortedSet(CommonTimes(series))
  }

  /** `_get_intersecting_dates`: start from the first series' timestamps, narrow them by
      each further series, and sort. Without any series the lookup fails. */
  method IntersectingDates(series: seq<Series>) returns (r: Result<seq<Timestamp>, AlignError>)
    ensures r.Err? <==> |series| == 0
    ensures r.Err? ==> r.error == NoSeries
    ensures r.Ok? ==> r.value == AlignedDates(series)
  {
    if |series| == 0 {
      return Err(NoSeries);
    }
    var intersection := series[0].Keys;
    var i := 1;
    while i < |series|
      invariant 1 <= i <= |series|
      invariant forall t :: t in intersection <==> forall j :: 0 <= j < i ==> t in series[j]
    {
      intersection := intersection * series[i].Keys;
      i := i + 1;
    }
    var common := CommonTimes(series);
    assert forall t :: t in intersection <==> InEvery(series, t);
    assert forall t :: t in intersection <==> t in common;
    assert intersection == common;
    return Ok(SortedSet(intersection));
  }

  /** `series.sel(time=dates).values`: the values at `dates`, in date order. */
  function Select(s: Series, dates: seq<Timestamp>): (r: Result<seq<real>, AlignError>)
    ensures r.Ok? <==> forall i :: 0 <= i < |dates| ==> dates[i] in s
    ensures r.Err? ==> r.error == MissingDate
    ensures r.Ok? ==> |r.value| == |dates| && forall i :: 0 <= i < |dates| ==> r.value[i] == s[dates[i]]
  {
    if forall i :: 0 <= i < |dates| ==> dates[i] in s then
      Ok(seq(|dates|, i requires 0 <= i < |dates| && dates[i] in s => s[dates[i]]))
    else Err(MissingDate)
  }

  /** `_select_subset`, drained by `zip(*...)`: one column per series, in argument order;
      the first series lacking a date raises. */
  function SelectSubset(dates: seq<Timestamp>, series: seq<Series>): (r: Result<seq<seq<real>>, AlignError>)
    ensures r.Ok? <==> forall j, i :: 0 <= j < |series| && 0 <= i < |dates| ==> dates[i] in series[j]
    ensures r.Ok? ==> |r.value| == |series|
    ensures r.Ok? ==> forall j :: 0 <= j < |series| ==>
              |r.value[j]| == |dates| && forall i :: 0 <= i < |dates| ==> r.value[j][i] == series[j][dates[i]]
  {
    if series == [] then Ok([])
    else
      match Select(series[0], dates)
      case Err(e) => Err(e)
      case Ok(column) =>
        var rest := SelectSubset(dates, series[1..]);
        assert forall j :: 1 <= j < |series| ==> series[j] == series[1..][j - 1];
        match rest
        case Err(e) =>
          assert exists j, i :: 0 <= j < |series[1..]| && 0 <= i < |dates| && dates[i] !in series[1..][j];
          Err(e)
        case Ok(columns) =>
          assert forall j :: 1 <= j < |series| ==> ([column] + columns)[j] == columns[j - 1];
          Ok([column] + columns)
  }

  /** The length of the shortest column. */
  function MinLength(columns: seq<seq<real>>): (n: nat)
    requires |columns| > 0
    ensures forall j :: 0 <= j < |columns| ==> n <= |columns[j]|
    ensures exists j :: 0 <= j < |columns| && n == |columns[j]|
  {
    if |columns| == 1 then |columns[0]|
    else
      var rest := MinLength(columns[1..]);
      assert forall j :: 1 <= j < |columns| ==> columns[j] == columns[1..][j - 1];
      if |columns[0]| < rest then |columns[0]| else rest
  }

  /** `list(zip(*columns))`: row `i` gathers entry `i` of every column, and there are as many
      rows as the shortest column is long (none without columns). */
  function Zip(columns: seq<seq<real>>): (rows: seq<seq<real>>)
    ensures columns == [] ==> rows == []
    ensures columns != [] ==> |rows| == MinLength(columns)
    ensures forall i :: 0 <= i < |rows| ==> |rows[i]| == |columns|
    ensures forall i, j :: 0 <= i < |rows| && 0 <= j < |columns| ==> i < |columns[j]| && rows[i][j] == columns[j][i]
  {
    if columns == [] then []
    else
      var n := MinLength(columns);
      seq(n, i requires 0 <= i < n =>
        seq(|columns|, j requires 0 <= j < |columns| => columns[j][i]))
  }

  /** Zipping twice gives the columns back when they all have the same, positive length. */
  lemma ZipTwice(columns: seq<seq<real>>, n: nat)
    requires columns != [] && n > 0
    requires forall j :: 0 <= j < |columns| ==> |columns[j]| == n
    ensures Zip(Zip(columns)) == columns
  {
    var rows := Zip(columns);
    var back := Zip(rows);
    var j0 :| 0 <= j0 < |columns| && MinLength(columns) == |columns[j0]|;
    assert |rows| == n;
    var i0 :| 0 <= i0 < |rows| && MinLength(rows) == |rows[i0]|;
    assert |back| == |columns|;
    forall j | 0 <= j < |columns|
      ensures back[j] == columns[j]
    {
      assert |back[j]| == n;
    }
  }

  /** The rows `_prepare_x` builds: row `i` holds every series' value at the `i`-th common
      date, the series in argument order. */
  function AlignedRows(series: seq<Series>): (rows: seq<seq<real>>)
    requires |series| > 0
    ensures |rows| == |AlignedDates(series)|
    ensures forall i :: 0 <= i < |rows| ==> |rows[i]| == |series|
    ensures forall i, j :: 0 <= i < |rows| && 0 <= j < |series| ==>
              AlignedDates(series)[i] in series[j] && rows[i][j] == series[j][AlignedDates(series)[i]]
  {
    var dates := AlignedDates(series);
    assert forall j, i :: 0 <= j < |series| && 0 <= i < |dates| ==> dates[i] in series[j] by {
      assert forall i :: 0 <= i < |dates| ==> InEvery(series, dates[i]);
    }
    var columns := SelectSubset(dates, series).value;
    var rows := Zip(columns);
    assert |rows| == |dates| by {
      var j :| 0 <= j < |columns| && MinLength(columns) == |columns[j]|;
    }
    rows
  }

  /** `_prepare_x`: intersect the time coordinates, select every series at the common
      dates, and zip the selections into rows. */
  method PrepareX(series: seq<Series>) returns (r: Result<seq<seq<real>>, AlignError>)
    ensures r.Err? <==> |series| == 0
    ensures r.Err? ==> r.error == NoSeries
    ensures r.Ok? ==> r.value == AlignedRows(series)
  {
    var dates := IntersectingDates(series);
    if dates.Err? {
      return Err(dates.error);
    }
    assert forall j, i :: 0 <= j < |series| && 0 <= i < |dates.value| ==> dates.value[i] in series[j] by {
      assert forall i :: 0 <= i < |dates.value| ==> InEvery(series, dates.value[i]);
    }
    var columns := SelectSubset(dates.value, series);
    return Ok(Zip(columns.value));
  }

  // ---------------------------------------------------------------------------
  // The feature order of `train_model` and `predict_power_production`

  datatype Features = Features(
    airDensity: Series,
    windSpeed: Series,
    windDirection: Series,
    timeOfDay: Series,
    timeOfYear: Series)

  /** The features in the order both entry points pass them on. */
  function FeatureOrder(f: Features): (series: seq<Series>)
    ensures |series| == 5
  {
    [f.airDensity, f.windSpeed, f.windDirection, f.timeOfDay, f.timeOfYear]
  }

  /** A row holds, for its date, air density, wind speed, wind direction, time of day and
      time of year, in that order. */
  predicate IsFeatureRow(f: Features, date: Timestamp, row: seq<real>) {
    && date in f.airDensity && date in f.windSpeed && date in f.windDirection
    && date in f.timeOfDay && date in f.timeOfYear
    && row == [f.airDensity[date], f.windSpeed[date], f.windDirection[date],
               f.timeOfDay[date], f.timeOfYear[date]]
  }

  /** Each aligned row of the features is the feature row of its date. */
  lemma FeatureRows(f: Features)
    ensures var series := FeatureOrder(f);
      forall i :: 0 <= i < |AlignedRows(series)| ==>
        IsFeatureRow(f, AlignedDates(series)[i], AlignedRows(series)[i])
  {
    var series := FeatureOrder(f);
    var rows := AlignedRows(series);
    var dates := AlignedDates(series);
    forall i | 0 <= i < |rows|
      ensures IsFeatureRow(f, dates[i], rows[i])
    {
      RowOfFeatures(f, dates[i], rows[i]);
    }
  }

  /** A row of five values taken, column by column, from the features in their order at
      `date` is the feature row of `date`. */
  lemma RowOfFeatures(f: Features, date: Timestamp, row: seq<real>)
    requires |row| == 5
    requires forall j :: 0 <= j < 5 ==> date in FeatureOrder(f)[j] && row[j] == FeatureOrder(f)[j][date]
    ensures IsFeatureRow(f, date, row)
  {
    var series := FeatureOrder(f);
    assert row == [row[0], row[1], row[2], row[3], row[4]];
    assert series[0] == f.airDensity && series[1] == f.windSpeed && series[2] == f.windDirection;
    assert series[3] == f.timeOfDay && series[4] == f.timeOfYear;
  }

  /** The inputs `train_model` hands to the regressor: the aligned feature rows, and the
      production values as given (they are not aligned to the rows). */
  method TrainingInputs(f: Features, production: seq<real>) returns (x: seq<seq<real>>, y: seq<real>)
    ensures x == AlignedRows(FeatureOrder(f))
    ensures |x| == |AlignedDates(FeatureOrder(f))|
    ensures forall i :: 0 <= i < |x| ==> IsFeatureRow(f, AlignedDates(FeatureOrder(f))[i], x[i])
    ensures y == production
  {
    var r := PrepareX(FeatureOrder(f));
    FeatureRows(f);
    x, y := r.value, production;
  }

  /** The rows `predict_power_production` hands to the regressor: the same rows, in the same
      feature order, as for training. */
  method PredictionInputs(f: Features) returns (x: seq<seq<real>>)
    ensures x == AlignedRows(FeatureOrder(f))
    ensures |x| == |AlignedDates(FeatureOrder(f))|
    ensures forall i :: 0 <= i < |x| ==> IsFeatureRow(f, AlignedDates(FeatureOrder(f))[i], x[i])
  {
    var r := PrepareX(FeatureOrder(f));
    FeatureRows(f);
    x := r.value;
  }

  // ---------------------------------------------------------------------------
  // The unit test: values 1, 2 on 2020-01-01/02 and 2, 3 on 2020-01-02/03 give the
  // single row (2, 2) for 2020-01-02 (1577923200 seconds after the epoch).

  lemma PrepareXExample()
    ensures AlignedRows([map[1577836800 := 1.0, 1577923200 := 2.0],
                         map[1577923200 := 2.0, 1578009600 := 3.0]]) == [[2.0, 2.0]]
  {
    var series := [map[1577836800 := 1.0, 1577923200 := 2.0],
                   map[1577923200 := 2.0, 1578009600 := 3.0]];
    assert InEvery(series, 1577923200);
    assert forall t :: InEvery(series, t) ==> t == 1577923200 by {
      forall t | InEvery(series, t) ensures t == 1577923200 {
        assert t in series[0] && t in series[1];
      }
    }
    assert CommonTimes(series) == {1577923200};
    SortedSetUnique({1577923200}, [1577923200]);
    var rows := AlignedRows(series);
    assert rows == [rows[0]];
    assert rows[0] == [rows[0][0], rows[0][1]];
  }
}
