/** Nearest grid point and hourly production clean-up (`notebooks/utils/data.py`). */
module GridData {
  import opened Results
  import opened TimeIndex
  import Statistics

  datatype DataError =
    | AmbiguousExactMatch  // `[match] = exact_match` with several matches: ValueError
    | EmptyAxis            // `min` over an empty axis: ValueError
    | MissingCoordinate    // `coordinates[index]` past the end of the tuple: IndexError
    | NoTemporalOverlap    // the RuntimeError for an empty intersection with the dates

  // ---------------------------------------------------------------------------
  // Nearest grid point

  function Distance(x: real, value: real): real {
    Statistics.Abs(x - value)
  }

  /** The list comprehension `[c for c in axis if c == value]`. */
  function ExactMatches(axis: seq<real>, value: real): (ms: seq<real>)
    ensures |ms| == multiset(axis)[value]
    ensures forall m :: m in ms ==> m == value
  {
    if axis == [] then []
    else
      assert axis == [axis[0]] + axis[1..];
      var rest := ExactMatches(axis[1..], value);
      if axis[0] == value then [axis[0]] + rest else rest
  }

  /** The position of the element `min(axis, key=lambda x: abs(x - value))` returns:
      a left-to-right scan that replaces its candidate only by a strictly closer one. */
  function FirstClosestIndex(axis: seq<real>, value: real): (i: nat)
    requires |axis| > 0
    ensures i < |axis|
    ensures forall j :: 0 <= j < |axis| ==> Distance(axis[i], value) <= Distance(axis[j], value)
    ensures forall j :: 0 <= j < i ==> Distance(axis[i], value) < Distance(axis[j], value)
    decreases |axis|
  {
    if |axis| == 1 then 0
    else
      var init := axis[..|axis| - 1];
      var best := FirstClosestIndex(init, value);
      assert forall j :: 0 <= j < |init| ==> init[j] == axis[j];
      if Distance(axis[|axis| - 1], value) < Distance(axis[best], value) then |axis| - 1 else best
  }

  /** `_get_closest_coordinate`: an exact match short-circuits the search (and must be
      unique), otherwise the first element closest to `value` wins. */
  function ClosestCoordinate(axis: seq<real>, value: real): (r: Result<real, DataError>)
    ensures multiset(axis)[value] == 1 ==> r == Ok(value)
    ensures multiset(axis)[value] > 1 ==> r == Err(AmbiguousExactMatch)
    ensures axis == [] ==> r == Err(EmptyAxis)
    ensures value !in axis && axis != [] ==>
      && r.Ok?
      && (exists i :: 0 <= i < |axis| && axis[i] == r.value
            && forall j :: 0 <= j < i ==> Distance(r.value, value) < Distance(axis[j], value))
      && (forall j :: 0 <= j < |axis| ==> Distance(r.value, value) <= Distance(axis[j], value))
  {
    var matches := ExactMatches(axis, value);
    if |matches| > 0 then
      if |matches| == 1 then
        assert matches[0] in matches;
        Ok(matches[0])
      else Err(AmbiguousExactMatch)
    else if |axis| == 0 then Err(EmptyAxis)
    else Ok(axis[FirstClosestIndex(axis, value)])
  }

  /** Axis `i` can be resolved: its target coordinate exists and its search succeeds. */
  predicate AxisResolves(grid: seq<seq<real>>, coordinates: seq<real>, i: nat)
    requires i < |grid|
  {
    i < |coordinates| && ClosestCoordinate(grid[i], coordinates[i]).Ok?
  }

  /** The error axis `i` raises when it does not resolve. */
  function AxisError(grid: seq<seq<real>>, coordinates: seq<real>, i: nat): DataError
    requires i < |grid|
  {
    if i < |coordinates| then
      match ClosestCoordinate(grid[i], coordinates[i])
      case Err(e) => e
      case Ok(_) => MissingCoordinate
    else MissingCoordinate
  }

  /** `_get_closest_grid_point`: one closest value per axis, the axes searched in order,
      so the first axis that fails raises its error. */
  function ClosestGridPoint(grid: seq<seq<real>>, coordinates: seq<real>): (r: Result<seq<real>, DataError>)
    ensures r.Ok? ==> |r.value| == |grid| <= |coordinates|
    decreases |grid|
  {
    if grid == [] then Ok([])
    else if |coordinates| == 0 then Err(MissingCoordinate)
    else
      match ClosestCoordinate(grid[0], coordinates[0])
      case Err(e) => Err(e)
      case Ok(x) =>
        match ClosestGridPoint(grid[1..], coordinates[1..])
        case Err(e) => Err(e)
        case Ok(xs) => Ok([x] + xs)
  }

  /** Whether axis `i` resolves is the same question on the grid and on its tail. */
  lemma ShiftAxes(grid: seq<seq<real>>, coordinates: seq<real>)
    requires grid != [] && coordinates != []
    ensures forall i :: 1 <= i < |grid| ==>
      && (AxisResolves(grid, coordinates, i) <==> AxisResolves(grid[1..], coordinates[1..], i - 1))
      && AxisError(grid, coordinates, i) == AxisError(grid[1..], coordinates[1..], i - 1)
  {
  }

  /** The grid point exists exactly when every axis resolves, and then holds each axis's
      closest value in axis order. */
  lemma {:induction false} ClosestGridPointSucceeds(grid: seq<seq<real>>, coordinates: seq<real>)
    ensures var r := ClosestGridPoint(grid, coordinates);
      && (r.Ok? <==> forall i :: 0 <= i < |grid| ==> AxisResolves(grid, coordinates, i))
      && (r.Ok? ==> forall i :: 0 <= i < |grid| ==> ClosestCoordinate(grid[i], coordinates[i]) == Ok(r.value[i]))
    decreases |grid|
  {
    if grid != [] && coordinates != [] {
      ClosestGridPointSucceeds(grid[1..], coordinates[1..]);
      ShiftAxes(grid, coordinates);
      var r := ClosestGridPoint(grid, coordinates);
      var rest := ClosestGridPoint(grid[1..], coordinates[1..]);
      if r.Ok? {
        assert r.value == [r.value[0]] + rest.value;
      } else if ClosestCoordinate(grid[0], coordinates[0]).Err? {
        assert !AxisResolves(grid, coordinates, 0);
      } else {
        var i :| 0 <= i < |grid| - 1 && !AxisResolves(grid[1..], coordinates[1..], i);
        assert !AxisResolves(grid, coordinates, i + 1);
      }
    } else if grid != [] {
      assert !AxisResolves(grid, coordinates, 0);
    }
  }

  /** A failing grid point reports the error of the first axis that does not resolve. */
  lemma {:induction false} ClosestGridPointFails(grid: seq<seq<real>>, coordinates: seq<real>)
    requires ClosestGridPoint(grid, coordinates).Err?
    ensures exists i :: 0 <= i < |grid| && !AxisResolves(grid, coordinates, i)
              && (forall j :: 0 <= j < i ==> AxisResolves(grid, coordinates, j))
              && ClosestGridPoint(grid, coordinates).error == AxisError(grid, coordinates, i)
    decreases |grid|
  {
    if |coordinates| == 0 || ClosestCoordinate(grid[0], coordinates[0]).Err? {
      assert !AxisResolves(grid, coordinates, 0);
    } else {
      ClosestGridPointFails(grid[1..], coordinates[1..]);
      ShiftAxes(grid, coordinates);
      var k :| 0 <= k < |grid| - 1 && !AxisResolves(grid[1..], coordinates[1..], k)
        && (forall j :: 0 <= j < k ==> AxisResolves(grid[1..], coordinates[1..], j))
        && ClosestGridPoint(grid[1..], coordinates[1..]).error == AxisError(grid[1..], coordinates[1..], k);
      assert AxisResolves(grid, coordinates, 0);
      assert !AxisResolves(grid, coordinates, k + 1);
    }
  }

  /** Without an exact match, an element strictly nearer than all others is the answer. */
  lemma StrictlyNearestWins(axis: seq<real>, value: real, x: real)
    requires value !in axis && x in axis
    requires forall y :: y in axis && y != x ==> Distance(x, value) < Distance(y, value)
    ensures ClosestCoordinate(axis, value) == Ok(x)
  {
    var r := ClosestCoordinate(axis, value);
    var i :| 0 <= i < |axis| && axis[i] == r.value;
    var j :| 0 <= j < |axis| && axis[j] == x;
    assert Distance(r.value, value) <= Distance(axis[j], value);
  }

  /** Unit-test case: 1.4 on the axis 1, 2, 3 gives 1. */
  lemma NearestInIntegerAxis()
    ensures ClosestCoordinate([1.0, 2.0, 3.0], 1.4) == Ok(1.0)
  {
    assert 1.4 !in [1.0, 2.0, 3.0];
    assert forall y :: y in [1.0, 2.0, 3.0] && y != 1.0 ==> Distance(1.0, 1.4) < Distance(y, 1.4);
    StrictlyNearestWins([1.0, 2.0, 3.0], 1.4, 1.0);
  }

  /** Unit-test case: 16 on the axis 10, 20, 30 gives 20. */
  lemma NearestInSortedAxis()
    ensures ClosestCoordinate([10.0, 20.0, 30.0], 16.0) == Ok(20.0)
  {
    assert 16.0 !in [10.0, 20.0, 30.0];
    assert forall y :: y in [10.0, 20.0, 30.0] && y != 20.0 ==> Distance(20.0, 16.0) < Distance(y, 16.0);
    StrictlyNearestWins([10.0, 20.0, 30.0], 16.0, 20.0);
  }

  /** Unit-test case: 16 on the axis 30, 10, 20 still gives 20. */
  lemma NearestInUnsortedAxis()
    ensures ClosestCoordinate([30.0, 10.0, 20.0], 16.0) == Ok(20.0)
  {
    assert 16.0 !in [30.0, 10.0, 20.0];
    assert forall y :: y in [30.0, 10.0, 20.0] && y != 20.0 ==> Distance(20.0, 16.0) < Distance(y, 16.0);
    StrictlyNearestWins([30.0, 10.0, 20.0], 16.0, 20.0);
  }

  /** 1.4 on the axis 3, 2, 1 gives 1. */
  lemma NearestInDescendingAxis()
    ensures ClosestCoordinate([3.0, 2.0, 1.0], 1.4) == Ok(1.0)
  {
    assert 1.4 !in [3.0, 2.0, 1.0];
    assert forall y :: y in [3.0, 2.0, 1.0] && y != 1.0 ==> Distance(1.0, 1.4) < Distance(y, 1.4);
    StrictlyNearestWins([3.0, 2.0, 1.0], 1.4, 1.0);
  }

  /** 1.6 on the axis 3, 1, 2 gives 2. */
  lemma NearestAboveInUnsortedAxis()
    ensures ClosestCoordinate([3.0, 1.0, 2.0], 1.6) == Ok(2.0)
  {
    assert 1.6 !in [3.0, 1.0, 2.0];
    assert forall y :: y in [3.0, 1.0, 2.0] && y != 2.0 ==> Distance(2.0, 1.6) < Distance(y, 1.6);
    StrictlyNearestWins([3.0, 1.0, 2.0], 1.6, 2.0);
  }

  /** 1.6 on the axis 3, 2, 1 gives 2. */
  lemma NearestAboveInDescendingAxis()
    ensures ClosestCoordinate([3.0, 2.0, 1.0], 1.6) == Ok(2.0)
  {
    assert 1.6 !in [3.0, 2.0, 1.0];
    assert forall y :: y in [3.0, 2.0, 1.0] && y != 2.0 ==> Distance(2.0, 1.6) < Distance(y, 1.6);
    StrictlyNearestWins([3.0, 2.0, 1.0], 1.6, 2.0);
  }

  /** 1.6 on the axis 1, 2, 3 gives 2. */
  lemma NearestAboveInIntegerAxis()
    ensures ClosestCoordinate([1.0, 2.0, 3.0], 1.6) == Ok(2.0)
  {
    assert 1.6 !in [1.0, 2.0, 3.0];
    assert forall y :: y in [1.0, 2.0, 3.0] && y != 2.0 ==> Distance(2.0, 1.6) < Distance(y, 1.6);
    StrictlyNearestWins([1.0, 2.0, 3.0], 1.6, 2.0);
  }

  /** 1.4 on the axis 1, 2 gives 1. */
  lemma NearestInShortAxis()
    ensures ClosestCoordinate([1.0, 2.0], 1.4) == Ok(1.0)
  {
    assert 1.4 !in [1.0, 2.0];
    assert forall y :: y in [1.0, 2.0] && y != 1.0 ==> Distance(1.0, 1.4) < Distance(y, 1.4);
    StrictlyNearestWins([1.0, 2.0], 1.4, 1.0);
  }

  /** A value present twice in an axis is ambiguous. */
  lemma DuplicateMatchExample()
    ensures ClosestCoordinate([2.0, 5.0, 2.0], 2.0) == Err(AmbiguousExactMatch)
  {
    assert [2.0, 5.0, 2.0] == [2.0] + [5.0] + [2.0];
    assert multiset([2.0, 5.0, 2.0])[2.0] == 2;
  }

  /** On a two-axis grid, the grid point is the pair of the axes' closest values. */
  lemma GridPointOfTwoAxes(grid: seq<seq<real>>, coordinates: seq<real>, x: real, y: real)
    requires |grid| == 2 && |coordinates| == 2
    requires ClosestCoordinate(grid[0], coordinates[0]) == Ok(x)
    requires ClosestCoordinate(grid[1], coordinates[1]) == Ok(y)
    ensures ClosestGridPoint(grid, coordinates) == Ok([x, y])
  {
    assert AxisResolves(grid, coordinates, 0) && AxisResolves(grid, coordinates, 1);
    ClosestGridPointSucceeds(grid, coordinates);
    var r := ClosestGridPoint(grid, coordinates);
    assert r.value[0] == x && r.value[1] == y;
    assert r.value == [x, y];
  }

  /** Unit-test case: the point (1.4, 1.4) on two descending axes. */
  lemma GridPointOnDescendingAxes()
    ensures ClosestGridPoint([[3.0, 2.0, 1.0], [3.0, 2.0, 1.0]], [1.4, 1.4]) == Ok([1.0, 1.0])
  {
    NearestInDescendingAxis();
    GridPointOfTwoAxes([[3.0, 2.0, 1.0], [3.0, 2.0, 1.0]], [1.4, 1.4], 1.0, 1.0);
  }

  /** Unit-test case: the point (1.6, 1.6) on an unsorted and a descending axis. */
  lemma GridPointOnMixedAxes()
    ensures ClosestGridPoint([[3.0, 1.0, 2.0], [3.0, 2.0, 1.0]], [1.6, 1.6]) == Ok([2.0, 2.0])
  {
    NearestAboveInUnsortedAxis();
    NearestAboveInDescendingAxis();
    GridPointOfTwoAxes([[3.0, 1.0, 2.0], [3.0, 2.0, 1.0]], [1.6, 1.6], 2.0, 2.0);
  }

  /** Unit-test case: the point (1.4, 1.6) resolves each axis to a different value. */
  lemma GridPointWithDifferentTargets()
    ensures ClosestGridPoint([[1.0, 2.0, 3.0], [1.0, 2.0, 3.0]], [1.4, 1.6]) == Ok([1.0, 2.0])
  {
    NearestInIntegerAxis();
    NearestAboveInIntegerAxis();
    GridPointOfTwoAxes([[1.0, 2.0, 3.0], [1.0, 2.0, 3.0]], [1.4, 1.6], 1.0, 2.0);
  }

  /** A grid with more axes than given coordinates fails on the first missing one. */
  lemma MissingCoordinateExample()
    ensures ClosestGridPoint([[1.0, 2.0], [1.0, 2.0]], [1.4]) == Err(MissingCoordinate)
  {
    NearestInShortAxis();
  }

  // ---------------------------------------------------------------------------
  // Hourly resampling and clean-up of production readings

  /** One production reading: a timestamp in seconds and the measured power. */
  datatype Reading = Reading(time: Timestamp, value: real)

  /** One hour of the resampled series; `None` is pandas' NaN for an hour without readings. */
  datatype HourlyValue = HourlyValue(hour: Timestamp, value: Option<real>)

  /** The number of the hour a timestamp falls into, counting hours of 3600 seconds from
      the epoch (floor division, also for timestamps before the epoch). */
  function HourIndex(t: Timestamp): (n: int)
    ensures n * 3600 <= t < n * 3600 + 3600
  {
    t / 3600
  }

  /** Flooring a timestamp to the start of its hour. */
  function HourOf(t: Timestamp): (h: Timestamp)
    ensures h <= t < h + 3600
    ensures h % 3600 == 0
  {
    HourIndex(t) * 3600
  }

  /** The values of the readings that fall into `hour`, in reading order. */
  function ValuesInHour(readings: seq<Reading>, hour: Timestamp): (vs: seq<real>)
    ensures vs == [] <==> forall i :: 0 <= i < |readings| ==> HourOf(readings[i].time) != hour
    ensures |vs| <= |readings|
    ensures forall v :: v in vs <==>
      exists i :: 0 <= i < |readings| && HourOf(readings[i].time) == hour && readings[i].value == v
  {
    if readings == [] then []
    else
      var rest := ValuesInHour(readings[1..], hour);
      assert forall i :: 1 <= i < |readings| ==> readings[i] == readings[1..][i - 1];
      if HourOf(readings[0].time) == hour then [readings[0].value] + rest else rest
  }

  /** The mean of one hour's readings, or NaN when the hour has none. */
  function HourMean(readings: seq<Reading>, hour: Timestamp): Option<real> {
    var vs := ValuesInHour(readings, hour);
    if vs == [] then None else Some(Statistics.Mean(vs))
  }

  /** The index of the earliest hour holding a reading. */
  function FirstIndex(readings: seq<Reading>): (n: int)
    requires readings != []
    ensures forall i :: 0 <= i < |readings| ==> n <= HourIndex(readings[i].time)
    ensures exists i :: 0 <= i < |readings| && n == HourIndex(readings[i].time)
  {
    if |readings| == 1 then HourIndex(readings[0].time)
    else
      var rest := FirstIndex(readings[1..]);
      assert forall i :: 1 <= i < |readings| ==> readings[i] == readings[1..][i - 1];
      if HourIndex(readings[0].time) < rest then HourIndex(readings[0].time) else rest
  }

  /** The index of the latest hour holding a reading. */
  function LastIndex(readings: seq<Reading>): (n: int)
    requires readings != []
    ensures forall i :: 0 <= i < |readings| ==> HourIndex(readings[i].time) <= n
    ensures exists i :: 0 <= i < |readings| && n == HourIndex(readings[i].time)
  {
    if |readings| == 1 then HourIndex(readings[0].time)
    else
      var rest := LastIndex(readings[1..]);
      assert forall i :: 1 <= i < |readings| ==> readings[i] == readings[1..][i - 1];
      if HourIndex(readings[0].time) > rest then HourIndex(readings[0].time) else rest
  }

  function Hours(series: seq<HourlyValue>): (hs: seq<Timestamp>)
    ensures |hs| == |series| && forall k :: 0 <= k < |series| ==> hs[k] == series[k].hour
  {
    seq(|series|, k requires 0 <= k < |series| => series[k].hour)
  }

  /** `resample("1h").mean()`: every hour from the earliest reading's hour to the latest
      reading's hour, each with the mean of the readings that floor to it. */
  function Resample(readings: seq<Reading>): (r: seq<HourlyValue>)
    ensures r == [] <==> readings == []
  {
    if readings == [] then []
    else
      var first := FirstIndex(readings);
      var count := LastIndex(readings) - first + 1;
      seq(count, k requires 0 <= k < count =>
        HourlyValue((first + k) * 3600, HourMean(readings, (first + k) * 3600)))
  }

  /** The resampled series has one entry per hour from the first to the last reading's hour. */
  lemma {:induction false} ResampleLength(readings: seq<Reading>)
    requires readings != []
    ensures |Resample(readings)| == LastIndex(readings) - FirstIndex(readings) + 1
  {
  }

  /** Entry `k` of the resampled series is the `k`-th hour after the first reading's hour. */
  lemma {:induction false} ResampleHourAt(readings: seq<Reading>)
    ensures forall k :: 0 <= k < |Resample(readings)| ==>
              Resample(readings)[k].hour == (FirstIndex(readings) + k) * 3600
  {
  }

  /** Each resampled entry holds the mean of the readings in its hour. */
  lemma {:induction false} ResampleMeanAt(readings: seq<Reading>)
    ensures forall k :: 0 <= k < |Resample(readings)| ==>
              Resample(readings)[k].value == HourMean(readings, Resample(readings)[k].hour)
  {
  }

  /** The first resampled entry is the earliest reading's hour with that hour's mean. */
  lemma ResampleFirstEntry(readings: seq<Reading>)
    requires readings != []
    ensures var h := FirstIndex(readings) * 3600;
      Resample(readings)[0] == HourlyValue(h, HourMean(readings, h))
  {
    ResampleLength(readings);
    ResampleHourAt(readings);
    ResampleMeanAt(readings);
  }

  /** The last resampled entry is the latest reading's hour with that hour's mean. */
  lemma ResampleLastEntry(readings: seq<Reading>)
    requires readings != []
    ensures var r, h := Resample(readings), LastIndex(readings) * 3600;
      r[|r| - 1] == HourlyValue(h, HourMean(readings, h))
  {
    ResampleLength(readings);
    ResampleHourAt(readings);
    ResampleMeanAt(readings);
  }

  /** The resampled hours are whole hours, one hour apart, from the earliest reading's
      hour to the latest one's, and every reading's hour is among them. */
  lemma {:induction false} ResampledHours(readings: seq<Reading>)
    ensures var r := Resample(readings);
      && StrictlyIncreasing(Hours(r))
      && (forall k :: 0 <= k < |r| ==> r[k].hour % 3600 == 0)
      && (forall k :: 0 <= k < |r| - 1 ==> r[k + 1].hour == r[k].hour + 3600)
      && (forall k :: 0 <= k < |r| ==>
            FirstIndex(readings) * 3600 <= r[k].hour <= LastIndex(readings) * 3600)
      && (forall i :: 0 <= i < |readings| ==> HourOf(readings[i].time) in Hours(r))
  {
    if readings != [] { ResampleLength(readings); }
    ResampleHourAt(readings);
    ResampledWholeHours(readings);
    ResampleCoversReadings(readings);
  }

  lemma {:induction false} ResampledWholeHours(readings: seq<Reading>)
    ensures var r := Resample(readings);
      forall k :: 0 <= k < |r| ==> r[k].hour % 3600 == 0
  {
    ResampleHourAt(readings);
  }

  lemma {:induction false} ResampleCoversReadings(readings: seq<Reading>)
    ensures forall i :: 0 <= i < |readings| ==> HourOf(readings[i].time) in Hours(Resample(readings))
  {
    var r := Resample(readings);
    ResampleHourAt(readings);
    if readings != [] {
      ResampleLength(readings);
      forall i | 0 <= i < |readings|
        ensures HourOf(readings[i].time) in Hours(r)
      {
        var k := HourIndex(readings[i].time) - FirstIndex(readings);
        assert Hours(r)[k] == HourOf(readings[i].time);
      }
    }
  }

  /** `_get_intersection_of_dates`: `sorted(set(left.index) & set(right))`. */
  function IntersectionOfDates(resampled: seq<HourlyValue>, dates: seq<Timestamp>): (r: seq<Timestamp>)
    ensures StrictlyIncreasing(r)
    ensures forall t :: t in r <==> t in Hours(resampled) && t in dates
  {
    SortedSet(set t | t in Hours(resampled) && t in dates)
  }

  /** `series.loc[hour]` for an hour the series has. */
  function ValueAt(series: seq<HourlyValue>, hour: Timestamp): (v: Option<real>)
    requires hour in Hours(series)
    ensures exists k :: 0 <= k < |series| && series[k].hour == hour && v == series[k].value
  {
    if series[0].hour == hour then series[0].value
    else
      assert Hours(series) == [series[0].hour] + Hours(series[1..]);
      var v := ValueAt(series[1..], hour);
      assert forall k :: 1 <= k < |series| ==> series[k] == series[1..][k - 1];
      v
  }

  /** Looking an hour up in the resampled series gives the mean of that hour's readings. */
  lemma {:induction false} ResampledValueAt(readings: seq<Reading>, hour: Timestamp)
    requires hour in Hours(Resample(readings))
    ensures ValueAt(Resample(readings), hour) == HourMean(readings, hour)
  {
    ResampleMeanAt(readings);
  }

  /** Masked assignment `x[x < 0.0] = 0.0`; NaN is left alone because `NaN < 0` is false. */
  function Clip(v: Option<real>): (r: Option<real>)
    ensures r.None? <==> v.None?
    ensures r.Some? ==> r.value >= 0.0
    ensures v.Some? && v.value >= 0.0 ==> r == v
    ensures v.Some? && v.value < 0.0 ==> r == Some(0.0)
  {
    match v
    case None => None
    case Some(x) => if x < 0.0 then Some(0.0) else Some(x)
  }

  /** Clipping in place: each negative value becomes 0, everything else is kept. */
  method ClipNegatives(a: array<Option<real>>)
    modifies a
    ensures forall k :: 0 <= k < a.Length ==> a[k] == Clip(old(a[k]))
  {
    var i := 0;
    while i < a.Length
      invariant 0 <= i <= a.Length
      invariant forall k :: 0 <= k < i ==> a[k] == Clip(old(a[k]))
      invariant forall k :: i <= k < a.Length ==> a[k] == old(a[k])
    {
      if a[i].Some? && a[i].value < 0.0 {
        a[i] := Some(0.0);
      }
      i := i + 1;
    }
  }

  /** The intersection is empty exactly when no date is a resampled hour. */
  lemma {:induction false} NoOverlap(resampled: seq<HourlyValue>, dates: seq<Timestamp>)
    ensures IntersectionOfDates(resampled, dates) == [] <==>
              forall t :: t in dates ==> t !in Hours(resampled)
  {
    var hours := IntersectionOfDates(resampled, dates);
    if hours != [] {
      assert hours[0] in hours;
    }
  }

  /** `resampled.loc[hours]` for hours the resampled series has. */
  function LookUp(series: seq<HourlyValue>, hours: seq<Timestamp>): (vs: seq<Option<real>>)
    requires forall h :: h in hours ==> h in Hours(series)
    ensures |vs| == |hours|
  {
    seq(|hours|, k requires 0 <= k < |hours| => ValueAt(series, hours[k]))
  }

  /** Looking hours up in the resampled series gives the means of those hours' readings. */
  lemma {:induction false} LookUpResampled(readings: seq<Reading>, hours: seq<Timestamp>)
    requires forall h :: h in hours ==> h in Hours(Resample(readings))
    ensures forall k :: 0 <= k < |hours| ==>
              LookUp(Resample(readings), hours)[k] == HourMean(readings, hours[k])
  {
    forall k | 0 <= k < |hours|
      ensures LookUp(Resample(readings), hours)[k] == HourMean(readings, hours[k])
    {
      assert hours[k] in hours;
      ResampledValueAt(readings, hours[k]);
    }
  }

  /** A series from its hours and its values, position by position. */
  function Label(hours: seq<Timestamp>, values: seq<Option<real>>): (series: seq<HourlyValue>)
    requires |hours| == |values|
    ensures Hours(series) == hours
    ensures forall k :: 0 <= k < |series| ==> series[k].value == values[k]
  {
    var series := seq(|hours|, k requires 0 <= k < |hours| => HourlyValue(hours[k], values[k]));
    assert Hours(series) == hours;
    series
  }

  /** Clipping the looked-up means and labelling them with their hours gives each hour
      the clipped mean of its readings. */
  lemma {:induction false} ClippedMeansPerHour(readings: seq<Reading>, hours: seq<Timestamp>, values: seq<Option<real>>)
    requires forall h :: h in hours ==> h in Hours(Resample(readings))
    requires |values| == |hours|
    requires forall k :: 0 <= k < |hours| ==> values[k] == Clip(LookUp(Resample(readings), hours)[k])
    ensures forall k :: 0 <= k < |hours| ==>
              Label(hours, values)[k].value == Clip(HourMean(readings, Label(hours, values)[k].hour))
  {
    LookUpResampled(readings, hours);
  }

  /** `resample_and_clear_production_data_to_hourly_timeseries`: the hourly means of the
      readings, restricted to the hours that also occur in `dates`, in ascending order,
      with negative means set to 0; an empty restriction is an error. */
  method ResampleAndClear(readings: seq<Reading>, dates: seq<Timestamp>)
    returns (r: Result<seq<HourlyValue>, DataError>)
    ensures r.Err? <==> forall t :: t in dates ==> t !in Hours(Resample(readings))
    ensures r.Err? ==> r.error == NoTemporalOverlap
    ensures r.Ok? ==> Hours(r.value) == IntersectionOfDates(Resample(readings), dates)
    ensures r.Ok? ==> forall k :: 0 <= k < |r.value| ==>
              r.value[k].value == Clip(HourMean(readings, r.value[k].hour))
  {
    var resampled := Resample(readings);
    var hours := IntersectionOfDates(resampled, dates);
    var means := LookUp(resampled, hours);
    var selected := new Option<real>[|hours|](k requires 0 <= k < |hours| => means[k]);
    ClipNegatives(selected);
    NoOverlap(resampled, dates);
    if selected.Length == 0 {
      return Err(NoTemporalOverlap);
    }
    ClippedMeansPerHour(readings, hours, selected[..]);
    r := Ok(Label(hours, selected[..]));
  }

  // ---------------------------------------------------------------------------
  // The resampling unit test: ten-minute readings 0, 1, ..., 6 from midnight of
  // 2020-01-01 (1577836800 seconds after the epoch) to 01:00.

  function TenMinuteReadings(): seq<Reading> {
    [Reading(1577836800, 0.0), Reading(1577837400, 1.0), Reading(1577838000, 2.0),
     Reading(1577838600, 3.0), Reading(1577839200, 4.0), Reading(1577839800, 5.0),
     Reading(1577840400, 6.0)]
  }

  lemma TenMinuteReadingsSpanTwoHours()
    ensures FirstIndex(TenMinuteReadings()) == 438288
    ensures LastIndex(TenMinuteReadings()) == 438289
  {
    var rs := TenMinuteReadings();
    assert forall i :: 0 <= i < 6 ==> HourIndex(rs[i].time) == 438288;
    assert HourIndex(rs[6].time) == 438289;
  }

  lemma TenMinuteReadingsFirstHour()
    ensures ValuesInHour(TenMinuteReadings(), 1577836800) == [0.0, 1.0, 2.0, 3.0, 4.0, 5.0]
  {
    var rs := TenMinuteReadings();
    assert HourOf(rs[6].time) != 1577836800;
    assert ValuesInHour(rs[6..], 1577836800) == [];
    assert forall i :: 0 <= i < 6 ==> HourOf(rs[i].time) == 1577836800;
    ValuesAllInHour(rs[..6], 1577836800);
    ValuesInHourAppend(rs[..6], rs[6..], 1577836800);
    assert rs == rs[..6] + rs[6..];
  }

  /** When every reading falls in the hour, the hour's values are all the readings' values. */
  lemma {:induction false} ValuesAllInHour(readings: seq<Reading>, hour: Timestamp)
    requires forall i :: 0 <= i < |readings| ==> HourOf(readings[i].time) == hour
    ensures ValuesInHour(readings, hour) == seq(|readings|, i requires 0 <= i < |readings| => readings[i].value)
  {
    if readings != [] {
      ValuesAllInHour(readings[1..], hour);
    }
  }

  /** The values of an hour in two runs of readings are those of each run, one after the other. */
  lemma {:induction false} ValuesInHourAppend(a: seq<Reading>, b: seq<Reading>, hour: Timestamp)
    ensures ValuesInHour(a + b, hour) == ValuesInHour(a, hour) + ValuesInHour(b, hour)
  {
    if a == [] {
      assert a + b == b;
    } else {
      assert (a + b)[0] == a[0] && (a + b)[1..] == a[1..] + b;
      ValuesInHourAppend(a[1..], b, hour);
    }
  }

  lemma TenMinuteReadingsSecondHour()
    ensures ValuesInHour(TenMinuteReadings(), 1577840400) == [6.0]
  {
    var rs := TenMinuteReadings();
    assert forall i :: 0 <= i < 6 ==> HourOf(rs[i].time) != 1577840400;
    assert HourOf(rs[6].time) == 1577840400;
  }

  lemma TenMinuteReadingsMeans()
    ensures Statistics.Mean([0.0, 1.0, 2.0, 3.0, 4.0, 5.0]) == 2.5
    ensures Statistics.Mean([6.0]) == 6.0
  {
    assert Statistics.Sum([0.0, 1.0, 2.0, 3.0, 4.0, 5.0]) == 15.0;
    assert Statistics.Sum([6.0]) == 6.0;
  }

  /** The unit test's expectation: the hour from midnight averages the six readings
      0..5 to 2.5, and the hour from 01:00 holds the single reading 6. */
  lemma ResampleExample()
    ensures var r := Resample(TenMinuteReadings());
      && |r| == 2
      && r[0] == HourlyValue(1577836800, Some(2.5))
      && r[1] == HourlyValue(1577840400, Some(6.0))
  {
    var rs := TenMinuteReadings();
    TenMinuteReadingsSpanTwoHours();
    ResampleLength(rs);
    ResampleFirstEntry(rs);
    ResampleLastEntry(rs);
    TenMinuteReadingsFirstHour();
    TenMinuteReadingsSecondHour();
    TenMinuteReadingsMeans();
  }
}
