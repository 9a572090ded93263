/** Error metrics of the notebooks (`notebooks/utils/metrics.py`): one-sided filtering of
    (true, predicted) pairs, the choice of normalization, and the normalized mean
    absolute error, in exact arithmetic. */
module Metrics {
  import opened Results
  import opened Statistics

  datatype MetricError =
    | UnknownNormalization(name: string)  // ValueError from `_get_normalization`
    | EmptySpread                         // `np.max` of an empty array
    | NoSamples                           // sklearn refuses zero samples
    | DivisionByNone                      // `mae / None`: a TypeError

  // ---------------------------------------------------------------------------
  // `_restrict_datapoints`

  /** Whether the pair (t, p) survives the mask for `assym`: all pairs when it is zero,
      the over-predictions (p >= t) when positive, the under-predictions (p <= t) when
      negative. */
  predicate Kept(t: real, p: real, assym: int) {
    if assym == 0 then true
    else if assym > 0 then !(p < t)
    else !(p > t)
  }

  /** One mask applied to both sequences: the kept pairs, in their original order. */
  function Restrict(yTrue: seq<real>, yPred: seq<real>, assym: int): (r: (seq<real>, seq<real>))
    requires |yTrue| == |yPred|
    ensures |r.0| == |r.1| <= |yTrue|
    decreases |yTrue|
  {
    if yTrue == [] then ([], [])
    else
      var rest := Restrict(yTrue[1..], yPred[1..], assym);
      if Kept(yTrue[0], yPred[0], assym) then ([yTrue[0]] + rest.0, [yPred[0]] + rest.1)
      else rest
  }

  /** Masking a non-empty pair of sequences decides on the first pair, then masks the rest. */
  lemma RestrictCons(t: real, ts: seq<real>, p: real, ps: seq<real>, assym: int)
    requires |ts| == |ps|
    ensures var rest := Restrict(ts, ps, assym);
      Restrict([t] + ts, [p] + ps, assym) ==
        if Kept(t, p, assym) then ([t] + rest.0, [p] + rest.1) else rest
  {
    assert ([t] + ts)[1..] == ts && ([p] + ps)[1..] == ps;
  }

  /** `_restrict_datapoints`: both sequences unchanged when `assym` is zero, otherwise
      masked. */
  function RestrictDatapoints(yTrue: seq<real>, yPred: seq<real>, assym: int): (r: (seq<real>, seq<real>))
    requires |yTrue| == |yPred|
    ensures assym == 0 ==> r == (yTrue, yPred)
  {
    if assym == 0 then (yTrue, yPred) else Restrict(yTrue, yPred, assym)
  }

  /** The positions the mask keeps, in ascending order. */
  function KeptIndices(yTrue: seq<real>, yPred: seq<real>, assym: int, from: nat): seq<nat>
    requires |yTrue| == |yPred| && from <= |yTrue|
    decreases |yTrue| - from
  {
    if from == |yTrue| then []
    else if Kept(yTrue[from], yPred[from], assym) then [from] + KeptIndices(yTrue, yPred, assym, from + 1)
    else KeptIndices(yTrue, yPred, assym, from + 1)
  }

  predicate IncreasingIndices(ix: seq<nat>) {
    forall a, b :: 0 <= a < b < |ix| ==> ix[a] < ix[b]
  }

  /** The kept positions are exactly those whose pair passes the mask, each once and in order. */
  lemma {:induction false} KeptIndicesExact(yTrue: seq<real>, yPred: seq<real>, assym: int, from: nat)
    requires |yTrue| == |yPred| && from <= |yTrue|
    ensures IncreasingIndices(KeptIndices(yTrue, yPred, assym, from))
    ensures forall i :: i in KeptIndices(yTrue, yPred, assym, from) <==>
      from <= i < |yTrue| && Kept(yTrue[i], yPred[i], assym)
    decreases |yTrue| - from
  {
    if from < |yTrue| {
      KeptIndicesExact(yTrue, yPred, assym, from + 1);
      var rest := KeptIndices(yTrue, yPred, assym, from + 1);
      if Kept(yTrue[from], yPred[from], assym) {
        forall k | 0 <= k < |rest| ensures from < rest[k] {
          assert rest[k] in rest;
        }
        PrependIncreasing(from, rest);
      }
    }
  }

  /** A position before every position of an increasing list keeps it increasing. */
  lemma PrependIncreasing(first: nat, ix: seq<nat>)
    requires IncreasingIndices(ix)
    requires forall k :: 0 <= k < |ix| ==> first < ix[k]
    ensures IncreasingIndices([first] + ix)
    ensures forall i :: i in [first] + ix <==> i == first || i in ix
  {
    var r := [first] + ix;
    forall a, b | 0 <= a < b < |r| ensures r[a] < r[b] {
      assert r[b] == ix[b - 1];
      if a > 0 {
        assert r[a] == ix[a - 1];
      }
    }
  }

  /** The masked sequences hold the pairs at the kept positions, in order. */
  lemma {:induction false} RestrictPicksKept(yTrue: seq<real>, yPred: seq<real>, assym: int)
    requires |yTrue| == |yPred|
    ensures var r := Restrict(yTrue, yPred, assym);
      var ix := KeptIndices(yTrue, yPred, assym, 0);
      && |r.0| == |ix|
      && (forall k :: 0 <= k < |ix| ==> ix[k] < |yTrue| && r.0[k] == yTrue[ix[k]] && r.1[k] == yPred[ix[k]])
    decreases |yTrue|
  {
    if yTrue != [] {
      var t, p := yTrue[1..], yPred[1..];
      RestrictPicksKept(t, p, assym);
      KeptShift(yTrue, yPred, assym, 1);
    }
  }

  /** Dropping the first pair shifts the kept positions by one. */
  lemma {:induction false} KeptShift(yTrue: seq<real>, yPred: seq<real>, assym: int, from: nat)
    requires |yTrue| == |yPred| && 1 <= from <= |yTrue|
    ensures var inner := KeptIndices(yTrue[1..], yPred[1..], assym, from - 1);
      var outer := KeptIndices(yTrue, yPred, assym, from);
      && |inner| == |outer|
      && forall k :: 0 <= k < |inner| ==> outer[k] == inner[k] + 1
    decreases |yTrue| - from
  {
    if from < |yTrue| {
      KeptShift(yTrue, yPred, assym, from + 1);
      assert yTrue[1..][from - 1] == yTrue[from] && yPred[1..][from - 1] == yPred[from];
    }
  }

  /** Pairs with equal values survive the mask in both directions, and every pair survives
      in at least one direction. */
  lemma EqualPairsSurvive(t: real, p: real)
    ensures t == p ==> Kept(t, p, 1) && Kept(t, p, -1)
    ensures Kept(t, p, 1) || Kept(t, p, -1)
    ensures Kept(t, p, 1) && Kept(t, p, -1) <==> t == p
  {
  }

  // ---------------------------------------------------------------------------
  // `_get_normalization`

  /** The `normalization` argument: a number, the name of a statistic of `y_true`, or
      anything else (a list, `None`, ...). */
  datatype NormalizationArg = Number(value: real) | Name(name: string) | Other

  /** What the error is divided by: a number, the square root of a variance (`std`), NaN
      (`np.mean` and `np.var` of an empty array), or `None` (an argument that is neither a
      number nor a string falls through every branch). */
  datatype Scale = Value(value: real) | RootOf(variance: real) | NotANumber | Missing

  /** `str.lower()` on the characters that can spell a statistic's name. */
  function LowerChar(c: char): char {
    if 'A' <= c <= 'Z' then (c as int + 32) as char else c
  }

  function Lower(s: string): (r: string)
    ensures |r| == |s|
    ensures forall i :: 0 <= i < |s| ==> r[i] == LowerChar(s[i])
  {
    seq(|s|, i requires 0 <= i < |s| => LowerChar(s[i]))
  }

  /** The statistics of `y_true` a normalization can name. */
  datatype Statistic = Spread | Average | StandardDeviation | PopulationVariance

  /** The statistic a lower-cased name denotes, if any. */
  function StatisticNamed(key: string): (r: Option<Statistic>)
    ensures r == Some(Spread) <==> key == "spread"
    ensures r == Some(Average) <==> key == "mean"
    ensures r == Some(StandardDeviation) <==> key == "std"
    ensures r == Some(PopulationVariance) <==> key == "var"
  {
    if key == "spread" then Some(Spread)
    else if key == "mean" then Some(Average)
    else if key == "std" then Some(StandardDeviation)
    else if key == "var" then Some(PopulationVariance)
    else None
  }

  /** The statistic of `y_true`: the range (`np.max` refuses an empty array), the mean, the
      square root of the population variance, or the population variance (NaN when empty). */
  function StatisticOf(yTrue: seq<real>, stat: Statistic): (r: Result<Scale, MetricError>)
    ensures r.Err? <==> stat == Spread && |yTrue| == 0
    ensures r == Ok(NotANumber) <==> stat != Spread && |yTrue| == 0
    ensures |yTrue| > 0 && stat == Spread ==> r == Ok(Value(Range(yTrue)))
    ensures |yTrue| > 0 && stat == Average ==> r == Ok(Value(Mean(yTrue)))
    ensures |yTrue| > 0 && stat == StandardDeviation ==> r == Ok(RootOf(Variance(yTrue)))
    ensures |yTrue| > 0 && stat == PopulationVariance ==> r == Ok(Value(Variance(yTrue)))
  {
    if |yTrue| == 0 then (if stat == Spread then Err(EmptySpread) else Ok(NotANumber))
    else match stat
      case Spread => Ok(Value(Range(yTrue)))
      case Average => Ok(Value(Mean(yTrue)))
      case StandardDeviation => Ok(RootOf(Variance(yTrue)))
      case PopulationVariance => Ok(Value(Variance(yTrue)))
  }

  /** `_get_normalization`: numbers pass unchanged; the names are matched ignoring case. */
  function GetNormalization(yTrue: seq<real>, arg: NormalizationArg): (r: Result<Scale, MetricError>)
    ensures arg.Number? ==> r == Ok(Value(arg.value))
    ensures arg.Other? ==> r == Ok(Missing)
    ensures r.Err? <==>
      && arg.Name?
      && (Lower(arg.name) !in {"spread", "mean", "std", "var"} || (Lower(arg.name) == "spread" && |yTrue| == 0))
    ensures r.Ok? && arg.Name? && |yTrue| > 0 ==> !r.value.NotANumber? && !r.value.Missing?
  {
    match arg
    case Other => Ok(Missing)
    case Number(v) => Ok(Value(v))
    case Name(name) =>
      match StatisticNamed(Lower(name))
      case None => Err(UnknownNormalization(name))
      case Some(stat) => StatisticOf(yTrue, stat)
  }

  /** Lower-casing a second time changes nothing. */
  lemma LowerIdempotent(s: string)
    ensures Lower(Lower(s)) == Lower(s)
  {
  }

  /** The name's case does not matter. */
  lemma NormalizationIgnoresCase(yTrue: seq<real>, name: string)
    ensures GetNormalization(yTrue, Name(Lower(name))).Ok? == GetNormalization(yTrue, Name(name)).Ok?
    ensures GetNormalization(yTrue, Name(name)).Ok? ==>
      GetNormalization(yTrue, Name(Lower(name))) == GetNormalization(yTrue, Name(name))
  {
    LowerIdempotent(name);
  }

  /** Which names are accepted: exactly the four statistics, in any case. */
  lemma KnownNames(yTrue: seq<real>, name: string)
    ensures GetNormalization(yTrue, Name(name)) == Err(UnknownNormalization(name)) <==>
      Lower(name) !in {"spread", "mean", "std", "var"}
  {
  }

  /** A `spread` normalization of a non-empty series is its range. */
  lemma SpreadIsRange(yTrue: seq<real>)
    requires |yTrue| > 0
    ensures GetNormalization(yTrue, Name("spread")) == Ok(Value(Range(yTrue)))
  {
    assert Lower("spread") == "spread";
    assert StatisticNamed(Lower("spread")) == Some(Spread);
  }

  /** The other three names of a non-empty series: its mean, the square root of its
      population variance, and its population variance, whatever the name's case. */
  lemma NamedNormalizations(yTrue: seq<real>, name: string)
    requires |yTrue| > 0
    ensures Lower(name) == "mean" ==> GetNormalization(yTrue, Name(name)) == Ok(Value(Mean(yTrue)))
    ensures Lower(name) == "std" ==> GetNormalization(yTrue, Name(name)) == Ok(RootOf(Variance(yTrue)))
    ensures Lower(name) == "var" ==> GetNormalization(yTrue, Name(name)) == Ok(Value(Variance(yTrue)))
  {
  }

  /** The range of a non-empty series is never negative, and it is zero exactly when all
      values are equal. */
  lemma RangeNonNegative(yTrue: seq<real>)
    requires |yTrue| > 0
    ensures Range(yTrue) >= 0.0
    ensures Range(yTrue) == 0.0 <==> forall i :: 0 <= i < |yTrue| ==> yTrue[i] == yTrue[0]
  {
    var hi, lo := Max(yTrue), Min(yTrue);
    assert lo <= yTrue[0] <= hi;
    if forall i :: 0 <= i < |yTrue| ==> yTrue[i] == yTrue[0] {
      var h :| 0 <= h < |yTrue| && yTrue[h] == hi;
      var l :| 0 <= l < |yTrue| && yTrue[l] == lo;
    }
  }

  // ---------------------------------------------------------------------------
  // `normalized_mean_absolute_error`

  /** The absolute differences, pair by pair. */
  function AbsoluteErrors(yTrue: seq<real>, yPred: seq<real>): (ds: seq<real>)
    requires |yTrue| == |yPred|
    ensures |ds| == |yTrue|
    ensures forall i :: 0 <= i < |ds| ==> ds[i] == Abs(yTrue[i] - yPred[i])
  {
    seq(|yTrue|, i requires 0 <= i < |yTrue| => Abs(yTrue[i] - yPred[i]))
  }

  /** `sklearn.metrics.mean_absolute_error` without weights: the mean absolute difference. */
  /** It is never negative, and zero exactly when the predictions are the true values. */
  function MeanAbsoluteError(yTrue: seq<real>, yPred: seq<real>): (mae: real)
    requires |yTrue| == |yPred| > 0
    ensures mae >= 0.0
    ensures mae == 0.0 <==> yTrue == yPred
  {
    var ds := AbsoluteErrors(yTrue, yPred);
    SumNonNegative(ds);
    assert (forall i :: 0 <= i < |ds| ==> ds[i] == 0.0) ==> yTrue == yPred by {
      if forall i :: 0 <= i < |ds| ==> ds[i] == 0.0 {
        assert forall i :: 0 <= i < |yTrue| ==> yTrue[i] == yPred[i];
      }
    }
    Mean(ds)
  }

  /** The mean absolute error does not depend on which sequence is which. */
  lemma MeanAbsoluteErrorSymmetric(yTrue: seq<real>, yPred: seq<real>)
    requires |yTrue| == |yPred| > 0
    ensures MeanAbsoluteError(yTrue, yPred) == MeanAbsoluteError(yPred, yTrue)
  {
    assert AbsoluteErrors(yPred, yTrue) == AbsoluteErrors(yTrue, yPred);
  }

  /** The error divided by the scale: a number, a quotient by the square root of a
      variance, or not finite (a zero divisor or a NaN normalization). */
  datatype Quotient = Finite(value: real) | OverRoot(numerator: real, variance: real) | NonFinite

  function Divide(mae: real, scale: Scale): (q: Quotient)
    requires !scale.Missing?
    ensures scale.Value? && scale.value != 0.0 ==> q == Finite(mae / scale.value)
    ensures scale.Value? && scale.value == 0.0 ==> q == NonFinite
    ensures scale.NotANumber? ==> q == NonFinite
    ensures scale.RootOf? && scale.variance != 0.0 ==> q == OverRoot(mae, scale.variance)
    ensures scale.RootOf? && scale.variance == 0.0 ==> q == NonFinite
  {
    match scale
    case Value(v) => if v == 0.0 then NonFinite else Finite(mae / v)
    case RootOf(variance) => if variance == 0.0 then NonFinite else OverRoot(mae, variance)
    case NotANumber => NonFinite
  }

  /** `normalized_mean_absolute_error` with the default weights: the scale comes from the
      whole of `y_true`, then the pairs are masked and their mean absolute error divided
      by the scale. */
  function NormalizedMeanAbsoluteError(yTrue: seq<real>, yPred: seq<real>,
                                       normalization: NormalizationArg, assym: int): (r: Result<Quotient, MetricError>)
    requires |yTrue| == |yPred|
    ensures GetNormalization(yTrue, normalization).Err? ==> r == Err(GetNormalization(yTrue, normalization).error)
    ensures GetNormalization(yTrue, normalization).Ok? ==>
      var scale, masked := GetNormalization(yTrue, normalization).value, RestrictDatapoints(yTrue, yPred, assym);
      && (|masked.0| == 0 ==> r == Err(NoSamples))
      && (|masked.0| > 0 && scale.Missing? ==> r == Err(DivisionByNone))
      && (r.Ok? <==> |masked.0| > 0 && !scale.Missing?)
      && (r.Ok? ==> r.value == Divide(MeanAbsoluteError(masked.0, masked.1), scale))
  {
    var scale :- GetNormalization(yTrue, normalization);
    var masked := RestrictDatapoints(yTrue, yPred, assym);
    if |masked.0| == 0 then Err(NoSamples)
    else if scale.Missing? then Err(DivisionByNone)
    else Ok(Divide(MeanAbsoluteError(masked.0, masked.1), scale))
  }

  /** The scale does not depend on `assym`: two calls that differ only in `assym` divide
      by the same number, whatever the mask keeps. */
  lemma ScaleIgnoresMask(yTrue: seq<real>, yPred: seq<real>, normalization: NormalizationArg,
                         assym: int, v: real)
    requires |yTrue| == |yPred| && GetNormalization(yTrue, normalization) == Ok(Value(v)) && v != 0.0
    ensures var r := NormalizedMeanAbsoluteError(yTrue, yPred, normalization, assym);
      var masked := RestrictDatapoints(yTrue, yPred, assym);
      && (r.Ok? <==> |masked.0| > 0)
      && (r.Ok? ==> r.value == Finite(MeanAbsoluteError(masked.0, masked.1) / v))
  {
  }

  /** The `std` normalization, in any case: the masked mean absolute error over the square
      root of the population variance of the whole `y_true`, not finite for a constant one. */
  lemma StdNormalization(yTrue: seq<real>, yPred: seq<real>, name: string, assym: int)
    requires |yTrue| == |yPred| > 0 && Lower(name) == "std"
    ensures var r := NormalizedMeanAbsoluteError(yTrue, yPred, Name(name), assym);
      var masked := RestrictDatapoints(yTrue, yPred, assym);
      && (r.Ok? <==> |masked.0| > 0)
      && (r.Ok? && Variance(yTrue) != 0.0 ==> r.value == OverRoot(MeanAbsoluteError(masked.0, masked.1), Variance(yTrue)))
      && (r.Ok? && Variance(yTrue) == 0.0 ==> r.value == NonFinite)
  {
    NamedNormalizations(yTrue, name);
  }

  /** With a positive scale the normalized error is never negative, and zero exactly when
      every kept prediction is exact. */
  lemma NormalizedErrorSign(yTrue: seq<real>, yPred: seq<real>, normalization: NormalizationArg,
                            assym: int, v: real)
    requires |yTrue| == |yPred| && GetNormalization(yTrue, normalization) == Ok(Value(v)) && v > 0.0
    requires NormalizedMeanAbsoluteError(yTrue, yPred, normalization, assym).Ok?
    ensures var q := NormalizedMeanAbsoluteError(yTrue, yPred, normalization, assym).value;
      var masked := RestrictDatapoints(yTrue, yPred, assym);
      && q.Finite? && q.value >= 0.0
      && (q.value == 0.0 <==> masked.0 == masked.1)
  {
    var masked := RestrictDatapoints(yTrue, yPred, assym);
  }

  // ---------------------------------------------------------------------------
  // Examples

  /** With `assym = 1` only the over-prediction (1, 2) is kept, while the mean normalization
      still uses both true values: 1 / 2. */
  lemma NormalizationBeforeMask()
    ensures NormalizedMeanAbsoluteError([1.0, 3.0], [2.0, 2.0], Name("MEAN"), 1) == Ok(Finite(0.5))
  {
    assert Lower("MEAN") == "mean";
    assert StatisticNamed(Lower("MEAN")) == Some(Average);
    assert Mean([1.0, 3.0]) == 2.0;
    RestrictCons(3.0, [], 2.0, [], 1);
    assert [3.0] + [] == [3.0] && [2.0] + [] == [2.0];
    assert Restrict([3.0], [2.0], 1) == ([], []);
    RestrictCons(1.0, [3.0], 2.0, [2.0], 1);
    assert [1.0] + [3.0] == [1.0, 3.0] && [2.0] + [2.0] == [2.0, 2.0];
    assert [1.0] + [] == [1.0] && [2.0] + [] == [2.0];
    assert RestrictDatapoints([1.0, 3.0], [2.0, 2.0], 1) == ([1.0], [2.0]);
    assert AbsoluteErrors([1.0], [2.0]) == [1.0];
  }

  /** With `assym = -1` the under-prediction (3, 2) and the exact (4, 4) are kept instead. */
  lemma UnderPredictionsKept()
    ensures Restrict([1.0, 3.0, 4.0], [2.0, 2.0, 4.0], -1) == ([3.0, 4.0], [2.0, 4.0])
  {
    RestrictCons(4.0, [], 4.0, [], -1);
    assert [4.0] + [] == [4.0];
    RestrictCons(3.0, [4.0], 2.0, [4.0], -1);
    RestrictCons(1.0, [3.0, 4.0], 2.0, [2.0, 4.0], -1);
    assert [3.0] + [4.0] == [3.0, 4.0] && [2.0] + [4.0] == [2.0, 4.0];
    assert [1.0] + [3.0, 4.0] == [1.0, 3.0, 4.0] && [2.0] + [2.0, 4.0] == [2.0, 2.0, 4.0];
  }

  lemma UnknownNameRejected()
    ensures GetNormalization([1.0], Name("median")) == Err(UnknownNormalization("median"))
  {
    assert Lower("median") == "median";
    assert StatisticNamed(Lower("median")) == None;
  }

  lemma VarianceNormalization()
    ensures GetNormalization([1.0, 3.0], Name("Var")) == Ok(Value(1.0))
  {
    assert Lower("Var") == "var";
    assert StatisticNamed(Lower("Var")) == Some(PopulationVariance);
    assert Mean([1.0, 3.0]) == 2.0;
    assert SquaredDeviations([1.0, 3.0], 2.0) == [1.0, 1.0];
  }
}
