/** Reductions over a sequence of reals as numpy and pandas compute them
    (`sum`, `mean`, `max`, `min`, population `var`), in exact arithmetic. */
module Statistics {

  function Abs(x: real): (r: real)
    ensures r >= 0.0 && (r == x || r == -x)
  {
    if x < 0.0 then -x else x
  }

  function Sum(xs: seq<real>): real
  {
    if xs == [] then 0.0 else xs[0] + Sum(xs[1..])
  }

  lemma {:induction false} SumAppend(xs: seq<real>, ys: seq<real>)
    ensures Sum(xs + ys) == Sum(xs) + Sum(ys)
  {
    if xs != [] {
      assert (xs + ys)[1..] == xs[1..] + ys;
      SumAppend(xs[1..], ys);
    } else {
      assert xs + ys == ys;
    }
  }

  /** A sum of non-negative terms is non-negative, and zero only when every term is. */
  lemma {:induction false} SumNonNegative(xs: seq<real>)
    requires forall i :: 0 <= i < |xs| ==> xs[i] >= 0.0
    ensures Sum(xs) >= 0.0
    ensures Sum(xs) == 0.0 <==> forall i :: 0 <= i < |xs| ==> xs[i] == 0.0
  {
    if xs != [] {
      SumNonNegative(xs[1..]);
      assert forall i :: 1 <= i < |xs| ==> xs[1..][i - 1] == xs[i];
    }
  }

  function Mean(xs: seq<real>): real
    requires |xs| > 0
  {
    Sum(xs) / |xs| as real
  }

  function Max(xs: seq<real>): (m: real)
    requires |xs| > 0
    ensures m in xs
    ensures forall i :: 0 <= i < |xs| ==> xs[i] <= m
  {
    if |xs| == 1 then xs[0]
    else
      var rest := Max(xs[1..]);
      assert forall i :: 1 <= i < |xs| ==> xs[i] == xs[1..][i - 1];
      if xs[0] > rest then xs[0] else rest
  }

  function Min(xs: seq<real>): (m: real)
    requires |xs| > 0
    ensures m in xs
    ensures forall i :: 0 <= i < |xs| ==> m <= xs[i]
  {
    if |xs| == 1 then xs[0]
    else
      var rest := Min(xs[1..]);
      assert forall i :: 1 <= i < |xs| ==> xs[i] == xs[1..][i - 1];
      if xs[0] < rest then xs[0] else rest
  }

  /** The spread of the values: largest minus smallest. */
  function Range(xs: seq<real>): real
    requires |xs| > 0
  {
    Max(xs) - Min(xs)
  }

  /** The squared deviations from `mu`, term by term. */
  function SquaredDeviations(xs: seq<real>, mu: real): (ds: seq<real>)
    ensures |ds| == |xs|
    ensures forall i :: 0 <= i < |xs| ==> ds[i] == (xs[i] - mu) * (xs[i] - mu)
  {
    seq(|xs|, i requires 0 <= i < |xs| => (xs[i] - mu) * (xs[i] - mu))
  }

  /** Population variance (numpy's default `ddof=0`). */
  function Variance(xs: seq<real>): real
    requires |xs| > 0
  {
    Mean(SquaredDeviations(xs, Mean(xs)))
  }

  /** The variance is never negative. */
  lemma VarianceNonNegative(xs: seq<real>)
    requires |xs| > 0
    ensures Variance(xs) >= 0.0
  {
    var ds := SquaredDeviations(xs, Mean(xs));
    assert forall i :: 0 <= i < |ds| ==> ds[i] >= 0.0;
    SumNonNegative(ds);
  }
}
