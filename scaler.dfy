/** Column statistics and `MinMaxScaler(feature_range=(0, 100)).fit_transform`
    on one column, written out as its formula. */
module Scaler {

  function Min(xs: seq<real>): (m: real)
    requires |xs| > 0
    ensures m in xs
    ensures forall i :: 0 <= i < |xs| ==> m <= xs[i]
  {
    if |xs| == 1 then xs[0]
    else
      var rest := Min(xs[1..]);
      assert forall i :: 1 <= i < |xs| ==> xs[i] == xs[1..][i - 1];
      if xs[0] <= rest then xs[0] else rest
  }

  function Max(xs: seq<real>): (m: real)
    requires |xs| > 0
    ensures m in xs
    ensures forall i :: 0 <= i < |xs| ==> xs[i] <= m
  {
    if |xs| == 1 then xs[0]
    else
      var rest := Max(xs[1..]);
      assert forall i :: 1 <= i < |xs| ==> xs[i] == xs[1..][i - 1];
      if xs[0] >= rest then xs[0] else rest
  }

  function Sum(xs: seq<real>): real
  {
    if xs == [] then 0.0 else xs[0] + Sum(xs[1..])
  }

  /** `np.mean`. */
  function Mean(xs: seq<real>): real
    requires |xs| > 0
  {
    Sum(xs) / (|xs| as real)
  }

  /** `np.clip(x, lo, hi)` for lo <= hi. */
  function Clip(x: real, lo: real, hi: real): (r: real)
    requires lo <= hi
    ensures lo <= r <= hi
    ensures lo <= x <= hi ==> r == x
    ensures x < lo ==> r == lo
    ensures x > hi ==> r == hi
  {
    if x < lo then lo else if x > hi then hi else x
  }

  /** One value scaled from [lo, lo + range] onto [0, 100]. */
  function ScaleValue(x: real, lo: real, range: real): real
    requires range > 0.0
  {
    (x - lo) / range * 100.0
  }

  /** The data range the scaler divides by: max - min, or 1 for a constant
      column, as scikit-learn's `_handle_zeros_in_scale` does. */
  function Range(xs: seq<real>): (d: real)
    requires |xs| > 0
    ensures d > 0.0
  {
    if Max(xs) > Min(xs) then Max(xs) - Min(xs) else 1.0
  }

  /** `MinMaxScaler(feature_range=(0, 100)).fit_transform` on one column. */
  function ScaleTo100(xs: seq<real>): (r: seq<real>)
    requires |xs| > 0
    ensures |r| == |xs|
  {
    seq(|xs|, i requires 0 <= i < |xs| => ScaleValue(xs[i], Min(xs), Range(xs)))
  }

  lemma ScaleValueBounds(x: real, lo: real, range: real)
    requires range > 0.0 && lo <= x <= lo + range
    ensures 0.0 <= ScaleValue(x, lo, range) <= 100.0
  {
    var a := x - lo;
    assert 0.0 <= a <= range;
    assert a / range <= 1.0 by {
      assert a / range * range == a;
    }
  }

  lemma ScaleValueMono(x: real, y: real, lo: real, range: real)
    requires range > 0.0 && x <= y
    ensures ScaleValue(x, lo, range) <= ScaleValue(y, lo, range)
    ensures x < y ==> ScaleValue(x, lo, range) < ScaleValue(y, lo, range)
  {
    assert (y - lo) / range - (x - lo) / range == (y - x) / range;
  }

  lemma ScaleValueEnds(lo: real, range: real)
    requires range > 0.0
    ensures ScaleValue(lo, lo, range) == 0.0
    ensures ScaleValue(lo + range, lo, range) == 100.0
  {
    assert (lo + range - lo) / range == 1.0;
  }

  /** The scaled value at i is its own value scaled by the column's minimum and range. */
  lemma ScaleAt(xs: seq<real>, i: int)
    requires 0 <= i < |xs|
    ensures ScaleTo100(xs)[i] == ScaleValue(xs[i], Min(xs), Range(xs))
  {
  }

  /** The top of the range scales to 100. */
  lemma TopOfRange(x: real, lo: real, range: real)
    requires range > 0.0 && x == lo + range
    ensures ScaleValue(x, lo, range) == 100.0
  {
    ScaleValueEnds(lo, range);
  }

  /** Every scaled value lies in [0, 100]. */
  lemma ScaleRange(xs: seq<real>, i: int)
    requires 0 <= i < |xs|
    ensures 0.0 <= ScaleTo100(xs)[i] <= 100.0
  {
    ScaleValueBounds(xs[i], Min(xs), Range(xs));
  }

  /** The column minimum scales to 0. */
  lemma ScaleMinIsZero(xs: seq<real>, i: int)
    requires 0 <= i < |xs| && xs[i] == Min(xs)
    ensures ScaleTo100(xs)[i] == 0.0
  {
    ScaleValueEnds(Min(xs), Range(xs));
  }

  /** In a column that is not constant the maximum scales to 100. */
  lemma ScaleMaxIsHundred(xs: seq<real>, i: int)
    requires 0 <= i < |xs| && xs[i] == Max(xs) && Max(xs) > Min(xs)
    ensures ScaleTo100(xs)[i] == 100.0
  {
    var lo, d := Min(xs), Range(xs);
    ScaleAt(xs, i);
    TopOfRange(xs[i], lo, d);
  }

  /** A constant column scales to 0 throughout (scikit-learn's zero-range case). */
  lemma ScaleConstantIsZero(xs: seq<real>, i: int)
    requires 0 <= i < |xs| && Max(xs) == Min(xs)
    ensures ScaleTo100(xs)[i] == 0.0
  {
    ScaleMinIsZero(xs, i);
  }

  /** Scaling preserves the order of values, strictly as well. */
  lemma ScaleMonotone(xs: seq<real>, i: int, j: int)
    requires 0 <= i < |xs| && 0 <= j < |xs| && xs[i] <= xs[j]
    ensures ScaleTo100(xs)[i] <= ScaleTo100(xs)[j]
    ensures xs[i] < xs[j] ==> ScaleTo100(xs)[i] < ScaleTo100(xs)[j]
  {
    ScaleValueMono(xs[i], xs[j], Min(xs), Range(xs));
  }

  /** A worked case: [1, 5, 10] scales to [0, 400/9, 100]. */
  lemma ScaleExample()
    ensures ScaleTo100([1.0, 5.0, 10.0]) == [0.0, 400.0 / 9.0, 100.0]
  {
    var xs := [1.0, 5.0, 10.0];
    assert xs[1..] == [5.0, 10.0];
    assert xs[1..][1..] == [10.0];
    assert Min(xs) == 1.0;
    assert Max(xs) == 10.0;
  }
}
