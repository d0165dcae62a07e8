/** Descriptive statistics over real numbers: the arithmetic mean (sum / len)
    and the Bessel-corrected sample variance that `statistics.stdev` squares
    to. The square root itself is not defined here: callers pass a function
    that satisfies IsSquareRoot. */
module Stats {

  /** `sum(xs)` */
  function Sum(xs: seq<real>): real
  {
    if |xs| == 0 then 0.0 else xs[0] + Sum(xs[1..])
  }

  /** `sum(xs) / len(xs)`: the mean of equal elements is their value (its
      range in general is MeanWithinRange). */
  function Mean(xs: seq<real>): (m: real)
    requires |xs| > 0
    ensures (forall k :: 0 <= k < |xs| ==> xs[k] == xs[0]) ==> m == xs[0]
  {
    FlatSumBounds(xs);
    Sum(xs) / (|xs| as real)
  }

  /** The identity. It exists only for Square: the solver reasons about a
      product of two distinct terms, `d * Id(d)`, where it cannot about the
      power `d * d`. */
  function Id(x: real): real
  {
    x
  }

  /** `d` squared, written `d * Id(d)` (see Id). */
  function Square(d: real): real
  {
    d * Id(d)
  }

  /** The sum of squared distances of the elements from `m`. */
  function SquaredDeviations(xs: seq<real>, m: real): real
  {
    if |xs| == 0 then 0.0 else Square(xs[0] - m) + SquaredDeviations(xs[1..], m)
  }

  /** Sample variance with Bessel's correction: the squared deviations from
      the mean divided by n - 1, not by n. It is never negative. */
  function SampleVariance(xs: seq<real>): (v: real)
    requires |xs| >= 2
    ensures 0.0 <= v
  {
    SquaredDeviationsNonNegative(xs, Mean(xs));
    NonNegativeQuotient(SquaredDeviations(xs, Mean(xs)), (|xs| - 1) as real);
    SquaredDeviations(xs, Mean(xs)) / ((|xs| - 1) as real)
  }

  function Abs(x: real): real
  {
    if x < 0.0 then -x else x
  }

  /** `sqrt` returns the non-negative square root of every non-negative real. */
  ghost predicate IsSquareRoot(sqrt: real -> real)
  {
    forall x :: 0.0 <= x ==> 0.0 <= sqrt(x) && Square(sqrt(x)) == x
  }

  /** A square root, if `sqrt` is one, is never negative. */
  lemma RootNonNegative(sqrt: real -> real, v: real)
    requires 0.0 <= v
    ensures IsSquareRoot(sqrt) ==> 0.0 <= sqrt(v)
  {
  }

  /** The smallest element of a non-empty sequence. */
  function Min(xs: seq<real>): (m: real)
    requires |xs| > 0
    ensures m in xs
    ensures forall k :: 0 <= k < |xs| ==> m <= xs[k]
  {
    if |xs| == 1 then xs[0]
    else
      var rest := Min(xs[1..]);
      assert forall k :: 1 <= k < |xs| ==> xs[k] == xs[1..][k - 1];
      if xs[0] <= rest then xs[0] else rest
  }

  /** The largest element of a non-empty sequence. */
  function Max(xs: seq<real>): (m: real)
    requires |xs| > 0
    ensures m in xs
    ensures forall k :: 0 <= k < |xs| ==> xs[k] <= m
  {
    if |xs| == 1 then xs[0]
    else
      var rest := Max(xs[1..]);
      assert forall k :: 1 <= k < |xs| ==> xs[k] == xs[1..][k - 1];
      if rest <= xs[0] then xs[0] else rest
  }

  /** Lower and upper bounds on every element bound the sum by n times them. */
  lemma {:induction false} SumBounds(xs: seq<real>, lo: real, hi: real)
    requires forall k :: 0 <= k < |xs| ==> lo <= xs[k] <= hi
    ensures (|xs| as real) * lo <= Sum(xs) <= (|xs| as real) * hi
  {
    if |xs| > 0 {
      assert forall k :: 0 <= k < |xs| - 1 ==> xs[1..][k] == xs[k + 1];
      SumBounds(xs[1..], lo, hi);
    }
  }

  /** Dividing `n * lo <= total <= n * hi` by a positive `n`. */
  lemma DivideBounds(total: real, n: real, lo: real, hi: real)
    requires 0.0 < n
    requires n * lo <= total <= n * hi
    ensures lo <= total / n <= hi
  {
  }

  /** The sum of equal elements is their count times their value. */
  lemma FlatSumBounds(xs: seq<real>)
    requires |xs| > 0
    ensures (forall k :: 0 <= k < |xs| ==> xs[k] == xs[0]) ==> xs[0] <= Sum(xs) / (|xs| as real) <= xs[0]
  {
    if forall k :: 0 <= k < |xs| ==> xs[k] == xs[0] {
      SumBounds(xs, xs[0], xs[0]);
      DivideBounds(Sum(xs), |xs| as real, xs[0], xs[0]);
    }
  }

  /** Bounds on every element bound the mean. */
  lemma MeanBounds(xs: seq<real>, lo: real, hi: real)
    requires |xs| > 0
    requires forall k :: 0 <= k < |xs| ==> lo <= xs[k] <= hi
    ensures lo <= Mean(xs) <= hi
  {
    SumBounds(xs, lo, hi);
    DivideBounds(Sum(xs), |xs| as real, lo, hi);
  }

  /** The mean lies between the smallest and the largest element. */
  lemma MeanWithinRange(xs: seq<real>)
    requires |xs| > 0
    ensures Min(xs) <= Mean(xs) <= Max(xs)
  {
    MeanBounds(xs, Min(xs), Max(xs));
  }

  lemma NonNegativeQuotient(a: real, b: real)
    requires 0.0 <= a && 0.0 < b
    ensures 0.0 <= a / b
  {
  }

  /** A square is never negative. */
  lemma SquareNonNegative(d: real)
    ensures 0.0 <= Square(d)
  {
  }

  /** A square that is not positive has root zero. */
  lemma SquareZero(d: real)
    requires !(0.0 < Square(d))
    ensures d == 0.0
  {
  }

  lemma {:induction false} SquaredDeviationsNonNegative(xs: seq<real>, m: real)
    ensures 0.0 <= SquaredDeviations(xs, m)
  {
    if |xs| > 0 {
      SquareNonNegative(xs[0] - m);
      SquaredDeviationsNonNegative(xs[1..], m);
    }
  }

  /** Squared deviations that are not positive come from elements all equal
      to `m`. */
  lemma {:induction false} SquaredDeviationsZero(xs: seq<real>, m: real)
    requires !(0.0 < SquaredDeviations(xs, m))
    ensures forall k :: 0 <= k < |xs| ==> xs[k] == m
  {
    if |xs| > 0 {
      SquareNonNegative(xs[0] - m);
      SquaredDeviationsNonNegative(xs[1..], m);
      SquareZero(xs[0] - m);
      SquaredDeviationsZero(xs[1..], m);
      assert forall k :: 1 <= k < |xs| ==> xs[k] == xs[1..][k - 1];
    }
  }

  /** Elements all equal to `m` have no squared deviation from it. */
  lemma {:induction false} SquaredDeviationsFlat(xs: seq<real>, m: real)
    requires forall k :: 0 <= k < |xs| ==> xs[k] == m
    ensures SquaredDeviations(xs, m) == 0.0
  {
    if |xs| > 0 {
      assert Square(xs[0] - m) == 0.0;
      SquaredDeviationsFlat(xs[1..], m);
    }
  }

  /** The sample variance is zero exactly when all elements are equal. */
  lemma VarianceZeroIffFlat(xs: seq<real>)
    requires |xs| >= 2
    ensures SampleVariance(xs) == 0.0 <==> forall k :: 0 <= k < |xs| ==> xs[k] == xs[0]
  {
    var m := Mean(xs);
    SquaredDeviationsNonNegative(xs, m);
    if SampleVariance(xs) == 0.0 {
      SquaredDeviationsZero(xs, m);
    }
    if forall k :: 0 <= k < |xs| ==> xs[k] == xs[0] {
      SquaredDeviationsFlat(xs, m);
    }
  }

  /** Through a square root, the standard deviation is never negative, and it
      is zero exactly when the variance is. */
  lemma StdDevZeroIffVarianceZero(sqrt: real -> real, v: real)
    requires IsSquareRoot(sqrt)
    requires 0.0 <= v
    ensures 0.0 <= sqrt(v)
    ensures sqrt(v) == 0.0 <==> v == 0.0
  {
    var r := sqrt(v);
    assert 0.0 <= r && Square(r) == v;
    SquareNonNegative(r);
    if v == 0.0 {
      SquareZero(r);
    }
  }
}
