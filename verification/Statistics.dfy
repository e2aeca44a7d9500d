/**
 The mean and the error of the measured round trips, over the reals: rounding is not modelled.
 */
module Statistics {

  ghost function Sum(v: seq<real>): real {
    if v == [] then 0.0 else Sum(v[..|v| - 1]) + v[|v| - 1]
  }

  ghost function SumOfSquares(v: seq<real>): real {
    if v == [] then 0.0 else SumOfSquares(v[..|v| - 1]) + Square(v[|v| - 1])
  }

  function Square(x: real): real
    ensures Square(x) >= 0.0
  {
    x * x
  }

  /** The sum of squared deviations from `m`. */
  ghost function Deviation(v: seq<real>, m: real): (d: real)
    ensures d >= 0.0
  {
    if v == [] then 0.0 else Deviation(v[..|v| - 1], m) + Square(v[|v| - 1] - m)
  }

  function Expanded(squares: real, sum: real, count: real, m: real): real {
    squares - 2.0 * m * sum + count * m * m
  }

  lemma {:induction false} Binomial(q: real, s: real, k: real, x: real, m: real)
    ensures Expanded(q, s, k, m) + Square(x - m) == Expanded(q + Square(x), s + x, k + 1.0, m)
  {
  }

  lemma {:induction false} DeviationExpands(v: seq<real>, m: real)
    ensures Deviation(v, m) == Expanded(SumOfSquares(v), Sum(v), |v| as real, m)
  {
    hide Square, Expanded;
    if v == [] {
      Empty(m);
    } else {
      var w, x := v[..|v| - 1], v[|v| - 1];
      DeviationExpands(w, m);
      Binomial(SumOfSquares(w), Sum(w), |w| as real, x, m);
      assert |w| as real + 1.0 == |v| as real;
    }
  }

  lemma {:induction false} Empty(m: real)
    ensures Expanded(0.0, 0.0, 0.0, m) == 0.0
  {
  }

  lemma {:induction false} Moments(n: real, mean: real, variance: real, q: real, s: real)
    requires Times(mean, n) == s && Times(variance, n - 1.0) == Expanded(q, s, n, mean)
    ensures Times(Times(n, n - 1.0), variance) == Times(n, q) - Times(s, s)
  {
    calc {
      n * (n - 1.0) * variance;
      n * q - 2.0 * (mean * n) * s + (mean * n) * (mean * n);
    }
  }

  function Times(x: real, y: real): real { x * y }

  function Quotient(x: real, divisor: real): (r: real)
    requires divisor > 0.0
    ensures Times(r, divisor) == x
  {
    x / divisor
  }

  /** One step of the second pass, which divides every square on its own. */
  function Accumulate(accumulator: real, square: real, divisor: real): (r: real)
    requires divisor > 0.0
    ensures Times(r, divisor) == Times(accumulator, divisor) + square
  {
    assert (accumulator + square / divisor) * divisor == accumulator * divisor + square / divisor * divisor;
    accumulator + square / divisor
  }

  lemma {:induction false} NonNegative(x: real, divisor: real)
    requires Times(x, divisor) >= 0.0 && divisor > 0.0
    ensures x >= 0.0
  {
  }

  lemma {:induction false} Zero(divisor: real)
    ensures Times(0.0, divisor) == 0.0
  {
  }

  /**
   The mean and the square of the error.  The caller must not pass an empty vector: the
   mean divides by its size.  The two passes agree with the one-pass formula over the
   first two moments.
   */
  method MeanAndVariance(v: seq<real>) returns (mean: real, variance: real)
    requires v != []
    ensures Times(mean, |v| as real) == Sum(v)
    ensures variance >= 0.0
    ensures |v| == 1 ==> mean == v[0] && variance == 0.0
    ensures |v| > 1 ==>
              var n := |v| as real;
              Times(Times(n, n - 1.0), variance) == Times(n, SumOfSquares(v)) - Times(Sum(v), Sum(v))
  {
    if |v| == 1 {
      assert v[..0] == [];
      return v[0], 0.0;
    }
    hide Square, Times, Expanded, SumOfSquares;
    var size := |v| as real;
    var total := 0.0;
    for i := 0 to |v|
      invariant total == Sum(v[..i])
    {
      assert v[..i + 1][..i] == v[..i];
      total := total + v[i];
    }
    assert v[..|v|] == v;
    mean := Quotient(total, size);
    variance := 0.0;
    Zero(size - 1.0);
    for i := 0 to |v|
      invariant Times(variance, size - 1.0) == Deviation(v[..i], mean)
    {
      assert v[..i + 1][..i] == v[..i];
      variance := Accumulate(variance, Square(v[i] - mean), size - 1.0);
    }
    DeviationExpands(v, mean);
    Moments(size, mean, variance, SumOfSquares(v), Sum(v));
    NonNegative(variance, size - 1.0);
  }
}
