/**
 * Pure numerical building blocks shared by the two rolling estimators:
 * sums, means, the population variance used by np.std, the closed-form
 * least-squares line that np.polyfit(x, y, 1) computes, and the bounded
 * window that both estimators keep.
 *
 * Square root and natural logarithm have no closed form over the reals, so
 * an estimator is handed them as an `Elementary` value; nothing is claimed
 * about what they return. The same value carries the line np.polyfit
 * returns when x is constant (a rank-deficient least-squares problem, whose
 * answer depends on numpy's cut-off for small singular values).
 */
module Numerics {

  /**
   * The two transcendental primitives (np.sqrt inside np.std, and np.log),
   * and np.polyfit's answer on a constant regressor.
   */
  datatype Elementary = Elementary(sqrt: real -> real, ln: real -> real,
                                   singularFit: (seq<real>, seq<real>) -> Line)

  // ---------------------------------------------------------------------
  // Sums and moments
  // ---------------------------------------------------------------------

  function Sum(s: seq<real>): real
  {
    if |s| == 0 then 0.0 else Sum(s[..|s| - 1]) + s[|s| - 1]
  }

  /** Sum of the element-wise products of two equally long sequences. */
  function Dot(u: seq<real>, v: seq<real>): real
    requires |u| == |v|
  {
    if |u| == 0 then 0.0 else Dot(u[..|u| - 1], v[..|v| - 1]) + u[|u| - 1] * v[|v| - 1]
  }

  /** np.mean */
  function Mean(s: seq<real>): real
    requires |s| > 0
  {
    Sum(s) / (|s| as real)
  }

  function SquaredDeviations(s: seq<real>, m: real): (d: seq<real>)
    ensures |d| == |s|
  {
    seq(|s|, i requires 0 <= i < |s| => (s[i] - m) * (s[i] - m))
  }

  /** The population variance (ddof = 0), which np.std takes the root of. */
  function Variance(s: seq<real>): real
    requires |s| > 0
  {
    Mean(SquaredDeviations(s, Mean(s)))
  }

  /** np.std */
  function Std(e: Elementary, s: seq<real>): real
    requires |s| > 0
  {
    e.sqrt(Variance(s))
  }

  lemma {:induction false} SumNonNegative(s: seq<real>)
    requires forall i :: 0 <= i < |s| ==> s[i] >= 0.0
    ensures Sum(s) >= 0.0
  {
    if |s| > 0 {
      SumNonNegative(s[..|s| - 1]);
    }
  }

  /** The argument np.std takes the square root of is never negative. */
  lemma VarianceNonNegative(s: seq<real>)
    requires |s| > 0
    ensures Variance(s) >= 0.0
  {
    var d := SquaredDeviations(s, Mean(s));
    forall i | 0 <= i < |d| ensures d[i] >= 0.0 {
      var x := s[i] - Mean(s);
      assert d[i] == x * x;
    }
    SumNonNegative(d);
  }

  // ---------------------------------------------------------------------
  // The first-order autoregression x_t = a + b * x_{t-1}
  // ---------------------------------------------------------------------

  /** x_prev = series[:-1] */
  function Prev(s: seq<real>): seq<real>
    requires |s| > 0
  {
    s[..|s| - 1]
  }

  /** x_t = series[1:] */
  function Next(s: seq<real>): seq<real>
    requires |s| > 0
  {
    s[1..]
  }

  /** The regression pairs are exactly (s[i-1], s[i]) for i in 1 .. |s|-1. */
  lemma RegressionPairs(s: seq<real>)
    requires |s| > 0
    ensures |Prev(s)| == |Next(s)| == |s| - 1
    ensures forall i :: 0 <= i < |s| - 1 ==> Prev(s)[i] == s[i] && Next(s)[i] == s[i + 1]
  {
  }

  /** The co-moment sum((x - mean x) * (y - mean y)), in raw-sum form. */
  function CoMoment(xs: seq<real>, ys: seq<real>): real
    requires |xs| == |ys| > 0
  {
    Dot(xs, ys) - (|xs| as real) * Mean(xs) * Mean(ys)
  }

  /** The spread of the regressor; zero exactly when x_prev is constant. */
  function Sxx(xs: seq<real>): real
    requires |xs| > 0
  {
    CoMoment(xs, xs)
  }

  /** A fitted line y = intercept + slope * x (np.polyfit returns [slope, intercept]). */
  datatype Line = Line(slope: real, intercept: real)

  /**
   * np.polyfit(xs, ys, 1): ordinary least squares in closed form when xs is
   * not constant; the fitted line passes through the point of means.
   */
  function Fit(e: Elementary, xs: seq<real>, ys: seq<real>): (l: Line)
    requires |xs| == |ys| > 0
    ensures Sxx(xs) != 0.0 ==> l.intercept + l.slope * Mean(xs) == Mean(ys)
  {
    if Sxx(xs) != 0.0 then
      var b := CoMoment(xs, ys) / Sxx(xs);
      Line(b, Mean(ys) - b * Mean(xs))
    else
      e.singularFit(xs, ys)
  }

  /** x_t - (a + b * x_prev), one entry per regression pair. */
  function Residuals(xs: seq<real>, ys: seq<real>, l: Line): (r: seq<real>)
    requires |xs| == |ys|
  {
    seq(|xs|, i requires 0 <= i < |xs| => ys[i] - (l.intercept + l.slope * xs[i]))
  }

  lemma ResidualCount(xs: seq<real>, ys: seq<real>, l: Line)
    requires |xs| == |ys|
    ensures |Residuals(xs, ys, l)| == |xs|
    ensures forall i :: 0 <= i < |xs| ==> Residuals(xs, ys, l)[i] == ys[i] - (l.intercept + l.slope * xs[i])
  {
  }

  /** The long-run mean a / (1 - b) of the fitted autoregression. */
  function LongRunMean(l: Line): real
    requires l.slope != 1.0
  {
    l.intercept / (1.0 - l.slope)
  }

  /** mu = a / (1 - b) is the fixed point of x |-> a + b * x. */
  lemma LongRunMeanIsFixedPoint(l: Line)
    requires l.slope != 1.0
    ensures l.intercept + l.slope * LongRunMean(l) == LongRunMean(l)
  {
    var mu := LongRunMean(l);
    assert mu * (1.0 - l.slope) == l.intercept;
  }

  // ---------------------------------------------------------------------
  // The bounded window
  // ---------------------------------------------------------------------

  /** Append, then drop the oldest element if the window overflowed. */
  function Slide<T>(w: seq<T>, v: T, cap: nat): seq<T>
  {
    var appended := w + [v];
    if |appended| > cap then appended[1..] else appended
  }

  /** The most recent min(|s|, n) elements of s, in arrival order. */
  function Recent<T>(s: seq<T>, n: nat): (r: seq<T>)
  {
    if |s| <= n then s else s[|s| - n..]
  }

  /**
   * Sliding the window that holds the recent inputs gives the window of
   * the recent inputs extended by the new value: it never holds more than
   * cap values, and on overflow exactly the oldest one goes.
   */
  lemma SlideKeepsRecent<T>(inputs: seq<T>, v: T, cap: nat)
    ensures Slide(Recent(inputs, cap), v, cap) == Recent(inputs + [v], cap)
    ensures |Recent(inputs + [v], cap)| <= cap
    ensures |Recent(inputs + [v], cap)| == if |inputs| + 1 <= cap then |inputs| + 1 else cap
  {
    var s := inputs + [v];
    if |inputs| + 1 > cap && |inputs| <= cap {
      assert |inputs| == cap;
      assert s[|s| - cap..] == (inputs + [v])[1..];
    } else if |inputs| > cap {
      assert Recent(inputs, cap) + [v] == s[|s| - cap - 1..];
    }
  }
}
