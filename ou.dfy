/**
 * The standalone Ornstein-Uhlenbeck estimator (not wired into the engine):
 * a list window trimmed from the front, a warm-up branch that returns all
 * zeros, and the autoregression fit whose sigma, in the mean-reverting
 * branch, is the standard deviation of the regression residuals. Unlike the
 * rolling statistics, sigma is never clamped.
 */
module OU {
  import opened Numerics

  /** Fewer values than this after the trim return (0, 0, 0). */
  const MinSamples: nat := 10

  /** (theta, mu, sigma) */
  datatype Params = Params(theta: real, mu: real, sigma: real)

  /** x_t - (a + b * x_prev) over the window's consecutive pairs. */
  function WindowResiduals(w: seq<real>, l: Line): seq<real>
    requires |w| > 0
  {
    Residuals(Prev(w), Next(w), l)
  }

  /** One residual per consecutive pair (w[i], w[i + 1]), and no more. */
  lemma WindowResidualEntries(w: seq<real>, l: Line)
    requires |w| > 0
    ensures |WindowResiduals(w, l)| == |w| - 1
    ensures forall i :: 0 <= i < |w| - 1 ==>
              WindowResiduals(w, l)[i] == w[i + 1] - (l.intercept + l.slope * w[i])
  {
    RegressionPairs(w);
    ResidualCount(Prev(w), Next(w), l);
  }

  /** What `update` returns for the (already trimmed) window w. */
  function ParamsOf(e: Elementary, w: seq<real>): (r: Params)
    ensures |w| < MinSamples ==> r == Params(0.0, 0.0, 0.0)
    ensures |w| >= MinSamples ==>
              var l := Fit(e, Prev(w), Next(w));
              && (l.slope >= 1.0 ==> r == Params(0.0, Mean(w), Std(e, w)))
              && (l.slope < 1.0 ==>
                    && r.theta == -e.ln(l.slope)
                    && r.mu == LongRunMean(l)
                    && r.sigma == Std(e, WindowResiduals(w, l)))
  {
    if |w| < MinSamples then
      Params(0.0, 0.0, 0.0)
    else
      ParamsOfLine(e, w, Fit(e, Prev(w), Next(w)))
  }

  /** The parameters of a window of at least MinSamples values, given its fitted line l. */
  function ParamsOfLine(e: Elementary, w: seq<real>, l: Line): (r: Params)
    requires |w| >= MinSamples
    ensures l.slope >= 1.0 ==> r == Params(0.0, Mean(w), Std(e, w))
    ensures l.slope < 1.0 ==>
              && r.theta == -e.ln(l.slope)
              && r.mu == LongRunMean(l)
              && r.sigma == Std(e, WindowResiduals(w, l))
  {
    if l.slope >= 1.0 then
      Params(0.0, Mean(w), Std(e, w))
    else
      Params(-e.ln(l.slope), LongRunMean(l), Std(e, WindowResiduals(w, l)))
  }

  /** In the mean-reverting branch mu is the fixed point of the fitted line x |-> a + b x. */
  lemma ParamsMeanIsFixedPoint(e: Elementary, w: seq<real>)
    requires |w| >= MinSamples && Fit(e, Prev(w), Next(w)).slope < 1.0
    ensures var l := Fit(e, Prev(w), Next(w));
            l.intercept + l.slope * ParamsOf(e, w).mu == ParamsOf(e, w).mu
  {
    LongRunMeanIsFixedPoint(Fit(e, Prev(w), Next(w)));
  }

  /** The estimator; `history` is the list that `update` appends to and trims. */
  class OUProcess {
    const windowSize: nat
    const elementary: Elementary
    var history: seq<real>
    /** Every value ever passed to `Update`, oldest first. */
    ghost var inputs: seq<real>

    ghost predicate Valid()
      reads this
    {
      history == Recent(inputs, windowSize)
    }

    constructor (windowSize: nat := 600, elementary: Elementary)
      ensures Valid()
      ensures this.windowSize == windowSize && this.elementary == elementary
      ensures history == [] && inputs == []
    {
      this.windowSize := windowSize;
      this.elementary := elementary;
      history := [];
      inputs := [];
    }

    /** Appends the spread, pops the front on overflow, and re-estimates. */
    method Update(spreadValue: real) returns (r: Params)
      requires Valid()
      modifies this
      ensures Valid()
      ensures inputs == old(inputs) + [spreadValue]
      ensures history == Slide(old(history), spreadValue, windowSize)
      ensures |history| <= windowSize
      ensures r == ParamsOf(elementary, history)
    {
      SlideKeepsRecent(inputs, spreadValue, windowSize);
      history := history + [spreadValue];
      if |history| > windowSize {
        history := history[1..];
      }
      inputs := inputs + [spreadValue];

      if |history| < MinSamples {
        return Params(0.0, 0.0, 0.0);
      }
      r := Estimate(history);
    }

    /** The fit on a window of at least MinSamples values: polyfit, then the two branches. */
    method Estimate(series: seq<real>) returns (r: Params)
      requires |series| >= MinSamples
      ensures r == ParamsOf(elementary, series)
    {
      var xt := series[1..];
      var xprev := series[..|series| - 1];
      assert xprev == Prev(series) && xt == Next(series);
      var l := Fit(elementary, xprev, xt);

      if l.slope >= 1.0 {
        r := Params(0.0, Mean(series), Std(elementary, series));
      } else {
        var theta := -elementary.ln(l.slope);
        var mu := LongRunMean(l);
        var residuals := Residuals(xprev, xt, l);
        assert residuals == WindowResiduals(series, l);
        r := Params(theta, mu, Std(elementary, residuals));
      }
      assert r == ParamsOfLine(elementary, series, l);
    }
  }
}
