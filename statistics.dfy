/**
 * The rolling spread statistics wired into the engine: a bounded window of
 * the most recent spreads, a warm-up branch, a first-order autoregression
 * x_t = a + b * x_{t-1} over the window with a fallback for b >= 1, and a
 * floor under sigma so that the z-score never divides by zero.
 */
module Statistics {
  import opened Numerics

  /** Fewer values than this after the append return the warm-up defaults. */
  const MinSamples: nat := 20

  /** A sigma below this is replaced by 1.0. */
  const SigmaFloor: real := 0.000001

  /** (theta, mu, sigma) */
  datatype Estimate = Estimate(theta: real, mu: real, sigma: real)

  /** The safety clamp: a near-zero standard deviation becomes 1.0. */
  function ClampSigma(sigma: real): (r: real)
    ensures r >= SigmaFloor
    ensures r == sigma || r == 1.0
    ensures sigma >= SigmaFloor ==> r == sigma
  {
    if sigma < SigmaFloor then 1.0 else sigma
  }

  /**
   * What `update` returns for the window w that already holds the new value.
   * Sigma is the standard deviation of the whole window in both branches.
   */
  function EstimateOf(e: Elementary, w: seq<real>, value: real): (r: Estimate)
    ensures |w| < MinSamples ==> r == Estimate(0.0, value, 1.0)
    ensures r.sigma >= SigmaFloor
    ensures |w| >= MinSamples ==> r.sigma == ClampSigma(Std(e, w))
    ensures |w| >= MinSamples && Fit(e, Prev(w), Next(w)).slope >= 1.0 ==>
              r.theta == 0.0 && r.mu == Mean(w)
    ensures |w| >= MinSamples && Fit(e, Prev(w), Next(w)).slope < 1.0 ==>
              var l := Fit(e, Prev(w), Next(w));
              r.theta == -e.ln(l.slope) && r.mu == LongRunMean(l)
  {
    if |w| < MinSamples then
      Estimate(0.0, value, 1.0)
    else
      var sigma := ClampSigma(Std(e, w));
      var l := Fit(e, Prev(w), Next(w));
      if l.slope >= 1.0 then
        Estimate(0.0, Mean(w), sigma)
      else
        Estimate(-e.ln(l.slope), LongRunMean(l), sigma)
  }

  /** In the mean-reverting branch mu is the fixed point of the fitted line x |-> a + b x. */
  lemma EstimateMeanIsFixedPoint(e: Elementary, w: seq<real>, value: real)
    requires |w| >= MinSamples && Fit(e, Prev(w), Next(w)).slope < 1.0
    ensures var l := Fit(e, Prev(w), Next(w));
            l.intercept + l.slope * EstimateOf(e, w, value).mu == EstimateOf(e, w, value).mu
  {
    LongRunMeanIsFixedPoint(Fit(e, Prev(w), Next(w)));
  }

  /** The estimator; `history` is the deque with maxlen = windowSize. */
  class WindowStatistics {
    const windowSize: nat
    const elementary: Elementary
    var history: seq<real>
    /** Every value ever passed to `Update`, oldest first. */
    ghost var inputs: seq<real>

    ghost predicate Valid()
      reads this
    {
      history == Recent(inputs, windowSize)
    }

    constructor (windowSize: nat := 600, elementary: Elementary)
      ensures Valid()
      ensures this.windowSize == windowSize && this.elementary == elementary
      ensures history == [] && inputs == []
    {
      this.windowSize := windowSize;
      this.elementary := elementary;
      history := [];
      inputs := [];
    }

    /**
     * Appends the spread (dropping the oldest on overflow), then estimates
     * (theta, mu, sigma) from the window.
     */
    method Update(value: real) returns (r: Estimate)
      requires Valid()
      modifies this
      ensures Valid()
      ensures inputs == old(inputs) + [value]
      ensures history == Slide(old(history), value, windowSize)
      ensures |history| <= windowSize
      ensures r == EstimateOf(elementary, history, value)
    {
      SlideKeepsRecent(inputs, value, windowSize);
      history := history + [value];
      if |history| > windowSize {
        history := history[1..];
      }
      inputs := inputs + [value];

      if |history| < MinSamples {
        return Estimate(0.0, value, 1.0);
      }

      var series := history;
      var sigma := Std(elementary, series);
      var xt := series[1..];
      var xprev := series[..|series| - 1];
      assert xprev == Prev(series) && xt == Next(series);
      var l := Fit(elementary, xprev, xt);

      var theta, mu;
      if l.slope >= 1.0 {
        theta := 0.0;
        mu := Mean(series);
      } else {
        theta := -elementary.ln(l.slope);
        mu := LongRunMean(l);
      }

      if sigma < SigmaFloor {
        sigma := 1.0;
      }
      assert sigma == ClampSigma(Std(elementary, series));
      r := Estimate(theta, mu, sigma);
      assert r == EstimateOf(elementary, series, value);
    }
  }
}
