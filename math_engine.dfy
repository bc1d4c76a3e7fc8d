/**
 * One pass of the engine loop: read a snapshot of the store, skip it if
 * either price is still zero, otherwise run the Kalman filter on the two
 * prices, feed its innovation (the spread) to the rolling statistics, turn
 * the spread into a z-score and write the analytics back.
 *
 * The filter and the statistics are created once, outside the loop, and are
 * passed in: their state carries over from one pass to the next. Waiting on
 * the wake-up event is not modelled; a pass is one call of `Step`.
 */
module MathEngine {
  import opened Numerics
  import opened Market
  import opened Kalman
  import opened Statistics

  /** The engine's constants: KalmanFilter(delta=1e-4, R=1e-3), WindowStatistics(window_size=300). */
  const Delta: real := 0.0001
  const MeasurementNoise: real := 0.001
  const StatsWindow: nat := 300

  /** z = (spread - mu) / sigma; the estimate's sigma is never below the floor. */
  function ZScore(spread: real, est: Estimate): (z: real)
    requires est.sigma >= SigmaFloor
    ensures z * est.sigma == spread - est.mu
    ensures spread == est.mu <==> z == 0.0
  {
    (spread - est.mu) / est.sigma
  }

  /** The two estimators exactly as the engine creates them. */
  method CreateEstimators(e: Elementary) returns (kalman: KalmanFilter, stats: WindowStatistics)
    ensures fresh(kalman) && fresh(stats)
    ensures kalman.Valid() && stats.Valid()
    ensures kalman.state == Vec2(0.0, 0.0) && kalman.P == Identity()
    ensures kalman.Q == ScaledIdentity(Delta) && kalman.R == MeasurementNoise
    ensures stats.windowSize == StatsWindow && stats.history == []
  {
    kalman := new KalmanFilter(Delta, MeasurementNoise);
    stats := new WindowStatistics(StatsWindow, e);
  }

  /** True when the snapshot still lacks one of the two prices. */
  predicate MissingPrice(m: MarketData)
  {
    m.priceA == 0.0 || m.priceB == 0.0
  }

  /** Everything one pass computes from the snapshot and the estimators' state. */
  datatype Outcome = Outcome(correction: Correction, window: seq<real>, est: Estimate, market: MarketData)

  /**
   * The pass on a snapshot m with both prices present: Kalman predict and
   * correct on (price_a, price_b), the innovation into the window, and the
   * write-back of beta, theta, sigma (as volatility), spread and z-score.
   */
  function Pass(m: MarketData, p: Mat2, x: Vec2, q: Mat2, r: real,
                history: seq<real>, windowSize: nat, e: Elementary): (o: Outcome)
    requires InnovationVariance(Predict(p, q), Observation(m.priceB), r) != 0.0
    // the filter runs predict then correct on the snapshot's two prices
    ensures o.correction == Correct(Predict(p, q), x, r, m.priceA, m.priceB)
    ensures o.market.spread == m.priceA - (x.x0 * m.priceB + x.x1)
    ensures o.market.spread == o.correction.error
    // the spread enters the window, and the estimate is taken over that window
    ensures o.window == Slide(history, o.market.spread, windowSize)
    ensures o.est == EstimateOf(e, o.window, o.market.spread)
    ensures o.market.beta == o.correction.state.x0
    ensures o.market.theta == o.est.theta && o.market.volatility == o.est.sigma
    ensures o.market.volatility >= SigmaFloor
    ensures o.market.zScore * o.market.volatility == o.market.spread - o.est.mu
    ensures |o.window| < Statistics.MinSamples ==> o.market.zScore == 0.0
    ensures RawOf(o.market) == RawOf(m)
    ensures o.market.symbolA == m.symbolA && o.market.symbolB == m.symbolB
  {
    var c := Correct(Predict(p, q), x, r, m.priceA, m.priceB);
    var w := Slide(history, c.error, windowSize);
    var est := EstimateOf(e, w, c.error);
    var z := ZScore(c.error, est);
    var written := WithMath(m, c.state.x0, est.theta, est.sigma, c.error, z);
    assert written.zScore == z && written.volatility == est.sigma && written.spread == c.error;
    Outcome(c, w, est, written)
  }

  /** One iteration of the engine loop. */
  method Step(board: Blackboard, kalman: KalmanFilter, stats: WindowStatistics)
    requires kalman.Valid() && stats.Valid()
    modifies board, kalman, stats
    ensures kalman.Valid() && stats.Valid()
    ensures MissingPrice(old(board.market)) ==>
              && board.market == old(board.market)
              && kalman.state == old(kalman.state) && kalman.P == old(kalman.P)
              && stats.history == old(stats.history) && stats.inputs == old(stats.inputs)
    ensures !MissingPrice(old(board.market)) ==>
              && InnovationVariance(Predict(old(kalman.P), kalman.Q), Observation(old(board.market).priceB), kalman.R) > 0.0
              && var o := Pass(old(board.market), old(kalman.P), old(kalman.state), kalman.Q, kalman.R,
                               old(stats.history), stats.windowSize, stats.elementary);
                 && kalman.state == o.correction.state && kalman.P == o.correction.cov
                 && stats.history == o.window && stats.inputs == old(stats.inputs) + [o.correction.error]
                 && board.market == o.market
  {
    var state := board.GetState();
    if state.priceA == 0.0 || state.priceB == 0.0 {
      return;
    }
    var beta, spread := kalman.Update(state.priceA, state.priceB);
    var est := stats.Update(spread);
    var zScore := (spread - est.mu) / est.sigma;
    board.UpdateMath(beta, est.theta, est.sigma, spread, zScore);
  }
}
