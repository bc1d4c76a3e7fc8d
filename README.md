# Pairs-trading pipeline core, modelled in Dafny

This project models the sequential core of a live statistical-arbitrage
(pairs-trading) pipeline. It covers:

- the shared snapshot store ("blackboard") that the producer and the consumer
  share;
- the producer's tick pairing cache, which buffers one price per exchange
  symbol and pushes a pair to the store once both legs are priced;
- the consumer's per-tick step. A 2-state Kalman filter estimates the hedge
  ratio and yields the spread (its innovation). Rolling window statistics fit
  a first-order autoregression x_t = a + b x_{t-1} and give (theta, mu, sigma).
  The z-score is written back to the store;
- the standalone Ornstein-Uhlenbeck estimator;
- the offline tools: the hysteresis signal generator, the cash/position
  backtester, the reinforcement-learning environment's `step`/`reset`, and the
  trade reconstruction of the evaluation report.

Prices, spreads and estimates are Dafny `real`. Code that changes state in
place becomes a class with `modifies` frames:

- `Blackboard`, `KalmanFilter`, `WindowStatistics`, `OUProcess`,
  `SignalGenerator`, `BacktestEngine`, `TradingEnv` and `BinanceStream`.

Each method is proved against a pure specification function:

- `WithPrices`/`WithMath`, `Correct`, `EstimateOf`, `ParamsOf`, `Pass`,
  `SignalSeries`, `Run`/`EquityCurve`, `StepOf`, `LedgerAfter` and `Buffer`.

The lemmas beside each function prove what the original promises:
- the store's two writers are field-disjoint and commute;
- the Kalman covariance stays symmetric and positive semidefinite, so the
  innovation variance S is positive, and the posterior residual is the
  innovation scaled by R/S;
- the window holds exactly the most recent inputs;
- the long-run mean a/(1-b) is the fixed point of the fitted line;
- the z-score is 0 during warm-up;
- the signal never flips between long and short in one step;
- a backtest trade never changes equity, and equity moves by position times
  the price change;
- the environment's rewards telescope to the change in portfolio value;
- reconstructed trades are well formed, and wins and losses partition them;
- every store write carries the latest price received for each leg.

The modules and their files:

| module | file | models |
|---|---|---|
| `Wrappers` | wrappers.dfy | `Option` |
| `Numerics` | numerics.dfy | sum, mean, population variance, closed-form least squares, the bounded window |
| `Market` | state.dfy | `src/shared/state.py` |
| `Kalman` | kalman.dfy | `src/math/kalman.py` |
| `Statistics` | statistics.dfy | `src/math/statistics.py` |
| `OU` | ou.dfy | `src/math/ou.py` |
| `MathEngine` | math_engine.dfy | one iteration of the loop in `src/processors/math_engine.py` |
| `Signals` | generator.dfy | `src/signals/generator.py` |
| `Backtester` | backtest_engine.dfy | `src/backtester/engine.py` |
| `GymEnv` | gym_env.dfy | `reset`, `step` and `_get_observation` of `src/rl/gym_env.py` |
| `Evaluate` | evaluate.dfy | the trade-reconstruction loop and win/loss split of `src/rl/evaluate.py` |
| `Stream` | stream.dfy | `__init__`, the trade filter and `_process_message` of `src/data_loader/stream.py` |

Three numpy calls are abstracted into an `Elementary` value that an estimator
is given: `np.sqrt` inside `np.std`, `np.log`, and `np.polyfit`'s answer on a
constant regressor. Nothing is claimed about what they return. When x_prev is
not constant, `np.polyfit(x, y, 1)` is the closed-form least-squares line.

A NaN z-score is `None`. The store's asyncio lock, the engine's wake-up event
and the stream's fire-and-forget task are removed, and each operation is one
sequential call. The stream records each `update_prices` call it would issue
as a `PriceWrite`.

## Model

| member | source | states |
|---|---|---|
| Market.InitialIsZero | src/shared/state.py:11-24 | a fresh record has every number 0.0 and both symbols "" |
| Market.ProjectionsDetermineRecord | src/shared/state.py:10-24 | the symbols, the raw inputs and the derived state together determine a record |
| Market.PricesTouchOnlyRaw | src/shared/state.py:34-38 | update_prices sets exactly price_a, price_b and timestamp; derived fields and symbols are kept |
| Market.MathTouchesOnlyDerived | src/shared/state.py:40-46 | update_math sets exactly beta, theta, volatility (from vol), spread and z_score; prices, timestamp and symbols are kept |
| Market.WritersCommute | src/shared/state.py:34-46 | the two writers touch disjoint fields, so applying them in either order gives the same record |
| Market.Blackboard.constructor | src/shared/state.py:30-31 | the store starts with the default record |
| Market.Blackboard.UpdatePrices | src/shared/state.py:34-38 | the new record is the old one with the raw part replaced; derived part and symbols unchanged |
| Market.Blackboard.UpdateMath | src/shared/state.py:40-46 | the new record is the old one with the derived part replaced; raw part and symbols unchanged |
| Market.Blackboard.GetState | src/shared/state.py:48-50 | returns a value equal to the record and modifies nothing; being a value, it is unaffected by later writes |
| Kalman.Correct | src/math/kalman.py:56-80 | the innovation is price_a - (beta_old * price_b + alpha_old) and the new state is the old state plus K * error |
| Kalman.InnovationVariancePositive | src/math/kalman.py:64-71 | S > 0 when P is positive semidefinite and R > 0, so the gain's division is defined |
| Kalman.IdentityIsPositiveSemidefinite | src/math/kalman.py:17-19 | the initial covariance I is symmetric and positive semidefinite |
| Kalman.PredictKeepsCovariance | src/math/kalman.py:45-49 | P + delta * I stays symmetric and positive semidefinite when delta >= 0 |
| Kalman.CorrectKeepsSymmetric | src/math/kalman.py:77-80 | (I - K H') P is symmetric whenever the predicted P is |
| Kalman.CorrectKeepsPositiveSemidefinite | src/math/kalman.py:64-80 | the corrected covariance stays positive semidefinite (P symmetric PSD, R > 0) |
| Kalman.GainCorrectionPositiveSemidefinite | src/math/kalman.py:66-80 | (I - k h') P with k = (P h) / S and S = h' P h + r is positive semidefinite whenever P is symmetric PSD and r >= 0 |
| Kalman.ResidualShrinks | src/math/kalman.py:56-75 | after the correction the residual price_a - H x_new is the innovation times R / S, whenever S != 0 |
| Kalman.ResidualMovesTowardObservation | src/math/kalman.py:56-75 | with P positive semidefinite and R > 0 the factor R / S lies in (0, 1], so the residual keeps the innovation's sign and at most its size: the estimate moves toward price_a |
| Kalman.CycleKeepsCovariance | src/math/kalman.py:42-80 | a full predict/correct cycle keeps P symmetric PSD and S positive: the invariant every tick relies on |
| Kalman.KalmanFilter.constructor | src/math/kalman.py:12-29 | delta = 1e-4 and R = 1e-3 by default; state [0, 0], P = I, Q = delta * I and the scalar R; the covariance invariant holds |
| Kalman.KalmanFilter.Update | src/math/kalman.py:31-83 | one predict/correct cycle equals Correct on P + Q; the error is taken against the pre-update state; beta is the new state's first entry; the invariant is kept |
| Numerics.VarianceNonNegative | src/math/statistics.py:28-30 | the variance that np.std takes the root of is never negative |
| Numerics.RegressionPairs | src/math/statistics.py:33-35 | the regression pairs are exactly (series[i], series[i+1]), one per consecutive pair |
| Numerics.Fit | src/math/statistics.py:37-39 | on a non-constant regressor the fitted line passes through the point of means |
| Numerics.LongRunMeanIsFixedPoint | src/math/statistics.py:46-51 | mu = a / (1 - b) satisfies a + b mu = mu |
| Numerics.SlideKeepsRecent | src/math/statistics.py:11-18 | append-then-evict keeps exactly the most recent min(n, window_size) inputs in arrival order; on overflow only the oldest goes |
| Statistics.ClampSigma | src/math/statistics.py:53-55 | the result is at least 1e-6: a sigma below 1e-6 becomes 1.0, any other is kept |
| Statistics.EstimateOf | src/math/statistics.py:20-57 | warm-up (< 20 values) gives (0, value, 1); otherwise sigma is the clamped std of the whole window; b >= 1 gives theta 0 and mu the window mean; b < 1 gives theta = -ln b and mu = a / (1 - b) |
| Statistics.EstimateMeanIsFixedPoint | src/math/statistics.py:46-51 | in the mean-reverting branch the written mu is the fixed point of the fitted line: a + b mu = mu |
| Statistics.WindowStatistics.constructor | src/math/statistics.py:8-11 | an empty window of the given size, 600 by default |
| Statistics.WindowStatistics.Update | src/math/statistics.py:13-57 | the window is the old one slid by the value, never longer than window_size, still the most recent inputs; the result is EstimateOf the new window |
| OU.WindowResidualEntries | src/math/ou.py:35-56 | len(history) - 1 residuals, the i-th being w[i+1] - (a + b w[i]) |
| OU.ParamsOf | src/math/ou.py:25-59 | warm-up (< 10 values) gives (0, 0, 0) with no clamp; b >= 1 gives (0, mean, std of the window); b < 1 gives theta = -ln b, mu = a / (1 - b) and sigma the std of the residuals |
| OU.ParamsMeanIsFixedPoint | src/math/ou.py:50-53 | in the mean-reverting branch the returned mu is the fixed point of the fitted line: a + b mu = mu |
| OU.OUProcess.constructor | src/math/ou.py:8-12 | an empty history of the given size, 600 by default |
| OU.OUProcess.Update | src/math/ou.py:14-59 | append then pop(0) on overflow: the history is the most recent inputs, never longer than window_size; the result is ParamsOf the new history |
| OU.OUProcess.Estimate | src/math/ou.py:36-59 | on a window of at least 10 values, the polyfit and the branch on b return exactly ParamsOf the window |
| MathEngine.ZScore | src/processors/math_engine.py:45-47 | z * sigma = spread - mu, and z is 0 exactly when the spread equals mu |
| MathEngine.CreateEstimators | src/processors/math_engine.py:14-17 | the filter has delta 1e-4 and R 1e-3, the statistics window is 300, and both invariants hold |
| MathEngine.Pass | src/processors/math_engine.py:33-56 | the correction is predict then correct on the snapshot's prices; the written spread is its innovation, beta the new state's slope; the window is the old one slid by the spread and the estimate is taken over it, with theta and sigma written back as theta and volatility; volatility >= 1e-6, z * volatility = spread - mu, z = 0 during warm-up, and prices, timestamp and symbols are kept |
| MathEngine.Step | src/processors/math_engine.py:25-56 | a zero price leaves the store and both estimators untouched; otherwise Kalman, then statistics on its innovation, then the write-back, exactly as Pass |
| Signals.Transition | src/signals/generator.py:34-50 | from flat: -1 iff z > entry, +1 iff not that and z < -entry; long exits iff z >= -exit; short exits iff z <= exit; never long to short directly |
| Signals.PositionAfter | src/signals/generator.py:23-50 | the held position is always -1, 0 or 1 |
| Signals.SignalSeries | src/signals/generator.py:22-52 | the output is as long as the input and every entry is -1, 0 or 1 |
| Signals.NaNHoldsPosition | src/signals/generator.py:28-32 | a NaN index outputs 0 but leaves the held position unchanged |
| Signals.SignalIsTransition | src/signals/generator.py:34-52 | a non-NaN index outputs the transition from the position held before it |
| Signals.AdjacentSignalsNeverFlip | src/signals/generator.py:35-52 | two neighbouring outputs are never +1 and -1 |
| Signals.WorkedExample | src/signals/generator.py:27-52 | entry 2, exit 0 on [NaN, 2.5, 1.0, -0.1, -3.0, 0.1] gives [0, -1, -1, 0, 1, 0] |
| Signals.SignalGenerator.constructor | src/signals/generator.py:11-13 | the thresholds are the arguments, 2.0 and 0.0 by default |
| Signals.SignalGenerator.GenerateSignals | src/signals/generator.py:15-54 | the loop's output equals SignalSeries |
| Backtester.Execute | src/backtester/engine.py:36-58 | the position stays in {-1, 0, 1} and becomes the signal when that is one of them; a signal equal to the position or outside {-1, 0, 1} changes nothing |
| Backtester.BuyBranch | src/backtester/engine.py:36-41 | buying while not long costs (1 - position) * price and leaves position 1 |
| Backtester.SellBranch | src/backtester/engine.py:45-48 | selling while not short earns (position + 1) * price and leaves position -1 |
| Backtester.CloseBranch | src/backtester/engine.py:52-58 | closing a long adds the price to cash, closing a short subtracts it, and the position becomes 0 |
| Backtester.TradeKeepsEquity | src/backtester/engine.py:36-63 | no trade changes cash + position * price at the row's price |
| Backtester.Run | src/backtester/engine.py:28-58 | the position after any run of rows is in {-1, 0, 1} |
| Backtester.EquityCurve | src/backtester/engine.py:63-64 | exactly one equity entry per row |
| Backtester.EquityCurveEntries | src/backtester/engine.py:28-64 | entry i is the book after rows 0..i marked at row i's price |
| Backtester.PriceMove | src/backtester/engine.py:62-63 | re-marking a book at another price moves its equity by position * price change |
| Backtester.EquityMovesWithPrice | src/backtester/engine.py:28-64 | from one row to the next the equity changes by the held position times the spread change |
| Backtester.BacktestEngine.constructor | src/backtester/engine.py:10-16 | cash = initial_cash (10000 by default), flat, empty history |
| Backtester.BacktestEngine.ProcessRow | src/backtester/engine.py:29-64 | one row: the book becomes Execute of the old book, and its equity at the row's price is appended |
| Backtester.BacktestEngine.RunBacktest | src/backtester/engine.py:18-68 | the book becomes Run over the rows, the history grows by EquityCurve, and the column assignment succeeds exactly when the history has one entry per row |
| GymEnv.TargetOf | src/rl/gym_env.py:92-95 | action 1 gives +1, action 2 gives -1, anything else 0 |
| GymEnv.StepOf | src/rl/gym_env.py:81-128 | defined from any row but the last; step + 1; position = target; a fee of abs(price) * fee only on a change; terminated iff step >= n_steps - 1, then reward 0 and portfolio kept; otherwise portfolio = cash + position * new price; reward = change of portfolio |
| GymEnv.RewardsTelescope | src/rl/gym_env.py:118-123 | the rewards of any action sequence sum to the change in portfolio value |
| GymEnv.FeeFreeCashIsConstant | src/rl/gym_env.py:97-103 | with the hard-wired fee 0.0, no sequence of steps changes the cash |
| GymEnv.TradingEnv.constructor | src/rl/gym_env.py:12-68 | initial_balance = 10000.0 by default; fee 0.0, every column n_steps long, step 0, flat, cash = portfolio = initial_balance |
| GymEnv.TradingEnv.GetObservation | src/rl/gym_env.py:130-148 | 8 entries read at the current row; entry 3 is the position |
| GymEnv.TradingEnv.Reset | src/rl/gym_env.py:70-79 | step 0, flat, cash = portfolio = initial_balance, and the observation of row 0 |
| GymEnv.TradingEnv.Step | src/rl/gym_env.py:81-128 | the new state, reward and flag are StepOf's; every row read is in bounds, and an unfinished episode can step again |
| Evaluate.PrevActions | src/rl/evaluate.py:71-72 | prev_action[0] = 0 and prev_action[i] = action[i-1] |
| Evaluate.DirectionOf | src/rl/evaluate.py:107-111 | action 1 gives +1, action 2 gives -1, anything else 0 |
| Evaluate.LedgerIsConsistent | src/rl/evaluate.py:88-119 | every closed trade has direction +/-1 and its side, duration = exit - entry step, gross = direction * (exit - entry), fee 1.50, net = gross - 3.00 |
| Evaluate.OpenTradeFollowsAction | src/rl/evaluate.py:107-119 | an open trade has the nonzero direction of the latest row's action |
| Evaluate.TradesNeedChanges | src/rl/evaluate.py:84-119 | closed trades plus the open one never outnumber the action changes; row 0 opens nothing |
| Evaluate.ReconstructTrades | src/rl/evaluate.py:71-119 | the loop returns the closed trades of the ledger fold; a trade still open at the end is dropped |
| Evaluate.Wins | src/rl/evaluate.py:136 | only trades with net PnL above 0 |
| Evaluate.Losses | src/rl/evaluate.py:137 | only trades with net PnL at most 0 |
| Evaluate.WinsAndLossesPartition | src/rl/evaluate.py:136-137 | wins and losses together are exactly the trade list (as a multiset) |
| Stream.LowerChar | src/data_loader/stream.py:19-20 | ASCII upper-case letters move down by 32; others are kept; no upper-case letter remains |
| Stream.Lower | src/data_loader/stream.py:19-20 | the same length, each character lower-cased |
| Stream.LowerIsIdempotent | src/data_loader/stream.py:19-20 | lower-casing a lower-cased symbol changes nothing |
| Stream.Seconds | src/data_loader/stream.py:62-63 | the timestamp in seconds times 1000 is the event time in milliseconds |
| Stream.Buffer | src/data_loader/stream.py:59-66 | only the lower-cased symbol's entry changes (a new symbol adds a key) and it holds the new price |
| Stream.BufferAfter | src/data_loader/stream.py:55-66 | no buffered symbol is ever removed |
| Stream.BufferHoldsLatestPrice | src/data_loader/stream.py:55-66 | each buffered symbol holds the latest price received for it, or its initial entry |
| Stream.WriteCarriesLatestPrices | src/data_loader/stream.py:69-79 | a write carries the latest price of each leg and the timestamp E/1000 |
| Stream.BinanceStream.constructor | src/data_loader/stream.py:14-25 | both symbols stored lower-cased, both buffered prices None, no write issued |
| Stream.BinanceStream.ProcessMessage | src/data_loader/stream.py:55-80 | the buffer becomes Buffer of the message; one write is appended exactly when both legs are truthy (present and nonzero) |
| Stream.BinanceStream.OnMessage | src/data_loader/stream.py:46-48 | only a message whose 'e' is "trade" is processed; any other leaves everything unchanged |

## Left out

- Floating point: every price and estimate is a real, so no claim is made about rounding, overflow, inf or NaN propagation. The only NaN kept is the explicit check in the signal generator, where a NaN z-score is `None`.
- np.sqrt, np.log and np.polyfit on a constant regressor are parameters (`Elementary`), because they have no closed form over the reals. Nothing is claimed about their values, including np.log at a slope <= 0.
- Numerics.Fit: only "the line passes through the point of means" is stated. That the closed form minimises the squared residuals (the normal equations) is not proved.
- Concurrency: the store's asyncio lock, the engine's `update_event.wait/clear`, and the stream's `asyncio.create_task` are left out. Each operation is one sequential call, and the stream records the write instead of scheduling it.
- The network: websocket connect, subscribe and receive; JSON decoding; and `float(data['p'])`. A message arrives already decoded as a `Message`.
- Stream.Lower: lower-cases ASCII letters only. Python's `str.lower` also folds non-ASCII letters, which exchange symbols do not contain.
- The wake-up event of the engine is not set by the stream and is not modelled.
- Kalman.KalmanFilter.constructor: requires delta >= 0 and R > 0. The source does not check these, but without them S can be zero and the gain's division undefined.
- GymEnv.TradingEnv.constructor: receives the feature columns ready-made. CSV loading, sanitising, skipping rows and the sin/cos time features are file I/O and pandas. The `ValueError` for fewer than 10 rows is a `requires`.
- GymEnv.TradingEnv.Step: requires that the episode has not ended (current_step < n_steps - 1). A step from the last row reads its price in bounds but advances the clock to n_steps, and `_get_observation` then raises IndexError on z_scores[n_steps] (src/rl/gym_env.py:112, 138); StepOf, Rollout and their lemmas carry the same bound. The int reward 0 on termination is 0.0.
- GymEnv.TradingEnv.GetObservation: the float32 cast of the observation is not modelled. The `truncated` flag and the `info` dict of the gym API are constant and left out. The unused `spreads` column is not kept.
- GymEnv.StepOf: opening a position does not debit its cost from the cash, so the reward of the step that opens a position is position * new price. This is modelled as written.
- Backtester: a signal is an `int`. A fractional float signal is not modelled, and it would change nothing, as any value outside {-1, 0, 1} does.
- Backtester.BacktestEngine.ProcessRow: this is the loop body of `run_backtest`, drawn out as its own method. The row loop calls it once per row.
- Backtester.BacktestEngine.RunBacktest: the data frame is reduced to its `signal` and `spread` columns. A failed `portfolio_value` column assignment is `None` rather than an exception.
- MathEngine, Backtester: the console messages at start-up (src/processors/math_engine.py:12, src/backtester/engine.py:26) are logging only and are not modelled.
- Evaluate: the simulation loop that produces the log, the printed report, the averages and the plots are I/O and numpy metrics, and are not modelled. The trade dictionary's `type` field is `side`.
- Connectors, aligners, rolling z-score and cointegration helpers, recorder, training scripts and configuration are not part of this model.
