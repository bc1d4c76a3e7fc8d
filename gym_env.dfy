/**
 * The reinforcement-learning environment's game loop over pre-computed
 * feature columns. An action (0 flat, 1 long, 2 short) becomes a target
 * position of one unit of the spread; changing position is charged a fee
 * on the notional, the clock advances one row, and the reward is the change
 * of the marked-to-market portfolio value. The position itself is taken
 * without moving cash: only the fee (hard-wired to 0.0) ever changes it.
 */
module GymEnv {
  import opened Signals

  /** What the environment tracks between calls of `step`. */
  datatype Account = Account(step: int, position: int, cash: real, portfolio: real)

  /** The outcome of one `step`: the new account, the reward and the termination flag. */
  datatype StepResult = StepResult(after: Account, reward: real, terminated: bool)

  /** Discrete actions 0, 1, 2 map to target positions 0, 1, -1; anything else to 0. */
  function TargetOf(action: int): (t: int)
    ensures IsPosition(t)
    ensures t == 1 <==> action == 1
    ensures t == -1 <==> action == 2
  {
    if action == 1 then 1 else if action == 2 then -1 else 0
  }

  function Abs(x: real): (r: real)
    ensures r >= 0.0 && (r == x || r == -x)
  {
    if x < 0.0 then -x else x
  }

  /** Cash + position * price. */
  function Mark(cash: real, position: int, price: real): real
  {
    cash + (position as real) * price
  }

  /**
   * One call of `step` from account a, over the price column: trade to the
   * target (paying |price| * fee if the position changes), advance the
   * clock, and unless the episode has ended re-mark the portfolio at the
   * new row's price.
   */
  function StepOf(prices: seq<real>, fee: real, a: Account, action: int): (t: StepResult)
    requires 0 <= a.step < |prices| - 1
    ensures t.after.step == a.step + 1
    ensures t.after.position == TargetOf(action)
    ensures TargetOf(action) == a.position ==> t.after.cash == a.cash
    ensures TargetOf(action) != a.position ==> t.after.cash == a.cash - Abs(prices[a.step]) * fee
    ensures t.terminated <==> t.after.step >= |prices| - 1
    ensures t.terminated ==> t.reward == 0.0 && t.after.portfolio == a.portfolio
    ensures !t.terminated ==>
              t.after.portfolio == Mark(t.after.cash, t.after.position, prices[t.after.step])
    // the reward is always the change in the recorded portfolio value
    ensures t.reward == t.after.portfolio - a.portfolio
  {
    var target := TargetOf(action);
    var cash := if target != a.position then a.cash - Abs(prices[a.step]) * fee else a.cash;
    var step := a.step + 1;
    if step >= |prices| - 1 then
      StepResult(Account(step, target, cash, a.portfolio), 0.0, true)
    else
      var portfolio := Mark(cash, target, prices[step]);
      StepResult(Account(step, target, cash, portfolio), portfolio - a.portfolio, false)
  }

  /**
   * A sequence of actions played from account a: the final account and the
   * sum of the rewards. Every step reads an existing row.
   */
  function Rollout(prices: seq<real>, fee: real, a: Account, actions: seq<int>): (r: (Account, real))
    requires 0 <= a.step && a.step + |actions| < |prices|
    decreases |actions|
  {
    if |actions| == 0 then (a, 0.0)
    else
      var t := StepOf(prices, fee, a, actions[0]);
      var rest := Rollout(prices, fee, t.after, actions[1..]);
      (rest.0, t.reward + rest.1)
  }

  /** The rewards of an episode add up to the change in portfolio value. */
  lemma {:induction false} RewardsTelescope(prices: seq<real>, fee: real, a: Account, actions: seq<int>)
    requires 0 <= a.step && a.step + |actions| < |prices|
    ensures Rollout(prices, fee, a, actions).1 == Rollout(prices, fee, a, actions).0.portfolio - a.portfolio
    decreases |actions|
  {
    if |actions| > 0 {
      var t := StepOf(prices, fee, a, actions[0]);
      RewardsTelescope(prices, fee, t.after, actions[1..]);
    }
  }

  /** With no fee, no step ever changes the cash. */
  lemma {:induction false} FeeFreeCashIsConstant(prices: seq<real>, a: Account, actions: seq<int>)
    requires 0 <= a.step && a.step + |actions| < |prices|
    ensures Rollout(prices, 0.0, a, actions).0.cash == a.cash
    decreases |actions|
  {
    if |actions| > 0 {
      var t := StepOf(prices, 0.0, a, actions[0]);
      assert Abs(prices[a.step]) * 0.0 == 0.0;
      FeeFreeCashIsConstant(prices, t.after, actions[1..]);
    }
  }

  /** The environment over the feature columns of a cleaned recording. */
  class TradingEnv {
    const initialBalance: real
    const fee: real
    const zScores: seq<real>
    const thetas: seq<real>
    const vols: seq<real>
    const prices: seq<real>
    const hourSin: seq<real>
    const hourCos: seq<real>
    const daySin: seq<real>
    const dayCos: seq<real>
    const nSteps: int

    var currentStep: int
    var position: int
    var cash: real
    var portfolioValue: real

    /** Every column has one entry per row, and the clock is on a row. */
    ghost predicate Valid()
      reads this
    {
      && |zScores| == nSteps && |thetas| == nSteps && |vols| == nSteps && |prices| == nSteps
      && |hourSin| == nSteps && |hourCos| == nSteps && |daySin| == nSteps && |dayCos| == nSteps
      && 0 <= currentStep < nSteps
      && IsPosition(position)
    }

    function State(): Account
      reads this
    {
      Account(currentStep, position, cash, portfolioValue)
    }

    /**
     * The columns are those the constructor derives from the recording; a
     * recording with fewer than 10 rows is rejected there.
     */
    constructor (zScores: seq<real>, thetas: seq<real>, vols: seq<real>,
                 prices: seq<real>, hourSin: seq<real>, hourCos: seq<real>,
                 daySin: seq<real>, dayCos: seq<real>, initialBalance: real := 10000.0)
      requires |prices| >= 10
      requires |zScores| == |thetas| == |vols| == |prices| == |hourSin| == |hourCos| == |daySin| == |dayCos|
      ensures Valid()
      ensures this.initialBalance == initialBalance && fee == 0.0 && this.prices == prices
      ensures this.zScores == zScores && this.thetas == thetas && this.vols == vols
      ensures this.hourSin == hourSin && this.hourCos == hourCos
      ensures this.daySin == daySin && this.dayCos == dayCos
      ensures State() == Account(0, 0, initialBalance, initialBalance)
    {
      this.initialBalance := initialBalance;
      fee := 0.0;
      this.zScores := zScores;
      this.thetas := thetas;
      this.vols := vols;
      this.prices := prices;
      this.hourSin := hourSin;
      this.hourCos := hourCos;
      this.daySin := daySin;
      this.dayCos := dayCos;
      nSteps := |prices|;
      currentStep := 0;
      position := 0;
      cash := initialBalance;
      portfolioValue := initialBalance;
    }

    /** The 8 features of the current row, with the held position as entry 3. */
    function GetObservation(): (obs: seq<real>)
      reads this
      requires Valid()
      ensures |obs| == 8
      ensures obs[3] == position as real
      ensures obs[0] == zScores[currentStep] && obs[1] == thetas[currentStep] && obs[2] == vols[currentStep]
    {
      var idx := currentStep;
      [zScores[idx], thetas[idx], vols[idx], position as real,
       hourSin[idx], hourCos[idx], daySin[idx], dayCos[idx]]
    }

    method Reset() returns (obs: seq<real>)
      requires Valid()
      modifies this
      ensures Valid()
      ensures State() == Account(0, 0, initialBalance, initialBalance)
      ensures obs == GetObservation()
    {
      currentStep := 0;
      position := 0;
      cash := initialBalance;
      portfolioValue := initialBalance;
      obs := GetObservation();
    }

    /**
     * One step of the game. The clock must not already be on the last row:
     * a step from there would read past the end of the columns.
     */
    method Step(action: int) returns (obs: seq<real>, reward: real, terminated: bool)
      requires Valid() && currentStep < nSteps - 1
      modifies this
      ensures Valid()
      ensures State() == StepOf(prices, fee, old(State()), action).after
      ensures reward == StepOf(prices, fee, old(State()), action).reward
      ensures terminated == StepOf(prices, fee, old(State()), action).terminated
      ensures obs == GetObservation()
      // a step that did not end the episode leaves the clock where another step is possible
      ensures !terminated ==> currentStep < nSteps - 1
    {
      var prevPortfolioValue := portfolioValue;
      var currentPrice := prices[currentStep];

      var targetPosition := 0;
      if action == 1 {
        targetPosition := 1;
      }
      if action == 2 {
        targetPosition := -1;
      }

      if targetPosition != position {
        var cost := Abs(currentPrice) * fee;
        cash := cash - cost;
      }

      position := targetPosition;

      currentStep := currentStep + 1;
      terminated := currentStep >= nSteps - 1;

      if terminated {
        obs := GetObservation();
        reward := 0.0;
        return;
      }

      var newPrice := prices[currentStep];
      portfolioValue := cash + (position as real) * newPrice;
      reward := portfolioValue - prevPortfolioValue;
      obs := GetObservation();
    }
  }
}
