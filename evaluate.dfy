/**
 * Trade reconstruction from an evaluation log: a trade boundary is a row
 * whose action differs from the previous row's. At a boundary the open
 * trade (if any) is closed at that row's step and price, and a new one is
 * opened if the new action is long (1) or short (2). A flat fee estimate of
 * 1.50 per side is charged against each closed trade. Row 0 has no
 * predecessor and is skipped, and a trade still open after the last row is
 * not reported.
 */
module Evaluate {
  import opened Wrappers

  /** One logged step of the evaluation episode. */
  datatype LogRow = LogRow(step: int, price: real, action: int)

  /** The estimated fee for one side of a trade. */
  const FeePerTrade: real := 1.5

  datatype Side = Long | Short

  /** A trade that has been entered but not yet exited. */
  datatype OpenTrade = OpenTrade(entryStep: int, entryPrice: real, direction: int, side: Side)

  /** A closed trade with its duration and profit and loss. */
  datatype Trade = Trade(entryStep: int, entryPrice: real, direction: int, side: Side,
                         exitStep: int, exitPrice: real, duration: int,
                         grossPnl: real, fee: real, netPnl: real)

  /** The trade list so far and the trade currently open, if any. */
  datatype Ledger = Ledger(trades: seq<Trade>, current: Option<OpenTrade>)

  /** The `prev_action` column: the action shifted down by one row, 0 in the first row. */
  function PrevActions(rows: seq<LogRow>): (prev: seq<int>)
    ensures |prev| == |rows|
    ensures |rows| > 0 ==> prev[0] == 0
    ensures forall i :: 0 < i < |rows| ==> prev[i] == rows[i - 1].action
  {
    seq(|rows|, i requires 0 <= i < |rows| => if i == 0 then 0 else rows[i - 1].action)
  }

  /** Action 1 trades long (+1), action 2 short (-1), anything else stays flat. */
  function DirectionOf(action: int): (d: int)
    ensures d == 1 <==> action == 1
    ensures d == -1 <==> action == 2
    ensures d == 0 <==> action != 1 && action != 2
  {
    if action == 1 then 1 else if action == 2 then -1 else 0
  }

  function SideOf(direction: int): Side
  {
    if direction == 1 then Long else Short
  }

  /** What the direction earns per unit of price movement. */
  function Gross(direction: int, entryPrice: real, exitPrice: real): real
  {
    (direction as real) * (exitPrice - entryPrice)
  }

  /** Gross written as direction * (exit - entry) through a named price delta. */
  lemma GrossIsDirectionTimesDelta(direction: int, entryPrice: real, exitPrice: real, delta: real, gross: real)
    requires delta == exitPrice - entryPrice && gross == (direction as real) * delta
    ensures gross == Gross(direction, entryPrice, exitPrice)
  {
  }

  /** The shape every reported trade has. */
  predicate WellFormed(t: Trade)
  {
    && (t.direction == 1 || t.direction == -1)
    && t.side == SideOf(t.direction)
    && t.duration == t.exitStep - t.entryStep
    && t.grossPnl == Gross(t.direction, t.entryPrice, t.exitPrice)
    && t.fee == FeePerTrade
    && t.netPnl == t.grossPnl - 2.0 * FeePerTrade
  }

  /** Closing the open trade at a row. */
  function Close(o: OpenTrade, row: LogRow): Trade
  {
    var gross := Gross(o.direction, o.entryPrice, row.price);
    Trade(o.entryStep, o.entryPrice, o.direction, o.side, row.step, row.price,
          row.step - o.entryStep, gross, FeePerTrade, gross - FeePerTrade * 2.0)
  }

  /** Opening a trade at a row, when its action is long or short. */
  function Open(row: LogRow): Option<OpenTrade>
  {
    var direction := DirectionOf(row.action);
    if direction != 0 then Some(OpenTrade(row.step, row.price, direction, SideOf(direction))) else None
  }

  /** One row after the first, given the previous row's action. */
  function Visit(l: Ledger, row: LogRow, prevAction: int): Ledger
  {
    if row.action != prevAction then
      var trades := if l.current.Some? then l.trades + [Close(l.current.value, row)] else l.trades;
      Ledger(trades, Open(row))
    else
      l
  }

  /** The ledger after the first n rows of the log. */
  function LedgerAfter(rows: seq<LogRow>, n: nat): Ledger
    requires n <= |rows|
  {
    if n <= 1 then Ledger([], None)
    else Visit(LedgerAfter(rows, n - 1), rows[n - 1], rows[n - 2].action)
  }

  /** Every trade in the ledger is well formed, and an open trade is long or short. */
  predicate Consistent(l: Ledger)
  {
    && (forall t :: t in l.trades ==> WellFormed(t))
    && (l.current.Some? ==> l.current.value.direction == 1 || l.current.value.direction == -1)
    && (l.current.Some? ==> l.current.value.side == SideOf(l.current.value.direction))
  }

  lemma {:induction false} LedgerIsConsistent(rows: seq<LogRow>, n: nat)
    requires n <= |rows|
    ensures Consistent(LedgerAfter(rows, n))
  {
    if n > 1 {
      LedgerIsConsistent(rows, n - 1);
      var l := LedgerAfter(rows, n - 1);
      var row := rows[n - 1];
      if row.action != rows[n - 2].action && l.current.Some? {
        var o := l.current.value;
        var t := Close(o, row);
        assert t.grossPnl == Gross(t.direction, t.entryPrice, t.exitPrice);
        assert WellFormed(t);
        assert forall u :: u in l.trades + [t] ==> u in l.trades || u == t;
      }
    }
  }

  /**
   * A trade that is open after row n - 1 has the direction of that row's
   * action: nothing has changed since it was opened.
   */
  lemma {:induction false} OpenTradeFollowsAction(rows: seq<LogRow>, n: nat)
    requires 0 < n <= |rows|
    requires LedgerAfter(rows, n).current.Some?
    ensures LedgerAfter(rows, n).current.value.direction == DirectionOf(rows[n - 1].action)
    ensures LedgerAfter(rows, n).current.value.direction != 0
  {
    if n > 1 {
      var row := rows[n - 1];
      if row.action == rows[n - 2].action {
        OpenTradeFollowsAction(rows, n - 1);
      }
    }
  }

  /** The number of rows after the first whose action differs from the row before. */
  function Changes(rows: seq<LogRow>, n: nat): nat
    requires n <= |rows|
  {
    if n <= 1 then 0
    else Changes(rows, n - 1) + (if rows[n - 1].action != rows[n - 2].action then 1 else 0)
  }

  /**
   * Trades open and close only at action changes: every trade, closed or
   * still open, uses up at least one change. Row 0 never opens one.
   */
  lemma {:induction false} TradesNeedChanges(rows: seq<LogRow>, n: nat)
    requires n <= |rows|
    ensures |LedgerAfter(rows, n).trades| + (if LedgerAfter(rows, n).current.Some? then 1 else 0)
         <= Changes(rows, n)
  {
    if n > 1 {
      TradesNeedChanges(rows, n - 1);
    }
  }

  /** The trade list of the report: the open trade at the end is dropped. */
  function ClosedTrades(rows: seq<LogRow>): seq<Trade>
  {
    LedgerAfter(rows, |rows|).trades
  }

  /** The reconstruction loop over the log. */
  method ReconstructTrades(rows: seq<LogRow>) returns (trades: seq<Trade>)
    ensures trades == ClosedTrades(rows)
  {
    var prevAction := PrevActions(rows);
    trades := [];
    var currentTrade: Option<OpenTrade> := None;
    var estFeePerTrade := FeePerTrade;

    for i := 0 to |rows|
      invariant Ledger(trades, currentTrade) == LedgerAfter(rows, if i == 0 then 0 else i)
    {
      if i == 0 {
        continue;
      }
      var row := rows[i];
      if row.action != prevAction[i] {
        if currentTrade.Some? {
          var open := currentTrade.value;
          var priceDelta := row.price - open.entryPrice;
          var grossPnl := (open.direction as real) * priceDelta;
          GrossIsDirectionTimesDelta(open.direction, open.entryPrice, row.price, priceDelta, grossPnl);
          var closed := Trade(open.entryStep, open.entryPrice, open.direction, open.side,
                              row.step, row.price, row.step - open.entryStep,
                              grossPnl, estFeePerTrade, grossPnl - estFeePerTrade * 2.0);
          trades := trades + [closed];
          currentTrade := None;
        }

        var target := row.action;
        var direction := 0;
        if target == 1 {
          direction := 1;
        }
        if target == 2 {
          direction := -1;
        }

        if direction != 0 {
          currentTrade := Some(OpenTrade(row.step, row.price, direction,
                                         if direction == 1 then Long else Short));
        }
      }
    }
  }

  /** The winning trades (net profit above zero), in order. */
  function Wins(trades: seq<Trade>): (w: seq<Trade>)
    ensures forall t :: t in w ==> t in trades && t.netPnl > 0.0
  {
    if |trades| == 0 then []
    else (if trades[0].netPnl > 0.0 then [trades[0]] else []) + Wins(trades[1..])
  }

  /** The losing trades (net profit at most zero), in order. */
  function Losses(trades: seq<Trade>): (l: seq<Trade>)
    ensures forall t :: t in l ==> t in trades && t.netPnl <= 0.0
  {
    if |trades| == 0 then []
    else (if trades[0].netPnl <= 0.0 then [trades[0]] else []) + Losses(trades[1..])
  }

  /** Wins and losses split the trades: together they are exactly the trade list. */
  lemma {:induction false} WinsAndLossesPartition(trades: seq<Trade>)
    ensures |Wins(trades)| + |Losses(trades)| == |trades|
    ensures multiset(Wins(trades)) + multiset(Losses(trades)) == multiset(trades)
  {
    if |trades| > 0 {
      WinsAndLossesPartition(trades[1..]);
      assert trades == [trades[0]] + trades[1..];
    }
  }
}
