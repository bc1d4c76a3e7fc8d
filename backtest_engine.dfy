/**
 * The signal-driven backtester: one unit of the spread is bought or sold at
 * each row's spread price, then the book is marked to market and the equity
 * is appended to the portfolio history. There are no transaction costs, so
 * a trade exchanges cash for inventory at the current price and never
 * changes the equity by itself.
 */
module Backtester {
  import opened Wrappers
  import opened Signals

  /** One row of the input frame: the target signal and the spread price. */
  datatype Row = Row(signal: int, spread: real)

  /** The simulated account: cash and the held units of the spread. */
  datatype Book = Book(cash: real, position: int)

  /** Value = cash + inventory * current price. */
  function Equity(b: Book, price: real): real
  {
    b.cash + (b.position as real) * price
  }

  /** What holding `position` units earns while the price moves from p to q. */
  function HoldingGain(position: int, p: real, q: real): real
  {
    (position as real) * (q - p)
  }

  /**
   * The position a row's signal asks for: -1, 0 and 1 are targets, any
   * other value leaves the position as it is.
   */
  function Target(position: int, signal: int): (t: int)
  {
    if IsPosition(signal) then signal else position
  }

  /**
   * The execution logic of one row, stated as a single trade: the book buys
   * (or, when negative, sells) Target - position units at the row's price.
   * The engine's three branches (buy 1 - position, sell position + 1, close
   * a long or a short) are this trade written out case by case.
   */
  function Execute(b: Book, signal: int, price: real): (r: Book)
    requires IsPosition(b.position)
    ensures IsPosition(r.position)
    ensures IsPosition(signal) ==> r.position == signal
    ensures signal == b.position || !IsPosition(signal) ==> r == b
  {
    var target := Target(b.position, signal);
    Book(b.cash - ((target - b.position) as real) * price, target)
  }

  /**
   * Every trade converts cash into inventory (or back) at the row's price:
   * the equity marked at that price is the same before and after.
   */
  lemma TradeKeepsEquity(b: Book, signal: int, price: real)
    requires IsPosition(b.position)
    ensures Equity(Execute(b, signal, price), price) == Equity(b, price)
  {
    var t, n := Target(b.position, signal) as real, b.position as real;
    assert b.cash - (t - n) * price + t * price == b.cash + n * price;
  }

  /** The book after executing every row of rows in order. */
  function Run(b: Book, rows: seq<Row>): (r: Book)
    requires IsPosition(b.position)
    ensures IsPosition(r.position)
  {
    if |rows| == 0 then b
    else
      var last := rows[|rows| - 1];
      Execute(Run(b, rows[..|rows| - 1]), last.signal, last.spread)
  }

  /** The equity recorded after each row, marked at that row's price. */
  function EquityCurve(b: Book, rows: seq<Row>): (curve: seq<real>)
    requires IsPosition(b.position)
    ensures |curve| == |rows|
  {
    if |rows| == 0 then []
    else EquityCurve(b, rows[..|rows| - 1]) + [Equity(Run(b, rows), rows[|rows| - 1].spread)]
  }

  /** One equity entry per row, each the book after that row marked at its price. */
  lemma {:induction false} EquityCurveEntries(b: Book, rows: seq<Row>)
    requires IsPosition(b.position)
    ensures forall i :: 0 <= i < |rows| ==>
              EquityCurve(b, rows)[i] == Equity(Run(b, rows[..i + 1]), rows[i].spread)
  {
    if |rows| > 0 {
      var front := rows[..|rows| - 1];
      EquityCurveEntries(b, front);
      assert rows[..|rows|] == rows;
      forall i | 0 <= i < |front|
        ensures EquityCurve(b, rows)[i] == Equity(Run(b, rows[..i + 1]), rows[i].spread)
      {
        assert front[..i + 1] == rows[..i + 1];
      }
    }
  }

  lemma EquityCurveEntry(b: Book, rows: seq<Row>, i: nat)
    requires IsPosition(b.position)
    requires i < |rows|
    ensures EquityCurve(b, rows)[i] == Equity(Run(b, rows[..i + 1]), rows[i].spread)
  {
    EquityCurveEntries(b, rows);
  }

  /**
   * Mark-to-market accounting: from one row to the next the equity moves by
   * the position held after the earlier row times the change in price.
   */
  lemma EquityMovesWithPrice(b: Book, rows: seq<Row>, i: nat)
    requires IsPosition(b.position)
    requires 0 < i < |rows|
    ensures EquityCurve(b, rows)[i] == EquityCurve(b, rows)[i - 1]
              + HoldingGain(Run(b, rows[..i]).position, rows[i - 1].spread, rows[i].spread)
  {
    EquityCurveEntry(b, rows, i - 1);
    EquityCurveEntry(b, rows, i);
    assert rows[..(i - 1) + 1] == rows[..i];
    assert rows[..i + 1][..i] == rows[..i];
    assert Run(b, rows[..i + 1]) == Execute(Run(b, rows[..i]), rows[i].signal, rows[i].spread);
    TradeKeepsEquity(Run(b, rows[..i]), rows[i].signal, rows[i].spread);
    assert EquityCurve(b, rows)[i] == Equity(Run(b, rows[..i]), rows[i].spread);
    assert EquityCurve(b, rows)[i - 1] == Equity(Run(b, rows[..i]), rows[i - 1].spread);
    PriceMove(Run(b, rows[..i]), rows[i - 1].spread, rows[i].spread);
  }

  /** Marking the same book at another price moves its equity by position * (price change). */
  lemma PriceMove(b: Book, p: real, q: real)
    ensures Equity(b, q) == Equity(b, p) + HoldingGain(b.position, p, q)
  {
  }

  /** Run and EquityCurve on the first i + 1 rows, one row further than on the first i. */
  lemma RunStep(b: Book, rows: seq<Row>, i: nat)
    requires IsPosition(b.position)
    requires i < |rows|
    ensures Run(b, rows[..i + 1]) == Execute(Run(b, rows[..i]), rows[i].signal, rows[i].spread)
    ensures EquityCurve(b, rows[..i + 1])
         == EquityCurve(b, rows[..i]) + [Equity(Run(b, rows[..i + 1]), rows[i].spread)]
  {
    assert rows[..i + 1][..i] == rows[..i];
  }

  /** The engine's buy branch is the trade toward target 1. */
  lemma BuyBranch(b: Book, price: real, tradesNeeded: int)
    requires IsPosition(b.position) && b.position != 1
    requires tradesNeeded == 1 - b.position
    ensures Execute(b, 1, price) == Book(b.cash - (tradesNeeded as real) * price, 1)
  {
  }

  /** The engine's sell branch is the trade toward target -1. */
  lemma SellBranch(b: Book, price: real, tradesNeeded: int)
    requires IsPosition(b.position) && b.position != -1
    requires tradesNeeded == b.position - (-1)
    ensures Execute(b, -1, price) == Book(b.cash + (tradesNeeded as real) * price, -1)
  {
    var n := b.position as real;
    assert b.cash - (-1.0 - n) * price == b.cash + (n + 1.0) * price;
  }

  /** The engine's close branch is the trade toward target 0. */
  lemma CloseBranch(b: Book, price: real)
    requires IsPosition(b.position) && b.position != 0
    ensures b.position == 1 ==> Execute(b, 0, price) == Book(b.cash + price, 0)
    ensures b.position == -1 ==> Execute(b, 0, price) == Book(b.cash - price, 0)
  {
  }

  /** The engine's mark-to-market expression is Equity. */
  lemma MarkToMarket(cash: real, position: int, price: real, value: real)
    requires value == cash + (position as real) * price
    ensures value == Equity(Book(cash, position), price)
  {
  }

  /** The simulator; `portfolioHistory` is the equity curve it appends to. */
  class BacktestEngine {
    const initialCash: real
    var cash: real
    var position: int
    var portfolioHistory: seq<real>

    ghost predicate Valid()
      reads this
    {
      IsPosition(position)
    }

    constructor (initialCash: real := 10000.0)
      ensures Valid()
      ensures this.initialCash == initialCash && cash == initialCash
      ensures position == 0 && portfolioHistory == []
    {
      this.initialCash := initialCash;
      cash := initialCash;
      position := 0;
      portfolioHistory := [];
    }

    /**
     * Executes every row and appends its equity. The curve is then attached
     * to the frame as a column; a history whose length differs from the
     * frame's (an engine that had already run) makes that assignment fail,
     * which is the `None` result.
     */
    method RunBacktest(rows: seq<Row>) returns (portfolioValue: Option<seq<real>>)
      requires Valid()
      modifies this
      ensures Valid()
      ensures Book(cash, position) == Run(old(Book(cash, position)), rows)
      ensures portfolioHistory == old(portfolioHistory) + EquityCurve(old(Book(cash, position)), rows)
      ensures portfolioValue == if |portfolioHistory| == |rows| then Some(portfolioHistory) else None
    {
      ghost var start := Book(cash, position);
      ghost var before := portfolioHistory;
      for i := 0 to |rows|
        invariant Valid()
        invariant Book(cash, position) == Run(start, rows[..i])
        invariant portfolioHistory == before + EquityCurve(start, rows[..i])
      {
        RunStep(start, rows, i);
        ProcessRow(rows[i].signal, rows[i].spread);
      }
      assert rows[..|rows|] == rows;
      if |portfolioHistory| == |rows| {
        portfolioValue := Some(portfolioHistory);
      } else {
        portfolioValue := None;
      }
    }

    /** The body of the backtest loop for one row: execute, then mark to market. */
    method ProcessRow(signal: int, spreadPrice: real)
      requires Valid()
      modifies this
      ensures Valid()
      ensures Book(cash, position) == Execute(old(Book(cash, position)), signal, spreadPrice)
      ensures portfolioHistory == old(portfolioHistory) + [Equity(Book(cash, position), spreadPrice)]
    {
      if signal == 1 && position != 1 {
        var tradesNeeded := 1 - position;
        BuyBranch(Book(cash, position), spreadPrice, tradesNeeded);
        cash := cash - (tradesNeeded as real) * spreadPrice;
        position := 1;
      } else if signal == -1 && position != -1 {
        var tradesNeeded := position - (-1);
        SellBranch(Book(cash, position), spreadPrice, tradesNeeded);
        cash := cash + (tradesNeeded as real) * spreadPrice;
        position := -1;
      } else if signal == 0 && position != 0 {
        CloseBranch(Book(cash, position), spreadPrice);
        if position == 1 {
          cash := cash + spreadPrice;
        } else if position == -1 {
          cash := cash - spreadPrice;
        }
        position := 0;
      }

      var currentEquity := cash + (position as real) * spreadPrice;
      MarkToMarket(cash, position, spreadPrice, currentEquity);
      portfolioHistory := portfolioHistory + [currentEquity];
    }
  }
}
