/**
 * The shared snapshot store ("blackboard"): the latest pair of prices and
 * the analytics derived from them, updated by two field-disjoint writers and
 * read by copying.
 *
 * The asyncio lock that serialises the three operations is not modelled:
 * each operation is one sequential method call. The record is a value, so
 * the copy that a read hands out can never be changed by a later write.
 */
module Market {

  /** The record of one asset pair; a fresh record is all zeros and empty symbols. */
  datatype MarketData = MarketData(
    timestamp: real,
    symbolA: string,
    symbolB: string,
    priceA: real,
    priceB: real,
    beta: real,
    theta: real,
    volatility: real,
    spread: real,
    zScore: real)

  function Initial(): (m: MarketData)
  {
    MarketData(0.0, "", "", 0.0, 0.0, 0.0, 0.0, 0.0, 0.0, 0.0)
  }

  /** The raw inputs of a record: (timestamp, price_a, price_b). */
  datatype Raw = Raw(timestamp: real, priceA: real, priceB: real)

  /** The derived analytics of a record. */
  datatype Derived = Derived(beta: real, theta: real, volatility: real, spread: real, zScore: real)

  function RawOf(m: MarketData): Raw
  {
    Raw(m.timestamp, m.priceA, m.priceB)
  }

  function DerivedOf(m: MarketData): Derived
  {
    Derived(m.beta, m.theta, m.volatility, m.spread, m.zScore)
  }

  /** What update_prices does to the record. */
  function WithPrices(m: MarketData, priceA: real, priceB: real, timestamp: real): MarketData
  {
    m.(priceA := priceA, priceB := priceB, timestamp := timestamp)
  }

  /** What update_math does to the record (`vol` lands in `volatility`). */
  function WithMath(m: MarketData, beta: real, theta: real, vol: real, spread: real, zScore: real): MarketData
  {
    m.(beta := beta, theta := theta, volatility := vol, spread := spread, zScore := zScore)
  }

  /**
   * A record is determined by its symbols, its raw part and its derived
   * part: the three projections lose nothing.
   */
  lemma ProjectionsDetermineRecord(m: MarketData, n: MarketData)
    requires m.symbolA == n.symbolA && m.symbolB == n.symbolB
    requires RawOf(m) == RawOf(n) && DerivedOf(m) == DerivedOf(n)
    ensures m == n
  {
  }

  /** A fresh record has every number 0.0 and both symbols "". */
  lemma InitialIsZero()
    ensures RawOf(Initial()) == Raw(0.0, 0.0, 0.0)
    ensures DerivedOf(Initial()) == Derived(0.0, 0.0, 0.0, 0.0, 0.0)
    ensures Initial().symbolA == "" && Initial().symbolB == ""
  {
  }

  /** update_prices sets exactly the raw part; derived fields and symbols are kept. */
  lemma PricesTouchOnlyRaw(m: MarketData, priceA: real, priceB: real, timestamp: real)
    ensures RawOf(WithPrices(m, priceA, priceB, timestamp)) == Raw(timestamp, priceA, priceB)
    ensures DerivedOf(WithPrices(m, priceA, priceB, timestamp)) == DerivedOf(m)
    ensures WithPrices(m, priceA, priceB, timestamp).symbolA == m.symbolA
    ensures WithPrices(m, priceA, priceB, timestamp).symbolB == m.symbolB
  {
  }

  /** update_math sets exactly the derived part; prices, timestamp and symbols are kept. */
  lemma MathTouchesOnlyDerived(m: MarketData, beta: real, theta: real, vol: real, spread: real, zScore: real)
    ensures DerivedOf(WithMath(m, beta, theta, vol, spread, zScore)) == Derived(beta, theta, vol, spread, zScore)
    ensures RawOf(WithMath(m, beta, theta, vol, spread, zScore)) == RawOf(m)
    ensures WithMath(m, beta, theta, vol, spread, zScore).symbolA == m.symbolA
    ensures WithMath(m, beta, theta, vol, spread, zScore).symbolB == m.symbolB
  {
  }

  /** Because the two writers touch disjoint fields, their order does not matter. */
  lemma WritersCommute(m: MarketData, priceA: real, priceB: real, timestamp: real,
                       beta: real, theta: real, vol: real, spread: real, zScore: real)
    ensures WithMath(WithPrices(m, priceA, priceB, timestamp), beta, theta, vol, spread, zScore)
         == WithPrices(WithMath(m, beta, theta, vol, spread, zScore), priceA, priceB, timestamp)
  {
  }

  /** Blackboard: the one record, written by two methods and read by copy. */
  class Blackboard {
    var market: MarketData

    constructor ()
      ensures market == Initial()
    {
      market := Initial();
    }

    method UpdatePrices(priceA: real, priceB: real, timestamp: real)
      modifies this
      ensures market == WithPrices(old(market), priceA, priceB, timestamp)
      ensures RawOf(market) == Raw(timestamp, priceA, priceB)
      ensures DerivedOf(market) == DerivedOf(old(market))
      ensures market.symbolA == old(market.symbolA) && market.symbolB == old(market.symbolB)
    {
      market := market.(priceA := priceA);
      market := market.(priceB := priceB);
      market := market.(timestamp := timestamp);
    }

    method UpdateMath(beta: real, theta: real, vol: real, spread: real, zScore: real)
      modifies this
      ensures market == WithMath(old(market), beta, theta, vol, spread, zScore)
      ensures DerivedOf(market) == Derived(beta, theta, vol, spread, zScore)
      ensures RawOf(market) == RawOf(old(market))
      ensures market.symbolA == old(market.symbolA) && market.symbolB == old(market.symbolB)
    {
      market := market.(beta := beta);
      market := market.(theta := theta);
      market := market.(volatility := vol);
      market := market.(spread := spread);
      market := market.(zScore := zScore);
    }

    /** A copy of the whole record; reading changes nothing, so two reads agree. */
    method GetState() returns (snapshot: MarketData)
      ensures snapshot == market
    {
      snapshot := market;
    }
  }
}
