/**
 * The tick pairing cache of the exchange stream. Trade messages arrive one
 * symbol at a time; the last price of every symbol seen is buffered, and the
 * pair's prices are pushed to the store only once both legs hold a price
 * that is present and nonzero. The store write is recorded as a
 * `PriceWrite` rather than performed: it was issued as a fire-and-forget
 * task in the original.
 */
module Stream {
  import opened Wrappers

  /** ASCII lower-casing of one character. */
  function LowerChar(c: char): (r: char)
    ensures !('A' <= r <= 'Z')
    ensures 'A' <= c <= 'Z' ==> r as int == c as int + 32
    ensures !('A' <= c <= 'Z') ==> r == c
  {
    if 'A' <= c <= 'Z' then (c as int + 32) as char else c
  }

  /** str.lower() on ASCII symbols such as "BTCUSDT". */
  function Lower(s: string): (r: string)
    ensures |r| == |s|
    ensures forall i :: 0 <= i < |s| ==> r[i] == LowerChar(s[i])
  {
    seq(|s|, i requires 0 <= i < |s| => LowerChar(s[i]))
  }

  /** Lower-casing twice is lower-casing once. */
  lemma LowerIsIdempotent(s: string)
    ensures Lower(Lower(s)) == Lower(s)
  {
    assert forall i :: 0 <= i < |s| ==> LowerChar(LowerChar(s[i])) == LowerChar(s[i]);
  }

  /** The fields of a trade event the cache reads: 's', 'p' and 'E' (milliseconds). */
  datatype TradeMessage = TradeMessage(symbol: string, price: real, eventTimeMs: int)

  /** A decoded message: its 'e' field, if any, and its trade fields. */
  datatype Message = Message(event: Option<string>, trade: TradeMessage)

  /** One update_prices(price_a, price_b, timestamp) call issued to the store. */
  datatype PriceWrite = PriceWrite(priceA: real, priceB: real, timestamp: real)

  /** Python truthiness of a buffered price: present and not 0.0. */
  predicate Truthy(p: Option<real>)
  {
    p.Some? && p.value != 0.0
  }

  /** Exchange timestamps are in milliseconds; the store takes seconds. */
  function Seconds(eventTimeMs: int): (t: real)
    ensures t * 1000.0 == eventTimeMs as real
  {
    eventTimeMs as real / 1000.0
  }

  /** The buffer of a fresh stream: both lower-cased symbols, with no price. */
  function InitialBuffer(symbolA: string, symbolB: string): map<string, Option<real>>
  {
    map[Lower(symbolA) := None, Lower(symbolB) := None]
  }

  /** The buffer after a message: only its lower-cased symbol's entry changes. */
  function Buffer(prices: map<string, Option<real>>, m: TradeMessage): (r: map<string, Option<real>>)
    ensures r.Keys == prices.Keys + {Lower(m.symbol)}
    ensures r[Lower(m.symbol)] == Some(m.price)
    ensures forall k :: k in prices && k != Lower(m.symbol) ==> r[k] == prices[k]
  {
    prices[Lower(m.symbol) := Some(m.price)]
  }

  /** The write a message triggers, given the buffer after it. */
  function WriteFor(prices: map<string, Option<real>>, symbolA: string, symbolB: string, m: TradeMessage): seq<PriceWrite>
    requires symbolA in prices && symbolB in prices
  {
    if Truthy(prices[symbolA]) && Truthy(prices[symbolB]) then
      [PriceWrite(prices[symbolA].value, prices[symbolB].value, Seconds(m.eventTimeMs))]
    else []
  }

  /** The buffer after a sequence of messages. */
  function BufferAfter(prices: map<string, Option<real>>, ms: seq<TradeMessage>): (r: map<string, Option<real>>)
    ensures prices.Keys <= r.Keys
  {
    if |ms| == 0 then prices else Buffer(BufferAfter(prices, ms[..|ms| - 1]), ms[|ms| - 1])
  }

  lemma BufferAfterOneMore(prices: map<string, Option<real>>, ms: seq<TradeMessage>, m: TradeMessage)
    ensures BufferAfter(prices, ms + [m]) == Buffer(BufferAfter(prices, ms), m)
  {
    assert (ms + [m])[..|ms|] == ms;
  }

  /** The most recent price received for a (lower-case) symbol, if any. */
  function LatestPrice(ms: seq<TradeMessage>, symbol: string): Option<real>
  {
    if |ms| == 0 then None
    else if Lower(ms[|ms| - 1].symbol) == symbol then Some(ms[|ms| - 1].price)
    else LatestPrice(ms[..|ms| - 1], symbol)
  }

  /**
   * The buffer holds, for every symbol it starts with, the latest price
   * received for that symbol, or its initial entry if none was received.
   */
  lemma {:induction false} BufferHoldsLatestPrice(prices: map<string, Option<real>>, ms: seq<TradeMessage>, symbol: string)
    requires symbol in prices
    ensures symbol in BufferAfter(prices, ms)
    ensures BufferAfter(prices, ms)[symbol]
         == if LatestPrice(ms, symbol).Some? then LatestPrice(ms, symbol) else prices[symbol]
  {
    if |ms| > 0 {
      BufferHoldsLatestPrice(prices, ms[..|ms| - 1], symbol);
    }
  }

  /** The producer side of the pipeline: the buffer and the writes it has issued. */
  class BinanceStream {
    const symbolA: string
    const symbolB: string
    var prices: map<string, Option<real>>
    /** The update_prices calls issued so far, oldest first. */
    var writes: seq<PriceWrite>
    /** Every trade message processed so far, oldest first. */
    ghost var received: seq<TradeMessage>

    ghost predicate Valid()
      reads this
    {
      && symbolA in prices && symbolB in prices
      && prices == BufferAfter(InitialBuffer(symbolA, symbolB), received)
    }

    constructor (symbolA: string, symbolB: string)
      ensures Valid()
      ensures this.symbolA == Lower(symbolA) && this.symbolB == Lower(symbolB)
      ensures prices == map[Lower(symbolA) := None, Lower(symbolB) := None]
      ensures writes == [] && received == []
    {
      this.symbolA := Lower(symbolA);
      this.symbolB := Lower(symbolB);
      LowerIsIdempotent(symbolA);
      LowerIsIdempotent(symbolB);
      prices := map[Lower(symbolA) := None, Lower(symbolB) := None];
      writes := [];
      received := [];
    }

    /** Buffers the message's price and, when both legs are priced, issues a write. */
    method ProcessMessage(m: TradeMessage)
      requires Valid()
      modifies this
      ensures Valid()
      ensures received == old(received) + [m]
      ensures prices == Buffer(old(prices), m)
      ensures writes == old(writes) + WriteFor(prices, symbolA, symbolB, m)
    {
      var symbol := Lower(m.symbol);
      var price := m.price;
      var eventTime := m.eventTimeMs as real / 1000.0;

      BufferAfterOneMore(InitialBuffer(symbolA, symbolB), received, m);
      prices := prices[symbol := Some(price)];
      received := received + [m];

      if Truthy(prices[symbolA]) && Truthy(prices[symbolB]) {
        writes := writes + [PriceWrite(prices[symbolA].value, prices[symbolB].value, eventTime)];
      }
    }

    /** The stream loop's filter: only 'trade' events reach the cache. */
    method OnMessage(msg: Message)
      requires Valid()
      modifies this
      ensures Valid()
      ensures msg.event == Some("trade") ==>
                && received == old(received) + [msg.trade]
                && prices == Buffer(old(prices), msg.trade)
                && writes == old(writes) + WriteFor(prices, symbolA, symbolB, msg.trade)
      ensures msg.event != Some("trade") ==>
                received == old(received) && prices == old(prices) && writes == old(writes)
    {
      if msg.event.Some? && msg.event.value == "trade" {
        ProcessMessage(msg.trade);
      }
    }
  }

  /**
   * On a fresh stream every write carries, for each leg, the latest price
   * received for it: the buffer is never stale.
   */
  lemma WriteCarriesLatestPrices(symbolA: string, symbolB: string, ms: seq<TradeMessage>)
    requires |ms| > 0
    requires var prices := BufferAfter(InitialBuffer(symbolA, symbolB), ms);
             Truthy(prices[Lower(symbolA)]) && Truthy(prices[Lower(symbolB)])
    ensures LatestPrice(ms, Lower(symbolA)).Some? && LatestPrice(ms, Lower(symbolB)).Some?
    ensures var prices := BufferAfter(InitialBuffer(symbolA, symbolB), ms);
            WriteFor(prices, Lower(symbolA), Lower(symbolB), ms[|ms| - 1])
            == [PriceWrite(LatestPrice(ms, Lower(symbolA)).value, LatestPrice(ms, Lower(symbolB)).value,
                           Seconds(ms[|ms| - 1].eventTimeMs))]
  {
    var init := InitialBuffer(symbolA, symbolB);
    BufferHoldsLatestPrice(init, ms, Lower(symbolA));
    BufferHoldsLatestPrice(init, ms, Lower(symbolB));
  }
}
