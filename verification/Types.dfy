/** The shared domain types (pkg/types/types.go and internal/strategy/strategy.go), with the fields the model reads. */
module Types {

  datatype Option<+T> = None | Some(value: T)

  datatype Side = Buy | Sell

  datatype MarketKind = Spot | Future | OptionContract

  datatype Instrument = Instrument(venue: string, symbol: string, kind: MarketKind)

  datatype Bar = Bar(instrument: Instrument, timestamp: int, open: real, high: real, low: real, close: real,
                     volume: real)

  datatype Signal = Signal(
    strategyID: string,
    instrument: Instrument,
    direction: real,
    confidence: real,
    reason: string,
    generated: int,
    entryReferencePrice: real,
    stopLossPrice: real,
    takeProfitPrice: real,
    flatten: bool
  )

  datatype BookTop = BookTop(bidPrice: real, bidSize: real, askPrice: real, askSize: real)

  datatype OrderType = Market | Limit | PostOnly

  datatype OrderIntent = OrderIntent(
    strategyID: string,
    instrument: Instrument,
    side: Side,
    orderType: OrderType,
    quantity: real,
    limitPrice: real,
    reduceOnly: bool,
    maxSlippageBps: real,
    stopLossPrice: real,
    takeProfitPrice: real
  )

  function Closes(bars: seq<Bar>): (cs: seq<real>)
    ensures |cs| == |bars|
  {
    seq(|bars|, i requires 0 <= i < |bars| => bars[i].close)
  }
}
