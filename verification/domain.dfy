/** The crate-level records shared by the core files: stocks and their groups
    (src/lib.rs), candles (src/yf.rs) and performance rows with their ticker
    type (used by src/store.rs, src/util.rs and src/tv/).

    Instants are whole seconds since 1970-01-01T00:00:00; dates are day
    numbers counted from the same origin; prices are `real`. */
module Domain {

  /** A sector or an industry: its display name and its link. */
  datatype Group = Group(name: string, url: string)

  /** A listed stock with its classification; `lastUpdate` is a day number. */
  datatype Stock = Stock(ticker: string, exchange: string, sector: Group, industry: Group, lastUpdate: int)

  /** An exchange-qualified symbol. */
  datatype Ticker = Ticker(exchange: string, ticker: string)

  /** One daily bar; `timestamp` is the bar's start (UTC), `lastUpdated` the
      moment it was cached. */
  datatype Candle = Candle(timestamp: int, open: real, high: real, low: real, close: real,
                           volume: nat, lastUpdated: int)

  datatype TickerType = Sector | Industry | Stock

  /** Trailing returns of one sector, industry or stock, in percent. */
  datatype Performance = Performance(ticker: string, tickerType: TickerType,
                                     perf1m: real, perf3m: real, perf6m: real, perf1y: real,
                                     extraInfo: map<string, real>, lastUpdated: int)

  const SecondsPerDay: int := 86400
}
