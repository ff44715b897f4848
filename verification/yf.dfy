/** The Yahoo Finance client (src/yf.rs): the crumb check, the exchange
    classifier and the conversion of the quote summary into a `Stock`. The
    HTTP requests are not modelled; their answers are parameters. */
module Yf {
  import opened Wrappers
  import opened Domain
  import opened Text

  /** What the quote summary says about one symbol. */
  datatype TickerInfo = TickerInfo(symbol: string, exchange: Option<string>, exchangeCode: Option<string>,
                                   sector: Option<string>, industry: Option<string>)

  const CrumbError: string := "Failed to obtain Yahoo Finance crumb"

  /** The check on the crumb's response body: an empty body, or one that
      mentions "Unauthorized", is refused. */
  function CheckCrumb(crumb: string): (r: Result<string, string>)
    ensures r.Success? <==> crumb != [] && !exists i :: OccursAt(crumb, "Unauthorized", i)
    ensures r.Success? ==> r.value == crumb
    ensures r.Failure? ==> r.error == CrumbError
  {
    if crumb == [] || Contains(crumb, "Unauthorized") then Failure(CrumbError) else Success(crumb)
  }

  /** `exchange_map`: the exact names first, then the prefixes; any other
      name is the `panic!`, here a failure naming the exchange. */
  function ExchangeMap(exchange: string): (r: Result<string, string>)
    ensures r.Success? ==> r.value in ["NYSE", "ARCA", "NASDAQ", "OTC"]
    ensures r.Failure? ==> r.error == "Unknown exchange: '" + exchange + "'"
  {
    if exchange == "NYSE" then Success("NYSE")
    else if exchange == "NYSE American" then Success("ARCA")
    else if StartsWith(exchange, "Nasdaq") then Success("NASDAQ")
    else if StartsWith(exchange, "OTC") then Success("OTC")
    else Failure("Unknown exchange: '" + exchange + "'")
  }

  /** Each code has exactly the names that produce it, and every other name
      is refused. */
  lemma ExchangeMapClasses(exchange: string)
    ensures ExchangeMap(exchange) == Success("NYSE") <==> exchange == "NYSE"
    ensures ExchangeMap(exchange) == Success("ARCA") <==> exchange == "NYSE American"
    ensures ExchangeMap(exchange) == Success("NASDAQ") <==> StartsWith(exchange, "Nasdaq")
    ensures ExchangeMap(exchange) == Success("OTC") <==> StartsWith(exchange, "OTC")
    ensures ExchangeMap(exchange).Failure? <==> (exchange != "NYSE" && exchange != "NYSE American"
                                                 && !StartsWith(exchange, "Nasdaq") && !StartsWith(exchange, "OTC"))
  {
    if StartsWith(exchange, "Nasdaq") {
      assert exchange[0] == 'N' && exchange[1] == 'a';
      assert !StartsWith(exchange, "OTC");
    }
    if exchange == "NYSE" || exchange == "NYSE American" {
      assert exchange[1] == 'Y';
      assert !StartsWith(exchange, "Nasdaq") && !StartsWith(exchange, "OTC");
    }
  }

  /** `fetch` after the quote summary arrived: exchange, sector and industry
      are required, in that order, and the error names the first one
      missing or unknown; the groups get the placeholder link "#"
      and the stock is dated `today`. */
  function StockOfInfo(ticker: string, info: Result<TickerInfo, string>, today: int): (r: Result<Stock, string>)
    ensures r.Success? <==> (&& info.Success? && info.value.exchange.Some?
                             && ExchangeMap(info.value.exchange.value).Success?
                             && info.value.sector.Some? && info.value.industry.Some?)
    ensures r.Success? ==> (&& r.value.ticker == ticker
                            && r.value.exchange == ExchangeMap(info.value.exchange.value).value
                            && r.value.sector == Group(info.value.sector.value, "#")
                            && r.value.industry == Group(info.value.industry.value, "#")
                            && r.value.lastUpdate == today)
    ensures info.Failure? ==> r == Failure(info.error)
    ensures info.Success? && info.value.exchange.None? ==> r == Failure("Failed to get exchange " + ticker)
    ensures (info.Success? && info.value.exchange.Some? && ExchangeMap(info.value.exchange.value).Failure?) ==>
      r == Failure("Unknown exchange: '" + info.value.exchange.value + "'")
    ensures (info.Success? && info.value.exchange.Some? && ExchangeMap(info.value.exchange.value).Success?
             && info.value.sector.None?) ==> r == Failure("Failed to get sector " + ticker)
    ensures (info.Success? && info.value.exchange.Some? && ExchangeMap(info.value.exchange.value).Success?
             && info.value.sector.Some? && info.value.industry.None?) ==> r == Failure("Failed to get industry " + ticker)
  {
    match info
    case Failure(e) => Failure(e)
    case Success(ti) =>
      match ti.exchange
      case None => Failure("Failed to get exchange " + ticker)
      case Some(name) =>
        match ExchangeMap(name)
        case Failure(e) => Failure(e)
        case Success(exchange) =>
          match ti.sector
          case None => Failure("Failed to get sector " + ticker)
          case Some(sector) =>
            match ti.industry
            case None => Failure("Failed to get industry " + ticker)
            case Some(industry) => Success(Stock.Stock(ticker, exchange, Group(sector, "#"), Group(industry, "#"), today))
  }
}
