/** The front end's data shapes (lib/types.ts). Dates are day numbers; JSON objects are
    insertion-ordered (key, value) sequences. */
module StockTypes {
  import opened Common

  /** One trading day's fractional return (the JSON field `return`). */
  datatype StockDataPoint = StockDataPoint(date: string, ret: real)

  /** `{ [ticker]: StockDataPoint[] }`, in the order Object.entries reports the keys. */
  type StockData = seq<(string, seq<StockDataPoint>)>

  /** The parsed response body. Nothing checks its shape: `data` is None when the body has no
      `data` member. */
  datatype ApiResponse = ApiResponse(data: Option<StockData>)

  /** A picked date range; a missing endpoint is None (JavaScript `undefined`). */
  datatype DateRange = DateRange(start: Option<int>, end: Option<int>)

  datatype StockSummary = StockSummary(ticker: string, min: real, max: real, mean: real, data: seq<StockDataPoint>)

  const MAG7_TICKERS: seq<string> := ["MSFT", "AAPL", "GOOGL", "AMZN", "NVDA", "META", "TSLA"]
}
