/** The back end's data: daily close prices per symbol, as pandas Series reduce to here, and
    the daily returns computed from them. Dates are day numbers. */
module MarketData {
  import opened Dicts

  type Day = int

  /** One close price; NaN stands for a missing value. */
  datatype Close = Price(value: real) | NaN

  datatype PricePoint = PricePoint(date: Day, close: Close)

  type PriceSeries = seq<PricePoint>

  /** `Dict[str, pd.Series]`: symbol to close prices, in insertion order. */
  type PriceData = Dict<PriceSeries>

  /** `{"date": ..., "return": ...}` */
  datatype ReturnPoint = ReturnPoint(date: Day, ret: real)

  /** `Dict[str, List[Dict[str, Any]]]`: symbol to daily returns. */
  type ReturnsData = Dict<seq<ReturnPoint>>

  /** Every price is present and positive. */
  predicate PositiveSeries(prices: PriceSeries) {
    forall j :: 0 <= j < |prices| ==> prices[j].close.Price? && prices[j].close.value > 0.0
  }

  predicate PositivePrices(d: PriceData) {
    forall i :: 0 <= i < |d| ==> PositiveSeries(d[i].1)
  }
}
