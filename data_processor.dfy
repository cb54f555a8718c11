/** backend-python-fastapi/data_processor.py: validating fetched close prices and turning
    them into day-over-day returns. */
module DataProcessor {
  import opened Common
  import opened Dicts
  import opened MarketData
  import Rounding

  // ---------------------------------------------------------------- validate_price_data

  predicate HasMissing(prices: PriceSeries) {
    exists j :: 0 <= j < |prices| && prices[j].close.NaN?
  }

  /** `(prices <= 0).any()`: NaN compares false, so only present prices count. */
  predicate HasNonPositive(prices: PriceSeries) {
    exists j :: 0 <= j < |prices| && prices[j].close.Price? && prices[j].close.value <= 0.0
  }

  /** What the two raising checks on one symbol say, in the order they run. */
  function SymbolError(symbol: string, prices: PriceSeries): (r: Option<string>)
    ensures r.None? <==> Acceptable(prices)
  {
    if |prices| == 0 then Some("No price data available for " + symbol)
    else if HasNonPositive(prices) then Some("Invalid price values (non-positive) found in " + symbol + " data")
    else None
  }

  /** A series passes validation: non-empty, and every price present in it is positive.
      Missing values do not enter. */
  predicate Acceptable(prices: PriceSeries) {
    |prices| > 0 && forall j :: 0 <= j < |prices| && prices[j].close.Price? ==> prices[j].close.value > 0.0
  }

  /** The per-symbol loop. On success the value is the symbols a missing-values warning was
      logged for; on failure the message of the first symbol that raised. */
  function CheckSymbols(d: PriceData): (r: Result<seq<string>>)
    ensures r.Success? <==> forall i :: 0 <= i < |d| ==> Acceptable(d[i].1)
    ensures r.Success? ==> forall s :: s in r.value <==> exists i :: 0 <= i < |d| && d[i].0 == s && HasMissing(d[i].1)
    ensures r.Failure? ==> exists i :: 0 <= i < |d| && SymbolError(d[i].0, d[i].1) == Some(r.error)
                                         && forall j :: 0 <= j < i ==> Acceptable(d[j].1)
  {
    if d == [] then Success([])
    else
      match SymbolError(d[0].0, d[0].1)
      case Some(m) => Failure(m)
      case None =>
        var rest := CheckSymbols(d[1..]);
        assert forall i :: 0 <= i < |d| - 1 ==> d[1..][i] == d[i + 1];
        match rest
        case Failure(m) => Failure(m)
        case Success(w) => Success((if HasMissing(d[0].1) then [d[0].0] else []) + w)
  }

  /** validate_price_data: an empty dict is rejected, then each symbol in turn. */
  function ValidatePriceData(d: PriceData): (r: Result<seq<string>>)
    ensures d == [] ==> r == Failure("No price data provided")
    ensures r.Success? <==> d != [] && forall i :: 0 <= i < |d| ==> Acceptable(d[i].1)
    ensures r.Failure? && d != [] ==>
      exists i :: 0 <= i < |d| && SymbolError(d[i].0, d[i].1) == Some(r.error)
                    && forall j :: 0 <= j < i ==> Acceptable(d[j].1)
  {
    if d == [] then Failure("No price data provided") else CheckSymbols(d)
  }

  /** A symbol whose series is empty, or holds a non-positive price, is rejected with a
      message naming it, once every symbol before it passed. */
  lemma RejectsFirstBadSymbol(d: PriceData, i: nat)
    requires i < |d| && !Acceptable(d[i].1)
    requires forall j :: 0 <= j < i ==> Acceptable(d[j].1)
    ensures ValidatePriceData(d) == Failure(
      if |d[i].1| == 0 then "No price data available for " + d[i].0
      else "Invalid price values (non-positive) found in " + d[i].0 + " data")
  {
    var r := ValidatePriceData(d);
    var k :| 0 <= k < |d| && SymbolError(d[k].0, d[k].1) == Some(r.error) && forall j :: 0 <= j < k ==> Acceptable(d[j].1);
    assert k == i;
  }

  /** Marking prices missing never turns an accepted dict into a rejected one: missing values
      only produce a warning. */
  lemma MissingValuesOnlyWarn(d: PriceData, i: nat, j: nat)
    requires i < |d| && j < |d[i].1|
    requires ValidatePriceData(d).Success?
    ensures var p := d[i].1[j := PricePoint(d[i].1[j].date, NaN)];
      var r := ValidatePriceData(d[i := (d[i].0, p)]);
      r.Success? && d[i].0 in r.value
  {
    var p := d[i].1[j := PricePoint(d[i].1[j].date, NaN)];
    var d' := d[i := (d[i].0, p)];
    assert HasMissing(p) by {
      assert p[j].close.NaN?;
    }
    assert forall k :: 0 <= k < |d'| ==> Acceptable(d'[k].1);
    assert d'[i].0 == d[i].0;
  }

  // ---------------------------------------------------------------- calculate_daily_returns

  /** `round(float(return_val), 6)`: within half of the sixth decimal place of x. */
  function Round6(x: real): (r: real)
    ensures -0.0000005 <= r - x <= 0.0000005
  {
    assert Rounding.Pow10(6) == 1000000;
    Rounding.RoundHalfEven(x, 6)
  }

  /** `pct_change` at position i + 1: the change from price i to price i + 1, as a fraction
      of price i. */
  function RawReturn(prices: PriceSeries, i: nat): real
    requires PositiveSeries(prices) && i + 1 < |prices|
  {
    prices[i + 1].close.value / prices[i].close.value - 1.0
  }

  /** `prices.pct_change().dropna()` turned into return points: point i carries the date of
      price i + 1 and the rounded change from price i to price i + 1. */
  function DailyReturns(prices: PriceSeries): (r: seq<ReturnPoint>)
    requires PositiveSeries(prices) && |prices| >= 1
    ensures |r| == |prices| - 1
    ensures forall i :: 0 <= i < |r| ==>
      && r[i].date == prices[i + 1].date
      && -0.0000005 <= r[i].ret - RawReturn(prices, i) <= 0.0000005
  {
    seq(|prices| - 1, i requires 0 <= i < |prices| - 1 =>
      ReturnPoint(prices[i + 1].date, Round6(RawReturn(prices, i))))
  }

  /** Point i is dated like price i + 1; its return is not negative when the price did not
      fall, not positive when it did not rise, and never below -1. */
  lemma DailyReturnBounds(prices: PriceSeries, i: nat)
    requires PositiveSeries(prices) && i + 1 < |prices|
    ensures DailyReturns(prices)[i].date == prices[i + 1].date
    ensures prices[i + 1].close.value >= prices[i].close.value ==> DailyReturns(prices)[i].ret >= 0.0
    ensures prices[i + 1].close.value <= prices[i].close.value ==> DailyReturns(prices)[i].ret <= 0.0
    ensures DailyReturns(prices)[i].ret >= -1.0
  {
    var a, b := prices[i].close.value, prices[i + 1].close.value;
    var x := b / a - 1.0;
    RatioChange(a, b);
    Rounding.RoundHalfEvenInteger(0, 6);
    Rounding.RoundHalfEvenInteger(-1, 6);
    Rounding.RoundHalfEvenMonotone(-1.0, x, 6);
    if b >= a {
      Rounding.RoundHalfEvenMonotone(0.0, x, 6);
    }
    if b <= a {
      Rounding.RoundHalfEvenMonotone(x, 0.0, 6);
    }
  }

  /** The change from price a to price b, as a fraction of a. */
  lemma RatioChange(a: real, b: real)
    requires a > 0.0 && b > 0.0
    ensures b / a - 1.0 > -1.0
    ensures b >= a ==> b / a - 1.0 >= 0.0
    ensures b <= a ==> b / a - 1.0 <= 0.0
  {
    var q := b / a;
    assert q * a == b;
    ScaleAgainstOne(q, a);
  }

  /** Scaling a positive number by a factor below (above) one makes it smaller (larger). */
  lemma ScaleAgainstOne(q: real, a: real)
    requires a > 0.0
    ensures q <= 0.0 ==> q * a <= 0.0
    ensures q < 1.0 ==> q * a < a
    ensures q > 1.0 ==> q * a > a
  {
    if q < 1.0 {
      assert (1.0 - q) * a > 0.0;
    }
    if q > 1.0 {
      assert (q - 1.0) * a > 0.0;
    }
  }

  /** The entries the symbol loop writes: a series shorter than 2 is skipped. */
  function ReturnEntries(d: PriceData): (entries: seq<(string, Option<seq<ReturnPoint>>)>)
    requires PositivePrices(d)
    ensures |entries| == |d|
    ensures forall i :: 0 <= i < |d| ==> entries[i].0 == d[i].0
  {
    seq(|d|, i requires 0 <= i < |d| => (d[i].0, if |d[i].1| < 2 then None else Some(DailyReturns(d[i].1))))
  }

  /** The dict calculate_daily_returns returns. */
  function ReturnsTable(d: PriceData): ReturnsData
    requires PositivePrices(d)
  {
    InsertKept(ReturnEntries(d))
  }

  /** calculate_daily_returns over positive, present prices (what the endpoint passes after
      validate_price_data). */
  method CalculateDailyReturns(priceData: PriceData) returns (result: ReturnsData)
    requires PositivePrices(priceData)
    ensures result == ReturnsTable(priceData)
  {
    ghost var entries := ReturnEntries(priceData);
    result := [];
    for i := 0 to |priceData|
      invariant result == InsertKept(entries[..i])
    {
      InsertKeptStep(entries, i);
      var (symbol, prices) := priceData[i];
      if |prices| < 2 {
        continue;
      }
      var returnData := SeriesReturns(prices);
      result := Insert(result, symbol, returnData);
    }
    assert entries[..|priceData|] == entries;
  }

  /** The inner loop: one return point per price after the first. */
  method SeriesReturns(prices: PriceSeries) returns (returnData: seq<ReturnPoint>)
    requires PositiveSeries(prices) && |prices| >= 2
    ensures returnData == DailyReturns(prices)
  {
    returnData := [];
    for j := 1 to |prices|
      invariant |returnData| == j - 1
      invariant forall t :: 0 <= t < j - 1 ==> returnData[t] == DailyReturns(prices)[t]
    {
      var returnVal := prices[j].close.value / prices[j - 1].close.value - 1.0;
      returnData := returnData + [ReturnPoint(prices[j].date, Round6(returnVal))];
    }
  }

  /** Result keys are input keys, in input order, with no repeats. */
  lemma ReturnsTableKeys(d: PriceData)
    requires PositivePrices(d)
    ensures IsSubsequence(Keys(ReturnsTable(d)), Keys(d))
    ensures DistinctKeys(ReturnsTable(d))
  {
    var entries := ReturnEntries(d);
    InsertKeptKeysInOrder(entries);
    InsertKeptDistinct(entries);
    assert Keys(entries) == Keys(d);
  }

  /** Each symbol of a dict is kept exactly when it has two or more prices, and then maps to
      its n - 1 returns. */
  lemma ReturnsTableEntry(d: PriceData, i: nat)
    requires PositivePrices(d) && DistinctKeys(d)
    requires i < |d|
    ensures |d[i].1| < 2 ==> d[i].0 !in Keys(ReturnsTable(d))
    ensures |d[i].1| >= 2 ==> Get(ReturnsTable(d), d[i].0) == Some(DailyReturns(d[i].1))
    ensures |d[i].1| >= 2 ==> |DailyReturns(d[i].1)| == |d[i].1| - 1
  {
    var entries := ReturnEntries(d);
    assert DistinctKeys(entries) by {
      forall a, b | 0 <= a < b < |entries| ensures entries[a].0 != entries[b].0 {
        assert entries[a].0 == d[a].0 && entries[b].0 == d[b].0;
      }
    }
    InsertKeptGet(entries, i);
  }

  /** A dict of short series yields an empty result, without an error. */
  lemma ShortSeriesGiveEmptyResult(d: PriceData)
    requires PositivePrices(d)
    requires forall i :: 0 <= i < |d| ==> |d[i].1| < 2
    ensures ReturnsTable(d) == []
  {
    var entries := ReturnEntries(d);
    var r := ReturnsTable(d);
    if r != [] {
      InsertKeptHasKey(entries, Keys(r)[0]);
    }
  }
}
