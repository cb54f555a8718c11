/** backend-python-fastapi/data_fetcher.py: the date-range guards, and the per-symbol loop of
    fetch_daily_prices with each yfinance call reduced to its outcome. */
module DataFetcher {
  import opened Common
  import opened Dicts
  import opened MarketData

  /** config.MAG7_SYMBOLS and config.MAX_DATE_RANGE_DAYS at their defaults. */
  const MAG7_SYMBOLS: seq<string> := ["MSFT", "AAPL", "GOOGL", "AMZN", "NVDA", "META", "TSLA"]
  const MAX_DATE_RANGE_DAYS: nat := 3650

  lemma Mag7Distinct()
    ensures forall a, b :: 0 <= a < b < |MAG7_SYMBOLS| ==> MAG7_SYMBOLS[a] != MAG7_SYMBOLS[b]
  {
    forall a, b | 0 <= a < b < |MAG7_SYMBOLS| ensures MAG7_SYMBOLS[a] != MAG7_SYMBOLS[b] {
      assert MAG7_SYMBOLS[a][0] != MAG7_SYMBOLS[b][0] || MAG7_SYMBOLS[a][1] != MAG7_SYMBOLS[b][1];
    }
  }

  // ---------------------------------------------------------------- validate_date_range

  const START_NOT_BEFORE_END: string := "Start date must be before end date"
  const START_IN_FUTURE: string := "Start date cannot be in the future"

  function RangeTooLong(): string {
    "Date range cannot exceed " + NatToString(MAX_DATE_RANGE_DAYS) + " days"
  }

  /** validate_date_range: three guards in order; the first that fails gives the message. */
  function ValidateDateRange(start: Day, end: Day, today: Day): (r: Outcome)
    ensures r == Pass <==> start < end && start <= today && end - start <= MAX_DATE_RANGE_DAYS
    ensures start >= end ==> r == Fail(START_NOT_BEFORE_END)
    ensures start < end && start > today ==> r == Fail(START_IN_FUTURE)
    ensures start < end && start <= today && end - start > MAX_DATE_RANGE_DAYS ==> r == Fail(RangeTooLong())
  {
    if start >= end then Fail(START_NOT_BEFORE_END)
    else if start > today then Fail(START_IN_FUTURE)
    else if end - start > MAX_DATE_RANGE_DAYS then Fail(RangeTooLong())
    else Pass
  }

  lemma RangeTooLongText()
    ensures RangeTooLong() == "Date range cannot exceed 3650 days"
  {
    assert NatToString(3) == "3";
    assert NatToString(36) == "36";
    assert NatToString(365) == "365";
    assert NatToString(3650) == "3650";
  }

  /** An end in the future is accepted as long as the start is not; a range of exactly the
      maximum length is accepted, one day more is not; equal dates are rejected. */
  lemma DateRangeEdges(start: Day, today: Day)
    ensures ValidateDateRange(start, start, today) == Fail(START_NOT_BEFORE_END)
    ensures start <= today && today + 1 - start <= MAX_DATE_RANGE_DAYS ==> ValidateDateRange(start, today + 1, today) == Pass
    ensures start <= today ==> ValidateDateRange(start, start + MAX_DATE_RANGE_DAYS, today) == Pass
    ensures start <= today ==> ValidateDateRange(start, start + MAX_DATE_RANGE_DAYS + 1, today) == Fail(RangeTooLong())
  {
  }

  // ---------------------------------------------------------------- fetch_daily_prices

  /** What `yf.Ticker(symbol).history(...)` did for one symbol: raised, or returned rows
      (their Close column). */
  datatype HistoryOutcome = Raised(message: string) | History(rows: PriceSeries)

  /** `close_data.dropna()` */
  function DropNaN(rows: PriceSeries): (kept: PriceSeries)
    ensures |kept| <= |rows|
    ensures forall j :: 0 <= j < |kept| ==> kept[j].close.Price? && kept[j] in rows
    ensures kept == [] <==> forall j :: 0 <= j < |rows| ==> rows[j].close.NaN?
  {
    if rows == [] then []
    else (if rows[0].close.Price? then [rows[0]] else []) + DropNaN(rows[1..])
  }

  /** A row is kept exactly when it has a close price. */
  lemma {:induction false} DropNaNMembers(rows: PriceSeries, p: PricePoint)
    ensures p in DropNaN(rows) <==> p in rows && p.close.Price?
    decreases |rows|
  {
    if rows != [] {
      DropNaNMembers(rows[1..], p);
      assert rows == [rows[0]] + rows[1..];
    }
  }

  /** The rows kept are in their original order. */
  lemma {:induction false} DropNaNInOrder(rows: PriceSeries)
    ensures IsSubsequence(DropNaN(rows), rows)
    decreases |rows|
  {
    if rows != [] {
      var rest := DropNaN(rows[1..]);
      DropNaNInOrder(rows[1..]);
      if rows[0].close.Price? {
        assert DropNaN(rows) == [rows[0]] + rest;
        assert DropNaN(rows)[1..] == rest;
      } else {
        assert DropNaN(rows) == rest;
        SubsequenceOfTail(rest, rows);
      }
    }
  }

  /** The series the loop stores for one symbol, or None where it logs and continues:
      the call raised, returned no rows, or returned only NaN closes. */
  function Kept(outcome: HistoryOutcome): (r: Option<PriceSeries>)
    ensures r.Some? <==> outcome.History? && exists j :: 0 <= j < |outcome.rows| && outcome.rows[j].close.Price?
    ensures r.Some? ==> |r.value| > 0 && forall j :: 0 <= j < |r.value| ==> r.value[j].close.Price?
    ensures r.Some? ==> r.value == DropNaN(outcome.rows)
  {
    match outcome
    case Raised(_) => None
    case History(rows) =>
      if rows == [] then None
      else
        var closeData := DropNaN(rows);
        if |closeData| > 0 then Some(closeData) else None
  }

  /** The (symbol, kept series) pairs the loop visits. */
  function FetchEntries(symbols: seq<string>, outcomes: seq<HistoryOutcome>): (entries: seq<(string, Option<PriceSeries>)>)
    requires |outcomes| == |symbols|
    ensures |entries| == |symbols|
    ensures forall i :: 0 <= i < |symbols| ==> entries[i] == (symbols[i], Kept(outcomes[i]))
  {
    seq(|symbols|, i requires 0 <= i < |symbols| => (symbols[i], Kept(outcomes[i])))
  }

  /** The `result` dict the loop builds. */
  function FetchTable(symbols: seq<string>, outcomes: seq<HistoryOutcome>): PriceData
    requires |outcomes| == |symbols|
  {
    InsertKept(FetchEntries(symbols, outcomes))
  }

  const NO_DATA: string := "No data could be fetched for any symbols"
  const FETCH_FAILED: string := "Failed to fetch stock data: "

  /** fetch_daily_prices: symbols whose call fails or yields nothing usable are skipped; the
      call fails only when none is left, with the message the outer handler wraps. */
  method FetchDailyPrices(symbols: seq<string>, outcomes: seq<HistoryOutcome>) returns (r: Result<PriceData>)
    requires |outcomes| == |symbols|
    ensures FetchTable(symbols, outcomes) == [] ==> r == Failure(FETCH_FAILED + NO_DATA)
    ensures FetchTable(symbols, outcomes) != [] ==> r == Success(FetchTable(symbols, outcomes))
  {
    ghost var entries := FetchEntries(symbols, outcomes);
    var result: PriceData := [];
    for i := 0 to |symbols|
      invariant result == InsertKept(entries[..i])
    {
      InsertKeptStep(entries, i);
      var symbol := symbols[i];
      match outcomes[i] {
        case Raised(_) =>
          continue;
        case History(data) =>
          if data == [] {
            continue;
          }
          var closeData := DropNaN(data);
          if |closeData| > 0 {
            result := Insert(result, symbol, closeData);
          }
      }
    }
    assert entries[..|symbols|] == entries;
    if result == [] {
      return Failure(FETCH_FAILED + NO_DATA);
    }
    return Success(result);
  }

  /** A symbol is in the result exactly when one of its calls left a series; the keys follow
      the configured order, without repeats. */
  lemma FetchTableKeys(symbols: seq<string>, outcomes: seq<HistoryOutcome>, k: string)
    requires |outcomes| == |symbols|
    ensures k in Keys(FetchTable(symbols, outcomes)) <==>
      exists i :: 0 <= i < |symbols| && symbols[i] == k && Kept(outcomes[i]).Some?
    ensures IsSubsequence(Keys(FetchTable(symbols, outcomes)), symbols)
    ensures DistinctKeys(FetchTable(symbols, outcomes))
  {
    var entries := FetchEntries(symbols, outcomes);
    InsertKeptHasKey(entries, k);
    InsertKeptKeysInOrder(entries);
    InsertKeptDistinct(entries);
    assert Keys(entries) == symbols;
  }

  /** The call fails exactly when no symbol left a series. */
  lemma FetchFailsIff(symbols: seq<string>, outcomes: seq<HistoryOutcome>)
    requires |outcomes| == |symbols|
    ensures FetchTable(symbols, outcomes) == [] <==> forall i :: 0 <= i < |symbols| ==> Kept(outcomes[i]).None?
  {
    var t := FetchTable(symbols, outcomes);
    if t != [] {
      FetchTableKeys(symbols, outcomes, Keys(t)[0]);
    } else {
      forall i | 0 <= i < |symbols| ensures Kept(outcomes[i]).None? {
        FetchTableKeys(symbols, outcomes, symbols[i]);
      }
    }
  }

  /** With distinct configured symbols, each one maps to the NaN-free closes of its call. */
  lemma FetchTableValue(symbols: seq<string>, outcomes: seq<HistoryOutcome>, i: nat)
    requires |outcomes| == |symbols| && i < |symbols|
    requires forall a, b :: 0 <= a < b < |symbols| ==> symbols[a] != symbols[b]
    ensures Get(FetchTable(symbols, outcomes), symbols[i]) == Kept(outcomes[i])
  {
    InsertKeptGet(FetchEntries(symbols, outcomes), i);
  }

  /** Non-empty, and no NaN left. */
  predicate CleanSeries(p: PriceSeries) {
    |p| > 0 && forall j :: 0 <= j < |p| ==> p[j].close.Price?
  }

  /** Every stored series is non-empty and free of NaN. */
  lemma {:induction false} FetchTableClean(symbols: seq<string>, outcomes: seq<HistoryOutcome>)
    requires |outcomes| == |symbols|
    ensures forall i :: 0 <= i < |FetchTable(symbols, outcomes)| ==> CleanSeries(FetchTable(symbols, outcomes)[i].1)
  {
    var entries := FetchEntries(symbols, outcomes);
    KeptEntriesClean(entries);
  }

  lemma {:induction false} KeptEntriesClean(entries: seq<(string, Option<PriceSeries>)>)
    requires forall i :: 0 <= i < |entries| && entries[i].1.Some? ==> CleanSeries(entries[i].1.value)
    ensures forall i :: 0 <= i < |InsertKept(entries)| ==> CleanSeries(InsertKept(entries)[i].1)
    decreases |entries|
  {
    if entries != [] {
      var init, e := entries[..|entries| - 1], entries[|entries| - 1];
      KeptEntriesClean(init);
      if e.1.Some? {
        InsertValuesFrom(InsertKept(init), e.0, e.1.value);
      }
    }
  }

  lemma {:induction false} InsertValuesFrom(d: PriceData, k: string, v: PriceSeries)
    requires forall i :: 0 <= i < |d| ==> CleanSeries(d[i].1)
    requires CleanSeries(v)
    ensures forall i :: 0 <= i < |Insert(d, k, v)| ==> CleanSeries(Insert(d, k, v)[i].1)
  {
    if d != [] && d[0].0 != k {
      InsertValuesFrom(d[1..], k, v);
    }
  }
}
