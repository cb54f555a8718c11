/** components/StockDashboard.tsx: the date-range and symbols state with its handlers, the
    conditions that choose which panel renders, and the two summary aggregates. */
module Dashboard {
  import opened Common
  import opened StockTypes
  import opened StockDataHook

  // ---------------------------------------------------------------- aggregates

  /** `summaries.reduce((total, summary) => total + summary.data.length, 0)` */
  function TotalDataPoints(summaries: seq<StockSummary>): (n: nat)
    ensures n == 0 <==> forall i :: 0 <= i < |summaries| ==> summaries[i].data == []
  {
    if summaries == [] then 0
    else TotalDataPoints(summaries[..|summaries| - 1]) + |summaries[|summaries| - 1].data|
  }

  lemma {:induction false} TotalDataPointsAppend(a: seq<StockSummary>, b: seq<StockSummary>)
    ensures TotalDataPoints(a + b) == TotalDataPoints(a) + TotalDataPoints(b)
    decreases |b|
  {
    if b == [] {
      assert a + b == a;
    } else {
      var init := b[..|b| - 1];
      assert (a + b)[..|a + b| - 1] == a + init;
      TotalDataPointsAppend(a, init);
    }
  }

  /** The number of return points in a response, ticker by ticker. */
  function ResponsePoints(d: StockData): nat {
    if d == [] then 0 else |d[0].1| + ResponsePoints(d[1..])
  }

  /** The Data Points figure is the number of points the response carried for all tickers. */
  lemma {:induction false} DataPointsOfResponse(d: StockData)
    ensures TotalDataPoints(Summaries(d)) == ResponsePoints(d)
  {
    if d != [] {
      var s := Summaries(d);
      assert s == [s[0]] + Summaries(d[1..]);
      TotalDataPointsAppend([s[0]], Summaries(d[1..]));
      assert [s[0]][..0] == [];
      DataPointsOfResponse(d[1..]);
    }
  }

  /** The index Best Performer's reduce (no initial value) ends on: a summary of maximal
      mean, the earliest one on ties because the comparison is strict. */
  function BestIndex(summaries: seq<StockSummary>): (k: nat)
    requires |summaries| > 0
    ensures k < |summaries|
    ensures forall j :: 0 <= j < |summaries| ==> summaries[j].mean <= summaries[k].mean
    ensures forall j :: 0 <= j < k ==> summaries[j].mean < summaries[k].mean
  {
    if |summaries| == 1 then 0
    else
      var best := BestIndex(summaries[..|summaries| - 1]);
      if summaries[|summaries| - 1].mean > summaries[best].mean then |summaries| - 1 else best
  }

  /** The ticker shown as Best Performer. */
  function BestPerformer(summaries: seq<StockSummary>): (ticker: string)
    requires |summaries| > 0
    ensures exists k :: 0 <= k < |summaries| && ticker == summaries[k].ticker
                        && (forall j :: 0 <= j < |summaries| ==> summaries[j].mean <= summaries[k].mean)
  {
    summaries[BestIndex(summaries)].ticker
  }

  // ---------------------------------------------------------------- panel selection

  /** `error` as a JSX condition: a string is truthy unless it is empty. */
  predicate HasError(error: Option<string>) {
    error.Some? && error.value != ""
  }

  predicate ShowsSpinner(loading: bool) { loading }

  predicate ShowsError(error: Option<string>) { HasError(error) }

  /** `!loading && !error && !data` */
  predicate ShowsEmptyState(loading: bool, error: Option<string>, data: Option<ApiResponse>) {
    !loading && !HasError(error) && data.None?
  }

  /** `!loading && !error && data && summaries.length > 0`, which also guards the reduce
      without an initial value. */
  predicate ShowsSummary(loading: bool, error: Option<string>, data: Option<ApiResponse>, summaries: seq<StockSummary>) {
    !loading && !HasError(error) && data.Some? && |summaries| > 0
  }

  /** The empty state and the summary block never render together, and the summary block
      renders only when Best Performer has something to reduce. */
  lemma PanelsExclusive(loading: bool, error: Option<string>, data: Option<ApiResponse>, summaries: seq<StockSummary>)
    ensures !(ShowsEmptyState(loading, error, data) && ShowsSummary(loading, error, data, summaries))
    ensures ShowsSummary(loading, error, data, summaries) ==> |summaries| > 0
    ensures ShowsSummary(loading, error, data, summaries) || ShowsEmptyState(loading, error, data) ==>
      !ShowsSpinner(loading) && !ShowsError(error)
  {
  }

  /** What renders after a completed fetch: the summary block for a response with tickers,
      nothing for a response without any, the error for a failure with a message, and the
      empty state for a failure whose message is empty. */
  lemma PanelsAfterFetch(outcome: FetchOutcome, data: Option<ApiResponse>, summaries: seq<StockSummary>, error: Option<string>)
    requires Succeeds(outcome) ==>
      data == Some(outcome.response) && summaries == Summaries(outcome.response.data.value) && error == None
    requires !Succeeds(outcome) ==> data == None && summaries == [] && error == Some(FailureMessage(outcome))
    ensures Succeeds(outcome) ==>
      (ShowsSummary(false, error, data, summaries) <==> |outcome.response.data.value| > 0)
    ensures Succeeds(outcome) ==> !ShowsEmptyState(false, error, data) && !ShowsError(error)
    ensures !Succeeds(outcome) ==> !ShowsSummary(false, error, data, summaries)
    ensures !Succeeds(outcome) ==> (ShowsError(error) <==> FailureMessage(outcome) != "")
    ensures !Succeeds(outcome) ==> (ShowsEmptyState(false, error, data) <==> FailureMessage(outcome) == "")
  {
  }

  // ---------------------------------------------------------------- state and handlers

  const DEFAULT_SYMBOLS: string := "MSFT,AAPL,GOOGL,AMZN,NVDA,META,TSLA"

  /** `dateRange.start && dateRange.end` */
  predicate RangeSet(range: DateRange) {
    range.start.Some? && range.end.Some?
  }

  class StockDashboard {
    var dateRange: DateRange
    var symbols: string
    const store: StockDataStore

    ghost predicate Valid()
      reads this, store
    {
      store.Valid()
    }

    /** The initial state: the last 30 days up to `today`, the seven default symbols, a
        fresh hook. */
    constructor (today: int)
      ensures Valid() && fresh(store)
      ensures dateRange == DateRange(Some(today - 30), Some(today)) && symbols == DEFAULT_SYMBOLS
      ensures store.data == None && store.summaries == [] && !store.loading && store.error == None
      ensures store.requests == []
    {
      dateRange := DateRange(Some(today - 30), Some(today));
      symbols := DEFAULT_SYMBOLS;
      store := new StockDataStore();
    }

    /** `if (dateRange.start && dateRange.end) fetchData(range, syms)` */
    method FetchIfRangeSet(range: DateRange, syms: string, outcome: FetchOutcome)
      requires Valid()
      modifies store
      ensures Valid()
      ensures RangeSet(range) ==>
        store.SettledAfter(outcome) && store.requests == old(store.requests) + [Request(range, Some(syms))]
      ensures !RangeSet(range) ==> unchanged(store)
    {
      if range.start.Some? && range.end.Some? {
        store.FetchData(range, Some(syms), outcome);
      }
    }

    /** The effect that runs on mount and whenever `dateRange` or `symbols` changes. */
    method RunEffect(outcome: FetchOutcome)
      requires Valid()
      modifies store
      ensures Valid()
      ensures RangeSet(dateRange) ==>
        store.SettledAfter(outcome) && store.requests == old(store.requests) + [Request(dateRange, Some(symbols))]
      ensures !RangeSet(dateRange) ==> unchanged(store)
    {
      FetchIfRangeSet(dateRange, symbols, outcome);
    }

    /** handleRetry: the same guarded fetch with the current range and symbols. */
    method HandleRetry(outcome: FetchOutcome)
      requires Valid()
      modifies store
      ensures Valid()
      ensures RangeSet(dateRange) ==>
        store.SettledAfter(outcome) && store.requests == old(store.requests) + [Request(dateRange, Some(symbols))]
      ensures !RangeSet(dateRange) ==> unchanged(store)
    {
      FetchIfRangeSet(dateRange, symbols, outcome);
    }

    /** handleDateRangeChange: only replaces the range (the effect then refetches). */
    method HandleDateRangeChange(newRange: DateRange)
      requires Valid()
      modifies this
      ensures Valid()
      ensures dateRange == newRange && symbols == old(symbols)
    {
      dateRange := newRange;
    }

    /** handleRefresh: stores the new symbols and fetches with them, not with the previous
        `symbols` state. */
    method HandleRefresh(newSymbols: string, outcome: FetchOutcome)
      requires Valid()
      modifies this, store
      ensures Valid()
      ensures symbols == newSymbols && dateRange == old(dateRange)
      ensures RangeSet(dateRange) ==>
        store.SettledAfter(outcome) && store.requests == old(store.requests) + [Request(dateRange, Some(newSymbols))]
      ensures !RangeSet(dateRange) ==> unchanged(store)
    {
      symbols := newSymbols;
      FetchIfRangeSet(dateRange, newSymbols, outcome);
    }
  }
}
