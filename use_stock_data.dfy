/** The fetch lifecycle of hooks/useStockData.ts: four state cells (`data`, `summaries`,
    `loading`, `error`) and `fetchData`, which clears the error and raises `loading` before
    the request, then records the response and its per-ticker summaries, or the failure. */
module StockDataHook {
  import opened Common
  import opened StockTypes
  import StockUtils

  /** Anything `fetchData`'s `await` can throw: an `ApiError` (lib/api.ts) with its message,
      or any other value. */
  datatype Thrown = ApiError(message: string) | OtherError

  /** How the awaited `fetchStockReturns` call settles. The call itself is not modelled. */
  datatype FetchOutcome = Resolved(response: ApiResponse) | Rejected(thrown: Thrown)

  /** The arguments of one `fetchData` call. */
  datatype Request = Request(range: DateRange, symbols: Option<string>)

  const FALLBACK_ERROR: string := "Failed to fetch stock data"

  /** One summary per ticker of `Object.entries(response.data)`, in key order, carrying the
      ticker, its unmodified series and calculateSummaryStats of that series. */
  function Summaries(d: StockData): (r: seq<StockSummary>)
    ensures |r| == |d|
    ensures forall i :: 0 <= i < |d| ==>
      var stats := StockUtils.CalculateSummaryStats(d[i].1);
      r[i] == StockSummary(d[i].0, stats.min, stats.max, stats.mean, d[i].1)
  {
    if d == [] then []
    else
      var stats := StockUtils.CalculateSummaryStats(d[0].1);
      [StockSummary(d[0].0, stats.min, stats.max, stats.mean, d[0].1)] + Summaries(d[1..])
  }

  /** The outcome counts as a success when the promise resolved and the summaries could be
      built; a body without `data` makes `Object.entries(undefined)` throw a TypeError. */
  predicate Succeeds(outcome: FetchOutcome) {
    outcome.Resolved? && outcome.response.data.Some?
  }

  /** The catch block's message: an ApiError's own message, the fixed text otherwise. */
  function FailureMessage(outcome: FetchOutcome): (m: string)
    ensures outcome.Rejected? && outcome.thrown.ApiError? ==> m == outcome.thrown.message
    ensures !(outcome.Rejected? && outcome.thrown.ApiError?) ==> m == FALLBACK_ERROR
  {
    if outcome.Rejected? && outcome.thrown.ApiError? then outcome.thrown.message else FALLBACK_ERROR
  }

  class StockDataStore {
    var data: Option<ApiResponse>
    var summaries: seq<StockSummary>
    var loading: bool
    var error: Option<string>
    /** Every fetchData call so far, with its arguments. */
    ghost var requests: seq<Request>

    /** Summaries are always those of the current data (none without data), and an error is
        never shown beside data. */
    ghost predicate Valid()
      reads this
    {
      && (data.None? ==> summaries == [])
      && (data.Some? ==> data.value.data.Some? && summaries == Summaries(data.value.data.value))
      && (error.Some? ==> data.None?)
    }

    /** The state after a completed fetchData call with this outcome. */
    ghost predicate SettledAfter(outcome: FetchOutcome)
      reads this
    {
      && !loading
      && (Succeeds(outcome) ==>
            data == Some(outcome.response) && summaries == Summaries(outcome.response.data.value) && error == None)
      && (!Succeeds(outcome) ==>
            data == None && summaries == [] && error == Some(FailureMessage(outcome)))
    }

    /** The initial hook state: no data, no summaries, not loading, no error. */
    constructor ()
      ensures Valid()
      ensures data == None && summaries == [] && !loading && error == None && requests == []
    {
      data, summaries, loading, error := None, [], false, None;
      requests := [];
    }

    /** Everything fetchData does before it awaits the request. */
    method Begin(range: DateRange, symbols: Option<string>)
      requires Valid()
      modifies this
      ensures Valid()
      ensures loading && error == None
      ensures data == old(data) && summaries == old(summaries)
      ensures requests == old(requests) + [Request(range, symbols)]
    {
      loading := true;
      error := None;
      requests := requests + [Request(range, symbols)];
    }

    /** Everything fetchData does once the request settles: the try, catch and finally blocks.
        Fetches are sequential here: the request settling is the one Begin started. */
    method Settle(outcome: FetchOutcome)
      requires Valid()
      requires loading && error == None
      modifies this
      ensures Valid()
      ensures !loading
      ensures Succeeds(outcome) ==>
        data == Some(outcome.response) && summaries == Summaries(outcome.response.data.value) && error == None
      ensures !Succeeds(outcome) ==>
        data == None && summaries == [] && error == Some(FailureMessage(outcome))
      ensures requests == old(requests)
    {
      var thrown: Option<Thrown> := None;
      match outcome {
        case Rejected(t) =>
          thrown := Some(t);
        case Resolved(response) =>
          data := Some(response);
          match response.data {
            case None =>
              thrown := Some(OtherError);
            case Some(entries) =>
              summaries := Summaries(entries);
          }
      }
      if thrown.Some? {
        error := Some(if thrown.value.ApiError? then thrown.value.message else FALLBACK_ERROR);
        data := None;
        summaries := [];
      }
      loading := false;
    }

    /** fetchData, with the awaited request reduced to its outcome. */
    method FetchData(range: DateRange, symbols: Option<string>, outcome: FetchOutcome)
      requires Valid()
      modifies this
      ensures Valid()
      ensures SettledAfter(outcome)
      ensures requests == old(requests) + [Request(range, symbols)]
    {
      Begin(range, symbols);
      Settle(outcome);
    }
  }

  /** The summaries name exactly the response's tickers, in the response's key order. */
  lemma SummaryTickers(d: StockData)
    ensures forall i :: 0 <= i < |d| ==> Summaries(d)[i].ticker == d[i].0 && Summaries(d)[i].data == d[i].1
  {
  }
}
