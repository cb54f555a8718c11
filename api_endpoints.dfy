/** backend-python-fastapi/api_endpoints.py: the GET /api/returns handler, a fixed pipeline
    of stages (parse, validate range, fetch, validate prices, calculate) in which the first
    failing stage decides the HTTP status. */
module ApiEndpoints {
  import opened Common
  import opened Dicts
  import opened MarketData
  import opened DataFetcher
  import opened DataProcessor

  /** What `datetime.strptime(param, '%Y-%m-%d')` gives: a day, or the error's text. */
  datatype DateParam = Parsed(day: Day) | Unparseable(reason: string)

  /** A 200 response carrying `data`, or an HTTPException with its status and detail. */
  datatype HttpResponse = Ok(data: ReturnsData) | HttpError(status: int, detail: string)

  const INVALID_FORMAT: string := "Invalid date format. Use YYYY-MM-DD format. Error: "
  const INVALID_PRICES: string := "Invalid price data: "

  /** Fetched prices that pass validation are what calculate_daily_returns needs. */
  lemma ValidatedPricesPositive(symbols: seq<string>, outcomes: seq<HistoryOutcome>)
    requires |outcomes| == |symbols|
    requires ValidatePriceData(FetchTable(symbols, outcomes)).Success?
    ensures PositivePrices(FetchTable(symbols, outcomes))
  {
    var t := FetchTable(symbols, outcomes);
    FetchTableClean(symbols, outcomes);
    forall i | 0 <= i < |t| ensures PositiveSeries(t[i].1) {
      assert CleanSeries(t[i].1) && Acceptable(t[i].1);
    }
  }

  /** The response the handler produces, stage by stage. */
  function Endpoint(start: DateParam, end: DateParam, today: Day, outcomes: seq<HistoryOutcome>): HttpResponse
    requires |outcomes| == |MAG7_SYMBOLS|
  {
    if start.Unparseable? then HttpError(400, INVALID_FORMAT + start.reason)
    else if end.Unparseable? then HttpError(400, INVALID_FORMAT + end.reason)
    else match ValidateDateRange(start.day, end.day, today)
      case Fail(m) => HttpError(400, m)
      case Pass =>
        var prices := FetchTable(MAG7_SYMBOLS, outcomes);
        if prices == [] then HttpError(500, FETCH_FAILED + FETCH_FAILED + NO_DATA)
        else match ValidatePriceData(prices)
          case Failure(m) => HttpError(500, INVALID_PRICES + m)
          case Success(_) =>
            ValidatedPricesPositive(MAG7_SYMBOLS, outcomes);
            Ok(ReturnsTable(prices))
  }

  /** get_returns: each stage's ValueError becomes an HTTPException, which propagates
      unchanged; on success the returns are copied into the response entry by entry. */
  method GetReturns(start: DateParam, end: DateParam, today: Day, outcomes: seq<HistoryOutcome>) returns (response: HttpResponse)
    requires |outcomes| == |MAG7_SYMBOLS|
    ensures response == Endpoint(start, end, today, outcomes)
  {
    // Parse and validate dates
    if start.Unparseable? {
      return HttpError(400, INVALID_FORMAT + start.reason);
    }
    if end.Unparseable? {
      return HttpError(400, INVALID_FORMAT + end.reason);
    }
    var startDate, endDate := start.day, end.day;

    // Validate date range
    var range := ValidateDateRange(startDate, endDate, today);
    if range.Fail? {
      return HttpError(400, range.error);
    }

    // Fetch price data
    var fetched := FetchDailyPrices(MAG7_SYMBOLS, outcomes);
    if fetched.Failure? {
      return HttpError(500, FETCH_FAILED + fetched.error);
    }
    var priceData := fetched.value;

    // Validate price data
    var validation := ValidatePriceData(priceData);
    if validation.Failure? {
      return HttpError(500, INVALID_PRICES + validation.error);
    }

    // Calculate returns
    ValidatedPricesPositive(MAG7_SYMBOLS, outcomes);
    var returnsData := CalculateDailyReturns(priceData);

    // Convert to response format
    ReturnsTableKeys(priceData);
    var responseData := CopyEntries(returnsData);
    return Ok(responseData);
  }

  /** `for symbol, returns in returns_data.items(): response_data[symbol] = returns` copies
      a dict with distinct keys entry for entry. */
  method CopyEntries(returnsData: ReturnsData) returns (responseData: ReturnsData)
    requires DistinctKeys(returnsData)
    ensures responseData == returnsData
  {
    responseData := [];
    for i := 0 to |returnsData|
      invariant responseData == returnsData[..i]
    {
      assert returnsData[i].0 !in Keys(returnsData[..i]);
      InsertNewKey(responseData, returnsData[i].0, returnsData[i].1);
      assert returnsData[..i + 1] == returnsData[..i] + [returnsData[i]];
      responseData := Insert(responseData, returnsData[i].0, returnsData[i].1);
    }
    assert returnsData[..|returnsData|] == returnsData;
  }

  /** The 400 responses are exactly the unparseable dates and the ranges validation rejects. */
  lemma BadRequestIff(start: DateParam, end: DateParam, today: Day, outcomes: seq<HistoryOutcome>)
    requires |outcomes| == |MAG7_SYMBOLS|
    ensures var r := Endpoint(start, end, today, outcomes);
      r.HttpError? && r.status == 400 <==>
        start.Unparseable? || end.Unparseable? || ValidateDateRange(start.day, end.day, today).Fail?
  {
  }

  /** Every error is a 400 or a 500; a 400 for a range carries the validator's message. */
  lemma ErrorStatuses(start: DateParam, end: DateParam, today: Day, outcomes: seq<HistoryOutcome>)
    requires |outcomes| == |MAG7_SYMBOLS|
    ensures var r := Endpoint(start, end, today, outcomes);
      r.HttpError? ==> r.status == 400 || r.status == 500
    ensures var r := Endpoint(start, end, today, outcomes);
      start.Parsed? && end.Parsed? && ValidateDateRange(start.day, end.day, today).Fail? ==>
        r == HttpError(400, ValidateDateRange(start.day, end.day, today).error)
  {
  }

  /** An unparseable date is a 400 (the test script's "invalid-date"), and so is a start in
      the future (its start thirty days ahead), whatever the fetch would have returned. */
  lemma TestScriptCases(today: Day, reason: string, endDate: DateParam, outcomes: seq<HistoryOutcome>)
    requires |outcomes| == |MAG7_SYMBOLS|
    ensures Endpoint(Unparseable(reason), endDate, today, outcomes) == HttpError(400, INVALID_FORMAT + reason)
    ensures Endpoint(Parsed(today + 30), Parsed(today + 35), today, outcomes).HttpError?
    ensures Endpoint(Parsed(today + 30), Parsed(today + 35), today, outcomes).status == 400
  {
  }

  /** When no symbol yields data the detail carries the fetch prefix twice: once from
      fetch_daily_prices' own handler, once from the endpoint's. */
  lemma FetchFailureDetail(start: Day, end: Day, today: Day, outcomes: seq<HistoryOutcome>)
    requires |outcomes| == |MAG7_SYMBOLS|
    requires ValidateDateRange(start, end, today) == Pass
    requires forall i :: 0 <= i < |outcomes| ==> Kept(outcomes[i]).None?
    ensures Endpoint(Parsed(start), Parsed(end), today, outcomes) ==
      HttpError(500, "Failed to fetch stock data: " + "Failed to fetch stock data: " + "No data could be fetched for any symbols")
  {
    FetchFailsIff(MAG7_SYMBOLS, outcomes);
  }

  /** The stored series all pass validation exactly when every series a call left is positive. */
  lemma FetchedAllPositive(outcomes: seq<HistoryOutcome>)
    requires |outcomes| == |MAG7_SYMBOLS|
    ensures var t := FetchTable(MAG7_SYMBOLS, outcomes);
      (forall j :: 0 <= j < |t| ==> Acceptable(t[j].1)) <==>
      (forall i :: 0 <= i < |outcomes| && Kept(outcomes[i]).Some? ==> PositiveSeries(Kept(outcomes[i]).value))
  {
    var t := FetchTable(MAG7_SYMBOLS, outcomes);
    Mag7Distinct();
    FetchTableClean(MAG7_SYMBOLS, outcomes);
    if forall j :: 0 <= j < |t| ==> Acceptable(t[j].1) {
      forall i | 0 <= i < |outcomes| && Kept(outcomes[i]).Some? ensures PositiveSeries(Kept(outcomes[i]).value) {
        FetchTableValue(MAG7_SYMBOLS, outcomes, i);
        var j :| 0 <= j < |t| && t[j] == (MAG7_SYMBOLS[i], Kept(outcomes[i]).value);
        assert CleanSeries(t[j].1) && Acceptable(t[j].1);
      }
    }
    if forall i :: 0 <= i < |outcomes| && Kept(outcomes[i]).Some? ==> PositiveSeries(Kept(outcomes[i]).value) {
      forall j | 0 <= j < |t| ensures Acceptable(t[j].1) {
        FetchTableKeys(MAG7_SYMBOLS, outcomes, t[j].0);
        assert Keys(t)[j] == t[j].0;
        var i :| 0 <= i < |MAG7_SYMBOLS| && MAG7_SYMBOLS[i] == t[j].0 && Kept(outcomes[i]).Some?;
        FetchTableValue(MAG7_SYMBOLS, outcomes, i);
        GetDistinct(t, j);
      }
    }
  }

  /** A response is a 200 exactly when the dates parse, the range is valid, some symbol
      yields closes, and all of those closes are positive. */
  lemma SuccessIff(start: DateParam, end: DateParam, today: Day, outcomes: seq<HistoryOutcome>)
    requires |outcomes| == |MAG7_SYMBOLS|
    ensures Endpoint(start, end, today, outcomes).Ok? <==>
      && start.Parsed? && end.Parsed? && ValidateDateRange(start.day, end.day, today).Pass?
      && (exists i :: 0 <= i < |outcomes| && Kept(outcomes[i]).Some?)
      && (forall i :: 0 <= i < |outcomes| && Kept(outcomes[i]).Some? ==> PositiveSeries(Kept(outcomes[i]).value))
  {
    FetchFailsIff(MAG7_SYMBOLS, outcomes);
    FetchedAllPositive(outcomes);
  }

  /** On success each symbol's entry is present exactly when its call left two or more
      closes, and then holds their n - 1 daily returns; keys follow the configured order. */
  lemma SuccessData(start: DateParam, end: DateParam, today: Day, outcomes: seq<HistoryOutcome>, i: nat)
    requires |outcomes| == |MAG7_SYMBOLS| && i < |MAG7_SYMBOLS|
    requires Endpoint(start, end, today, outcomes).Ok?
    ensures IsSubsequence(Keys(Endpoint(start, end, today, outcomes).data), MAG7_SYMBOLS)
    ensures DistinctKeys(Endpoint(start, end, today, outcomes).data)
    ensures MAG7_SYMBOLS[i] in Keys(Endpoint(start, end, today, outcomes).data) <==>
      Kept(outcomes[i]).Some? && |Kept(outcomes[i]).value| >= 2
    ensures Kept(outcomes[i]).Some? ==> PositiveSeries(Kept(outcomes[i]).value)
    ensures Kept(outcomes[i]).Some? && |Kept(outcomes[i]).value| >= 2 ==>
      Get(Endpoint(start, end, today, outcomes).data, MAG7_SYMBOLS[i]) == Some(DailyReturns(Kept(outcomes[i]).value))
  {
    var t := FetchTable(MAG7_SYMBOLS, outcomes);
    SuccessIff(start, end, today, outcomes);
    ValidatedPricesPositive(MAG7_SYMBOLS, outcomes);
    var data := ReturnsTable(t);
    assert Endpoint(start, end, today, outcomes).data == data;
    FetchTableKeys(MAG7_SYMBOLS, outcomes, MAG7_SYMBOLS[i]);
    ReturnsTableKeys(t);
    SubsequenceTrans(Keys(data), Keys(t), MAG7_SYMBOLS);
    Mag7Distinct();
    FetchTableValue(MAG7_SYMBOLS, outcomes, i);
    if Kept(outcomes[i]).Some? {
      var j :| 0 <= j < |t| && t[j] == (MAG7_SYMBOLS[i], Kept(outcomes[i]).value);
      ReturnsTableEntry(t, j);
    } else if MAG7_SYMBOLS[i] in Keys(data) {
      SubsequenceMember(Keys(data), Keys(t), MAG7_SYMBOLS[i]);
    }
  }
}
