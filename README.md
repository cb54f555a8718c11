# MAG7 stock returns dashboard, modelled in Dafny

The application shows daily returns of the seven large US technology stocks (MSFT, AAPL,
GOOGL, AMZN, NVDA, META, TSLA). It has two parts.

The FastAPI back end handles `GET /api/returns?start=…&end=…`. It checks the dates, fetches
daily close prices per symbol, validates them, and turns them into day-over-day returns.

The Next.js front end fetches those returns. It summarises each ticker (min, max, mean),
compounds returns for the charts, and chooses which panel to show. It also lets the user pick
a date range in two calendars.

This project models the logic of both halves and proves what the code promises about it.

| file | module | models |
|---|---|---|
| `common.dfy` | `Common` | `Option`, `Result`, the pass/fail outcome of a raising check, decimal formatting of a count |
| `rounding.dfy` | `Rounding` | JavaScript `Number(x.toFixed(k))` (ties away from zero) and Python `round(x, k)` (ties to even), over exact reals; both proved monotone |
| `dicts.dfy` | `Dicts` | insertion-ordered dicts/objects as key–value sequences; Python `d[k] = v`; keys kept in order |
| `stock_types.dfy` | `StockTypes` | `lib/types.ts` |
| `stock_utils.dfy` | `StockUtils` | `lib/utils.ts`: `calculateSummaryStats`, `calculateCompoundedReturns` (a loop), `cn`, `getStockColor` |
| `use_stock_data.dfy` | `StockDataHook` | `hooks/useStockData.ts`: the four state cells as a class, `fetchData` as begin/settle methods |
| `stock_dashboard.dfy` | `Dashboard` | `components/StockDashboard.tsx`: Data Points, Best Performer, panel conditions, the handlers and their guards |
| `date_range_picker.dfy` | `DatePicker` | `components/DateRangePicker.tsx`: disabled-day predicates, select handlers, popover flags |
| `market_data.dfy` | `MarketData` | the back end's price and return dicts |
| `data_processor.dfy` | `DataProcessor` | `validate_price_data`, `calculate_daily_returns` (two nested loops) |
| `data_fetcher.dfy` | `DataFetcher` | `validate_date_range`, the per-symbol loop of `fetch_daily_prices` |
| `api_endpoints.dfy` | `ApiEndpoints` | `get_returns`: stage order, error-to-status mapping, the response copy loop |

## Abstractions

- **Dates** are integer day numbers, and today's date is a parameter.
- **Prices and returns** are exact `real`s. Rounding is computed on them exactly.
- **Calls to code outside the model** become inputs:
  - each yfinance `history` call is a `HistoryOutcome` (raised, or rows that may hold NaN);
  - each `strptime` is a `DateParam` (a day, or the parse error's text);
  - each awaited `fetchStockReturns` is a `FetchOutcome` (a response, or what it threw).
- **Dicts** are sequences of `(key, value)` pairs. A new key is appended; an existing key keeps its place.

## Quirks of the code, as modelled

- When no symbol yields data, the 500 detail carries the prefix twice: "Failed to fetch stock data: Failed to fetch stock data: No data could be fetched for any symbols". `fetch_daily_prices` wraps its own `ValueError` in its outer `except` (data_fetcher.py:71-79), and the endpoint adds the prefix again (api_endpoints.py:89). `ApiEndpoints.FetchFailureDetail` states this.
- A successful response with no tickers shows no panel at all: not the summary (it needs a summary), not the empty state (data is set), and not the error.
- A failure whose message is empty (an `ApiError` with an empty message) shows the empty state rather than the error, because an empty string is falsy in JSX conditions.
- A response body without `data` makes `Object.entries(undefined)` throw inside `try`. `data` was already set at that point, and the catch block resets it, so the state ends as a failure with the fixed message.
- The start calendar compares against an unset end, and the end calendar against an unset start. These comparisons are false, so an unset endpoint disables nothing.

## Model

| member | source | states |
|---|---|---|
| Rounding.ToFixed | frontend-react-nextjs/lib/utils.ts:15-17 | the value toFixed produces lies within half a unit of the last kept digit of the exact value |
| Rounding.RoundHalfEven | backend-python-fastapi/data_processor.py:42 | Python's round(x, 6) lies within half a unit of the sixth decimal of x |
| Rounding.ToFixedMonotone | frontend-react-nextjs/lib/utils.ts:15-17 | rounding to a fixed number of digits preserves order, so rounded min ≤ rounded mean ≤ rounded max |
| Rounding.RoundHalfEvenMonotone | backend-python-fastapi/data_processor.py:42 | half-even rounding preserves order |
| Rounding.HalfAwayUnits | frontend-react-nextjs/lib/utils.ts:15-17 | the number of 10^-k units toFixed keeps is within half a unit of the exact value, and a tie goes away from zero (up for x ≥ 0, down for x ≤ 0) |
| Rounding.ToFixedExact | frontend-react-nextjs/lib/utils.ts:15-17 | a value with at most k decimals is returned unchanged |
| Rounding.ToFixedExamples | frontend-react-nextjs/lib/utils.ts:15-17 | 0.123456 becomes 0.1235, and the ties 0.00005 and -0.00005 become 0.0001 and -0.0001 |
| Rounding.RoundHalfEvenInteger | backend-python-fastapi/data_processor.py:42 | rounding leaves integers such as 0 and -1 unchanged |
| Dicts.Insert | backend-python-fastapi/data_processor.py:45 | `d[k] = v` on the keys: a new key is appended, an existing one keeps its position |
| Dicts.InsertGet | backend-python-fastapi/data_processor.py:45 | after `d[k] = v`, k maps to v and every other key keeps its value |
| Dicts.InsertNewKey | backend-python-fastapi/api_endpoints.py:105-106 | storing a key the dict does not have appends that one entry |
| Dicts.InsertKeptKeysInOrder | backend-python-fastapi/data_fetcher.py:45-62 | a dict filled by a loop has its keys in the loop's order (a subsequence of the iterated keys) |
| Dicts.InsertKeptHasKey | backend-python-fastapi/data_fetcher.py:45-62 | a key is in the filled dict iff some iteration stored a value for it |
| Dicts.InsertKeptGet | backend-python-fastapi/data_processor.py:29-45 | with distinct iterated keys, each key maps to what its iteration stored, or is absent when it was skipped |
| StockUtils.Returns | frontend-react-nextjs/lib/utils.ts:9 | the mapped returns, one per point, in order |
| StockUtils.SeqMin | frontend-react-nextjs/lib/utils.ts:10 | Math.min of a non-empty series is one of its elements and ≤ every element |
| StockUtils.SeqMax | frontend-react-nextjs/lib/utils.ts:11 | Math.max of a non-empty series is one of its elements and ≥ every element |
| StockUtils.Sum | frontend-react-nextjs/lib/utils.ts:12 | no contract of its own; its properties are SumBetween's, below |
| StockUtils.SumBetween | frontend-react-nextjs/lib/utils.ts:12 | element bounds lo, hi bound the sum by n·lo and n·hi |
| StockUtils.Mean | frontend-react-nextjs/lib/utils.ts:12 | the mean times the length is the sum |
| StockUtils.MeanWithin | frontend-react-nextjs/lib/utils.ts:12 | sum / length lies within any bounds of the elements |
| StockUtils.CalculateSummaryStats | frontend-react-nextjs/lib/utils.ts:4-19 | empty series gives 0, 0, 0; otherwise the mean is within 0.00005 of sum/length, min ≤ mean ≤ max, min and max are rounded returns of the series, and every rounded return lies in [min, max] |
| StockUtils.SummaryBeforeRounding | frontend-react-nextjs/lib/utils.ts:9-12 | before rounding, min and max are returns of the series bounding all returns, and min ≤ sum/length ≤ max |
| StockUtils.Round4 | frontend-react-nextjs/lib/utils.ts:15-17 | `Number(x.toFixed(4))` is within 0.00005 of x |
| StockUtils.Round4Exact | frontend-react-nextjs/lib/utils.ts:15-17 | a value n/10000 is kept as it is |
| StockUtils.SummaryExample | frontend-react-nextjs/lib/utils.ts:4-19 | returns 0.10 and -0.05 summarise to min -0.05, max 0.10 and mean 0.025 |
| StockUtils.RoundedBounds | frontend-react-nextjs/lib/utils.ts:14-18 | rounding keeps every return between the rounded bounds |
| StockUtils.Growth | frontend-react-nextjs/lib/utils.ts:54-58 | the compounded factor stays positive while no return is -100% or worse |
| StockUtils.Compounded | frontend-react-nextjs/lib/utils.ts:52-62 | reference definition: entry i is the product of (1 + r_j) for j ≤ i, minus 1, and the length is the input's |
| StockUtils.CalculateCompoundedReturns | frontend-react-nextjs/lib/utils.ts:52-62 | the loop with its running factor returns exactly the reference compounded series |
| StockUtils.CompoundedStep | frontend-react-nextjs/lib/utils.ts:54-58 | 1 + out[i] = (1 + out[i-1])·(1 + r_i), starting from the factor 1 |
| StockUtils.CompoundedPrefix | frontend-react-nextjs/lib/utils.ts:56-59 | compounding a prefix gives the prefix of the compounded series |
| StockUtils.CompoundedEmptyIff | frontend-react-nextjs/lib/utils.ts:52-61 | the output is empty iff the input is |
| StockUtils.CompoundedExample | frontend-react-nextjs/lib/utils.ts:52-62 | returns 10% then −5% compound to 10% then 4.5% |
| StockUtils.KeepTruthy | frontend-react-nextjs/lib/utils.ts:49 | filter(Boolean) keeps exactly the non-empty strings among the arguments |
| StockUtils.Join | frontend-react-nextjs/lib/utils.ts:49 | joining nothing gives ""; otherwise the result is at least as long as the first part (JoinAppend and SplitJoin give the rest) |
| StockUtils.Cn | frontend-react-nextjs/lib/utils.ts:48-50 | the class string is empty iff no argument is a non-empty string |
| StockUtils.KeepTruthyAppend | frontend-react-nextjs/lib/utils.ts:49 | the filter keeps argument order |
| StockUtils.CnAppend | frontend-react-nextjs/lib/utils.ts:48-50 | cn of two argument lists is their results joined by one space, or whichever is non-empty |
| StockUtils.CnDropsFalsy | frontend-react-nextjs/lib/utils.ts:48-50 | a falsy argument ("", undefined, null, false) anywhere leaves the result unchanged |
| StockUtils.SplitJoin | frontend-react-nextjs/lib/utils.ts:49 | splitting the joined class list at spaces gives back the kept names, when none holds a space |
| StockUtils.GetStockColor | frontend-react-nextjs/lib/utils.ts:35-46 | a table ticker gets its table colour, any other string gets #6b7280, and every result is a seven-character hex colour |
| StockUtils.TickerColors | frontend-react-nextjs/lib/utils.ts:36-44 | ticker i of the seven gets colour i, and no two tickers share a colour |
| StockUtils.GetStockColorAsWritten | frontend-react-nextjs/lib/utils.ts:45 | as written: a string that is neither a ticker nor an inherited member name gets the default colour |
| StockUtils.AsWrittenAgreesOnTickers | frontend-react-nextjs/lib/utils.ts:45 | as written, the seven tickers get their table colours |
| StockUtils.AsWrittenReturnsInheritedMember | frontend-react-nextjs/lib/utils.ts:45 | as written, "toString" yields the inherited function, where the default colour was meant |
| StockDataHook.Summaries | frontend-react-nextjs/hooks/useStockData.ts:31-40 | one summary per ticker key, in key order, with that ticker, its unmodified series and calculateSummaryStats of it |
| StockDataHook.SummaryTickers | frontend-react-nextjs/hooks/useStockData.ts:31-40 | the summaries' tickers and series are the response's keys and lists |
| StockDataHook.FailureMessage | frontend-react-nextjs/hooks/useStockData.ts:44-46 | an ApiError's message, and 'Failed to fetch stock data' for anything else thrown |
| StockDataHook.Succeeds | frontend-react-nextjs/hooks/useStockData.ts:27-42 | no contract of its own: the try block completes; Settle and PanelsAfterFetch state its effect |
| StockDataHook.StockDataStore.constructor | frontend-react-nextjs/hooks/useStockData.ts:17-20 | initial state: no data, no summaries, not loading, no error |
| StockDataHook.StockDataStore.Begin | frontend-react-nextjs/hooks/useStockData.ts:23-24 | before awaiting: loading is true, error is cleared, data and summaries untouched |
| StockDataHook.StockDataStore.Settle | frontend-react-nextjs/hooks/useStockData.ts:26-52 | success: data is the response, summaries are its summaries, error stays null; failure: error is the message, data null, summaries empty (even if data was set earlier in the call); loading is false either way; the invariant holds |
| StockDataHook.StockDataStore.FetchData | frontend-react-nextjs/hooks/useStockData.ts:22-53 | the whole call ends in the settled state for its outcome, records the request, and keeps summaries tied to data |
| Dashboard.TotalDataPoints | frontend-react-nextjs/components/StockDashboard.tsx:104-107 | Data Points is 0 iff every summary's series is empty |
| Dashboard.TotalDataPointsAppend | frontend-react-nextjs/components/StockDashboard.tsx:104-107 | the Data Points reduce adds over concatenation |
| Dashboard.DataPointsOfResponse | frontend-react-nextjs/components/StockDashboard.tsx:104-107 | Data Points equals the number of return points in the response, over all tickers |
| Dashboard.BestIndex | frontend-react-nextjs/components/StockDashboard.tsx:116-118 | the reduce ends on a summary of maximal mean, the earliest one on ties |
| Dashboard.BestPerformer | frontend-react-nextjs/components/StockDashboard.tsx:116-118 | the shown ticker is that of a summary with maximal mean |
| Dashboard.HasError | frontend-react-nextjs/components/StockDashboard.tsx:74 | no contract of its own: `error` as a JSX condition, a non-empty string; PanelsExclusive and PanelsAfterFetch state what it decides |
| Dashboard.ShowsEmptyState | frontend-react-nextjs/components/StockDashboard.tsx:76 | no contract of its own: `!loading && !error && !data`; PanelsExclusive and PanelsAfterFetch state when it holds |
| Dashboard.ShowsSummary | frontend-react-nextjs/components/StockDashboard.tsx:78 | no contract of its own: the summary block's condition; PanelsExclusive and PanelsAfterFetch state when it holds |
| Dashboard.PanelsExclusive | frontend-react-nextjs/components/StockDashboard.tsx:68-78 | the empty state and the summary block never render together; the summary block needs summaries (guarding the reduce without an initial value); neither renders while loading or with an error |
| Dashboard.PanelsAfterFetch | frontend-react-nextjs/components/StockDashboard.tsx:68-78 | after a fetch: success shows the summary iff the response has tickers, and never the empty state or error; failure shows the error iff its message is non-empty, and the empty state otherwise |
| Dashboard.StockDashboard.constructor | frontend-react-nextjs/components/StockDashboard.tsx:14-23 | starts with the last 30 days up to today, the seven default symbols and a fresh hook |
| Dashboard.StockDashboard.FetchIfRangeSet | frontend-react-nextjs/components/StockDashboard.tsx:26-28 | fetches with the given range and symbols iff both dates are set, and otherwise changes nothing |
| Dashboard.StockDashboard.RunEffect | frontend-react-nextjs/components/StockDashboard.tsx:25-29 | the effect fetches with the current range and symbols iff both dates are set |
| Dashboard.StockDashboard.HandleRetry | frontend-react-nextjs/components/StockDashboard.tsx:35-39 | retry fetches with the current range and symbols iff both dates are set |
| Dashboard.StockDashboard.HandleDateRangeChange | frontend-react-nextjs/components/StockDashboard.tsx:31-33 | only the range is replaced |
| Dashboard.StockDashboard.HandleRefresh | frontend-react-nextjs/components/StockDashboard.tsx:41-46 | the symbols are replaced, and the fetch (iff both dates are set) uses the new symbols |
| DatePicker.Apply | frontend-react-nextjs/components/DateRangePicker.tsx:31-43 | a start pick replaces only the start, an end pick only the end |
| DatePicker.StartDisabled | frontend-react-nextjs/components/DateRangePicker.tsx:76 | no contract of its own: after today or after the end; EnabledIffKeepsOrder and PicksKeepOrder state what it guarantees |
| DatePicker.EndDisabled | frontend-react-nextjs/components/DateRangePicker.tsx:111 | no contract of its own: after today or before the start; EnabledIffKeepsOrder and PicksKeepOrder state what it guarantees |
| DatePicker.EnabledIffKeepsOrder | frontend-react-nextjs/components/DateRangePicker.tsx:70-112 | on an ordered range, a day up to today is enabled iff picking it keeps start ≤ end |
| DatePicker.PicksKeepOrder | frontend-react-nextjs/components/DateRangePicker.tsx:70-112 | from start ≤ end, any sequence of enabled picks keeps start ≤ end (equal allowed) |
| DatePicker.DateRangePicker.constructor | frontend-react-nextjs/components/DateRangePicker.tsx:28-29 | both popovers start closed |
| DatePicker.DateRangePicker.SetStartOpen | frontend-react-nextjs/components/DateRangePicker.tsx:51 | the start popover's open flag is set, the other untouched |
| DatePicker.DateRangePicker.SetEndOpen | frontend-react-nextjs/components/DateRangePicker.tsx:86 | the end popover's open flag is set, the other untouched |
| DatePicker.DateRangePicker.HandleStartDateSelect | frontend-react-nextjs/components/DateRangePicker.tsx:31-36 | a selected day emits the range with only the start replaced and closes the start popover; no day emits nothing and changes nothing |
| DatePicker.DateRangePicker.HandleEndDateSelect | frontend-react-nextjs/components/DateRangePicker.tsx:38-43 | a selected day emits the range with only the end replaced and closes the end popover; no day emits nothing and changes nothing |
| DataProcessor.SymbolError | backend-python-fastapi/data_processor.py:68-75 | one symbol's checks raise nothing iff its series is non-empty and no present price is ≤ 0 |
| DataProcessor.CheckSymbols | backend-python-fastapi/data_processor.py:67-75 | passes iff every series is non-empty with no non-positive price; the warnings are exactly the symbols with missing values; a failure carries a failing symbol's message |
| DataProcessor.ValidatePriceData | backend-python-fastapi/data_processor.py:54-75 | an empty dict fails with "No price data provided"; otherwise passes iff every series is acceptable |
| DataProcessor.RejectsFirstBadSymbol | backend-python-fastapi/data_processor.py:67-75 | the first failing symbol's check decides the message: empty series, then non-positive price |
| DataProcessor.MissingValuesOnlyWarn | backend-python-fastapi/data_processor.py:71-72 | turning a price of accepted data into NaN keeps it accepted and adds a warning for that symbol |
| DataProcessor.Round6 | backend-python-fastapi/data_processor.py:42 | `round(x, 6)` is within 0.0000005 of x |
| DataProcessor.DailyReturns | backend-python-fastapi/data_processor.py:35-43 | n prices give n - 1 return points; point i has the date of price i+1 and a return within 0.0000005 of p[i+1]/p[i] - 1 |
| DataProcessor.DailyReturnBounds | backend-python-fastapi/data_processor.py:35-43 | point i has the date of price i+1; its return is ≥ 0 when the price did not fall, ≤ 0 when it did not rise, and never below -1 |
| DataProcessor.RatioChange | backend-python-fastapi/data_processor.py:35 | the relative change b/a - 1 of positive prices exceeds -1 and has the sign of b - a |
| DataProcessor.SeriesReturns | backend-python-fastapi/data_processor.py:38-43 | the inner loop builds exactly the series' daily returns |
| DataProcessor.CalculateDailyReturns | backend-python-fastapi/data_processor.py:27-48 | the symbol loop builds exactly the reference returns dict |
| DataProcessor.ReturnsTable | backend-python-fastapi/data_processor.py:27-48 | no contract of its own: the dict the symbol loop fills; CalculateDailyReturns, ReturnsTableKeys and ReturnsTableEntry state what it holds |
| DataProcessor.ReturnsTableKeys | backend-python-fastapi/data_processor.py:27-45 | result keys are a subsequence of the input keys, in input order, without repeats |
| DataProcessor.ReturnsTableEntry | backend-python-fastapi/data_processor.py:29-45 | a symbol with fewer than 2 prices is absent; otherwise it maps to its n - 1 daily returns |
| DataProcessor.ShortSeriesGiveEmptyResult | backend-python-fastapi/data_processor.py:30-32 | when every series is short the result is empty, without an error |
| DataFetcher.Mag7Distinct | backend-python-fastapi/config.py:31 | the configured symbols are distinct |
| DataFetcher.ValidateDateRange | backend-python-fastapi/data_fetcher.py:81-100 | passes iff start < end, start ≤ today and end - start ≤ 3650; the three checks apply in order, the first failing one giving its message |
| Common.NatToString | backend-python-fastapi/data_fetcher.py:100 | the f-string rendering of a count is one or more decimal digits (RangeTooLongText gives the 3650 case) |
| DataFetcher.RangeTooLongText | backend-python-fastapi/data_fetcher.py:99-100 | the message reads "Date range cannot exceed 3650 days" |
| DataFetcher.DateRangeEdges | backend-python-fastapi/data_fetcher.py:92-100 | equal dates are rejected, an end after today is accepted, exactly 3650 days is accepted and 3651 is not |
| DataFetcher.DropNaN | backend-python-fastapi/data_fetcher.py:59 | dropna keeps only present prices, all taken from the rows, and leaves nothing iff every close was NaN |
| DataFetcher.DropNaNMembers | backend-python-fastapi/data_fetcher.py:59 | a row is kept iff it is one of the rows and its close is present |
| DataFetcher.DropNaNInOrder | backend-python-fastapi/data_fetcher.py:59 | the kept rows are in their original order (a subsequence of the rows) |
| DataFetcher.Kept | backend-python-fastapi/data_fetcher.py:49-65 | a symbol's call stores a series iff it did not raise and some close is present; a stored series is the call's rows after dropna, non-empty and NaN-free |
| DataFetcher.FetchEntries | backend-python-fastapi/data_fetcher.py:45-69 | one entry per configured symbol, in order, with what its call leaves |
| DataFetcher.FetchTable | backend-python-fastapi/data_fetcher.py:42-69 | no contract of its own: the dict the symbol loop fills; FetchDailyPrices, FetchTableKeys, FetchTableValue and FetchTableClean state what it holds |
| DataFetcher.FetchDailyPrices | backend-python-fastapi/data_fetcher.py:35-79 | the loop's dict is returned when non-empty; an empty one fails with "Failed to fetch stock data: No data could be fetched for any symbols" |
| DataFetcher.FetchTableKeys | backend-python-fastapi/data_fetcher.py:45-69 | a symbol is stored iff its call left a series; the keys follow the configured order, without repeats |
| DataFetcher.FetchFailsIff | backend-python-fastapi/data_fetcher.py:71-72 | the call fails iff no symbol left a series |
| DataFetcher.FetchTableValue | backend-python-fastapi/data_fetcher.py:61-62 | each symbol maps to the NaN-free closes of its own call |
| DataFetcher.FetchTableClean | backend-python-fastapi/data_fetcher.py:58-62 | every stored series is non-empty and NaN-free |
| ApiEndpoints.ValidatedPricesPositive | backend-python-fastapi/api_endpoints.py:92-99 | fetched prices that pass validation are all present and positive, as the returns calculation needs |
| ApiEndpoints.Endpoint | backend-python-fastapi/api_endpoints.py:68-109 | no contract of its own: the staged response; GetReturns is proved equal to it, and BadRequestIff, ErrorStatuses, SuccessIff and SuccessData state its properties |
| ApiEndpoints.GetReturns | backend-python-fastapi/api_endpoints.py:68-119 | the handler, stage by stage, including the copy loop, gives exactly the staged reference response |
| ApiEndpoints.CopyEntries | backend-python-fastapi/api_endpoints.py:104-106 | copying a dict with distinct keys entry by entry gives the same dict |
| ApiEndpoints.BadRequestIff | backend-python-fastapi/api_endpoints.py:69-83 | the response is a 400 iff a date does not parse or the range check fails |
| ApiEndpoints.ErrorStatuses | backend-python-fastapi/api_endpoints.py:80-95 | every error is a 400 or a 500; a failed range check gives 400 with the validator's message |
| ApiEndpoints.TestScriptCases | backend-python-fastapi/test_api.py:60-99 | "invalid-date" gives 400 with the parse error in the detail; a start 30 days ahead gives 400 |
| ApiEndpoints.FetchFailureDetail | backend-python-fastapi/api_endpoints.py:86-89 | when no symbol yields data, the 500 detail carries the fetch prefix twice |
| ApiEndpoints.FetchedAllPositive | backend-python-fastapi/api_endpoints.py:92-95 | price validation of fetched data passes iff every series a call left is positive |
| ApiEndpoints.SuccessIff | backend-python-fastapi/api_endpoints.py:68-109 | a 200 iff both dates parse, the range is valid, some symbol yields closes and all yielded closes are positive |
| ApiEndpoints.SuccessData | backend-python-fastapi/api_endpoints.py:97-109 | on success the keys follow the configured order without repeats; a symbol is present iff its call left at least two closes, and then maps to their daily returns |

## Left out

- Floating point: prices and returns are exact reals. Rounding is computed exactly, with the rule each language uses. NaN arithmetic, infinities and binary representation error are not modelled.
- DataProcessor.CalculateDailyReturns: requires positive, NaN-free prices, which is all the endpoint passes it (`ApiEndpoints.ValidatedPricesPositive`). The processor's own `except Exception` → "Failed to calculate returns" path (data_processor.py:50-52, api_endpoints.py:98-101) cannot be reached in the model.
- DataProcessor.DailyReturns: pandas `pct_change` behaviour on zero or NaN prices is not modelled. It is only ever applied to positive, present prices.
- ApiEndpoints.GetReturns: the generic `except Exception` → 500 "Internal server error" (api_endpoints.py:114-119) is not modelled; no modelled stage raises anything but the handled errors.
- yfinance, the network, and pandas `history`/`dropna` internals: each call is an input outcome.
- Date parsing and formatting (`strptime`, `strftime`, JS `Date`, `toLocaleDateString`): dates are day numbers and a parse is an input. The time of day in JS `new Date()` comparisons is not modelled.
- HTTP plumbing: the `fetch` call in lib/api.ts, FastAPI routing, pydantic models, `/health` and main.py are not part of this model.
- StockDataHook.StockDataStore.Settle: requires that the settling request is the one just begun (loading, no error). Two overlapping fetches, where a stale response overwrites a newer one, are not modelled.
- Dashboard.StockDashboard.HandleRefresh: models the direct fetch only. The second fetch that the effect runs after `setSymbols` is the separate `RunEffect` call.
- The symbols filter: `symbols` is recorded in each request, but no shown code filters by it, so nothing is filtered.
- Environment configuration: `MAG7_SYMBOLS` and `MAX_DATE_RANGE_DAYS` take their defaults (config.py:31, 34).
- Logging calls: the missing-values warnings are returned as a list of symbols; other log lines are dropped.
- JavaScript `Object.entries` puts integer-like keys first; the model keeps plain insertion order, which is the same for ticker symbols.
- DatePicker.DateRangePicker.SetStartOpen / SetEndOpen: the popovers' own open/close behaviour is reduced to these setters.
- Presentation components (StockChart, StockCard, EmptyState, DashboardControls, app/layout.tsx) and `formatPercentage`/`formatDate` are not part of this model.

## Findings

| source | as written | input that shows it | evidently intended | confidence | as-written member | corrected member |
|---|---|---|---|---|---|---|
| frontend-react-nextjs/lib/utils.ts:45 | `colors[ticker as keyof typeof colors] \|\| '#6b7280'` reads through the object's prototype chain | `getStockColor("toString")` returns `Object.prototype.toString`, a function, which is truthy | any string that is not one of the seven tickers gets `'#6b7280'` | low: only reachable with a ticker named like an Object.prototype member; not executed | StockUtils.GetStockColorAsWritten (shown by StockUtils.AsWrittenReturnsInheritedMember) | StockUtils.GetStockColor |
