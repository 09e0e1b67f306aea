# Alibaba market and financial data collector — verified model of the collection core

This project models, in Dafny, the logic at the centre of a small data pipeline. The pipeline polls several
market-data and financial-statement providers, reconciles what they return, persists the result as
JSON documents and serves those documents through a read-only HTTP API. The model covers three parts.

- **Financial collector** (`financial_data.dfy`, module `FinancialData`):
  - the accumulate-all fallback loop over the providers;
  - the validator;
  - the merge engine. The merge concatenates the six report lists (quarterly and annual × income statement,
    balance sheet and cash flow) across provider records. It deduplicates each list by identity key
    (`fiscalDateEnding`, falling back to `Date`), with the last writer winning. It drops reports that have
    no key and sorts the rest newest first. It also concatenates the earnings lists, folds the key metrics
    left to right with dict update, and stamps `data_sources` and `data_quality`.
- **Market collector** (`market_data.dfy`, module `MarketData`):
  - the first-success fallback loop;
  - the validator;
  - the shaping of the Alpha Vantage daily series into bars, keeping the newest 365.
- **Read API** (`read_api.dfy`, module `ReadApi`):
  - the annual and quarterly period filters. These are a substring test on `fiscalDateEnding`, answered with
    404 when nothing matches and 500 when the test raises;
  - the list of available periods.

Supporting modules:
- `json.dfy` (`Json`): JSON values, Python truthiness, `dict.get`.
- `lex.dfy` (`Lex`): Python's `str` ordering, proved a strict total order.
- `sorting.dfy` (`Sorting`): `sorted(..., key=..., reverse=True)` as an insertion sort. It is proved to give a
  permutation that is descending, and strictly descending when the keys are distinct. Two strictly descending
  lists with the same keys are proved to agree.
- `outcome.dfy` (`Outcomes`): what one provider call produced — it raised, or it returned a value or None — and what one `save_data` call left in the JSON document.

Each collector is a `method` whose loop mirrors the source loop. Each is proved against a specification
function of its inputs: `Accepted`, `Concatenated`, `UsableKeys`, `LastWithKey`, `FirstSuccess`,
`LastReturned`, `Matching`, `PeriodValues`. The lemmas then state what the source promises about those
functions. A provider call is an `Outcome` value, and the two `datetime.now()` stamps are string parameters.
How `save_data` ends is a `SaveOutcome` parameter with three values. Opening the file can fail, which leaves
the earlier document in place. `json.dump` can fail partway, after `open(..., 'w')` has already emptied the
file, which leaves a truncated document. Or the dump completes. `invoked` counts the provider calls a
collector makes, and `written` is the collector's JSON document once the run is over: `Previous`,
`Truncated`, or `Holds` the saved record.

## Model

| member | source | states |
|---|---|---|
| FinancialData.ValidateData | data_collector/financial_data.py:243-264 | an empty (falsy) record is rejected; otherwise the record is accepted iff at least one of its three quarterly or three annual report lists is non-empty |
| FinancialData.HasReports | data_collector/financial_data.py:252-262 | the early-exit loop over the report types finds a non-empty list iff the granularity holds one under some report-type name |
| FinancialData.LastWithKey | data_collector/financial_data.py:214-217 | the report a key ends up with comes from the input and carries that key |
| FinancialData.DedupAndSort | data_collector/financial_data.py:210-222 | one list after the `unique_reports` loop and the sort: strictly descending by key; its keys are exactly the usable keys of the input; the report kept for each key is the last input report with it |
| FinancialData.ReconciledUnique | data_collector/financial_data.py:210-222 | those three conditions leave exactly one possible output list |
| FinancialData.ReconciledKeysDistinct | data_collector/financial_data.py:213-217 | no two reports of a merged list share an identity key, and every one of them has one |
| FinancialData.ReconciledKeyAppears | data_collector/financial_data.py:215-217 | a key appears in the merged list iff some input report carries it as a usable key, so key-less reports never appear and every other key does |
| FinancialData.UsableKeysMember | data_collector/financial_data.py:215-216 | a key is usable iff some report's `fiscalDateEnding or Date` is that truthy string |
| FinancialData.LastWriterWins | data_collector/financial_data.py:214-217 | a report whose key no later report repeats is the one kept for that key |
| FinancialData.UsableKeysAppend | data_collector/financial_data.py:176-194 | the keys of a concatenation are the union of the parts' keys |
| FinancialData.ExtendTables | data_collector/financial_data.py:181-194 | each of the three accumulated lists is extended by exactly what the record holds under that granularity and report type, in order |
| FinancialData.ConcatenatedAppend | data_collector/financial_data.py:181-194 | concatenating across records distributes over splitting the record list, so input order is kept |
| FinancialData.ConcatenatedMember | data_collector/financial_data.py:181-194 | every concatenated report comes from some provider record |
| FinancialData.ConcatenatedKeys | data_collector/financial_data.py:181-194 | a date occurs in a concatenated list iff some record brings a report with that date |
| FinancialData.HistoricalAppend | data_collector/financial_data.py:197-203 | `earnings.historical` and `earnings.upcoming` are plain concatenations over the records, with no deduplication |
| FinancialData.KeyMetricsLastWins | data_collector/financial_data.py:206-207 | a metric name maps to the value from the last record that reports it |
| FinancialData.KeyMetricsNames | data_collector/financial_data.py:206-207 | a metric name is present iff some record reports it |
| FinancialData.SourceNamesAt | data_collector/financial_data.py:177-178 | `data_sources` has one entry per record, in order, namely the record's `data_source` or `'unknown'` |
| FinancialData.SourceNamesLength | data_collector/financial_data.py:176-178 | `data_sources` is as long as the record list |
| FinancialData.ReconcileTables | data_collector/financial_data.py:210-222 | each of the three lists of a granularity is deduplicated and sorted as `DedupAndSort` states |
| FinancialData.MergeFinancialData | data_collector/financial_data.py:153-241 | the merged document meets `IsMergeOf`: every report list is reconciled; earnings, key metrics and `data_sources` are as above; `collection_time` and `last_update` are the two stamps; `number_of_sources` is the record count; each per-list count is the final list's length |
| FinancialData.MergeUnique | data_collector/financial_data.py:153-241 | `IsMergeOf` determines the merged document completely |
| FinancialData.MergedKeysAreUnion | data_collector/financial_data.py:176-222 | merging the records of two providers gives, per list, exactly the union of the dates each brings; for a date the later provider brings, its last report with that date is the one kept |
| FinancialData.LastWithKeyAppend | data_collector/financial_data.py:213-217 | in a concatenation, a date that the second part brings is last brought by the second part, so the later records' report replaces the earlier one |
| FinancialData.MergedKeysOrderFree | data_collector/financial_data.py:176-222 | which dates a merged list holds does not depend on the order of the records |
| FinancialData.Collect | data_collector/financial_data.py:19-52 | every provider is called; exactly the non-None, non-empty, valid results are merged, in provider order; the merge is returned iff at least one record was accepted and the save completed, otherwise None. The document then holds the merge iff it is returned. It is truncated iff something was accepted and the dump failed partway. Otherwise it is left as it was. |
| FinancialData.AcceptedBringReports | data_collector/financial_data.py:28-43 | when any record was accepted, the merge receives at least one report |
| MarketData.ValidateData | data_collector/market_data.py:161-179 | an accepted record has a US market with a non-empty history |
| MarketData.ValidateDataRules | data_collector/market_data.py:161-179 | the record is rejected when it is empty, lacks `us_market`, has an empty or missing history, or has neither a truthy `price` nor a truthy `market_cap`; otherwise it is accepted |
| MarketData.HongKongIgnored | data_collector/market_data.py:161-179 | the Hong Kong market never affects validation |
| MarketData.FirstSuccess | data_collector/market_data.py:31-39 | the index it returns is the first source whose result is non-None, non-empty and valid, or the source count when there is none |
| MarketData.Collect | data_collector/market_data.py:20-54 | sources up to and including the first success are called and no later one is; the result is the value of the last called source that did not raise; the document is left alone when that result is falsy; otherwise it is saved with the given save outcome (kept, truncated or replaced), and the result is returned whatever the save did |
| MarketData.ShortCircuit | data_collector/market_data.py:31-39 | the first succeeding source's record is returned unchanged, and the sources after it are never called |
| MarketData.LastReturnedIs | data_collector/market_data.py:31-44 | a raising source leaves the current value unchanged, and a returning source overwrites it even when its record is invalid |
| MarketData.AllRaisedGivesNone | data_collector/market_data.py:31-44 | when every source raises, the result is None |
| MarketData.NoValidSourceEndsInNone | data_collector/market_data.py:28-44 | with no valid source, every source is called, and a final source that returns None (the placeholder web scraper) makes the result None |
| MarketData.DailyBars | data_collector/market_data.py:123-133 | one bar per day of the series, built from that day's five price fields; fails iff some day lacks one of them |
| MarketData.ShapeHistory | data_collector/market_data.py:123-134 | with no daily series the history is empty; otherwise it holds min(day count, 365) bars, is strictly descending by date, each bar is its day's values, and every day left out is older than every day kept |
| MarketData.NewestKept | data_collector/market_data.py:134 | truncating the sorted bars keeps the newest dates, and every dropped day is older than every kept one |
| MarketData.EmptyHistoryRejected | data_collector/market_data.py:171-172 | a record whose `us_market.history` is an empty list fails validation, whatever its quote metrics |
| Sorting.SortDescending | data_collector/financial_data.py:218-222 | the sort returns a permutation of its input that is descending by key, and strictly descending when the keys are distinct |
| Sorting.SortedKeySet | data_collector/financial_data.py:218-222 | sorting keeps exactly the keys it was given |
| Sorting.StrictlyDescendingUnique | data_collector/financial_data.py:218-222 | two strictly descending lists with the same key set list the same keys in the same order |
| FinancialData.KeyValue | data_collector/financial_data.py:215 | `report.get('fiscalDateEnding') or report.get('Date')`: a truthy `fiscalDateEnding` wins, otherwise `Date` is taken; the key is truthy iff one of the two is |
| FinancialData.Key | data_collector/financial_data.py:215-216 | a report has an identity key iff that value is a truthy string; the key is non-empty and is the report's `fiscalDateEnding` or its `Date` |
| ReadApi.PeriodIn | api/server.py:61 | `period in report.get('fiscalDateEnding', '')` raises (500) iff the stored date is null, a number or a boolean; an absent date matches only the empty period; a string date matches exactly the periods it contains |
| Outcomes.AfterSave | data_collector/base.py:23-27 | only a completed `json.dump` leaves the saved record in the document; only a failed `open(..., 'w')` leaves the earlier document; a dump that fails partway leaves it truncated |
| ReadApi.ContainsIsSubstring | api/server.py:61 | `q in s` on strings holds iff `q` occurs at some position of `s` |
| ReadApi.MatchingMember | api/server.py:59-62 | a stored report is kept iff its `fiscalDateEnding`, defaulting to `''`, contains the requested period |
| ReadApi.MatchingAppend | api/server.py:59-62 | the filter keeps stored order |
| ReadApi.FilterReports | api/server.py:60-62 | the inner loop returns the matching reports of one list in stored order, and fails iff the membership test raises on one of them |
| ReadApi.FilterTables | api/server.py:59-62 | the loop over the three report types fills each result list with that type's matching reports, and fails iff the test raises on some stored report |
| ReadApi.AnyNonEmpty | api/server.py:64 | `not any(result.values())` holds iff all three result lists are empty |
| ReadApi.QueryPeriod | api/server.py:49-71 | 500 iff the membership test raises on some stored report; otherwise 404 iff all three filtered lists are empty; otherwise each list holds exactly its matching reports |
| ReadApi.GetAnnualFinancialData | api/server.py:41-71 | the same three outcomes as `QueryPeriod`, applied to `annual_data` |
| ReadApi.GetQuarterlyFinancialData | api/server.py:73-103 | the same three outcomes as `QueryPeriod`, applied to `quarterly_data` |
| ReadApi.TextDatesNeverRaise | api/server.py:61 | reports whose `fiscalDateEnding` is a string or absent never make the filter fail |
| ReadApi.YearQueryExample | api/server.py:59-62 | with reports dated 2023-12-31, 2023-09-30 and 2022-12-31, a query for `2023` keeps the first two, in stored order |
| ReadApi.MissingYearExample | api/server.py:59-65 | on that document a query for `2099` raises on no report and matches nothing in any list |
| ReadApi.MissingYearResponse | api/server.py:41-71 | the annual endpoint answers that `2099` query with 404 |
| ReadApi.AddPeriods | api/server.py:118-120 | the inner loop adds exactly the `fiscalDateEnding` values present in one list |
| ReadApi.CollectPeriods | api/server.py:116-120 | the periods collected for one granularity are exactly the `fiscalDateEnding` values stored in its three lists; the `Date` alias is not consulted |
| ReadApi.SortPeriods | api/server.py:129-131 | when every period is a string, the result lists each of them exactly once, strictly descending |
| ReadApi.GetAvailablePeriods | api/server.py:105-134 | annual and quarterly periods are each the distinct `fiscalDateEnding` strings of that granularity alone, strictly descending, so a period stored in both appears in both; the answer is 500 when a stored period is not a string |
| ReadApi.PeriodsDistinct | api/server.py:129-131 | no period is listed twice |

## Left out

- Provider adapters: all network I/O (`requests.get`, `yfinance`, `raise_for_status`, proxies, timeouts) and the adapters' translation of provider responses. Each provider call is an `Outcome`. The yfinance financial adapter calls `_calculate_key_metrics`, which `data_collector/financial_data.py` does not define; adapter internals are not part of this model.
- `time.sleep` and `random.uniform` jitter and rate-limit pauses: timing only, with no effect on results.
- `print` logging.
- `float(...)` parsing of Alpha Vantage prices and volume: bar fields keep the provider's raw JSON values. A value that does not parse makes `float` raise `ValueError`, and the adapter then returns None. MarketData.DailyBars fails only when a price field is missing; it does not model that parse failure.
- Link from shaping to the record: the adapter stores the bars as dicts under `us_market.history`. `MarketData.ShapeHistory` yields `Bar` values, and `UsMarket.history` is a list of JSON values. The model does not connect the two.
- `datetime.now().isoformat()`: the merge's `collection_time` and `last_update` are parameters.
- `save_data` and `load_data` in `data_collector/base.py`: file I/O. A save is one of three outcomes. A truncated document is only marked `Truncated`; which prefix of the serialisation it holds is not modelled. Loading the document for the read API, and the 500 it gives on a read error, are not modelled.
- `main.py`: the asyncio scheduling loop, the API thread and the 24-hour/1-hour backoff. This is concurrency and process control.
- FastAPI, CORS, uvicorn and the root endpoint in `api/server.py`: only the filtering and sorting inside the three endpoints is modelled.
- `config/config.py` (constants only) and `data_collector/news_data.py` (a placeholder with no logic).
- Shape of input documents: a provider record, a report, and `annual_data` / `quarterly_data` are modelled as dicts. The model's types exclude inputs whose shape differs. In the read API, a shape that makes a lookup or the membership test raise (a granularity that is not a dict, a report that is not a dict) is answered with 500. The market record's `us_market` is likewise modelled only as a dict with an optional history list and an optional `info` dict; see the `MarketData.Collect` line below for what other shapes would do. Some records pass the financial validator and then raise inside the merge, which is called outside any `try` (`data_collector/financial_data.py:42-43`). Examples are `earnings` given as a list, a `key_metrics` that is not a dict, or a report list given as a string. The exception then escapes `collect` and reaches the scheduling loop in `main.py`, which waits an hour before the next run.
- FinancialData.DedupAndSort: requires every truthy identity key to be a string. Python would also sort all-numeric or `Timestamp` keys. On keys of mixed types the sort raises `TypeError`, which, like other failures inside the merge, escapes `collect` to the scheduling loop. Those paths are not modelled.
- FinancialData.ReconcileTables: carries the same string-key precondition as `DedupAndSort`.
- FinancialData.MergeFinancialData: carries the same string-key precondition as `DedupAndSort`.
- FinancialData.Collect: carries the same string-key precondition as `DedupAndSort`, for every record a provider returns.
- ReadApi.SortPeriods: answers 500 as soon as a stored `fiscalDateEnding` is not a string. Python would also sort a set of numbers, or a lone `None`, without raising. It would raise earlier, in `set.add`, on a list or dict value. Only all-string period sets are modelled exactly.
- ReadApi.GetAvailablePeriods: inherits the approximation of `SortPeriods` for non-string periods.
- Re-merging in another record order: the model proves that the set of dates in each merged list is independent of record order (`MergedKeysOrderFree`) and that the merge is deterministic (`MergeUnique`). Which report wins a shared date does depend on order, because the last writer wins, so no stronger order-independence holds.
- MarketData.Collect: covers only records whose `us_market` is a dict whose `history` is a list and whose `info` is a dict, as the configured adapters build them (`data_collector/market_data.py:67-82`, `136-150`). Two other shapes are excluded by the `UsMarket` type and behave differently in the source. A truthy `history` that is not a list (a string, a dict) passes validation, because `_validate_data` checks only its truthiness, so such a record would be accepted, saved and returned. A `us_market` or `info` that is `None` makes `_validate_data` raise after `market_data = source()` has already stored the record (`data_collector/market_data.py:36-37`). The `except` then moves on with that record still held. Such a source therefore acts as a source that returned an invalid record, not as one that raised, and `LastReturnedIs` does not describe it.
- Market `collect` when every source is invalid: it does not always return null. It returns the value of the last source that did not raise, which is None for the three configured providers because the web-scraper placeholder always returns None. The model follows the code (`MarketData.Collect`, `MarketData.NoValidSourceEndsInNone`).
