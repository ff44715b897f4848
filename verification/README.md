# StockThemes core, modelled in Dafny

StockThemes collects US stocks, groups them by sector and industry, ranks the
groups by trailing returns, and draws Relative Rotation Graphs (RRG) of
instruments against a benchmark. This project models the deterministic part
of that system and proves what it promises:

- **RRG pipeline** (module `RrgUtil`). Daily candles are resampled to daily
  or ISO-week closes. Instrument and benchmark are inner-joined on date,
  keeping only strictly positive closes. The price ratio is smoothed with an
  expanding-then-trailing simple moving average and normalised twice around
  100, giving the JdK RS-Ratio and RS-Momentum. The last point, the tail
  before it and the dated history come back rounded to three decimals.
- **Helpers** (module `Util`):
  - market freshness (`is_upto_date`);
  - the sector/industry name normaliser;
  - percentage clean-up;
  - trailing returns over 1, 3, 6 and 12 months;
  - the relative-strength ratio;
  - stock-list parsing.
- **Summary** (module `Summaries`). Stocks are grouped by sector, then by
  industry, with size counters. Both levels are sorted by size, largest first.
- **Store** (module `Storage`):
  - the `TickerType` text codec;
  - the `stocks`, `performance` and `daily_candles` tables, as maps keyed by
    their primary keys;
  - the upserts that write those tables;
  - the freshness-filtered, ordered reads.
- **TradingView manager** (module `TvManager`). It merges the top-stock pages
  of several time frames (the last frame wins per ticker, sorted by ticker).
  For sectors and industries it chooses between fresh cached rows and a fetch.
- **Performance tables** (module `PerfUtil`): header-column lookup, row names,
  and one performance row per table row.
- **Top-stocks screen** (module `TopStocksFetcher`): the row-key to ticker
  loop, which stops at a count.
- **Yahoo Finance client** (module `Yf`): the crumb check, the exchange
  classifier, and the conversion of the quote summary into a `Stock`.

Shared modules:

- `Wrappers`: `Option` and `Result`.
- `Domain`: the crate's records.
- `Calendar`: day numbers and weekdays of instants.
- `Text`: trimming, splitting, ASCII case mapping and substring search.
- `Seqs`: flat-map, grouping, sorting and ordered listing of maps.

Conventions:

- Instants are whole seconds and dates are day numbers.
- Prices and returns are `real`.
- The clock, the market hours, the calendar-month subtraction and the `f64`
  parser are parameters.
- Pages and HTTP answers are given as sequences and values.

## Model

| member | source | states |
|---|---|---|
| RrgUtil.ToDaily | src/rrg_util.rs:137-146 | exactly one period close per candle, in input order, each carrying that candle's UTC date and close |
| RrgUtil.IsoWeekSpan | src/rrg_util.rs:122-123 | a week index covers one Monday-to-Sunday run of seven days, and a day's offset in it is its weekday |
| RrgUtil.IsoWeekMonotone | src/rrg_util.rs:122-123 | later days never fall in an earlier week, so ordering by week key follows date order |
| RrgUtil.Put | src/rrg_util.rs:125-131 | the ordered-map insert keeps the keys strictly ascending, makes the key map to the new value, leaves every other key's value as it was and adds no other entry |
| RrgUtil.WeekTable | src/rrg_util.rs:120-132 | after inserting every candle the map is ordered by week, and each week maps to the close of the last candle of that week in input order |
| RrgUtil.WeeklyCharacterization | src/rrg_util.rs:115-135 | the weekly series has strictly ascending weeks; each entry is the last candle of its week; a week appears exactly when some candle falls in it |
| RrgUtil.WeekMap | src/rrg_util.rs:119-132 | the insertion loop leaves an ordered week map whose entry for every ISO week is that week's last candle, and which has no entry for a week without candles |
| RrgUtil.WeekTableUnique | src/rrg_util.rs:119-134 | two ordered week maps that answer every lookup alike are the same map, so the loop's map is the one the weekly series is read from |
| RrgUtil.ToWeekly | src/rrg_util.rs:115-135 | the weekly series: one entry per week holding a candle, weeks strictly ascending, each entry the last candle of its week, every candle's week present |
| RrgUtil.Joined | src/rrg_util.rs:172-186 | the join is no longer than the instrument series; every kept point has both closes strictly positive; its benchmark close is the last benchmark value for that date |
| RrgUtil.JoinedExactly | src/rrg_util.rs:172-186 | every aligned point is an instrument period; conversely, every instrument period with a positive close whose date has a positive benchmark close is aligned |
| RrgUtil.JoinedAscending | src/rrg_util.rs:178-186 | strictly ascending instrument dates give strictly ascending aligned dates |
| RrgUtil.Align | src/rrg_util.rs:167-189 | the three returned sequences have equal length; position k is the k-th point of the join in instrument order; a duplicated benchmark date uses its last value; all kept closes are strictly positive |
| RrgUtil.WindowStart | src/rrg_util.rs:154-155 | the window ending at i starts at i - period + 1, saturating at 0, so it holds min(i + 1, period) values |
| RrgUtil.Sma | src/rrg_util.rs:148-159 | the moving average has the input's length and starts with the input's first value |
| RrgUtil.SmaBounded | src/rrg_util.rs:150-159 | each average lies between any lower and upper bound of the values in its window |
| RrgUtil.SmaPositive | src/rrg_util.rs:150-159 | averages of strictly positive values are strictly positive |
| RrgUtil.SmaConstant | src/rrg_util.rs:150-159 | the average of a constant series is that constant at every position |
| RrgUtil.Rs | src/rrg_util.rs:236-240 | the raw ratio times the benchmark close gives back the instrument close, position by position |
| RrgUtil.Normalise | src/rrg_util.rs:251-255 | exactly 100 where the denominator is 0; otherwise the value times the denominator is 100 times the numerator |
| RrgUtil.NormaliseEqual | src/rrg_util.rs:251-255 | a value normalised against an equal value is exactly 100 |
| RrgUtil.RsRatio | src/rrg_util.rs:248-255 | RS-Ratio has one value per aligned point |
| RrgUtil.RsMomentum | src/rrg_util.rs:258-264 | RS-Momentum has one value per aligned point |
| RrgUtil.RsPositive | src/rrg_util.rs:236-240 | strictly positive closes give a strictly positive raw ratio |
| RrgUtil.NormalisePositive | src/rrg_util.rs:254 | against strictly positive denominators the quotient branch is taken, and it is strictly positive |
| RrgUtil.NoFallback | src/rrg_util.rs:180 | with the positive closes the join keeps, every smoothed value and every SMA denominator is strictly positive; neither fallback to 100 is reachable; both indicators are positive quotients |
| RrgUtil.RatioAtParity | src/rrg_util.rs:248-255 | a constant price ratio gives an RS-Ratio of exactly 100 everywhere |
| RrgUtil.MomentumAtParity | src/rrg_util.rs:258-264 | an RS-Ratio of 100 throughout gives an RS-Momentum of exactly 100 |
| RrgUtil.Parity | src/rrg_util.rs:236-264 | an instrument moving in lockstep with the benchmark sits at parity: RS-Ratio and RS-Momentum are 100 at every point |
| RrgUtil.Round | src/rrg_util.rs:164 | rounding to an integer moves the value by at most one half |
| RrgUtil.R3 | src/rrg_util.rs:163-165 | rounding to three decimals moves the value by at most 0.0005 |
| RrgUtil.WrappingSucc | src/rrg_util.rs:276 | `tail_len + 1` in 64-bit `usize`: one more below the largest value, 0 at it |
| RrgUtil.Tail | src/rrg_util.rs:276-282 | the tail has min(tail_len, n - 1) points, and none at the largest `usize` where `tail_len + 1` wraps; they are the points just before the current one, oldest first, rounded; the current point is excluded |
| RrgUtil.History | src/rrg_util.rs:285-291 | the history has min(history_len, n) points; they are the last ones with their dates, oldest first, rounded |
| RrgUtil.Report | src/rrg_util.rs:266-299 | the response carries the upper-cased ticker, the rounded last RS-Ratio and RS-Momentum, the tail before the last point (empty at the largest `usize` tail length) and the dated history up to it |
| RrgUtil.ResampleBy | src/rrg_util.rs:219-226 | "daily" resamples per candle and any other timeframe per week; the weekly series has strictly ascending dates |
| RrgUtil.Indicators | src/rrg_util.rs:235-264 | the computed series are the RS-Ratio of the smoothed ratio and the RS-Momentum of that RS-Ratio, both as long as the input |
| RrgUtil.Respond | src/rrg_util.rs:266-299 | the assembled response is the report of the indicator series |
| RrgUtil.ComputeRrg | src/rrg_util.rs:210-300 | no result exactly when fewer than 20 points survive resampling and the join; otherwise the report of the indicators over the aligned series, smoothed over 50 periods for "daily" and 10 for any other timeframe |
| Util.LastMarketCloseDay | src/util.rs:104-124 | the last close is a weekday close at or before now, at most three days back, and no later weekday's close is at or before now |
| Util.IsUpToDate | src/util.rs:92-130 | never fresh while the market is in session on a weekday; otherwise fresh exactly when the time is at or after the latest weekday market close not after now |
| Util.TitleCase | src/util.rs:148-164 | spaces and slashes pass through; the first character and each one after a space or slash is upper-cased; every other character is lower-cased |
| Util.Normalize | src/util.rs:132-165 | the result title-cases the input after slash look-alikes become '/', whitespace becomes ' ' and space runs collapse; it is single-spaced with no space at either end; no look-alike slash and no whitespace other than ' ' remains |
| Util.CleanPercentage | src/util.rs:169-174 | the cleaned text has no '+', '%', ',' or U+2212; it keeps every other character of the trimmed input; it has a '-' exactly when the trimmed input had either minus sign |
| Util.ParsePercentage | src/util.rs:167-179 | it succeeds exactly when the parser accepts the cleaned text, with the parser's value; a failure message quotes the original, uncleaned input |
| Util.NearestIndex | src/util.rs:190-192 | the chosen candle is at least as near the target as every candle, and strictly nearer than every earlier one (the first minimum wins) |
| Util.ClosestClose | src/util.rs:188-195 | the horizon's value is the percentage change to the latest close from the first candle nearest to the latest timestamp minus the months; only that candle's close must be non-zero |
| Util.ComputePerf | src/util.rs:181-203 | no candles give an empty map; otherwise exactly the keys 1M, 3M, 6M and 1Y, holding the returns over 1, 3, 6 and 12 months; only the four picked candles' closes must be non-zero |
| Util.HorizonReturnSingle | src/util.rs:186-195 | over a single candle the return for any horizon is 0 |
| Util.ComputePerfSingle | src/util.rs:181-203 | a single candle gives 0 for every key |
| Util.ComputeRs | src/util.rs:205-211 | the relative strength times the base's multiplier is the instrument's multiplier |
| Util.ComputeRsSelf | src/util.rs:205-211 | anything measured against itself has relative strength exactly 1 |
| Util.ComputeRsMonotone | src/util.rs:205-211 | against a base with a positive multiplier, relative strength orders instruments as their weighted returns do |
| Util.StockOfLineShape | src/util.rs:72-78 | a line's symbol has no comma, no surrounding whitespace and no lower-case ASCII letter |
| Util.ParseStocks | src/util.rs:69-80 | the symbols are exactly the non-empty symbols of the lines after the skipped ones |
| Util.ParsedSymbolShaped | src/util.rs:72-79 | every parsed symbol is non-comma, trimmed and free of lower-case ASCII letters |
| Util.Unique | src/util.rs:48 | the result has no duplicates and the same members as the input |
| Util.SkipSet | src/util.rs:26-32 | the skip set holds only non-empty entries |
| Util.ReadStocks | src/util.rs:21-53 | the result has no duplicates; it holds exactly the symbols some file lists that are not in the skip set |
| Summaries.IndustrySizesCount | src/summary.rs:58-71 | when each industry's size is its ticker count, the industries' sizes add up to the sector's tickers |
| Summaries.SectorSizesCount | src/summary.rs:76-78 | when each sector's size is its ticker count, the sectors' sizes add up to all tickers |
| Summaries.IndustriesOfProperties | src/summary.rs:50-72 | each industry summary has the url of its first stock, its stock count as size, that size equal to its ticker count, and its stocks' tickers in order; industry names are distinct; the tickers are the sector's stocks' tickers up to order |
| Summaries.SectorOfProperties | src/summary.rs:43-75 | a sector's size is the sum of its industries' sizes and its ticker count; industries are sorted by size, non-increasing, with distinct names; each summarises its own stocks; the tickers are the sector's stocks' up to order |
| Summaries.SummarizeIndustries | src/summary.rs:53-72 | one industry summary per group, in group order, and the sizes add up to the number of stocks in the groups |
| Summaries.SummarizeSector | src/summary.rs:43-75 | the sector summary built by the loop and the sort is the specified one |
| Summaries.SectorsOfProperties | src/summary.rs:35-80 | one sector per sector name, in first-appearance order; each is non-empty and summarises exactly its sector's stocks; all tickers together are the input's up to order |
| Summaries.SortedSectorsProperties | src/summary.rs:81 | sorting sectors by size makes them non-increasing and keeps the sectors, their distinct names, their tickers up to order, and the total size |
| Summaries.SummaryOfProperties | src/summary.rs:31-83 | the total size is the sum of the sector sizes; sectors are sorted by size, non-increasing, with distinct names and no empty one; each summarises exactly its sector's stocks; every stock's sector appears; the tickers are exactly the input's up to order |
| Summaries.SummarizeSectors | src/summary.rs:38-80 | the loop keeps one summary per sector group, in group order, and the sizes add up to the number of stocks |
| Summaries.Summarize | src/summary.rs:31-83 | the total size is the number of input stocks and the sum of the sector sizes; sectors are sorted by size; each sector is non-empty and summarises its stocks; every input ticker lands in exactly one industry of one sector |
| Storage.EncodeTickerType | src/store.rs:329-333 | each ticker type is stored as one of "Sector", "Industry" or "Stock" |
| Storage.DecodeTickerType | src/store.rs:339-347 | a decoded type encodes back to the same text; any other text fails with "Unknown TickerType: " followed by that text |
| Storage.DecodeEncode | src/store.rs:324-347 | decoding an encoded ticker type gives it back |
| Storage.EncodeInjective | src/store.rs:329-333 | distinct ticker types are stored as distinct text |
| Storage.DecodeFailsOnOthers | src/store.rs:341-346 | decoding fails exactly on the texts no ticker type encodes to |
| Storage.PerfKeyLtIsStrictTotalOrder | src/store.rs:208 | ordering by stored type text, then ticker, is a strict total order on (type, ticker) keys |
| Storage.UpsertedLastWins | src/store.rs:130-158 | after an upsert batch a key is present iff it was present before or written; a written key holds the last row written for it; an unwritten key keeps its old row |
| Storage.UpsertedAppend | src/store.rs:130-158 | upserting two batches in turn equals upserting their concatenation |
| Storage.UpsertedFrom | src/store.rs:130-158 | where a batch writes a key, the key's final row does not depend on the table's earlier contents |
| Storage.UpsertedKeyed | src/store.rs:130-158 | upserts keep every row stored under its own key |
| Storage.SavedThenRead | src/store.rs:137-143 | the row written last for its (ticker, type) key is the row stored under that key afterwards |
| Storage.Store.GetStock | src/store.rs:70-95 | a stock comes back exactly when the ticker has a row, and it is that row, with that ticker |
| Storage.Store.AddStocks | src/store.rs:97-126 | the stocks table becomes the upsert of the batch by ticker; the other tables are unchanged |
| Storage.Store.SavePerformances | src/store.rs:130-158 | the performance table becomes the upsert of the rows by (ticker, type); the other tables are unchanged |
| Storage.Store.SaveCandles | src/store.rs:284-313 | the candle table becomes the upsert of the candles by (ticker, ds); the other tables are unchanged |
| Storage.Store.GetPerformance | src/store.rs:160-192 | a row comes back exactly when one exists for (ticker, type) and it is up to date; a stale row reads as absent |
| Storage.Store.QueryPerformances | src/store.rs:195-212 | the selected rows are exactly the stored rows of the wanted types, strictly ascending by the ORDER BY key |
| Storage.Store.KeepUpToDate | src/store.rs:214-217 | keeps exactly the up-to-date rows, in their order |
| Storage.Store.GetAllPerformances | src/store.rs:194-218 | exactly the up-to-date rows, strictly ascending by (stored type text, ticker) |
| Storage.Store.GetPerformancesByType | src/store.rs:220-249 | exactly the up-to-date rows of that type, strictly ascending by ticker |
| Storage.Store.GetCandles | src/store.rs:251-282 | exactly that ticker's stored candles with ds no earlier than 730 days before now, strictly ascending by ds |
| TvManager.FirstFailure | src/tv/tv_manager.rs:108-112 | every fetch before the index succeeded, and the fetch at the index (if any) failed |
| TvManager.InsertAll | src/tv/tv_manager.rs:114-119 | inserting rows one by one leaves the last row per key on top of the old map |
| TvManager.SortedValues | src/tv/tv_manager.rs:122-130 | the map's values, strictly ascending by ticker (so tickers are unique), and nothing else |
| TvManager.Manager.constructor | src/tv/tv_manager.rs:19-25 | the manager keeps the given store |
| TvManager.Manager.FetchStocks | src/tv/tv_manager.rs:101-132 | the call fails exactly when some time frame's fetch fails, with the first failure's error; the store has upserted every frame before that failure; on success stocks and rows are strictly ascending by ticker, and are exactly the last entry seen per ticker across the frames |
| TvManager.Manager.Listed | src/tv/tv_manager.rs:122-131 | both maps' values come back strictly ascending by ticker, and nothing else |
| TvManager.Manager.SaveFrame | src/tv/tv_manager.rs:109-119 | one time frame is saved to the store and merged into both maps |
| TvManager.MergedStocksTickers | src/tv/tv_manager.rs:108-119 | the merged tickers are exactly the union of the tickers the time frames returned |
| TvManager.MergedStocksLastFrameWins | src/tv/tv_manager.rs:108-119 | a ticker's merged stock is the one from the last time frame that listed it |
| TvManager.MergedPerfsTickers | src/tv/tv_manager.rs:117-119 | the merged performance tickers are exactly the union of those the time frames returned |
| TvManager.Manager.CachedOrFetched | src/tv/tv_manager.rs:27-59 | with any fresh stored row of the type, those rows come back, non-empty and ascending by ticker, and the store is unchanged; otherwise the fetch's result comes back, saved first when it succeeded |
| TvManager.Manager.FetchSectors | src/tv/tv_manager.rs:27-42 | fresh stored sector rows are returned ordered by ticker, without fetching and with the store untouched; otherwise the fetched rows are saved and returned, or the fetch's error, with the stock and candle tables unchanged |
| TvManager.Manager.FetchIndustries | src/tv/tv_manager.rs:44-59 | fresh stored industry rows are returned ordered by ticker, without fetching and with the store untouched; otherwise the fetched rows are saved and returned, or the fetch's error, with the stock and candle tables unchanged |
| PerfUtil.FirstHeader | src/tv/perf_util.rs:60-74 | the found index is a header whose data-field matches and no earlier header matches; nothing is found only when no header matches |
| PerfUtil.PerfCols | src/tv/perf_util.rs:57-74 | the column map's keys are among 1M, 3M, 6M and 1Y |
| PerfUtil.PerfColsSize | src/tv/perf_util.rs:57-59 | at most four columns are found |
| PerfUtil.FindPerfCols | src/tv/perf_util.rs:56-80 | the scan, including its early stop once four columns are found, maps each horizon that has a column to the index of the first header whose data-field names that horizon's performance interval |
| PerfUtil.RowName | src/tv/perf_util.rs:32-41 | a name without a line break is kept unchanged |
| PerfUtil.RowNameSplit | src/tv/perf_util.rs:38-40 | with a line break the name is the trimmed text before the first one; it holds no line break, so naming twice changes nothing |
| PerfUtil.ReturnsFilled | src/tv/perf_util.rs:42-51 | a map filled column by column with the parsed cells has exactly the found columns, each with its cell's percentage |
| PerfUtil.ParseCell | src/tv/perf_util.rs:44-50 | succeeds exactly when the cell exists, has text and parses, with the parsed value; a missing cell fails with "No cell for" and the column |
| PerfUtil.ParsePerfInfo | src/tv/perf_util.rs:26-54 | succeeds exactly when the row has a named first cell and every found column's cell parses; the value is the row's name, type and returns; no cells and an unnamed first cell give their own errors |
| PerfUtil.ParsePerformances | src/tv/perf_util.rs:7-24 | no performance column is an error naming the type; otherwise it succeeds exactly when every row parses, giving one row per table row, in order |
| TopStocksFetcher.TickerOfKey | src/tv/top_stocks_fetcher.rs:92-102 | a row gives a ticker exactly when it has a key containing ':' |
| TopStocksFetcher.TickerOfKeySplit | src/tv/top_stocks_fetcher.rs:95-102 | the ticker is the text after the key's first ':', trimmed and upper-cased |
| TopStocksFetcher.Cap | src/tv/top_stocks_fetcher.rs:102-105 | the loop's effective bound is at least 1 and at least the count |
| TopStocksFetcher.RowTickers | src/tv/top_stocks_fetcher.rs:90-107 | the result is the first tickers of the rows, in row order, skipping rows without a key or a ':'; there are min(all tickers, max(count, 1)) of them |
| TopStocksFetcher.Stopped | src/tv/top_stocks_fetcher.rs:103-105 | stopping once the count is reached leaves exactly the first max(count, 1) tickers of the whole table |
| TopStocksFetcher.KeptPrefix | src/tv/top_stocks_fetcher.rs:90-102 | the tickers of the first rows begin the tickers of all rows |
| TopStocksFetcher.KeptMembers | src/tv/top_stocks_fetcher.rs:90-102 | a value is collected exactly when some row yields it |
| TopStocksFetcher.TickersShaped | src/tv/top_stocks_fetcher.rs:95-102 | every collected ticker comes from some row's key and has no lower-case ASCII letter |
| Yf.CheckCrumb | src/yf.rs:83-86 | a crumb is accepted exactly when it is non-empty and does not contain "Unauthorized"; it is returned as is; a rejected crumb fails with the crumb error |
| Yf.ExchangeMap | src/yf.rs:124-132 | every accepted exchange maps to one of NYSE, ARCA, NASDAQ or OTC; an unknown one fails with a message naming it |
| Yf.ExchangeMapClasses | src/yf.rs:125-130 | NYSE comes from exactly "NYSE", ARCA from exactly "NYSE American", NASDAQ from exactly the names starting "Nasdaq", OTC from exactly those starting "OTC"; every other name fails |
| Yf.StockOfInfo | src/yf.rs:137-162 | succeeds exactly when the quote summary arrived with a known exchange, a sector and an industry; the stock keeps the ticker, takes the mapped exchange and "#" group urls, and is dated today; otherwise the first missing or unknown field in the order exchange, sector, industry names the error |

## Left out

- Browser automation is not modelled: the page reads, clicks, sleeps, progress bar and `get_or_init_page`. The header `data-field` attributes, the rows' cell texts and the rows' `data-rowkey` attributes are parameters. src/browser.rs, src/tv/stock_info_loader.rs, src/tv/top_industry_groups.rs and src/tv/mod.rs are not part of this model.
- `fetch_top_stocks` and `fetch_top_stocks_with_industries_filter` only build a fetcher from the page and call `fetch_stocks`, so they are left out with the browser.
- HTTP is not modelled: the crumb request, `fetch_ticker_info` and the Axum handlers. The crumb's response body and the `TickerInfo` result are parameters.
- The SQLite engine is not modelled: the pool, the migrations, the 30-day eviction, the shared singleton and the transactions. Every store operation is modelled as succeeding, so SQL errors and their propagation through `?` are not captured.
- Candle `volume` is a `nat`; the `u64`/`i64` casts in `get_candles` and `save_candles` are not modelled.
- The clock and the time zone are parameters: `now` is local time in whole seconds, with no daylight-saving change, so the `unwrap` on an ambiguous local time in `is_upto_date` is not modelled. The market hours are a parameter.
- Calendar-month subtraction in `compute_perf` is the parameter `minusMonths`.
- chrono's ISO week key is modelled as the week index `(day + 3) / 7`, counting Monday-based weeks. Two days share an index exactly when they share (ISO year, ISO week), and indices ascend as those pairs do. That correspondence with chrono is stated here, not proved.
- Case mapping is ASCII only: Rust's `to_uppercase`/`to_lowercase` also map non-ASCII letters, and can change a string's length.
- Floating point is not modelled: arithmetic is exact `real`, with no NaN, infinity or rounding error. The `f64` parser is the parameter `parseF64`.
- Util.ComputePerf: requires the close of each horizon's picked candle (the one `min_by_key` chooses) to be non-zero, because dividing by it in `f64` would give an infinity or NaN, which `real` cannot represent; closes of other candles are unconstrained, as they are never divided by.
- Util.ClosestClose: requires the picked candle's close to be non-zero, for the same reason as Util.ComputePerf.
- Util.ComputeRs: requires a non-zero base multiplier, for the same reason.
- Util.ParsePercentage: the error quotes the input between double quotes without Rust's `Debug` escaping, and the parser's own message in the error chain is not modelled.
- RrgUtil.History: dates are day numbers rather than the `%Y-%m-%d` text.
- RrgUtil.Tail: follows a release build, where `tail_len + 1` wraps to 0 at the largest `usize`; a debug build panics there instead.
- RrgUtil.RsRatio and RrgUtil.RsMomentum: their own contracts state only the length. Their values are stated by RrgUtil.Normalise, RrgUtil.NoFallback and RrgUtil.Parity.
- Util.ReadStocks: the final shuffle is left out (the model returns the list before it), as are file reading, path canonicalisation and logging. File contents are a parameter.
- Summaries.Summarize: `into_group_map_by` iterates a `HashMap` in no fixed order, so groups of equal size may come out in any order. The model lists groups in order of first appearance. The `is_empty` checks on groups cannot fire, because grouping never makes an empty group.
- TvManager.Manager.FetchStocks: each time frame's fetch result is a parameter of type (stocks, performance rows), as `fetch_stocks` in src/tv/tv_manager.rs uses it. This does not line up with the signatures in the repository:
  - `TopStocksFetcher::fetch_stocks` returns a list of tickers;
  - `add_stocks` takes one argument, not two.

  The model follows src/tv/tv_manager.rs and ignores the extra argument. The frames after the first failure are never fetched in the source; the model ignores their results.
- The browser and page fields of the manager are left out with the browser.
- `Performance::new` is not part of this model. A parsed table row is `PerfUtil.PerfRow` (name, type and returns by horizon).
- PerfUtil.ParseCell: the error messages leave out the column index suffix (" at <index>").
- PerfUtil.ParsePerfInfo: the columns are visited in `HashMap` order, so when several cells are bad the error reported is any one of theirs. The contract does not say which one.
- PerfUtil.ParsePerformances: the ticker type in the error message is written as the variant's name, taken to be what its `Debug` format prints.
- Yf.ExchangeMap: the `panic!` on an unknown exchange is modelled as a failure carrying the panic's message.
- Yf.StockOfInfo: today's date is a parameter. The `symbol` and `exchangeCode` fields of `TickerInfo` are carried but not used, as in the source.
