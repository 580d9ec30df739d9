# XAU/USD signal engine — a Dafny model

This project models the core of a small gold (XAU/USD) trading-signal system:

- **Signal engine** (`python_signal_engine.py`):
  - `detect_signals` derives a per-bar trend of -1, 0 or 1 from a zero-lag EMA and an ATR volatility band.
  - Long and short entries are crossovers of the close over that EMA inside an established trend.
  - The engine loop asks three timeframes (5m, 15m, 1h) whether an entry appeared in their last three bars.
  - When at least two timeframes agree, it posts one signal to a webhook, retrying with exponential backoff.
- **Debug runner** (`debug_signal_run.py`): confirms 5m entries with the 1h trend and optionally posts the result.
- **Bar cache** (`data_cache.py`): one CSV file per (symbol, interval). Newly fetched bars are merged by datetime, the newer row wins, and each file keeps the newest 2000 rows.
- **CSV bootstrap** (`tools/bootstrap_all.py`): infers symbol and interval from `SYMBOL__INTERVAL.csv` file names.
- **Dedupe table** (`dedupe_store.py`): maps a signal id to a timestamp, with get, set and purge.
- **Gold alert bot** (`xauusd_bot.py`): market hours, a one-percent price-move alert and a daily summary.
- **Key masking** helper (`test_twelvedata_fetch.py`).

Modules, one per source file:

- `Common`: `Option`, Python slicing, truncating `int()`, ASCII case mapping and `str.replace`.
- `SignalEngine`, `DebugRun`, `DataCache`, `BootstrapAll`, `DedupeStore`, `XauusdBot` and `TwelveDataFetch`.

Indicators are inputs, not recomputed:

- Prices are `real`.
- A pandas NaN is `None`, and every comparison with `None` is false, just as a comparison with NaN is.
- The EMA, ATR and RSI columns of the `ta` library arrive per bar next to the closes.
- The model computes everything `detect_signals` itself computes:
  - the lag;
  - the de-lagged source;
  - the rolling-maximum volatility band;
  - the trend column;
  - the crossover entries.

The clock, the network, the file system and sleeping are parameters or results:

- A retry loop receives one outcome per attempt. It returns the number of attempts and the list of sleeps it would perform.
- The cache directory is a map from file name to rows.
- The alert loop receives the UTC clock and the fetched price on each pass. It returns the Telegram messages it would send.

Where the repository's own tests and scripts expect something the code does not do, the model follows the code:

- **Trend has no hysteresis.** `test_signal_engine.py:31-41` (`test_stateful_trend_persistence`) expects the trend to persist after an upward crossing. In `python_signal_engine.py:38-40`, however, each bar's trend depends only on that bar: it is 0 inside the band and carries no state. `SignalEngine.TrendHasNoMemory` proves this.
- **No dedupe in the send path.** `demo_send.py:7-10` describes running "the dedup logic" and imports `send_signal_to_webhook_with_metadata`. `python_signal_engine.py` defines only `send_signal_to_webhook` (line 53), which posts without any dedupe check. `dedupe_store.py` is only the table, and nothing in the core calls it.

Two further properties of the code:

- **Long beats short.** When both directions reach two agreeing timeframes, the loop sends a long (`python_signal_engine.py:107-112`).
- **Short frames give no entries.** Nothing rejects a frame that is too short for the indicators; it simply produces no entries. `SignalEngine.ShortFrameHasNoEntries` proves this.

Consequences of the defaults, proved:

- An entry needs at least `3 * ema_length` = 210 earlier bars.
- So the engine loop, which fetches 100 bars per timeframe, can never send (`SignalEngine.ShortFetchesNeverSend`).
- The debug runner, at the configured limit of 210 bars, never finds a confirmed entry (`DebugRun.DefaultLimitNeverSends`).

## Model

| member | source | states |
|---|---|---|
| Common.TruncToInt | python_signal_engine.py:33 | `int()` of a float truncates toward zero: the result lies within 1 of `x` on the side of zero |
| Common.FindDoubleUnderscore | tools/bootstrap_all.py:16-17 | finds the first position of `__` at or after `from`, or reports that there is none |
| SignalEngine.Lag | python_signal_engine.py:33 | `int((ema_length-1)/2)` is the largest lag with `2*lag <= ema_length-1` |
| SignalEngine.DefaultLag | python_signal_engine.py:33 | with `ema_length=70` the lag is 34 |
| SignalEngine.Shift | python_signal_engine.py:35 | `shift(k)` is undefined for the first `k` bars and otherwise holds bar `i-k` |
| SignalEngine.DelaggedSource | python_signal_engine.py:34-35 | the EMA input `src + (src - src.shift(lag))` is `2*close[i] - close[i-lag]` from bar `lag` on and NaN before |
| SignalEngine.MaxOf | python_signal_engine.py:37 | the maximum of a window bounds every element and is attained |
| SignalEngine.WindowMax | python_signal_engine.py:37 | the maximum of the `w` bars ending at bar `i` bounds each of them and is one of them |
| SignalEngine.RollingMax | python_signal_engine.py:37 | `rolling(w).max()` is defined exactly from bar `w-1`, and there it is the largest value of the last `w` bars |
| SignalEngine.Volatility | python_signal_engine.py:36-37 | the band half-width is defined exactly from bar `3L-1`, and there it is `band_mult` times the largest ATR of the last `3L` bars |
| SignalEngine.TrendAt | python_signal_engine.py:38-40 | trend is 1 iff the close is above the upper band and not below the lower; -1 iff below the lower band; 0 otherwise |
| SignalEngine.Trends | python_signal_engine.py:38-40 | the trend column is the per-bar classification, one value per bar |
| SignalEngine.TrendIsPointwise | python_signal_engine.py:38-40 | every bar's trend is characterised by that bar's close, EMA and band alone, including when it is 0 |
| SignalEngine.TrendHasNoMemory | python_signal_engine.py:38-40 | two frames agreeing on one bar's inputs get the same trend there, whatever came before |
| SignalEngine.LongEntries | python_signal_engine.py:43-46 | a long entry at bar `i` iff the close crosses above the EMA from bar `i-1` to `i`, and the trend is 1 on both bars; never on bar 0 or where the EMA is NaN |
| SignalEngine.ShortEntries | python_signal_engine.py:47-50 | a short entry iff the close crosses below the EMA and the trend is -1 on both bars |
| SignalEngine.DetectSignals | python_signal_engine.py:31-51 | all five columns are aligned with the input; the trend column is the per-bar band classification `Trends` (1 above the upper band, -1 below the lower, else 0) and lies in [-1,1]; no bar is both a long and a short entry; a bar is a long (short) entry exactly when the close crosses above (below) the EMA there and the trend is 1 (-1) on that bar and the one before |
| SignalEngine.GetTrend | python_signal_engine.py:20-29 | `get_trend` gives exactly the trend column of `detect_signals` |
| SignalEngine.EntryNeedsFullWindow | python_signal_engine.py:37-50 | an entry can occur only at bar `3*ema_length` or later |
| SignalEngine.ShortFrameHasNoEntries | python_signal_engine.py:37-50 | a frame of at most `3*ema_length` bars has no entries at all |
| SignalEngine.AnyRecent | python_signal_engine.py:92-101 | `iloc[-3:].any()` holds iff one of the last three (or fewer) flags is set |
| SignalEngine.Decide | python_signal_engine.py:91-112 | sends a long iff at least two timeframes show a recent long; otherwise a short iff at least two show a recent short; else nothing. The payload is the last 5m close, trend and RSI. An empty 5m frame with agreement is an error |
| SignalEngine.AgreementCycle | python_signal_engine.py:83-112 | a signal sent by one pass of the loop carries the last 5m close and the band classification of that bar as its trend |
| SignalEngine.ShortFetchesNeverSend | python_signal_engine.py:83-112 | with frames of at most 210 bars (the loop fetches 100) the cycle never sends |
| SignalEngine.SendSignalToWebhook | python_signal_engine.py:53-75 | success iff one of the first three POSTs gets 200/201/202; stops at the first such attempt; makes 3 attempts on failure; sleeps `2^attempt` after each failed attempt |
| DebugRun.Mask | debug_signal_run.py:27-30 | a missing or empty secret becomes `<missing>`; otherwise the first and last `min(4,n)` characters around `...` |
| DebugRun.ConfirmLong | debug_signal_run.py:58 | `le5 & (t1h == 1)` spans both frames' labels and is true iff both have the label, with a 5m long entry and a 1h trend of 1 |
| DebugRun.ConfirmShort | debug_signal_run.py:59 | the same for short entries against a 1h trend of -1 |
| DebugRun.ConfirmedAreEntries | debug_signal_run.py:58-59 | for equally long frames, confirmation is a bar-by-bar conjunction, and no bar is confirmed both ways |
| DebugRun.LongConfirmedMeaning | debug_signal_run.py:58-72 | `long_agree` holds iff some row among the last three labels of the aligned columns is a 5m long entry whose 1h row has trend 1 |
| DebugRun.ShortConfirmedMeaning | debug_signal_run.py:59-73 | `short_agree` holds iff some row among the last three labels is a 5m short entry whose 1h row has trend -1 |
| DebugRun.Confirm | debug_signal_run.py:58-91 | once both frames have enough rows the run is evaluated, and a post goes out only with `send` and some agreement |
| DebugRun.SendChoice | debug_signal_run.py:81-91 | a signal goes out only with `send`: long iff long agreement, short iff short agreement without long agreement, carrying the close, RSI and trend of the last 5m bar |
| DebugRun.DebugMain | debug_signal_run.py:41-91 | stops with insufficient data iff a frame is missing or has fewer than 5 rows; otherwise the agreement flags are the confirmations of the two detected frames, the post is the one chosen from them, and without `send` nothing is posted |
| DebugRun.DefaultLimitNeverSends | debug_signal_run.py:51-91 | at the configured fetch limit of 210 bars the runner never finds an agreement and never posts |
| DataCache.SafeSymbol | data_cache.py:10 | `/` and `:` become `_`, and every other character is kept |
| DataCache.CacheFileName | data_cache.py:9-12 | the file name is the safe symbol, `__`, the interval and `.csv` |
| DataCache.LoadCache | data_cache.py:15-24 | the stored rows when the pair's file exists, otherwise nothing |
| DataCache.KeepLast | data_cache.py:30-31 | keeps the newest `max_rows` rows in order, and the whole frame when it is short enough |
| DataCache.SaveCache | data_cache.py:27-32 | only the pair's file changes, and it holds the newest `min(n, max_rows)` rows of the frame |
| DataCache.LastWith | data_cache.py:43 | the last row carrying a datetime exists iff the datetime occurs |
| DataCache.LastWithAppend | data_cache.py:42-43 | after concatenation, rows of the later frame shadow earlier rows with the same datetime |
| DataCache.DatetimesAppend | data_cache.py:42 | the datetimes of a concatenation are the union |
| DataCache.DropDuplicatesKeepLast | data_cache.py:43 | `drop_duplicates` keeps exactly the datetimes of the frame, and only rows of the frame |
| DataCache.DropDuplicatesIsUnique | data_cache.py:43 | after `drop_duplicates` every datetime occurs once |
| DataCache.DropDuplicatesKeepsLast | data_cache.py:43 | with `keep='last'` each kept row is the last row carrying its datetime |
| DataCache.Insert | data_cache.py:44 | insertion adds exactly one row, as a multiset |
| DataCache.InsertSorted | data_cache.py:44 | insertion preserves ascending order |
| DataCache.InsertStrict | data_cache.py:44 | inserting a new datetime preserves strictly ascending order |
| DataCache.SortByDatetime | data_cache.py:44 | the sort is a permutation of the rows |
| DataCache.SortKeepsDatetimes | data_cache.py:44 | the sort keeps the set of datetimes |
| DataCache.SortIsSorted | data_cache.py:44 | `sort_values('datetime')` yields ascending datetimes |
| DataCache.SortIsStrict | data_cache.py:43-44 | after deduplication the sorted frame is strictly ascending |
| DataCache.Merge | data_cache.py:42-44 | the merged frame is strictly ascending; its datetimes are the union; each row is the last row with its datetime in `existing + incoming` |
| DataCache.IncomingRowsWin | data_cache.py:42-43 | on a datetime collision the newly fetched row is kept; other rows come from the cache |
| DataCache.MergeHasOneRowPerDatetime | data_cache.py:42-44 | every datetime of either frame has exactly one row in the merge |
| DataCache.AppendToCache | data_cache.py:35-46 | with no cache file the new frame is saved and returned; otherwise the returned frame is `Merge` of the cached and the new rows (newer row wins, strictly ascending, union of datetimes), and its newest 2000 rows are saved |
| DataCache.AppendPersistsNewestRows | data_cache.py:35-46 | after an append the file holds the newest `min(n, 2000)` rows of the returned frame |
| DataCache.BootstrapFromCsv | data_cache.py:49-52 | the CSV rows are returned and their newest 2000 saved under the pair's file; no other file changes |
| BootstrapAll.RFind | tools/bootstrap_all.py:15 | the index of the last occurrence, or -1 |
| BootstrapAll.Basename | tools/bootstrap_all.py:15 | the base name is the suffix that starts right after the last `/` (the whole path when there is none), and it contains no `/` |
| BootstrapAll.SplitExtRoot | tools/bootstrap_all.py:15 | cuts at the last dot of the final component unless only dots precede it |
| BootstrapAll.Join | tools/bootstrap_all.py:24 | the joined path ends with the name; an absolute name replaces the folder; otherwise the folder is a prefix and a single `/` is inserted after it exactly when the folder is non-empty and lacks a trailing one |
| BootstrapAll.InferFromFilename | tools/bootstrap_all.py:14-20 | nothing iff the stem has no `__`; otherwise splits at the first `__`: the symbol is the part before it with `_`→`/`, upper-cased (so it contains no `_`), and the interval is the rest |
| BootstrapAll.InferAtSeparator | tools/bootstrap_all.py:14-19 | given the first `__` of the stem, inference returns exactly the upper-cased, `_`→`/` part before it and the part after it |
| BootstrapAll.BasenameOfJoin | tools/bootstrap_all.py:15-24 | joining a folder and a file name and taking the base name gives the file name back |
| BootstrapAll.RootOfCacheFileName | tools/bootstrap_all.py:15 | removing the extension of a cache file name leaves `safe__interval` |
| BootstrapAll.FirstSeparator | tools/bootstrap_all.py:16-17 | the first `__` of `safe__interval` is the one the naming added |
| BootstrapAll.InferInvertsCacheFileName | tools/bootstrap_all.py:14-20 | inference recovers symbol and interval from a cache file name, for an upper-case symbol without `_`, `:`, `//` or a trailing `/` and an interval without `/` |
| BootstrapAll.InferInvertsCachePath | tools/bootstrap_all.py:14-24 | the same holds for the cache file name joined to any folder |
| BootstrapAll.CallOf | tools/bootstrap_all.py:24-35 | a listed name gives a bootstrap call iff it ends in `.csv` (any case) and inference succeeds on its joined path; the call carries that path and the inferred symbol and interval |
| BootstrapAll.PlannedCalls | tools/bootstrap_all.py:23-35 | a dry run bootstraps nothing, and there are never more calls than listed files |
| BootstrapAll.PlannedCallsAreInferredCsv | tools/bootstrap_all.py:23-35 | every bootstrap call is for a listed `.csv` file, with the symbol and interval inferred from its path |
| BootstrapAll.PlannedCallsCoverInferredCsv | tools/bootstrap_all.py:23-35 | without dry run, every listed `.csv` file whose name can be inferred is bootstrapped with its inferred symbol and interval |
| DedupeStore.Get | dedupe_store.py:25-33 | the stored timestamp iff the id is present |
| DedupeStore.Set | dedupe_store.py:36-43 | insert-or-replace with the truncated timestamp; other ids unchanged |
| DedupeStore.Cleanup | dedupe_store.py:46-53 | keeps exactly the rows with timestamp at least `int(older_than)`, unchanged |
| DedupeStore.GetAfterSet | dedupe_store.py:25-43 | reading back a set id gives its truncated timestamp; other ids read as before |
| DedupeStore.CleanupShrinksAndIsIdempotent | dedupe_store.py:46-53 | cleanup only removes, leaves nothing older than the cutoff, and a second cleanup changes nothing |
| XauusdBot.GetXauusdPrice | xauusd_bot.py:17-36 | a price iff one of three attempts gets status 200 with a price; the first such; sleeps `1*attempt` after each failure, including the last |
| XauusdBot.IsMarketOpen | xauusd_bot.py:87-98 | closed exactly in the 48 hours from Friday 22:00 to Sunday 22:00 UTC |
| XauusdBot.MarketHoursIgnoreMinutes | xauusd_bot.py:92-96 | the minute never affects market hours |
| XauusdBot.CheckAndAlertPriceChange | xauusd_bot.py:51-79 | a failed fetch changes nothing; otherwise the file then holds the price; an alert iff a valid positive previous price differs by at least 1%; the alert records the previous and current price and the percent change `(current - last) / last * 100` that the message reports; the direction is up iff the price rose |
| XauusdBot.PercentRule | xauusd_bot.py:70-73 | `abs(percent) >= 1` iff the move is at least 1/100 of the previous price; the percent is positive iff the price rose |
| XauusdBot.Step | xauusd_bot.py:108-131 | the status is recorded; a price is checked only while open, and a price message carries exactly the alert of that check; the daily summary goes out iff 23:59 on a date not yet summarised, and that date is recorded |
| XauusdBot.FirstStepSummaries | xauusd_bot.py:127-131 | one pass sends at most one summary for a date, only on that date and when it was not yet summarised, and then records it |
| XauusdBot.StepStatusMessages | xauusd_bot.py:117-123 | one status message on the first pass, later only when the status changes, never more than one per pass |
| XauusdBot.Run | xauusd_bot.py:114-132 | successive passes thread the state; after a non-empty run the recorded status is the last pass's market status, and an empty run changes nothing |
| XauusdBot.SummaryAtMostOncePerDate | xauusd_bot.py:112-131 | over any run whose dates never go back, at most one summary per date, none for an already summarised date |
| TwelveDataFetch.MaskKey | test_twelvedata_fetch.py:22-25 | a missing or empty key becomes `<missing>`; a key of 4 or fewer characters is repeated around `...`; a longer one keeps 4 + 4 characters |
| TwelveDataFetch.MaskKeyAgreesWithMask | test_twelvedata_fetch.py:22-25 | `mask_key` agrees with the debug runner's `mask` on every input |

## Left out

- **`ta` indicators:** the EMA, ATR and RSI values are inputs, because their floating-point recurrences are outside the model. Their NaN warm-up shows up only through the `None`s of the inputs. An exception the library raises on a too-short frame is not modelled.
- **Floating point:** prices are exact reals. Rounding, `inf` and NaN produced by arithmetic (for example a division by a zero price) are not modelled. Only NaN from missing data is.
- **`fetch_ohlc`:** the Twelve Data client and its column conversion are not modelled. Fetched frames are inputs, and a failed fetch in the debug runner is a missing frame.
- **Loops and sleeping:**
  - the engine loop's `while True` and its 60-second sleep;
  - the exception handler, modelled as one cycle outcome;
  - the alert loop's `FETCH_INTERVAL` sleep.

  The models are single passes (`AgreementCycle`, `Step`) and a finite `Run`.
- **Logging and printing:** logging, printed diagnostics and `print_debug` produce no values the rest of the code reads.
- **Telegram and webhook transport:** posting is represented by the message or the signal that would be sent. `send_telegram_message` cannot fail in a way the loop observes.
- SignalEngine.SendSignalToWebhook: every send decision is modelled as reaching the POST attempts. Both callers pass the trend as a numpy `int64` (`python_signal_engine.py:108,111`, `debug_signal_run.py:84,88`). The `requests` JSON encoding rejects that type with a `TypeError` before any POST, and a `TypeError` is not a `RequestException`, so the retry loop would not catch it. This is not modelled. With the default parameters no send decision is ever reached (`SignalEngine.ShortFetchesNeverSend`).
- **Retry inputs:** `SendSignalToWebhook` and `GetXauusdPrice` require at least three per-attempt outcomes. The source always makes up to three attempts, and each attempt has some outcome.
- **GetXauusdPrice:**
  - A non-JSON body is treated as a request exception, since the `requests` library raises that as a `RequestException`.
  - A `price` field that `float()` rejects raises out of the function. That case is not modelled.
- XauusdBot.Step: the source reads the clock three times per pass: in `is_market_open` (`xauusd_bot.py:90`), in the loop (`xauusd_bot.py:116`) and in `send_daily_summary` (`xauusd_bot.py:104`). The model uses a single reading per pass. The third reading comes after a price check that can take tens of seconds. So a summary triggered at 23:59 can carry the next day's date, while `last_summary_date` records the loop's date. Step's promise that a summary carries the pass's date holds only for the single-reading model.
- XauusdBot.SummaryAtMostOncePerDate: the count is of summaries whose text carries date `d`. With the source's third clock reading, a summary sent at 23:59 of day `d` can carry `d+1`, and the pass at 23:59 of `d+1` sends another one for `d+1`. The lemma therefore holds for the single-reading model only.
- **Dates:** the UTC date is an integer day number, and calendar formatting of the summary is left out.
- **SQLite and locking:** the connection, the table creation and the module lock of `dedupe_store.py` are not modelled. The table is a map.
- **CSV files:**
  - Reading and writing CSV, and the float conversion in `load_cache`, are not modelled. A file is the sequence of rows it holds.
  - Datetimes are ordered integers.
  - The cache directory is implicit: only file names matter.
- **DataCache.SortByDatetime:** pandas' default sort is not stable. The model uses a stable insertion sort. The two agree here because rows reach the sort with unique datetimes.
- **`max_rows`** is a natural number: `save_cache` is never called with a negative limit.
- **Paths and case:**
  - Path handling follows POSIX (`/` only, `posixpath.splitext`).
  - `upper()` and `lower()` map ASCII letters only.
- **`os.listdir`:** the listing is an input sequence, and `bootstrap_from_csv` is modelled by `DataCache.BootstrapFromCsv`.
- BootstrapAll.PlannedCallsCoverInferredCsv: the planned calls are the attempts made when no call raises. In the source, an exception from `bootstrap_from_csv` ends `main`'s loop (`tools/bootstrap_all.py:34-35`), so later files get no call. One example is a CSV without a `datetime` column, which `data_cache.py:50` rejects.
- **Other files:** `tradingview_webhook.py`, `demo_send.py`, `telegram_test.py`, `tools/bootstrap_cache.py`, the test scripts other than `mask_key`, and the configuration lookups of `myconfig.py` are not part of this model. The one configuration value used is `FETCH_LIMIT` = 210 (`myconfig.py:25-26`).
