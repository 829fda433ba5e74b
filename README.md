# Stock_Analysis data rules in Dafny

This project models the data rules underneath the Stock_Analysis Streamlit
dashboard, with the widgets, the market-data provider and the clock
abstracted away, and proves their properties.

Page one (`src/components/page_one.py`):

- **`fetch_data_interval`.** A short period is fetched in one download. A
  long period is fetched window by window: 30-day windows from a fixed
  lookback up to "now", with the last window clipped. The non-empty chunks
  are merged by concatenating them and keeping the first row of each
  timestamp.
- **`flatten_data`.** A ticker-keyed table becomes long rows, each tagged
  with its ticker.
- **`process_data`.** The price columns get their Portuguese labels. The
  `Data` column is built as `DD/MM/YYYY HH:MM` from `Datetime` or `Date`,
  depending on the period.
- **`calculate_metrics`.**
- **The `time_period` table.**
- **The per-ticker metric block of the main area.**

Helpers (`src/utils/helpers.py`):

- the sector filter of `get_all_tickers_with_sectors`;
- the tier and sign choice of `format_large_number` and `format_currency`;
- `get_trading_days` and `get_date_ranges`;
- `get_performance_summary`: filter, pivot, the loop over the tickers, and
  the return formulas.

Page two (`src/components/page_two.py`):

- the error-to-empty rule of `fetch_data_timeframe`;
- the normalised-price series and the empty-skip loop of
  `show_comparative_graph`;
- `option_map`.

## Modelling choices

- **Numbers.** Prices are reals. Float division is extended with `±inf`
  and `NaN` (`Numbers.Float`) wherever the source can divide by zero.
  Rounding is not modelled.
- **Time.**
  - An instant is an integer count of seconds on the naive local clock
    that `datetime.now()` reads.
  - A request date is that count divided by 86400. This is what
    `strftime('%Y-%m-%d')` keeps of the instant.
  - Calendar dates in the helpers are proleptic Gregorian ordinals, as
    `date.toordinal()` gives them.
- **Parameters.**
  - The download is a function parameter from request to rows.
  - "Now" and "today" are parameters.
  - The São Paulo wall clock is a parameter `clock` from timestamp to
    date-time reading.
- **Exceptions.** The following exceptions of the modelled paths are an
  `Err` value, or the empty result that the source's `except` branch
  returns:
  - `iloc[-1]` on an empty selection;
  - an empty sector-key list;
  - a lookup with an unknown picker label;
  - a missing `Date`/`Datetime` column;
  - a date before year 1;
  - a duplicate pivot pair or a missing pivot column.

  Two raising paths are not modelled: errors of page one's provider
  downloads and dates outside pandas' timestamp range. "## Left out" lists
  both.
- **Imperative code.**
  - The loops of `fetch_data_interval`, `flatten_data`,
    `get_performance_summary`, `show_comparative_graph` and the page-one
    metric block are methods with loops.
  - Each loop is proved against a function that specifies it.
  - The functions' properties are proved as lemmas.
- **Code over prose.** Where descriptions of the system and its code
  disagree, the model follows the code:
  - For prices 100, 110, 121 the daily change is `121/110 - 1 = 0.1`
    (`Performance.ThreePriceExample`).
  - `format_currency` has no thousands tier, although its docstring lists
    K (`Formatting.CurrencyHasNoThousands`).

## Model

| member | source | states |
|---|---|---|
| PageOneFetch.LookbackDays | src/components/page_one.py:22-30 | A chunked period reaches back a positive number of days. The four values are stated by `PageOneSidebar.LabelLookbacks`. |
| PageOneFetch.IsChunked | src/components/page_one.py:15 | Exactly 6mo, 1y, 5y and max are fetched in chunks; `PageOneSidebar.ChunkedLabels` states which picker labels these are. |
| PageOneFetch.StartDate | src/components/page_one.py:19-30 | The start lies before now, exactly `LookbackDays` calendar days before today. |
| PageOneFetch.Windows | src/components/page_one.py:37-65 | There is a window exactly when the start lies before the end. `WindowsTile` and `WindowCount` state the tiling and the count. |
| PageOneFetch.RequestFor | src/components/page_one.py:47-58 | A request for a date range with the window's interval, whose start day is not after its end day. |
| PageOneSidebar.LabelLookbacks | src/components/page_one.py:22-30 | The four long picker labels reach back 180, 365, 1825 and 7300 days. |
| PageOneFetch.WindowsTile | src/components/page_one.py:37-65 | The windows tile `[start, end)`: the first starts at the start date, each starts where the previous one ended, and the last ends at `end`. Each window spans at most 30 days; all but the last span exactly 30. |
| PageOneFetch.WindowCount | src/components/page_one.py:40-44 | The number of windows is the range length divided by 30 days, rounded up. |
| PageOneFetch.ChunkCounts | src/components/page_one.py:22-44 | A chunked period issues ceil(lookback / 30) downloads. |
| PageOneFetch.RequestsFor | src/components/page_one.py:47-58 | One request per window, in window order, with the window's bounds cut down to calendar days. |
| PageOneFetch.RequestsContiguous | src/components/page_one.py:42-58 | The requested day ranges are contiguous. The first starts `lookback` days before today and the last ends today. |
| PageOneFetch.Downloads | src/components/page_one.py:52-58 | One table per request, in request order, each the provider's answer to its request. |
| PageOneFetch.NonEmpty | src/components/page_one.py:61-62 | Every kept chunk is non-empty. |
| PageOneFetch.Concat | src/components/page_one.py:69 | `pd.concat` in list order. `ConcatNonEmpty` and `ConcatEmpty` state its properties. |
| PageOneFetch.ConcatEmpty | src/components/page_one.py:69 | Concatenating empty tables gives the empty table. |
| PageOneFetch.ConcatNonEmpty | src/components/page_one.py:61-69 | Skipping empty chunks does not change the concatenation. |
| PageOneFetch.FetchDataInterval | src/components/page_one.py:13-75 | A short period issues exactly one whole-period download and returns its table. A chunked period issues the window requests in order and returns the merge of their tables. |
| PageOneFetch.FetchMonthly | src/components/page_one.py:36-75 | The while loop issues exactly the requests of `Windows(start, end)` and returns the merge of their downloads. |
| PageOneFetch.ProgressStep | src/components/page_one.py:40-65 | One loop turn keeps the loop invariant. That turn's window is done, its request issued, and its table kept when non-empty. |
| PageOneFetch.WindowsStep | src/components/page_one.py:40-44 | A loop turn moves the window `[current, next)` from the remaining windows to the done ones. |
| PageOneFetch.KeptStep | src/components/page_one.py:52-62 | One more request adds its table to the kept list exactly when that table is non-empty. |
| PageOneFetch.ProgressDone | src/components/page_one.py:67-75 | At loop exit every window has been requested. Concatenating and deduplicating the kept chunks (or returning an empty table) is the merge. |
| PageOneFetch.FirstIndex | src/components/page_one.py:71 | The first position holding a timestamp: no earlier row has that timestamp. |
| PageOneFetch.DropDuplicated | src/components/page_one.py:71 | Deduplication never lengthens the table. The lemmas below state which rows it keeps and in what order. |
| PageOneFetch.DropDuplicatedTimes | src/components/page_one.py:71 | Deduplication keeps every timestamp of the input and adds none. |
| PageOneFetch.DropDuplicatedDistinct | src/components/page_one.py:71 | After deduplication no timestamp repeats. |
| PageOneFetch.DropDuplicatedKeepsFirst | src/components/page_one.py:71 | Each kept row is the first row of the input with its timestamp (`keep='first'`). |
| PageOneFetch.DropDuplicatedKeepsOrder | src/components/page_one.py:71 | Kept rows appear in the order of their first occurrences. |
| PageOneFetch.FirstIndexSnoc | src/components/page_one.py:71 | Appending a row does not move the first occurrence of a timestamp already present. |
| PageOneFetch.FirstIndexLast | src/components/page_one.py:71 | An appended row with a new timestamp is that timestamp's first occurrence. |
| PageOneFetch.DropDuplicatedOfDistinct | src/components/page_one.py:71 | A table with distinct timestamps is left unchanged. |
| PageOneFetch.DropDuplicatedIdempotent | src/components/page_one.py:71 | Deduplicating twice equals deduplicating once. |
| PageOneFetch.Merge | src/components/page_one.py:67-75 | The merged table has every timestamp of the concatenated chunks, each exactly once. |
| PageOneFetch.MergeBoundary | src/components/page_one.py:67-72 | A timestamp shared by two chunks is kept once, with the earlier chunk's row. |
| PageOneFetch.MergeNothing | src/components/page_one.py:68-75 | With no non-empty chunk the result is the empty table. |
| PageOneFetch.TimesOfSnoc | src/components/page_one.py:71 | The timestamps of a table with one more row are the old ones plus that row's. |
| PageOneReshape.FlattenData | src/components/page_one.py:78-110 | The loop over the ticker level builds one block per ticker and returns `Flattened`. The empty-level and flat-table branches are as in the source. |
| PageOneReshape.Flattened | src/components/page_one.py:78-110 | A ticker-keyed table with tickers becomes a tagged long table; with an empty level it keeps its rows. A flat table is tagged when some ticker is requested and is unchanged otherwise. |
| PageOneReshape.TickerBlocks | src/components/page_one.py:86-97 | One block per ticker of the level, each with one row per timestamp. |
| PageOneReshape.ConcatBars | src/components/page_one.py:99-101 | `pd.concat` of the blocks. `ConcatBlocksLength` and `ConcatBlocksAt` state its length and where each block's rows land. |
| PageOneReshape.TagAll | src/components/page_one.py:105-109 | Each row keeps its time and quote and is tagged with the given ticker. |
| PageOneReshape.FlattenedGrouped | src/components/page_one.py:80-101 | With at least one ticker, a ticker-keyed table becomes a tagged long table of tickers × timestamps rows. |
| PageOneReshape.FlattenedRowAt | src/components/page_one.py:86-101 | Row k of block i, at position i·\|rows\|+k, is the i-th ticker's quote at the k-th timestamp, tagged with that ticker. |
| PageOneReshape.ConcatBlocksAt | src/components/page_one.py:99-101 | In the concatenation, row k of block i sits at that block's start plus k. |
| PageOneReshape.ConcatBlocksLength | src/components/page_one.py:99-101 | Concatenating equal blocks gives (count × size) rows. |
| PageOneReshape.BlockStartIsProduct | src/components/page_one.py:99-101 | Block i of equal blocks of n rows starts at i·n. |
| PageOneReshape.BlockStartBelow | src/components/page_one.py:99-101 | An earlier block ends no later than a later block starts. |
| PageOneReshape.TickerBlock | src/components/page_one.py:86-95 | One row per timestamp for the selected ticker. |
| PageOneReshape.FlattenedFlat | src/components/page_one.py:106-109 | A flat table is tagged with `tickers[0]` only when it has no Ticker column and `tickers` is non-empty, with times and quotes kept. Otherwise it is returned unchanged. |
| PageOneReshape.RenamedColumns | src/components/page_one.py:127-133 | Open, High, Low and Close get Abertura, Máxima, Mínima and Fechamento. Every other label, Volume included, is kept. No English price label remains. |
| PageOneReshape.Rename | src/components/page_one.py:127-133 | No label comes out as an English price label. Every other label, Volume included, is kept. |
| PageOneReshape.RenameColumns | src/components/page_one.py:127-133 | Each label is renamed in place, and the column count is kept. |
| PageOneReshape.DateColumn | src/components/page_one.py:122-125 | The display date is read from `Date` exactly for the chunked periods, and from `Datetime` otherwise. |
| PageOneReshape.ProcessData | src/components/page_one.py:113-134 | Fails exactly when the index column is not the period's date column (`Datetime` for short periods, `Date` for long ones). Otherwise: the columns are the index, the renamed labels and `Data`, and every `Data` entry parses back to the wall-clock reading of its timestamp. |
| DisplayDate.Format | src/components/page_one.py:123-125 | `%d/%m/%Y %H:%M` is 16 characters, with separators at 2, 5, 10 and 13. |
| DisplayDate.Parse | src/components/page_one.py:123-125 | The inverse of `Format`: `FormatRoundTrip` and `ParseRoundTrip` state both directions. |
| DisplayDate.FormatRoundTrip | src/components/page_one.py:123-125 | Parsing a formatted reading gives back the reading. |
| DisplayDate.ParseRoundTrip | src/components/page_one.py:123-125 | A string that parses is the format of what it parsed to. |
| DisplayDate.PaddedRoundTrip | src/components/page_one.py:123-125 | Zero-padded digits parse back to the number. |
| DisplayDate.ParsedPadded | src/components/page_one.py:123-125 | A digit string is the zero-padded form of the number it spells, and that number fits its width. |
| DisplayDate.Padded | src/components/page_one.py:123-125 | Zero-padding gives exactly `width` decimal digits. |
| DisplayDate.DigitRoundTrip | src/components/page_one.py:123-125 | A digit's character reads back as that digit. |
| DisplayDate.ShiftDigit | src/components/page_one.py:123-125 | Appending a digit to a number below 10^k stays below 10^(k+1), and division by ten recovers both parts. |
| DisplayDate.SplitDisplay | src/components/page_one.py:123-125 | A well-separated 16-character string is its five fields joined by their separators. |
| PageOneMetrics.Selected | src/components/page_one.py:138-140 | The ticker filter applies only to a table with a Ticker column and a truthy ticker. It then gives `QuotesOf` that ticker: its rows' quotes in table order, each once per row, and no other quote. |
| PageOneMetrics.PercentChange | src/components/page_one.py:144-145 | The percentage is defined exactly when the first close is non-zero, and then equals change / first × 100. It is NaN exactly for 0/0. |
| PageOneMetrics.HighOf | src/components/page_one.py:146 | The high is at least every Máxima and equals one of them. |
| PageOneMetrics.LowOf | src/components/page_one.py:147 | The low is at most every Mínima and equals one of them. |
| PageOneMetrics.MetricsOf | src/components/page_one.py:142-148 | last = last close. change = last − first close. pct = PercentChange. high/low are attained bounds. volume = the Volume sum. |
| PageOneMetrics.CalculateMetrics | src/components/page_one.py:137-149 | Fails exactly on an empty selection; otherwise gives the metrics of the selected rows. |
| PageOneMetrics.SingleRowNoChange | src/components/page_one.py:142-145 | A single row gives change 0, and a percentage of 0 (NaN when the close is 0). |
| PageOneMetrics.PercentOfNoChange | src/components/page_one.py:145 | An unchanged close gives 0% (NaN at a zero close). |
| PageOneMetrics.UntaggedIgnoresTicker | src/components/page_one.py:139 | Without a Ticker column the ticker argument has no effect. |
| PageOneMetrics.TaggedEnds | src/components/page_one.py:139-145 | With a ticker given, the last close is that ticker's last row and the change is measured from its first row, whatever rows lie between. |
| PageOneMetrics.SnapshotOf | src/components/page_one.py:235-245 | The last-row open, high, low, close and volume. Mean close × row count = the sum of closes. `var_delta` is defined exactly when the last open is non-zero, and then equals (close − open) / open. |
| PageOneMetrics.SnapshotAverageBounded | src/components/page_one.py:241 | The mean close lies between the lowest and the highest close. |
| PageOneMetrics.TickerSnapshots | src/components/page_one.py:225-245 | The map's keys are exactly the selected tickers with rows. Each value is the snapshot of that ticker's own rows. |
| PageOneMetrics.QuotesOfOthers | src/components/page_one.py:228 | Rows of other tickers, inserted anywhere in the table, do not change a ticker's selection. |
| PageOneMetrics.QuotesOfNone | src/components/page_one.py:228-232 | A ticker with no rows selects nothing. |
| Frames.QuotesOf | src/components/page_one.py:228 | A quote is selected exactly when a row of that ticker carries it. |
| Frames.QuotesOfAppend | src/components/page_one.py:139-140 | Filtering two tables one after the other gives the two filtered parts one after the other, so order and repeats are kept. |
| Frames.QuotesOfSingle | src/components/page_one.py:139-140 | A single row gives its quote exactly when it carries the ticker. |
| PageOneSidebar.ChoiceFor | src/components/page_one.py:162-170 | A picker label has a choice exactly when it is one of the seven labels, and the choice is the table's. |
| PageOneSidebar.ChunkedLabels | src/components/page_one.py:162-170 | Exactly the labels of six months or more are fetched in chunks. |
| PageOneSidebar.ChunkedIntervals | src/components/page_one.py:162-170 | Chunked labels ask for bars of one day or longer. |
| Sectors.AllTickers | src/utils/helpers.py:23-24 | The whole ticker column, in file order. |
| Sectors.InSector | src/utils/helpers.py:26-27 | Exactly the tickers whose sector equals the key. |
| Sectors.InSectorAppend | src/utils/helpers.py:26-27 | Filtering works part by part, so file order is kept. |
| Sectors.GetAllTickersWithSectors | src/utils/helpers.py:17-27 | Fails exactly on an empty key list. `all` gives every ticker; any other key gives that sector's tickers. |
| Sectors.FirstKeyOnly | src/utils/helpers.py:22 | Keys after the first are ignored. |
| Sectors.SectorWithinAll | src/utils/helpers.py:23-27 | A sector's tickers are among all the tickers. |
| Formatting.LargeTier | src/utils/helpers.py:128-137 | No suffix below 1e3, K below 1e6, M below 1e9, B below 1e12, T otherwise (both directions of each). |
| Formatting.ScaledRange | src/utils/helpers.py:128-137 | The printed magnitude is in [1, 1000) in every middle tier. |
| Formatting.FormatLargeNumber | src/utils/helpers.py:118-137 | N/A exactly on a missing value. Non-numbers are printed with `str`. For numbers: "-" exactly when x < 0; the tier's suffix; magnitude × divisor = \|x\|; and the magnitude is in range. |
| Formatting.LargeNumberNegation | src/utils/helpers.py:125-126 | Negating a non-zero number only toggles the "-" prefix. |
| Formatting.CurrencyTier | src/utils/helpers.py:96-103 | No suffix below 1e6, M below 1e9, B below 1e12, T otherwise. There is never a thousands tier. |
| Formatting.FormatCurrency | src/utils/helpers.py:86-103 | N/A exactly on a missing value. Non-numbers are printed with `str`. For numbers: always "R$ ", the tier's suffix, and magnitude × divisor = \|x\|. |
| Formatting.CurrencyIgnoresSign | src/utils/helpers.py:93-94 | f(−x) = f(x). |
| Formatting.CurrencyHasNoThousands | src/utils/helpers.py:96-97 | Values in [1e3, 1e6) are printed in full with no suffix, where `format_large_number` uses K. |
| Calendar.Weekday | src/utils/helpers.py:207 | The weekday is in 0..6. |
| Calendar.IsTradingDay | src/utils/helpers.py:207 | Monday to Friday. `GetTradingDays` and `WeekHasFiveTradingDays` state what the filter keeps. |
| Calendar.GetTradingDays | src/utils/helpers.py:204-215 | Strictly ascending. A day is listed exactly when it lies in [start, end] and is Monday to Friday. The first and last entries lie within the range. |
| Calendar.HolidaysIgnored | src/utils/helpers.py:191-215 | `include_holidays` has no effect. |
| Calendar.LengthStep | src/utils/helpers.py:204-207 | Extending the range by a day adds one exactly when that day is a trading day. |
| Calendar.WeekHasFiveTradingDays | src/utils/helpers.py:204-207 | Any seven consecutive days hold exactly five trading days. |
| Calendar.LengthsFrom | src/utils/helpers.py:204-207 | A seven-day range's length is the sum of its day indicators. |
| Calendar.FiveIndicators | src/utils/helpers.py:207 | The seven day indicators of a week sum to five. |
| Calendar.DayIndicator | src/utils/helpers.py:207 | Day j of a week is a trading day when (start weekday + j) mod 7 < 5. |
| Calendar.FiveOfSeven | src/utils/helpers.py:207 | Whatever the starting weekday, five of seven days are weekdays. |
| Calendar.WeekdayShift | src/utils/helpers.py:207 | Moving j days moves the weekday by j mod 7. |
| DateRanges.DaysInMonth | src/utils/helpers.py:157 | Months have 28 to 31 days. |
| DateRanges.DaysBeforeMonth | src/utils/helpers.py:157 | The days before a month are never negative. |
| DateRanges.DaysBeforeMonthTable | src/utils/helpers.py:157 | The days before a month: the common-year table, plus one after February in a leap year. |
| DateRanges.DaysBeforeMonthBound | src/utils/helpers.py:157 | A month ends within its year (365 or 366 days). |
| DateRanges.DaysBeforeYear | src/utils/helpers.py:150-157 | Each earlier year contributes 365 or 366 days. |
| DateRanges.Ordinal | src/utils/helpers.py:150-157 | An ordinal is at least 1. |
| DateRanges.GetDateRanges | src/utils/helpers.py:143-168 | Fails exactly when a year ago falls before 0001-01-01. Otherwise: the five named ranges, all ending today, starting 30, 90, 180 and 365 days back, and on 1 January. |
| DateRanges.YearToDateWithinYear | src/utils/helpers.py:157-165 | The year-to-date range is non-empty and shorter than its year. |
| DateRanges.RangesNested | src/utils/helpers.py:153-156 | 1 Year starts before 6 Months, which starts before 3 Months, then 1 Month, then today. |
| DateRanges.OrdinalWeekdays | src/utils/helpers.py:207-210 | The ordinal count agrees with the weekday rule: 2024-01-01 is a Monday and 2024-01-06 is not a trading day. |
| Performance.Filtered | src/utils/helpers.py:258 | Exactly the rows whose symbol is requested. |
| Performance.FilteredAppend | src/utils/helpers.py:258 | Filtering a concatenation gives the filtered parts in order, keeping repeats. |
| Performance.FilteredSingle | src/utils/helpers.py:258 | A single row is kept exactly when its symbol is requested. |
| Performance.HasDuplicatePair | src/utils/helpers.py:261 | Two rows share a (datetime, symbol) pair, which makes `pivot` raise. |
| Performance.Present | src/utils/helpers.py:266 | Some row carries the ticker; otherwise `pivot_df[ticker]` raises. |
| Performance.ObsOf | src/utils/helpers.py:261 | A ticker's pivot column before sorting. It never has more cells than there are rows. |
| Performance.ObsOfAppend | src/utils/helpers.py:261 | A column collects its ticker's rows in table order, once each. |
| Performance.ObsOfSingle | src/utils/helpers.py:261 | A single row contributes one cell exactly when it carries the ticker. |
| Performance.Insert | src/utils/helpers.py:261 | Insertion adds exactly one element. |
| Performance.InsertFrom | src/utils/helpers.py:261 | Insertion keeps a lower bound on the timestamps. |
| Performance.InsertSorted | src/utils/helpers.py:261 | Insertion keeps the column sorted by datetime. |
| Performance.SortByTime | src/utils/helpers.py:261 | `sort_index` gives a sorted permutation of the column. |
| Performance.SortByTimeOfSorted | src/utils/helpers.py:261 | A column already ordered by datetime is left unchanged. |
| Performance.Prices | src/utils/helpers.py:266 | `dropna` keeps no more entries than the column has. |
| Performance.PricesAppend | src/utils/helpers.py:266 | `dropna` keeps the present prices in order, once each. |
| Performance.PricesSingle | src/utils/helpers.py:266 | A single cell gives its price exactly when the price is present. |
| Performance.PricesInsert | src/utils/helpers.py:261-266 | Inserting a cell adds exactly its price, if present, to the prices. |
| Performance.PricesSortByTime | src/utils/helpers.py:261-266 | Sorting a column neither adds nor loses a price. |
| Performance.Series | src/utils/helpers.py:261-266 | `pivot_df[t].dropna()` holds exactly the present prices of `t`'s rows, with multiplicity. |
| Performance.SeriesInTableOrder | src/utils/helpers.py:261-266 | When `t`'s rows already come in datetime order, the series is their present prices in table order. |
| Performance.Pivot | src/utils/helpers.py:261 | The pivot has a column exactly for each symbol with rows. |
| Performance.PivotCovers | src/utils/helpers.py:261-266 | Every requested ticker has a pivot column exactly when no `pivot_df[ticker]` lookup fails. |
| Performance.Ratio | src/utils/helpers.py:279 | `a / b - 1` is defined exactly when b ≠ 0. |
| Performance.StepReturns | src/utils/helpers.py:289 | One return per step, each the ratio of consecutive prices minus one. |
| Performance.ReturnAt | src/utils/helpers.py:289 | A step return is defined exactly when the earlier price is non-zero. |
| Performance.DropNaNMembers | src/utils/helpers.py:289 | `dropna` keeps exactly the entries that are not NaN. |
| Performance.DropNaN | src/utils/helpers.py:289 | `dropna` never lengthens its input. |
| Performance.DropNaNAppend | src/utils/helpers.py:289 | `dropna` keeps the non-NaN returns in order, once each. |
| Performance.DropNaNSingle | src/utils/helpers.py:289 | A single return is kept exactly when it is not NaN. |
| Performance.RecordOf | src/utils/helpers.py:271-305 | latest = last price. daily = last / second-to-last − 1. Weekly and monthly use the references `max(0, n-6)` and `max(0, n-22)`. overall = last / first − 1. Volatility is absent exactly when at most one return is left. |
| Performance.ShortWeekIsOverall | src/utils/helpers.py:277-279 | With n ≤ 6 the weekly change is the overall change. |
| Performance.ShortMonthIsOverall | src/utils/helpers.py:281-283 | With n ≤ 22 the monthly change is the overall change. |
| Performance.TwoPrices | src/utils/helpers.py:275-295 | Two prices give no volatility, and a daily change equal to the overall change. |
| Performance.ThreePriceExample | src/utils/helpers.py:275-286 | For prices 100, 110, 121: overall 0.21, daily 0.1, and a volatility is computed. |
| Performance.RowFor | src/utils/helpers.py:266-269 | A column yields a row exactly when it holds two or more prices, and the row is that column's record. |
| Performance.Candidates | src/utils/helpers.py:266-269 | One candidate per pivot column, each carrying its own ticker. |
| Performance.Records | src/utils/helpers.py:265-305 | Each produced row is its ticker's candidate row. |
| Performance.RecordsComplete | src/utils/helpers.py:265-305 | Every listed ticker with a candidate row is in the output. |
| Performance.RecordsListed | src/utils/helpers.py:265 | Every output row belongs to a listed ticker. |
| Performance.RecordsAppend | src/utils/helpers.py:265-297 | Output rows follow the order of the ticker list. |
| Performance.LoopStep | src/utils/helpers.py:265-305 | One loop turn appends the ticker's record exactly when its column holds two or more prices. |
| Performance.Kept | src/utils/helpers.py:264-305 | What the loop has appended after a prefix of the tickers: no more rows than tickers. `KeptIsRecords` ties it to `Records`. |
| Performance.KeptIsRecords | src/utils/helpers.py:264-305 | What the loop keeps is the listed tickers' candidate rows, in order. |
| Performance.SummaryLoop | src/utils/helpers.py:264-305 | With every ticker present the loop returns the kept records. A missing column empties the result. |
| Performance.PerformanceSummary | src/utils/helpers.py:256-313 | A duplicate pair or a missing ticker gives the empty table. |
| Performance.Fails | src/utils/helpers.py:256-313 | The summary raises exactly on a duplicate pair or a requested ticker without rows. |
| Performance.GetPerformanceSummary | src/utils/helpers.py:256-313 | The method computes `PerformanceSummary`. |
| Performance.SummaryMembership | src/utils/helpers.py:265-313 | A ticker appears exactly when nothing fails and its series has two or more prices. |
| Performance.SummaryRowValue | src/utils/helpers.py:271-305 | Each row is the record of its ticker's series, which has two or more prices. |
| Performance.SummaryListed | src/utils/helpers.py:265 | Each row belongs to a requested ticker. |
| Performance.NoQualifyingTicker | src/utils/helpers.py:307-310 | With no ticker of two or more prices the summary is empty. |
| Numbers.Div | src/components/page_one.py:145 | Float division: defined exactly for a non-zero divisor, NaN exactly for 0/0. |
| Numbers.Add | src/components/page_two.py:30 | Float addition: defined exactly when both operands are. |
| Numbers.Scale | src/components/page_two.py:29 | Scaling by a positive factor keeps definedness. |
| Numbers.Minus1 | src/utils/helpers.py:279 | Subtracting one keeps definedness. |
| Numbers.MaxOf | src/components/page_one.py:146 | The maximum is an element and bounds every element. |
| Numbers.MinOf | src/components/page_one.py:147 | The minimum is an element and bounds every element. |
| Numbers.Sum | src/components/page_one.py:148 | The sum of a column. `SumAppend` and `SumBounds` state its properties. |
| Numbers.SumAppend | src/components/page_one.py:148 | The sum of a concatenation is the sum of the sums. |
| Numbers.SumBounds | src/components/page_one.py:241 | The sum lies between length × the lower bound and length × the upper bound. |
| Numbers.Mean | src/components/page_one.py:241 | The mean of a column. `MeanWithin` and `MeanBetweenMinAndMax` bound it. |
| Numbers.BoundStep | src/components/page_one.py:241 | The per-element step of the sum bounds. |
| Numbers.MeanWithin | src/components/page_one.py:241 | A mean lies within any bounds of its elements. |
| Numbers.MeanBetweenMinAndMax | src/components/page_one.py:241 | The mean lies between the minimum and the maximum. |
| Numbers.DivBetween | src/components/page_one.py:241 | Division by a positive count keeps the scaled bounds. |
| PageTwo.FetchDataTimeframe | src/components/page_two.py:12-18 | A raising download gives the empty table; otherwise its table. |
| PageTwo.PctChange | src/components/page_two.py:29 | NaN at row 0; each later row is that row's percentage step. |
| PageTwo.PctAt | src/components/page_two.py:29 | A step is defined exactly when the earlier close is non-zero. |
| PageTwo.PctChangeIsStep | src/components/page_two.py:29 | With no zero close, pct[i] = (close[i] / close[i−1] − 1) × 100. |
| PageTwo.Zeroed | src/components/page_two.py:30 | A missing value counts as 0. Any other value is kept, and the result is never missing. |
| PageTwo.Total | src/components/page_two.py:30 | The running total of `cumsum`; `TotalIsStepSum` states its value. |
| PageTwo.CumSum | src/components/page_two.py:30 | The running total skipping NaN, and NaN where the row itself is NaN. |
| PageTwo.Normalized | src/components/page_two.py:30 | Each entry is 100 plus that row's running sum. |
| PageTwo.NormalizedFirstUndefined | src/components/page_two.py:29-30 | The first normalised value is undefined. |
| PageTwo.TotalIsStepSum | src/components/page_two.py:29-30 | The running total after row i is the sum of steps 1..i. |
| PageTwo.NormalizedIsRunningSum | src/components/page_two.py:29-30 | normalised[i] = 100 + Σ_{j=1..i} pct[j] for i ≥ 1. |
| PageTwo.NormalizedSteps | src/components/page_two.py:29-30 | Consecutive normalised values differ by pct[i]. |
| PageTwo.NormalizedDoesNotCompound | src/components/page_two.py:29-30 | Closes 100, 110, 121 normalise to 110 and 120 (not 121): a sum, not a product. |
| PageTwo.ShowComparativeGraph | src/components/page_two.py:20-40 | No tickers gives None. A chart exists exactly when some download is non-empty. Its series are exactly those tickers', each the normalised closes of its own table. |
| PageTwo.Loaded | src/components/page_two.py:25-31 | The selected tickers whose download is not empty; `ShowComparativeGraph` keys its chart by them. |
| PageTwo.CorrelationColumn | src/components/page_two.py:107-122 | Defined exactly for a chosen known label, giving that label's column; otherwise a KeyError. |
| PageTwo.OptionMapFacts | src/components/page_two.py:107-121 | The default selects Close. The five labels map onto Close, Open, High, Low and Volume, one-to-one. |

## Left out

- **Streamlit rendering.**
  - Left out: the sidebar, columns, expanders, charts and messages, and `add_technical_indicators` (the `ta` library).
  - Why: these draw the page and compute nothing the rules depend on.
- **The provider and the network.**
  - Left out: yfinance downloads, and the `ticker` argument they carry.
  - Why: they become a function parameter from request to rows.
  - Also left out: the progress `print`, which becomes the `requests` output.
- **Sleeps and logging.** Left out because they have no effect on results.
- **Time zones.**
  - Left out: time-zone localisation and conversion (`tz_localize`, `tz_convert`).
  - Why: they need the time-zone database.
  - The wall-clock reading is the `clock` parameter of `PageOneReshape.ProcessData`, and `flatten_data`'s UTC localisation is not modelled.
  - The fetch loop's clock is naive, so daylight-saving shifts are not modelled.
- **File input and output.**
  - Left out: `get_top_15_tickers`, the CSV read of `get_all_tickers_with_sectors`, `ensure_dir`, and `src/utils/fetch_tickers_sectors.py`.
  - Why: these are file or network I/O. The ticker/sector table is given as a sequence.
- **Untouched helpers.**
  - `parse_date`: relies on `strptime` and a pandas fallback that are not part of this model.
  - `format_number` and `format_percentage`: do text rendering only.
  - `show_correlation_matrix`: the Spearman correlation is floating-point statistics.
- Formatting.FormatLargeNumber: the magnitude is the exact quotient. `.2f` rounding and printing are not modelled, and an infinite input is not a `Value`.
- Formatting.FormatCurrency: the same limits as `FormatLargeNumber`.
- Performance.RecordOf: the volatility is given as the sample of returns it is computed from; `std() * sqrt(252)` itself is not modelled. Prices are reals, so float rounding of the ratios is not modelled.
- Performance.GetPerformanceSummary: the `column` argument is not modelled. Each row carries the chosen price column's value.
- PageOneReshape.ProcessData:
  - It is modelled on values. It returns the new column labels and the `Data` column, where the source updates the table in place.
  - Only the header and timestamps are modelled. The price cells are unchanged by the source.
- PageOneReshape.FlattenData: the assignment `data['Ticker'] = tickers[0]` is modelled as a returned table carrying the tag. Changes to the caller's table through aliasing are not modelled.
- PageTwo.ShowComparativeGraph:
  - The chart is modelled as the map from ticker to normalised series.
  - Left out: aligning the series on a common date index in `pd.DataFrame(all_data)`, and the Plotly figure.
  - The outer `try` around each iteration is not modelled: `FetchDataTimeframe` already turns a raising download into an empty table, and nothing else in the modelled loop body raises.
- PageOneFetch.FetchDataInterval:
  - Timestamps are integers. Requests carry day numbers, which stand for the `%Y-%m-%d` strings.
  - The download is total. `yf.download` at src/components/page_one.py:16 and 52-58 has no `try`, so a provider error reaches the caller. That path is not modelled.
- Calendar.GetTradingDays: every ordinal is accepted. `pd.date_range` at src/utils/helpers.py:204 raises for dates outside pandas' timestamp range (years 1677 to 2262), and that error is not modelled.
- DateRanges.GetDateRanges: `date.today()` is the `today` parameter.
