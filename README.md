# Dashboard core: date windows, chart gaps, 4h signal resampling, stats table

This project models the parts of the trading dashboard `vbt_dashboard.py` that
compute something, as opposed to drawing or wiring the UI. It models five things:

- **The date window.** Both chart callbacks take the date picker's
  `YYYY-MM-DD` strings. They parse them with `strptime(s, '%Y-%m-%d')`,
  reformat them as `YYYY.MM.DD` and slice a time-indexed frame with
  `frame[start : end]`. These bounds have day resolution, so every row dated
  on the first or the last day is included (module `Dates`, module `Series`).
- **The gap list.** `main_chart` chooses the 15-minute or the 4-hour price
  table for the chosen symbol and slices it. It then collects `dt_breaks`:
  the index labels of the rows whose Close is missing. These become the
  x-axis range breaks (module `Ohlc`, module `Dashboard`).
- **The 4h signals.** The 15-minute entry and exit signals are resampled to
  4-hour buckets with an OR (`resample_apply("4h", "any")`). Buckets are
  labelled by their left edge. A bucket with no base rows is false. The RSI
  callback uses these resampled signals on the 4h timeframe (module
  `Resample`, module `Dashboard`).
- **Timeframe dispatch.** Each callback handles only the tokens `"15m"` and
  `"4h"`. Any other token leaves the local variables unbound, so the callback
  fails (`UnboundTimeframe`). `main_chart` parses its dates before it
  dispatches. `contruct_rsi` dispatches first and parses the dates later,
  inside `rsi_indicator`.
- **The stats table.** This is the start-up code that builds the portfolio
  statistics table (module `Stats`):
  - the list of symbols, in order of first appearance;
  - the column-wise concatenation of the per-portfolio statistics;
  - the trade-duration rows at positions 21 and 22 floored to whole seconds,
    then written back under their labels;
  - `reset_index`, stringification of every cell, and the rename of the
    `agg_stats` and `index` columns.
  The frame being built is the class `StatsFrame`. The stringified table is
  the class `TextTable`.

Timestamps are naive integers (seconds since 1970-01-01). The calendar day of
a timestamp `t` is `t / 86400` and its 4h bucket is `t / 14400`, both floored.
Durations in the stats table are integers of nanoseconds, as pandas stores them.

The frame slice is modelled the way pandas implements it on a monotonic index:
- `lo` is the first position whose day is not before the start;
- `hi` is the first position whose day is after the end;
- the rows in between are selected, and none when the two positions cross.

`Series.SliceIsFilter` proves that on a strictly increasing index this equals
the reference definition: keep the rows dated within the bounds, in order.

The source differs from a plain reading of the dashboard's intent in these
places. The model follows the source:
- An end date before the start date gives an empty slice. It is not an error.
- An unknown timeframe token fails because a local variable is unbound. The
  model calls this error `UnboundTimeframe`.
- The table has `2 + number of symbols` columns: `Metrics`, `WholePortfolio`
  and then one column per symbol.

## Model

| member | source | states |
|---|---|---|
| Dates.MonthToken | vbt_dashboard.py:211 | `%m` accepts a token iff it is one or two ASCII digits whose decimal value is a month 1..12, and it yields that value |
| Dates.DayToken | vbt_dashboard.py:211 | `%d` accepts one or two ASCII digits with value 1..31, or a space and a non-zero digit, and yields that decimal value; nothing else is accepted |
| Dates.IndexOf | vbt_dashboard.py:211 | finds the first occurrence of the separator, or reports that there is none |
| Dates.ParseDashed | vbt_dashboard.py:211-212 | `strptime(s, '%Y-%m-%d')` succeeds only with a real calendar date: year 1..9999, month 1..12, a day that exists in that month. On success the text starts with four digits and a dash, and the year is the value of those digits |
| Dates.Pad2 | vbt_dashboard.py:211-212 | `%m`/`%d` output is two digits whose decimal value is the field |
| Dates.Pad4 | vbt_dashboard.py:211-212 | `%Y` output is four digits whose decimal value is the year |
| Dates.FormatDotted | vbt_dashboard.py:211-212 | `strftime('%Y.%m.%d')` is ten characters with dots at positions 4 and 7 |
| Dates.ParseDotted | vbt_dashboard.py:230 | pandas reads the dotted bound back only as a valid calendar date |
| Dates.DottedRoundTrip | vbt_dashboard.py:211-212 | reading back the reformatted bound gives exactly the date strptime parsed |
| Dates.ReformatKeepsDigits | vbt_dashboard.py:258-259 | on a canonical `YYYY-MM-DD` the reformat keeps the year, month and day digits and replaces the dashes with dots |
| Dates.CanonicalFields | vbt_dashboard.py:258-259 | on the canonical shape the parsed fields are the decimal values of the three digit groups |
| Dates.CanonicalAccepted | vbt_dashboard.py:258-259 | every canonical `YYYY-MM-DD` whose three groups form a real calendar date is accepted, and it parses to exactly that date |
| Dates.DayNumber | vbt_dashboard.py:230 | the day a bound denotes as a count of days since the epoch, 1970-01-01 being day 0 |
| Dates.NextDay | vbt_dashboard.py:230 | the following calendar day is a valid date (except after 9999-12-31) and stays in the same year unless the date is 31 December, when it is 1 January of the next year |
| Dates.DayNumberNext | vbt_dashboard.py:230 | consecutive calendar days, across month and year ends and leap days, have consecutive day numbers |
| Dates.MarchYearLength | vbt_dashboard.py:230 | a year counted from 1 March has 366 days iff the following calendar year is a leap year, else 365 |
| Dates.Pad2Inverse | vbt_dashboard.py:211-212 | zero-padding the value of two digits gives back the same two digits |
| Dates.Pad4Inverse | vbt_dashboard.py:211-212 | zero-padding the value of four digits gives back the same four digits |
| Series.StartPosition | vbt_dashboard.py:230 | the left search position of the start bound lies within the series |
| Series.EndPosition | vbt_dashboard.py:230 | the right search position of the end bound lies within the series |
| Series.SliceByDay | vbt_dashboard.py:230 | the label slice is one contiguous run of the frame's rows |
| Series.SliceIsFilter | vbt_dashboard.py:230 | on an increasing index the slice holds exactly the rows dated within the bounds, in order |
| Series.SliceAfterLast | vbt_dashboard.py:230 | if the first row is dated after the end, the slice is empty |
| Series.SliceBeforeFirst | vbt_dashboard.py:230 | a leading row dated before the start is dropped: the slice equals the slice of the remaining rows |
| Series.SliceFromHead | vbt_dashboard.py:230 | if the first row is within the bounds, the slice starts with it |
| Series.FilterByDayMembers | vbt_dashboard.py:230 | a row is in the reference filter iff it is in the series and dated within the bounds |
| Series.FilterByDayEmpty | vbt_dashboard.py:230 | if no row is within the bounds, nothing is selected |
| Series.SliceContents | vbt_dashboard.py:230 | the slice is increasing, and a row (label and value) belongs to it iff the same row is in the frame and dated within the bounds |
| Series.CrossedBoundsEmpty | vbt_dashboard.py:230 | an end day before the start day gives an empty slice |
| Series.Times | vbt_dashboard.py:233 | (definition) `index.to_list()` lists the labels in row order |
| Ohlc.SymbolBars | vbt_dashboard.py:221-222 | concatenating the four price columns of a symbol succeeds iff the symbol has all four. Each row's bar holds the four prices at that label, and the index is kept |
| Ohlc.ObservedTimes | vbt_dashboard.py:235 | `Close.dropna().index` is no longer than the slice, and each label in it carries a row with a Close |
| Ohlc.KeepAbsent | vbt_dashboard.py:237 | the comprehension keeps exactly the labels that are not in the dropped list |
| Ohlc.Breaks | vbt_dashboard.py:233-237 | every break is the label of a row whose Close is missing |
| Ohlc.ObservedTimesMembers | vbt_dashboard.py:235 | `Close.dropna().index` holds exactly the labels of rows with a Close |
| Ohlc.MissingCloseTimesMembers | vbt_dashboard.py:233-237 | the reference list holds exactly the labels of rows without a Close |
| Ohlc.KeepAbsentAgree | vbt_dashboard.py:237 | the comprehension depends only on which labels are in the dropped list |
| Ohlc.BreaksAreMissingCloses | vbt_dashboard.py:233-237 | on a unique index `dt_breaks` equals the rows without a Close, in index order |
| Ohlc.BreaksExact | vbt_dashboard.py:233-237 | a label is a break iff some row with that label has no Close |
| Ohlc.SplitCounts | vbt_dashboard.py:233-237 | rows with a Close plus rows without one add up to all rows |
| Ohlc.MissingCloseTimesIncreasing | vbt_dashboard.py:237 | the rows without a Close come in increasing label order |
| Ohlc.BreaksPartition | vbt_dashboard.py:233-237 | breaks and observed labels are disjoint, together they cover the slice's index, their counts add up to the rows, and the breaks are increasing |
| Resample.BucketOfMonotone | vbt_dashboard.py:57-58 | later timestamps never fall in earlier 4h buckets |
| Resample.EmptyBuckets | vbt_dashboard.py:57-58 | (definition) the false buckets `lo .. hi-1`, each labelled by its left edge; that they fill exactly the gap between two observed buckets is `Resample.NewBucketStep` |
| Resample.ResampleAny | vbt_dashboard.py:57-58 | the result is empty iff the input is empty, and the first bucket is the floor of the first timestamp |
| Resample.ResampleAnyCorrect | vbt_dashboard.py:57-58 | bucket k covers `[(b0+k)·4h, (b0+k+1)·4h)` from the first to the last base bucket. It is true iff some base signal in it is true |
| Resample.TailFacts | vbt_dashboard.py:57-58 | the rows after the first stay increasing and do not fall in an earlier bucket |
| Resample.SameBucketStep | vbt_dashboard.py:57-58 | merging a row into the bucket of the next row keeps the OR characterisation |
| Resample.NewBucketStep | vbt_dashboard.py:57-58 | opening a new bucket, followed by empty gap buckets, keeps the OR characterisation |
| Resample.FirstBucket | vbt_dashboard.py:57-58 | the first row's bucket is true iff that row or a later row in the same bucket is true |
| Resample.TailBucket | vbt_dashboard.py:57-58 | the first row does not affect other buckets |
| Resample.SingleSignalOneBucket | vbt_dashboard.py:57-58 | a single true base signal gives exactly one true 4h bucket: the one that contains it |
| Resample.ResampleColumns | vbt_dashboard.py:57-58 | resampling the signal frame keeps its symbol columns, and each increasing, non-empty column is resampled with the OR characterisation |
| Stats.Unique | vbt_dashboard.py:18 | `unique()` of the traded columns has the same symbols without repeats |
| Stats.FirstIndex | vbt_dashboard.py:18 | the first position of a symbol holds it, and no earlier position does |
| Stats.FirstIndexExtend | vbt_dashboard.py:18 | appending a row does not move the first appearance of a symbol already present |
| Stats.UniqueKeepsFirstAppearanceOrder | vbt_dashboard.py:18 | the symbols are listed in order of first appearance |
| Stats.RecordsShape | vbt_dashboard.py:21 | every concatenated record lists the whole portfolio's metrics, one value each |
| Stats.Records | vbt_dashboard.py:21 | (definition) the concatenated records are the whole portfolio's followed by each symbol's, in symbol order |
| Stats.StatsFrame.Concat | vbt_dashboard.py:21 | `concat(axis=1)` gives one column per record and one row per metric, and cell `(i, k)` is metric i of record k |
| Stats.FloorToSecond | vbt_dashboard.py:22-23 | `floor('s')` has no sub-second part, is not larger than the input and differs from it by less than one second |
| Stats.FloorValue | vbt_dashboard.py:22-23 | a Timedelta or a Timestamp floors to its whole second (not above it, less than one second below), NaT stays NaT, and a value of any other kind has no `floor` |
| Stats.FloorAll | vbt_dashboard.py:22-23 | the row can be floored iff none of its cells is a value without `floor`, and then each cell is floored in place |
| Stats.StatsFrame.SetRow | vbt_dashboard.py:22-23 | `.loc[label] = values` replaces every row with that label, or appends a row when there is none |
| Stats.StatsFrame.FloorRowInto | vbt_dashboard.py:22-23 | `iloc` past the end is an error, a cell without `floor` is an error, and otherwise the floored row is stored under the label |
| Stats.FlooredRowFloors | vbt_dashboard.py:22-23 | a floored row can be floored again, so row 22 floors after line 22 stored the floored row 21 there |
| Stats.StatsFrame.FloorDurationRows | vbt_dashboard.py:22-23 | rows 21 and 22 are floored in order and the first failure is reported: `iloc[21]` past the end, a row-21 cell without `floor`, `iloc[22]` past the end of a 22-row frame whose row line 22 replaced, a row-22 cell without `floor`. It succeeds iff none of these happens, and then row 21 is stored under the win label and row 22 under the loss label; with the rows in place every other cell is unchanged |
| Stats.DisplayCell | vbt_dashboard.py:22-23 | only the duration rows change, and each floored duration is whole seconds within one second of the original |
| Stats.ConcatReadiness | vbt_dashboard.py:21-23 | records whose duration rows can be floored give a frame whose duration rows can be floored, and the frame's rows 21 and 22 floor iff every record's values there do |
| Stats.RowFloorableColumn | vbt_dashboard.py:22-23 | a row of the concatenated frame floors iff every record's value at that position has `floor` |
| Stats.DurationFloorError | vbt_dashboard.py:21-23 | the exception lines 22-23 end in, read off the records; there is none iff both positional reads succeed and both rows floor |
| Stats.ReadyRecordsFloor | vbt_dashboard.py:21-23 | records with the duration rows at positions 21 and 22 never make lines 22-23 fail |
| Stats.OutcomeOnRecords | vbt_dashboard.py:21-23 | the frame-level outcome of lines 22-23 is the record-level error `DurationFloorError` |
| Stats.FlooredFrame | vbt_dashboard.py:21-23 | concatenating then flooring reports exactly `DurationFloorError` of the records, and with ready records the frame's cells are the records' floored values |
| Stats.StatsFrame.ResetIndexAsText | vbt_dashboard.py:24 | `reset_index().astype(str)` puts the metric labels first, followed by every cell stringified |
| Stats.TextTable.constructor | vbt_dashboard.py:24 | a text table is rectangular: every row has one cell per column |
| Stats.Renamed | vbt_dashboard.py:25 | a name that is not a key keeps itself, and a key becomes one of the new names |
| Stats.TextTable.Rename | vbt_dashboard.py:25 | renaming changes only the column names listed in the map, in place, and leaves the rows unchanged |
| Stats.Header | vbt_dashboard.py:24-25 | the header has two columns more than there are symbols |
| Stats.HeaderNames | vbt_dashboard.py:24-25 | the header is `Metrics`, `WholePortfolio`, then the symbols in order |
| Stats.RenderText | vbt_dashboard.py:24-25 | the text table has the renamed header, the metric labels first and every cell stringified in place |
| Stats.BuildStatsTable | vbt_dashboard.py:18-25 | The start-up block as a whole. It fails iff `DurationFloorError` of the records is an error, and then with that error: `iloc[21]` or `iloc[22]` past the end, or a cell without `floor` in row 21 or 22. On success the table has the renamed header; when the duration rows are where the code reads them it has one row per metric with its label first, and every cell is the stringified, floored value |
| Dashboard.TimeframeOf | vbt_dashboard.py:219-228 | the `if`/`elif` chain: `"4h"` picks the 4h tables, `"15m"` the 15m tables, and every other token picks nothing |
| Dashboard.EntriesH4 | vbt_dashboard.py:57 | `clean_entries_h4` has the symbols of the base entries, and each increasing, non-empty column is OR-resampled into 4h buckets |
| Dashboard.ExitsH4 | vbt_dashboard.py:58 | `clean_exits_h4` has the symbols of the base exits, and each increasing, non-empty column is OR-resampled into 4h buckets |
| Dashboard.DayBounds | vbt_dashboard.py:209-212 | A start date strptime rejects fails first, then an end date it rejects. Otherwise the result is the day numbers of the two dates |
| Dashboard.MainChart | vbt_dashboard.py:208-237 | The dates are checked first, start before end, and a rejected date fails with that date's text; then the timeframe. `"4h"` and `"15m"` pick the 4h and 15m tables, and anything else fails. A symbol that is not in the table fails. The chart is a contiguous run of that symbol's bars, and every break is a row of it without a Close |
| Dashboard.MainChartWindow | vbt_dashboard.py:219-237 | With valid dates whose day numbers are `first` and `last`, a known timeframe and a symbol whose index is increasing, the chart succeeds. Its bars are exactly the rows within the days, and its breaks are exactly the labels among them whose Close is missing. The breaks are increasing, and together with the labels that have a Close they cover the window without overlap |
| Dashboard.ConstructRsi | vbt_dashboard.py:289-301 | An unknown timeframe fails first. Then a symbol missing from the RSI, RSI-band, entry or exit table fails, whatever the dates; then a bad start date, then a bad end date fails with that date's text. With valid dates it succeeds iff the symbol is in all four tables. `"15m"` slices the 15m RSI and the base signals into contiguous runs, and `"4h"` slices the 4h RSI and the OR-resampled signals |
| Dashboard.ResampledIncreasing | vbt_dashboard.py:57-58 | the resampled signal index is strictly increasing |
| Dashboard.ResampledWindow | vbt_dashboard.py:271-272 | In the window of a resampled signal, every bucket is aligned to 4h and true iff some base signal in it is true. The window holds exactly the resampled buckets dated within the days |
| Dashboard.ConstructRsiValue | vbt_dashboard.py:289-301 | with valid dates, a known timeframe and a symbol in the RSI, RSI-band, entry and exit tables, the chart is the three day slices of that symbol's RSI, entries and exits |
| Dashboard.SignalTablesIncreasing | vbt_dashboard.py:290-299 | the entry and exit tables the timeframe picks hold the symbol, and their columns are increasing when the base signals are |
| Dashboard.SlicedChartWindow | vbt_dashboard.py:260-272 | each of the three day slices is increasing and holds exactly the rows of its series dated within the days |
| Dashboard.RsiChartWindow | vbt_dashboard.py:289-301 | on either timeframe, with valid dates and increasing series, the chart succeeds and its RSI, entries and exits are increasing and hold exactly the rows of the chosen tables dated within the days |
| Dashboard.RsiH4SignalsWindow | vbt_dashboard.py:295-301 | on the 4h timeframe the chart's entries and exits are the OR-resampled base signals within the days: each bucket is aligned to 4h and true iff some base signal in it is true |

## Left out

- Loading the pickled price, indicator, signal and portfolio files (lines 13-17) is I/O. The model receives the loaded data as values (`Dashboard.Store`, `Stats.StatsRecord`).
- The Dash app, its layout, dropdowns, date picker and callback wiring are UI and are not modelled. This includes how the picker is first filled (lines 191-195).
- Figures, plot styling and titles are not modelled. This includes the `%b %d, %Y` title text of lines 209-210, which uses the same parse as the bounds.
- The portfolio slices and trade plots `pf[symbol][start:end]` (lines 241, 251-252) need vectorbt's portfolio objects and are not modelled.
- The Bollinger-band objects are not modelled beyond the symbols they hold. `contruct_rsi` looks the symbol up in the RSI band table (lines 292, 297), so a missing symbol fails there, and `rsi_indicator` slices the bands (line 261), which cannot fail on a monotonic index. The code that would draw them is commented out, so their values reach no output. `main_chart` only picks a price band table (lines 223, 228) and never reads it.
- The values of `pf.stats()` come from vectorbt's portfolio and are inputs here. Prices and RSI values are an opaque type `V`. No floating point is modelled.
- The `print(stats_df)` of line 26 is output only.
- Stats.StatsFrame.ResetIndexAsText: pandas' `astype(str)` is the parameter `show`. Its exact text forms, such as `0 days 02:03:04` or `nan`, are not modelled.
- Stats.StatsFrame.Concat: records must share their metric labels. The outer join and NaN filling that `concat` does for differing labels are not modelled, and neither is the `level_0` fallback of `reset_index`.
- Stats.TextTable.Rename: renaming is per column name. Two columns that end up with the same name are allowed, as in pandas. Reasoning about collisions is limited to `Stats.HeaderNames`, which assumes no symbol is called `index` or `agg_stats`.
- Dates.ParseDashed: strptime's `\d` and whitespace handling for non-ASCII digits is not modelled. Only ASCII digits and the separators in the format are read.
- Dates.FormatDotted: years are always zero-padded to four digits. The C library may print years below 1000 unpadded, but such years never come out of the date picker.
- Dates.ParseDotted: only the `YYYY.MM.DD` shape that `FormatDotted` produces is read back. Pandas' general string-to-date parser is not modelled.
- Series.SliceByDay: slicing a non-monotonic index, where pandas raises `KeyError`, is not modelled. The contents theorems assume a strictly increasing index, as the loaded frames have.
- Timestamps are whole seconds, not nanoseconds, and have no time zone.
- Resample.ResampleAny: the resampling uses pandas semantics: buckets by left edge, empty buckets false, closed on the left. Vectorbt's internal implementation is not modelled.
- Dashboard.MainChart: the date picker is clearable (line 188), so a cleared date reaches `strptime` as `None` and raises `TypeError`. The dates are strings here, so that failure is not expressible.
- Dashboard.ConstructRsi: the test `entries is not None` of line 269 is always true for the signals looked up from the frames, so the model always slices the signals.
