# Self-observer analytics and CSV import, modelled in Dafny

The app records "Trinity" states: a physical (P), cognitive (C) and impulse (S)
level, each from 0 to 10, with a timestamp, tags, a trend and a note. This
project models the app's analytics engine and its CSV exchange format:

- **Baseline**: the median, the interquartile outlier fence, and the
  per-dimension median summary with its sample size and low-confidence flag.
  It also covers the `YYYY-MM` month key.
- **Biorhythm**: the weighted mean and the moving average. It covers the
  24-hour dynamic baseline curve and the weekly burnout/manic classifier. The
  curve is built by grouping readings by local hour, averaging each hour,
  filling empty hours in place and smoothing around the clock.
- **Analytics**: the day chart of 48 half-hour slots. Each slot gets the
  standard circadian value, the baseline (standard or dynamic) and the first
  reading logged within 15 minutes of the slot.
- **AnalyticsTab**: the aggregation helpers of the analytics view. These are
  the days x 24 heatmap (sums accumulated in place, then divided) and the
  24-hour map. They also include the clamp, the state-summary rule table, the
  heat colour rule, the weekend and tag filters, and the latest deviation from
  baseline.
- **PeriodSummary**: the week and month windows, which hold the logs of a
  half-open time window in ascending time order. It also covers the week of
  the month.
- **Csv**: the importer `parseCSV` and the row layout the exporter writes. The
  importer covers the quote-aware line scanner, header validation, dropped
  rows, the seconds-to-milliseconds promotion, and NaN-to-0 values.
- **NumberText, Sorting, Numeric, Trinity, Wrappers**: the supporting
  definitions.
  - NumberText covers JavaScript's integer text and the `parseInt` and
    `parseFloat` prefix parsers.
  - Sorting is the stable key sort that `Array.prototype.sort` performs.
  - Numeric holds sums and means.
  - Trinity is the log record and `filter`.
  - Wrappers holds `Option` and `Result`.

Some code changes state step by step, and that code is imperative Dafny:
- `calculateDynamicBaseline` fills an `array` in place, with two scanning loops.
- `buildHeatmapData` accumulates into an `array2` and then divides it in place.
- `buildHourMap` pushes into an array of 24 buckets.
- `parseLine` is a character loop.
- `generateTimeSlots` is a loop.

Each of these methods is proved equal to a specification function. The
lemmas state their properties against that function. Everything else is
functions and lemmas.

Values are exact `real` numbers and timestamps are `int` milliseconds. Clock
and calendar facts are parameters: the current time, local midnight, the
local hour of a timestamp and its day of the week. The locale month name and
the day of the month are parameters too. The text the exporter writes for a
date, a time and a number is given as functions.

## Model

| member | source | states |
|---|---|---|
| Sorting.SortBy | src/utils/baseline.ts:7 | The sort result is ascending by the key, has the input's length and is a permutation of the input (same multiset) |
| Sorting.SortByStable | src/utils/periodSummary.ts:15 | The sort is stable: for every key, the elements with that key appear in the output in their input order |
| Sorting.AscendingUnique | src/utils/baseline.ts:7 | Two ascending lists with the same multiset of elements are equal, so the sorted copy is determined by the input's elements |
| Baseline.SortAsc | src/utils/baseline.ts:7 | The numeric sort of a copy is ascending, a permutation of the input and of equal length |
| Baseline.SortAscOfAscending | src/utils/baseline.ts:7 | Sorting an already ascending list returns it unchanged |
| Baseline.MedianOfSingleton | src/utils/baseline.ts:5-10 | The median of the empty list is 0 and the median of [x] is x |
| Baseline.MedianOfPair | src/utils/baseline.ts:5-10 | The median of [a, b] is (a + b) / 2 in either order |
| Baseline.MedianPermutationInvariant | src/utils/baseline.ts:5-10 | Lists with the same multiset of values have the same median, so the median ignores input order |
| Baseline.MedianBetweenElements | src/utils/baseline.ts:5-10 | The median of a non-empty list lies between two of its elements, hence between its minimum and maximum |
| Baseline.MiddleOfAscending | src/utils/baseline.ts:8-9 | For a sorted non-empty list the median is its middle element (or the mean of the two middle ones), between its first and last element |
| Baseline.KeepWithinCounts | src/utils/baseline.ts:20 | The fence filter keeps every occurrence of each in-range value and no occurrence of any other value |
| Baseline.KeepWithinAscending | src/utils/baseline.ts:20 | Filtering an ascending list keeps it ascending |
| Baseline.FilterOutliersSpec | src/utils/baseline.ts:12-21 | Under four values the input is returned unchanged. From four on, the result is ascending and holds exactly the input's values inside [q1 - 1.5 iqr, q3 + 1.5 iqr], each as often as in the input; q1 and q3 are the medians of the first floor(n/2) and of the last values from ceil(n/2) |
| Baseline.QuartilesOrdered | src/utils/baseline.ts:15-17 | For four values or more, q1 <= the largest lower-half value <= q3, so iqr >= 0 |
| Baseline.LowerMiddleInFence | src/utils/baseline.ts:15-20 | The largest value of the sorted lower half always passes the fence |
| Baseline.FilterOutliersSubMultiset | src/utils/baseline.ts:12-21 | The output is a sub-multiset of the input: nothing is added or duplicated |
| Baseline.FilterOutliersNonEmpty | src/utils/baseline.ts:12-21 | A non-empty input never filters down to nothing |
| Baseline.FilterOutliersWithin | src/utils/baseline.ts:12-21 | Bounds holding for every input value hold for every output value |
| Baseline.ComputeMedianStats | src/utils/baseline.ts:29-37 | The low-confidence flag is set exactly when the sample is below 5 |
| Baseline.ComputeMedianStatsEmpty | src/utils/baseline.ts:3-24 | With no logs the summary is the default {p: 5, c: 5, s: 2}, sample 0, low confidence |
| Baseline.ComputeMedianStatsNonEmpty | src/utils/baseline.ts:25-38 | With logs, each dimension reports the median of its filtered list, never the default. The sample is the smallest filtered length, between 1 and the number of logs, and equals it for fewer than four logs |
| Baseline.ComputeMedianStatsWithin | src/utils/baseline.ts:23-39 | Readings within [lo, hi], with the defaults inside, give a summary within [lo, hi] |
| Baseline.MonthKeyInjective | src/utils/baseline.ts:41-45 | The "YYYY-MM" key with the month counted from 1 and padded to two digits identifies its year and month: equal keys mean equal year and month |
| Biorhythm.CalculateWMA | src/utils/biorhythm.ts:5-10 | 0 for lists of different lengths; otherwise the result times the weight sum is the weighted sum (the weighted mean) |
| Biorhythm.WMAEqualWeights | src/utils/biorhythm.ts:5-10 | Equal non-zero weights make the weighted mean the arithmetic mean |
| Biorhythm.SmoothData | src/utils/biorhythm.ts:13-20 | Same length as the input; element i is the mean of the window [max(0, i - floor(w/2)), min(n, i + ceil(w/2))), which is never empty |
| Biorhythm.SmoothConstant | src/utils/biorhythm.ts:13-20 | Smoothing a constant list returns it unchanged |
| Biorhythm.SmoothWithin | src/utils/biorhythm.ts:13-20 | Every smoothed value lies within any bounds of the input |
| Biorhythm.GroupByHour | src/utils/biorhythm.ts:30-37 | After the loop, the group of each hour holds the readings of the logs of that local hour, in input order |
| Biorhythm.AverageHours | src/utils/biorhythm.ts:41-50 | Each hour holds the mean of its group, or the -1 sentinel when the group is empty |
| Biorhythm.ScanBack | src/utils/biorhythm.ts:58-60 | The backward scan stops at the nearest earlier hour that is not the sentinel, or at -1 |
| Biorhythm.ScanForward | src/utils/biorhythm.ts:63-65 | The forward scan stops at the nearest later hour that is not the sentinel, or at 24 |
| Biorhythm.FillMissing | src/utils/biorhythm.ts:53-69 | The in-place fill loop produces exactly the hour-by-hour fill of the specification, in which filled hours become anchors for later gaps |
| Biorhythm.CalculateDynamicBaseline | src/utils/biorhythm.ts:28-79 | Exactly 24 entries, entry i labelled hour i, whose values are the dynamic curve: grouped, averaged, filled, wrapped and smoothed |
| Biorhythm.RawBaselineWithin | src/utils/biorhythm.ts:41-50 | With non-negative bounds on the readings, an hour is the sentinel exactly when it has no samples, and otherwise lies within the bounds |
| Biorhythm.FilledSpec | src/utils/biorhythm.ts:53-69 | A present hour keeps its value. A missing hour gets (prev + next) / 2, where prev is the filled value of the hour before (5 at hour 0) and next is the nearest later present hour (prev if there is none) |
| Biorhythm.FilledBaseline | src/utils/biorhythm.ts:41-69 | For readings in [lo, hi] with 0 <= lo <= 5 <= hi, no sentinel is left after the fill and every hour lies in [lo, hi]. An hour with samples holds their mean; an empty hour holds the mean of the previous filled value and the mean of the next hour with samples |
| Biorhythm.FilledNoGaps | src/utils/biorhythm.ts:55-56 | Without gaps the fill changes nothing |
| Biorhythm.WrapSmoothAt | src/utils/biorhythm.ts:73-76 | Hour h of the wrapped smoothing is (f[(h+23)%24] + f[h] + f[(h+1)%24]) / 3 |
| Biorhythm.DynamicCurveConstant | src/utils/biorhythm.ts:28-79 | If every hour has samples with mean k, all 24 curve values are k |
| Biorhythm.DynamicCurveWithin | src/utils/biorhythm.ts:28-79 | Readings in [lo, hi] with 0 <= lo <= 5 <= hi give a curve within [lo, hi] |
| Biorhythm.AnalyzeWeeklyTrend | src/utils/biorhythm.ts:82-96 | With no log at or after now - 7 days: Normal with average 5. Otherwise the average is the mean P of those logs; Burnout Risk exactly when it is below 3, Manic Risk exactly when it is above 8 |
| Biorhythm.AnalyzeWeeklyTrendWithin | src/utils/biorhythm.ts:82-96 | Physical readings in [lo, hi] with 5 inside give an average in [lo, hi] |
| Analytics.TimeSlots | src/utils/analytics.ts:25-32 | 48 slots; slot i is midnight + i * 1,800,000 ms |
| Analytics.GenerateTimeSlots | src/utils/analytics.ts:25-32 | The loop produces exactly the 48 slots from local midnight |
| Analytics.TimeSlotsIncreasing | src/utils/analytics.ts:28-30 | Slots are strictly increasing, at least 30 minutes apart |
| Analytics.StandardValueRange | src/utils/analytics.ts:35-59 | Over a day, C takes only 1, 9, 5, 8 or 4 and S only 7, 3 or 8, and every standard value lies in [1, 10] |
| Analytics.FirstNear | src/utils/analytics.ts:85 | None exactly when no log is strictly within 15 minutes of the slot; otherwise the first such log in input order |
| Analytics.NearAtMostOneSlot | src/utils/analytics.ts:29-85 | No timestamp is near two distinct slots, so a log fills the readings of at most one slot |
| Analytics.FifteenMinutesMatchesNone | src/utils/analytics.ts:29-85 | A log exactly 15 minutes from a slot matches no slot |
| Analytics.FindHour | src/utils/analytics.ts:92 | The curve entry found has the requested hour; None only when no entry has it |
| Analytics.FindHourPatterns | src/utils/analytics.ts:92-93 | In an hour-labelled curve, the entry of hour h holds the curve value at h |
| Analytics.TimeLabelReadsBack | src/utils/analytics.ts:77 | The "HH:mm" label of slot i reads back as hour i/2 and minute (i%2)*30 |
| Analytics.ProcessChartData | src/utils/analytics.ts:63-114 | One point per slot, in slot order, with the slot's timestamp and label |
| Analytics.ChartStandard | src/utils/analytics.ts:73-82 | The standard values of slot i are the curve at hour i/2 (fractional) and lie in [1, 10] |
| Analytics.ChartWithoutHistory | src/utils/analytics.ts:68-98 | With empty history every baseline equals the standard value of its slot |
| Analytics.ChartWithHistory | src/utils/analytics.ts:68-98 | With history every baseline is the dynamic curve at the slot's whole hour |
| Analytics.ChartHalfHoursShareBaseline | src/utils/analytics.ts:90-98 | With history, both half-hour slots of an hour have the same baseline |
| Analytics.ChartActuals | src/utils/analytics.ts:85-111 | All readings are null when no log is near the slot; otherwise all three come from the first near log in input order |
| AnalyticsTab.Clamp | src/components/tabs/AnalyticsTab.tsx:18 | The result lies in [min, max]; it is v when v is in range, min below and max above |
| AnalyticsTab.SummarizeState | src/components/tabs/AnalyticsTab.tsx:20-27 | The label is that of the first rule in table order whose condition holds, or the regular label exactly when none holds |
| AnalyticsTab.SummarizeStateIsFirstRule | src/components/tabs/AnalyticsTab.tsx:20-27 | The chain of tests equals the first-match search of the rule table |
| AnalyticsTab.SummarizeHighFocus | src/components/tabs/AnalyticsTab.tsx:21 | p >= 8, c >= 8 and s <= 4 always give "高能专注" |
| AnalyticsTab.LabelTextInjective | src/components/tabs/AnalyticsTab.tsx:20-27 | Distinct labels have distinct texts |
| AnalyticsTab.HeatmapColor | src/components/tabs/AnalyticsTab.tsx:29-47 | The faint white is returned exactly when all three levels are below 6.5; any other colour has an alpha in [0.125, 1] |
| AnalyticsTab.HeatmapColorAlpha | src/components/tabs/AnalyticsTab.tsx:31-46 | Priority: red exactly when s >= 6.5, blue exactly when s < 6.5 <= c, green exactly when s, c < 6.5 <= p. The alpha is min(1, (x - 6) / 4) of the level that decided the colour |
| AnalyticsTab.MeanCell | src/components/tabs/AnalyticsTab.tsx:82-116 | A group with no logs gives the all-zero cell; otherwise the per-dimension means and the count |
| AnalyticsTab.TotalsAppend | src/components/tabs/AnalyticsTab.tsx:73-76 | Adding a log to a group adds its readings to the sums and 1 to the count |
| AnalyticsTab.RowIndexSymmetric | src/components/tabs/AnalyticsTab.tsx:65-66 | The row index uses the absolute distance from now, so a future log k ms ahead shares the row of a log k ms behind |
| AnalyticsTab.AccumulateHeatmap | src/components/tabs/AnalyticsTab.tsx:53-79 | A fresh days x 24 grid whose cell (row, h) holds the sums and count of the logs with that row index and local hour |
| AnalyticsTab.AverageCells | src/components/tabs/AnalyticsTab.tsx:82-90 | Every cell with a count is divided by it in place; the others are untouched |
| AnalyticsTab.BuildHeatmapData | src/components/tabs/AnalyticsTab.tsx:49-93 | `days` rows of 24 cells; cell (row, h) is the mean cell of the logs whose whole-day distance from now is row and whose local hour is h |
| AnalyticsTab.HeatmapCountsLogs | src/components/tabs/AnalyticsTab.tsx:63-79 | The counts of all cells add up to the number of logs less than `days` days from now |
| AnalyticsTab.HeatmapCellOfLog | src/components/tabs/AnalyticsTab.tsx:63-79 | A log is counted in cell (row, h) exactly when its row index is row and its local hour is h |
| AnalyticsTab.BuildHourMap | src/components/tabs/AnalyticsTab.tsx:95-117 | 24 buckets; bucket h is the mean cell of the logs of local hour h at or after now - days * 86,400,000 |
| AnalyticsTab.HourMapCountsLogs | src/components/tabs/AnalyticsTab.tsx:96-102 | The bucket counts add up to the number of logs at or after the cutoff; a log at the cutoff counts |
| AnalyticsTab.FilterDayType | src/components/tabs/AnalyticsTab.tsx:149-155 | "all" keeps everything; weekend keeps exactly the logs whose day of week is 0 or 6, weekday exactly the logs of days 1 to 5 |
| AnalyticsTab.FilterTag | src/components/tabs/AnalyticsTab.tsx:157 | "all" keeps everything; otherwise exactly the logs carrying the tag |
| AnalyticsTab.HeatViews | src/components/tabs/AnalyticsTab.tsx:189-205 | The heatmap is built from the whole history regardless of the day type, the hour map from the range- and day-type-filtered history |
| AnalyticsTab.Delta | src/components/tabs/AnalyticsTab.tsx:184-186 | (actual ?? baseline) - baseline is 0 without an actual and actual - baseline with one |
| AnalyticsTab.LatestPoint | src/components/tabs/AnalyticsTab.tsx:182 | None exactly when no point has a reading; otherwise the last point with one |
| AnalyticsTab.LatestDelta | src/components/tabs/AnalyticsTab.tsx:182-187 | At the last point with a reading, each dimension's deviation is actual - baseline, or 0 where that dimension has no reading; None when no point has a reading |
| AnalyticsTab.ComboList | src/components/tabs/AnalyticsTab.tsx:206-213 | One item per hour with its index and count. Its p, c and s are the hour's means clamped to [0, 10]. Its summary is that of the clamped means, or "暂无数据" for an empty hour |
| PeriodSummary.WindowLogsSpec | src/utils/periodSummary.ts:13-15 | The window holds exactly the logs with start <= ts < end, each as often as in the input, in ascending time order, with equal timestamps kept in input order |
| PeriodSummary.WindowsSplit | src/utils/periodSummary.ts:13-15 | Two adjacent half-open windows together hold exactly the logs of their union |
| PeriodSummary.WeekNum | src/utils/periodSummary.ts:17 | ceil(day / 7) lies in 1..5 and is the week whose seven days contain the day |
| PeriodSummary.GetWeekData | src/utils/periodSummary.ts:12-26 | The bounds are echoed and the logs are the window's. The title is the month name, " 第", the week number and "周" |
| PeriodSummary.WeekTitleReadsBack | src/utils/periodSummary.ts:21 | The week title starts with the month name and its digit reads back as the week number |
| PeriodSummary.GetMonthData | src/utils/periodSummary.ts:29-42 | The bounds are echoed, the logs are the window's, and the title is the month name |
| NumberText.DigitsRoundTrip | src/utils/baseline.ts:43-44 | The decimal digits of n read back as n |
| NumberText.ParseIntDecimal | src/utils/csv.ts:80 | parseInt reads back the decimal text of every integer, negative ones included |
| NumberText.ParseFloatTenths | src/utils/csv.ts:72-75 | parseFloat reads back the text of every non-negative number with at most one decimal |
| Csv.SplitJoin | src/utils/csv.ts:19-35 | Splitting a join of separator-free pieces gives back the pieces |
| Csv.JoinSplit | src/utils/csv.ts:35-95 | Joining the pieces of a split gives back the text |
| Csv.KeepMembers | src/utils/csv.ts:35-95 | The filter keeps exactly the strings of the input that pass |
| Csv.ParseLine | src/utils/csv.ts:45-63 | The character loop returns exactly the scanner's fields: those pushed at commas outside quotes, then the last one |
| Csv.SplitFieldsCount | src/utils/csv.ts:50-61 | A line gives 1 + (number of commas preceded by an even number of quotes) fields |
| Csv.SplitFieldsNoQuotes | src/utils/csv.ts:52-53 | No field holds a quote character |
| Csv.SplitFieldsConcat | src/utils/csv.ts:50-61 | The fields, concatenated, are the line without its quotes and its separating commas: every other character, commas inside quotes included, is kept in order |
| Csv.SplitFieldsOfCells | src/utils/csv.ts:14-61 | Cells that are plain text, or quoted text free of quotes, joined with commas, scan back into their texts |
| Csv.CleanUnquoted | src/utils/csv.ts:78 | On a value without quotes, clean is trim |
| Csv.Clean | src/utils/csv.ts:78 | A cleaned value neither starts nor ends with white space |
| Csv.SafeFloat | src/utils/csv.ts:72-75 | parseFloat's value, or 0 when it is NaN |
| Csv.Promote | src/utils/csv.ts:84-86 | A timestamp below 10^12 is multiplied by 1000; others are kept |
| Csv.PromoteIdempotent | src/utils/csv.ts:84-86 | Second timestamps from 10^9 on promote to milliseconds at or past 10^12, so promoting twice is promoting once |
| Csv.TagsOf | src/utils/csv.ts:95 | Every imported tag is non-empty and comma-free |
| Csv.ParseRow | src/utils/csv.ts:65-99 | A row is kept exactly when it has at least 7 columns and column 1 parses as an integer. Its timestamp is then the promoted integer and its values are the safe floats of columns 4, 5 and 6 |
| Csv.ParseCsv | src/utils/csv.ts:34-100 | Fewer than two non-blank lines give no rows. The error "Invalid CSV format" is raised exactly when there are two lines or more and the header's comma-split fields lack "Timestamp" or "P". Otherwise the rows are those parsed from the non-blank lines after the header |
| Csv.ParseRowsMembers | src/utils/csv.ts:65-99 | An imported row is exactly the parse of some data line: lines with fewer than 7 columns or a non-integer column 1 contribute nothing |
| Csv.ParseRowsSnoc | src/utils/csv.ts:65-99 | A data line that parses appends its row after the rows of the lines before it, so order is kept |
| Csv.ParseRowsDrop | src/utils/csv.ts:69-99 | A data line that does not parse leaves the imported rows unchanged |
| Csv.KeepParsedMembers | src/utils/csv.ts:65-99 | The map-then-filter keeps exactly the parsed results of the elements that parse |
| Csv.TagsRoundTrip | src/utils/csv.ts:14-95 | Tags that are non-empty and hold no comma, quote, line break or surrounding white space survive being joined, quoted, cleaned and split |
| Csv.RowRoundTrip | src/utils/csv.ts:6-98 | The exported row of an exportable log imports as its timestamp, values, tags, trend text and note |
| Csv.RowsRoundTrip | src/utils/csv.ts:6-99 | The exported rows of exportable logs import as those logs, in order |
| Csv.ExportLines | src/utils/csv.ts:19-35 | The exported text splits into the header line and one line per log |
| Csv.HeaderAccepted | src/utils/csv.ts:5-43 | The exported header passes the header check |
| Csv.ExportThenImport | src/utils/csv.ts:4-100 | Importing the export of exportable logs gives back each log's timestamp, values, tags, trend and note, in order |

## Left out

- The React component, its hooks and state, and the rendering code are not
  part of this model. This includes the charts, the 3D view, the calendars and
  the view's event handlers.
- Storage (IndexedDB), the chat client and the global store are left out.
  They are I/O.
- The download half of `exportLogsToCSV` is left out: the Blob, the object URL
  and the link click (src/utils/csv.ts:24-31). It is browser I/O.
- `Date.now()`, `new Date()`, `startOfDay`, `getHours`, `getDay` and
  `getDate` are parameters. Slot i is taken to start at local hour i/2 and
  minute (i % 2) * 30, so days with a daylight-saving change are not modelled.
- `subDays(now, 7)` is taken as seven days of 86,400,000 ms.
- The date-fns formats and the locale month name are parameters. The exporter's
  text for a number is a parameter too.
- The heatmap's per-row date labels are left out, because they are locale text
  formatting.
- The heat colour is returned as an `Rgba` record rather than the `rgba(...)`
  string, so the number-to-text formatting of the alpha is not modelled.
- Numbers are exact reals, so IEEE rounding, NaN and Infinity are not modelled.
  `parseFloat` and `parseInt` are modelled on finite decimal (and hexadecimal)
  literals, and a NaN result is `None`.
  - `parseFloat("Infinity")` is not modelled.
  - Integers are unbounded, so JavaScript's loss of precision above 2^53 is
    not modelled.
- `computeMedianStats`'s `typeof v === 'number'` filter keeps every reading,
  because readings are always numbers here.
- `Biorhythm.CalculateWMA` requires a non-zero weight sum when the lengths
  agree. The source divides by zero there and returns NaN or Infinity.
- `Biorhythm.SmoothData` requires a window of at least 1. The source's window
  of 0 gives empty windows and NaN; every caller passes 3.
- `Csv.ParseRow`: the trend is imported as the cleaned text, unchecked, as the
  source's cast does. A missing column 7, 8 or 9 is read as the empty value.
- `Csv.ExportThenImport` holds only for exportable logs. An exportable log
  meets all of the following:
  - Its timestamp is in milliseconds at or past 10^12.
  - Its id, date, time and number texts hold no comma, quote or line break.
  - Its tags are plain.
  - Its note holds no quote or line break and has no surrounding white space.
  - Its number texts read back through `parseFloat`.

  The exporter escapes nothing, so other logs do not survive the round trip.
- The `hour` of a curve entry is an `int`, as the source's `number` is.
