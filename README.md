# clone_sweeper — a Dafny model of its statistics and SVG layout core

`clone_sweeper.py` collects per-repository statistics from GitHub: 14-day clone counts, unique
cloners, and release-asset downloads. It keeps one snapshot per day in a SQLite history and
renders three SVG cards from them:

- a **summary card**: totals, plus three bars per top repository, each metric on its own scale;
- a **table card**: one row per repository with auto-sized columns and a two-line description;
- a **history card**: monthly and yearly line charts with three lines per repository.

This project models the pure part of that pipeline and proves properties of it:

- XML escaping of the text placed in the cards;
- aggregation of the daily history into monthly and yearly buckets;
- the trailing 14-day download delta computed from the history;
- the geometry of the three cards: column and bar widths, the canvas size, axis and point
  coordinates, colours and legends.

Everything that talks to the outside world is out of scope or becomes a parameter. That covers
the database, GitHub, the clock, templates and files.

Modules, one per file:

| file | module | models |
|---|---|---|
| `wrappers.dfy` | `Wrappers` | `Option` / `Result` |
| `text.dfy` | `Text` | `max`/`min`, `str.replace`, `strip`/`split`/`join`, `str(int)`, slicing `[:n]` |
| `collections.dfy` | `Collections` | `dict.fromkeys` de-duplication, `list.index` |
| `dates.dfy` | `Dates` | calendar dates, `toordinal`, month/year keys, `sorted` on dates |
| `aggregate.dfy` | `Aggregator` | `month_key`, `aggregate_history_by_month`, `aggregate_history_by_year` |
| `downloads.dfy` | `TrailingDownloads` | `calculate_downloads_14d` |
| `repos.dfy` | `Repos` | repository rows, the descending sort by clone count and the top-N cut |
| `escape.dfy` | `XmlEscape` | `escape_xml` |
| `wrap.dfy` | `DescriptionWrap` | the description wrap of the table card |
| `table.dfy` | `TableLayout` | the table card's layout |
| `summary.dfy` | `SummaryCard` | the summary card's layout |
| `history.dfy` | `HistoryChart` | the history card's geometry |

Loops in the source are `method`s proved against a specification function. Examples:

- `Aggregate` with `CollectBuckets`/`EmitBuckets`;
- `Downloads14d`;
- `MeasureColumns`, `SizeColumns`, `ColumnPositions`, `WrapRows`;
- `BuildLabels`, `BuildRows`;
- `CollectHistories`, `CollectValues`, `BuildSeries`.

Expression-level code is modelled as functions. Python's float formulas are modelled exactly:

- `CHAR_PX = 7.5` and `7.2` are the rationals 15/2 and 36/5;
- chart coordinates are `real`s;
- `int()` of a float is truncation (`HistoryChart.PyInt`);
- lemmas tie each integer formula to the real-valued one with `.Floor`.

The summary card's canvas width is the closed formula at `clone_sweeper.py:741-743`, modelled by
`SummaryCard.CanvasWidth` and `SummaryCard.BarMaxWidth`. The 14-day delta is measured from the oldest
snapshot on or before the cutoff, as the code does (see Findings).

## Model

| member | source | states |
|---|---|---|
| Text.MaxOf | clone_sweeper.py:750-752 | the result bounds every element from above and is one of the elements |
| Text.MinOf | clone_sweeper.py:1090-1092 | the result bounds every element from below and is one of the elements |
| Text.MaxLength | clone_sweeper.py:712-714 | `max((len(s) for s in ss), default=d)`: with no strings it is the default; otherwise every length is at most the result and some string attains it |
| Text.ReplaceAll | clone_sweeper.py:47-53 | `str.replace` of one character: a string without that character is unchanged |
| Text.ReplaceAllConcat | clone_sweeper.py:47-53 | replacement distributes over concatenation |
| Text.ReplaceAllChar | clone_sweeper.py:861 | replacing a character by a different single character keeps the length, changes exactly the occurrences of the old character into the new one, and so leaves none of it (`replace("T", " ")`) |
| Text.Strip | clone_sweeper.py:931 | `str.strip()`: empty exactly when the string is all whitespace; otherwise it starts and ends with a non-space |
| Text.Split | clone_sweeper.py:936 | `str.split()`: every piece is a non-empty word without whitespace; no pieces exactly when the string is all whitespace |
| Text.SplitWordThenBlank | clone_sweeper.py:936 | `str.split()` of a word followed by text that starts with a blank is the word, then the split of that text |
| Text.SplitTwoWords | clone_sweeper.py:936 | `str.split()` of two words joined by one space gives back the two words |
| Text.Join | clone_sweeper.py:941-942 | joining one word gives the word |
| Text.JoinWords | clone_sweeper.py:941-942 | joining words gives a trimmed string no shorter than the last word |
| Text.JoinSplitAt | clone_sweeper.py:941-949 | a join splits at any word boundary into the two joins separated by one space |
| Text.Digits | clone_sweeper.py:723-724 | `str` of a natural number: non-empty decimal digits without a leading zero whose value is the number |
| Text.DecimalString | clone_sweeper.py:723-724 | `str(int)`: a leading minus sign exactly when the number is negative, then digits without a leading zero; the string reads back (`DecimalValue`) as the number |
| Text.PyPrefix | clone_sweeper.py:703 | slice `s[:n]`: a prefix of `s`; length `min(n, len)` for `n >= 0`; for negative `n` it drops `-n` elements from the end |
| Collections.Dedupe | clone_sweeper.py:1049-1050 | `dict.fromkeys`: no duplicates, same elements as the input, no longer than it |
| Collections.IndexOf | clone_sweeper.py:1066 | `list.index`: the first position holding the element |
| Collections.IndexOfDistinct | clone_sweeper.py:1066 | in a duplicate-free list, `index` of the element at position `i` is `i` |
| Dates.OrdinalOrder | clone_sweeper.py:394-404 | `toordinal` preserves and reflects the calendar order, and equal ordinals mean equal dates |
| Dates.YearStep | clone_sweeper.py:394-395 | the day count before year `y + 1` is the count before `y` plus the length of `y` |
| Dates.MonthStart | clone_sweeper.py:638-639 | `month_key`: the same year and month, day 1 |
| Dates.MonthStartIsMonthKey | clone_sweeper.py:638-639 | two dates share a month key exactly when their year and month agree; the key is not after the date and is monotone |
| Dates.YearStart | clone_sweeper.py:664-675 | the yearly key is 1 January of the same year |
| Dates.YearStartIsYearKey | clone_sweeper.py:664-675 | two dates share a year key exactly when their years agree; the key is not after the date and is monotone |
| Dates.SortDates | clone_sweeper.py:655 | `sorted(keys)`: ascending, a permutation of the input, strictly ascending when the keys are distinct |
| Aggregator.PeriodSum | clone_sweeper.py:646-653 | a period's sum of readings is non-negative when all readings are |
| Aggregator.BucketOf | clone_sweeper.py:646-653 | the reference bucket of a period: its three per-period sums (`PeriodSum`); `IsAggregate` requires each emitted bucket to equal it |
| Aggregator.Conservation | clone_sweeper.py:646-653 | summing the per-period sums over distinct periods that cover every snapshot gives the history's total |
| Aggregator.SumBucketsByPeriod | clone_sweeper.py:655-657 | the sum over emitted buckets equals the sum over their periods of the per-period sums |
| Aggregator.AggregatePeriodsAgree | clone_sweeper.py:646-657 | two aggregations of one history hold the same periods, so storing a repository twice gathers no new key |
| Aggregator.CollectBuckets | clone_sweeper.py:646-653 | the bucket loop: every observed period has exactly one bucket holding the sums of its snapshots, and the insertion order lists each period once |
| Aggregator.EmitBuckets | clone_sweeper.py:655-657 | the output list holds the bucket of each key, in key order |
| Aggregator.AggregateFacts | clone_sweeper.py:641-658 | collecting then emitting in sorted key order yields an aggregate; totals are conserved per metric, and buckets are non-negative on non-negative histories |
| Aggregator.Aggregate | clone_sweeper.py:641-676 | the output is strictly ascending by period; each period was observed and its bucket is the sum of its snapshots; every snapshot's period appears; per-metric totals are conserved; non-negative in, non-negative out |
| Aggregator.AggregateByMonth | clone_sweeper.py:641-658 | `aggregate_history_by_month`: the aggregate by month key, with conserved totals and every period on day 1 |
| Aggregator.AggregateByYear | clone_sweeper.py:660-676 | `aggregate_history_by_year`: the aggregate by year, with conserved totals and every period on 1 January |
| TrailingDownloads.Days | clone_sweeper.py:399-404 | the snapshot dates as ordinals, position by position |
| TrailingDownloads.ChronologicalDays | clone_sweeper.py:399-404 | a chronological history has non-decreasing day numbers |
| TrailingDownloads.FirstOnOrBefore | clone_sweeper.py:399-404 | the scan with `break`: `None` exactly when every snapshot is after the cutoff, otherwise the first index on or before it |
| TrailingDownloads.FirstOnOrBeforeIs | clone_sweeper.py:399-404 | any index that is on or before the cutoff, with every earlier index after it, is the one the scan returns |
| TrailingDownloads.TrailingDelta | clone_sweeper.py:378-413 | the delta is never negative |
| TrailingDownloads.Downloads14d | clone_sweeper.py:378-413 | the loop computes exactly `TrailingDelta` for the given current count, history and today |
| TrailingDownloads.TrailingDeltaMeaning | clone_sweeper.py:385-413 | a delta exists iff the current count is known and the snapshot the scan picks has a count; it is then `max(0, current − count)` |
| TrailingDownloads.TrailingDeltaUsesOldest | clone_sweeper.py:399-404 | on a chronological history the scan picks the oldest snapshot when that one is at least 14 days old, and nothing otherwise |
| TrailingDownloads.OldestNotNearest | clone_sweeper.py:399-404 | the concrete history of Findings row 1 gives 70 as written and 60 measured from the nearest snapshot |
| TrailingDownloads.LastOnOrBefore | clone_sweeper.py:399-404 | the last index on or before the cutoff, `None` exactly when there is none |
| TrailingDownloads.TrailingDeltaNearest | clone_sweeper.py:378-413 | the corrected delta, measured from the nearest snapshot, is never negative |
| TrailingDownloads.NearestIsClosest | clone_sweeper.py:399-404 | the corrected scan finds a snapshot exactly when the as-written one does, and the one it finds is the latest on or before the cutoff |
| Repos.CountLabel | clone_sweeper.py:722-723 | `"N/A"` exactly for a missing count; otherwise a decimal string that reads back as the count, with a minus sign exactly when it is negative |
| Repos.SortByClones | clone_sweeper.py:702 | `sorted(..., reverse=True)` by `clone_count or 0`: descending and a permutation |
| Repos.SortByClonesStable | clone_sweeper.py:702 | the sort is stable: rows with equal counts keep their input order |
| Repos.InsertStable | clone_sweeper.py:702 | one insertion step keeps the relative order of equal-key rows |
| Repos.TopByClones | clone_sweeper.py:702-703 | `rows_sorted[:top_n]`: the slice's length with Python's negative-index rule; descending; a sub-multiset of the rows |
| Repos.TopByClonesSelectsLargest | clone_sweeper.py:702-703 | no row left out has a larger clone count than any chosen row |
| Repos.TopByClonesKeepsTieOrder | clone_sweeper.py:702-703 | among rows with the same count, the chosen ones are a prefix of them in input order |
| XmlEscape.EscapeXml | clone_sweeper.py:38-54 | `None` escapes to `""`; escaping never shortens |
| XmlEscape.EscapeChar | clone_sweeper.py:47-53 | a special character becomes one of the five entities; every other character is kept |
| XmlEscape.EscapeXmlIsPerChar | clone_sweeper.py:47-53 | the chain of five `replace` calls, `&` first, equals escaping each character independently |
| XmlEscape.EscapedConcat | clone_sweeper.py:47-53 | escaping distributes over concatenation |
| XmlEscape.EscapeXmlHasNoRawSpecials | clone_sweeper.py:38-54 | the output contains no `<`, `>`, `"` or `'` |
| XmlEscape.EscapeXmlAmpersandsStartEntities | clone_sweeper.py:38-54 | every `&` in the output starts one of the five entities, so nothing is escaped twice |
| XmlEscape.EscapeXmlRoundTrip | clone_sweeper.py:38-54 | unescaping the output gives back the input |
| XmlEscape.EscapedRoundTrip | clone_sweeper.py:47-53 | the same round trip for the per-character escape |
| DescriptionWrap.Trunc | clone_sweeper.py:956-957 | `trunc`: a string within `n` is unchanged; a longer one becomes `n` characters ending in `…`, keeping the first `n − 1` |
| DescriptionWrap.Step | clone_sweeper.py:941-950 | one pass of the word loop, the reference for `WrapWords`: append when it fits, else close `line1`, else build `line2` and stop |
| DescriptionWrap.Run | clone_sweeper.py:940-950 | the loop over the words up to its `break`, the reference `WrapWords` is proved against |
| DescriptionWrap.Finish | clone_sweeper.py:951-962 | the code after the loop as written; `OneLineShownTwice` and `LongFirstWordShownTwice` state what it shows |
| DescriptionWrap.Emit | clone_sweeper.py:958-962 | at most two lines: the non-empty ones among line 1 and line 2, each truncated to at most the limit |
| DescriptionWrap.DescLines | clone_sweeper.py:930-962 | at most two lines, each non-empty and within the limit; no lines exactly when the description is blank |
| DescriptionWrap.WrapWords | clone_sweeper.py:937-950 | the word loop with `break` ends in the state the recursive `Run` describes |
| DescriptionWrap.WrapDescription | clone_sweeper.py:930-962 | the whole wrap computes `DescLines` |
| DescriptionWrap.RunStopped | clone_sweeper.py:949 | after the `break`, later words change nothing |
| DescriptionWrap.WordsAfterStopDropped | clone_sweeper.py:949 | words appended after the stop are ignored |
| DescriptionWrap.RunWhileFits | clone_sweeper.py:941-942 | while the joined words fit the limit, they accumulate in `cur` and neither line is set |
| DescriptionWrap.OneLineShownTwice | clone_sweeper.py:951-955 | as written, a description that fits one line is emitted twice |
| DescriptionWrap.ShortDescriptionDuplicated | clone_sweeper.py:951-955 | concretely, `"tool"` at limit 60 gives `["tool", "tool"]` |
| DescriptionWrap.DescLinesFixed | clone_sweeper.py:951-962 | the corrected wrap: at most two non-empty lines within the limit |
| DescriptionWrap.FixedShowsWordsOnce | clone_sweeper.py:937-962 | the corrected lines, joined, are a non-empty prefix of the words, each word at most once |
| DescriptionWrap.OneLineShownOnce | clone_sweeper.py:951-955 | the corrected wrap shows a one-line description once |
| DescriptionWrap.ShortDescriptionOnce | clone_sweeper.py:951-955 | concretely, `"tool"` at limit 60 gives `["tool"]` |
| DescriptionWrap.LongFirstWordShownTwice | clone_sweeper.py:944-950 | as written, a first word at least the limit long becomes `line1` and stays in `cur`, so the second line repeats it before the next word |
| DescriptionWrap.LongFirstWordDuplicated | clone_sweeper.py:944-950 | concretely, `"abcd x"` at limit 3 gives `["ab…", "ab…"]` |
| DescriptionWrap.LongFirstWordShownOnce | clone_sweeper.py:944-955 | the corrected wrap shows a long first word once and the next word on the second line |
| DescriptionWrap.LongFirstWordOnce | clone_sweeper.py:944-955 | concretely, `"abcd x"` at limit 3 gives `["ab…", "x"]` |
| DescriptionWrap.RunLongFirst | clone_sweeper.py:940-950 | as written, the loop over a long first word and a second word stops with both lines set |
| DescriptionWrap.RunFixedLongFirst | clone_sweeper.py:940-950 | corrected, a long first word fills `line1` and a short second word waits in `cur` |
| TableLayout.ColumnsWellFormed | clone_sweeper.py:833-846 | every column's minimum width is at most its maximum, and the keys are distinct |
| TableLayout.PushedAtText | clone_sweeper.py:859-861 | `s[:19].replace("T", " ")`: the first `min(len(s), 19)` characters of the input, each `T` turned into a space and every other character kept; no `T` remains |
| TableLayout.CellText | clone_sweeper.py:850-874 | name and description pass through; `pushed_at` is the cut push time; the four count columns show `"N/A"` exactly when the value is missing and otherwise its decimal string; every other column is the generic cell |
| TableLayout.GenericCell | clone_sweeper.py:874 | `str(r.get(key) or "")`: the language as stored; for a number, `""` exactly when it is missing or 0, otherwise a decimal string that reads back as the number |
| TableLayout.ZeroCounts | clone_sweeper.py:866-874 | a zero clone count shows as `"0"` but zero stars show as empty (`str(0 or "")`) |
| TableLayout.CellTexts | clone_sweeper.py:881 | the column's cell text for each row, in order |
| TableLayout.TextChars | clone_sweeper.py:884-891 | between the header length and `max(header, 2·wrap)`; at least `min(len, 2·wrap)` of every non-empty cell; equal to the header or attained by a cell |
| TableLayout.CharEstimate | clone_sweeper.py:879-891 | numeric: the longest cell text (attained), or the header length with no rows; text columns: within header length and twice the wrap width |
| TableLayout.TextColumnChars | clone_sweeper.py:884-891 | the text-column loop computes `TextChars` of the column's cells |
| TableLayout.Estimates | clone_sweeper.py:877-891 | one estimate per column, position by position |
| TableLayout.MeasureColumns | clone_sweeper.py:877-891 | the measuring loop computes `Estimates` |
| TableLayout.PixelWidth | clone_sweeper.py:894-903 | clamped to `[min_px, max_px]`, and equal to the estimate when that lies in range |
| TableLayout.PixelEstimate | clone_sweeper.py:898-902 | the integer column estimate; `PixelEstimateIsFloor` proves it equals the source's float formula truncated |
| TableLayout.PixelEstimateIsFloor | clone_sweeper.py:898-902 | the integer estimate equals `int((chars + 1)·7.2 + 10)` for numeric and `int(chars·7.2 + 18)` for text columns |
| TableLayout.PixelWidths | clone_sweeper.py:894-903 | one clamped width per column |
| TableLayout.SizeColumns | clone_sweeper.py:894-903 | the sizing loop computes `PixelWidths`; every width is within its column's bounds |
| TableLayout.TableWidth | clone_sweeper.py:914-915 | at least 760 and at least the columns plus gaps plus padding |
| TableLayout.ColumnXStep | clone_sweeper.py:922-926 | each column starts one width plus one gap after the previous |
| TableLayout.ColumnX | clone_sweeper.py:922-926 | the reference x-position of column `i`; `ColumnXStep`, `ColumnPositions` and `ColumnsDoNotOverlap` state its properties |
| TableLayout.ColumnPositions | clone_sweeper.py:922-926 | the position loop computes `ColumnX` for every column |
| TableLayout.ColumnsDoNotOverlap | clone_sweeper.py:922-926 | the first column starts at `table_x + 12`; any later column starts after the earlier one's width plus a gap |
| TableLayout.LastColumnInsideCanvas | clone_sweeper.py:914-926 | the last column ends at least 6 px inside the table width |
| TableLayout.VisibleRows | clone_sweeper.py:827 | `repo_rows[:max_rows]` is a prefix; a cap in range gives exactly that many rows |
| TableLayout.DescriptionLinesAt | clone_sweeper.py:929-962 | row `i`'s lines are the wrap of row `i`'s description |
| TableLayout.WrapRows | clone_sweeper.py:929-962 | the row loop computes the wrapped lines of every visible row |
| TableLayout.WrapLimitIsSixty | clone_sweeper.py:932 | the wrap limit looked up from the column list is 60 |
| TableLayout.DownloadKeys | clone_sweeper.py:830 | rows carry `download_total`; no row has a `download_count` field |
| TableLayout.TotalDownloadsAsWrittenIsZero | clone_sweeper.py:830 | as written, the downloads total is always 0 |
| TableLayout.TotalDownloadsAsWritten | clone_sweeper.py:830 | the header total over the key `download_count`; `TotalDownloadsAsWrittenIsZero` proves it is 0 |
| TableLayout.TotalDownloadsCountsRows | clone_sweeper.py:828-830 | the corrected total is non-negative and at least every row's download count |
| TableLayout.OneRowShowsDifference | clone_sweeper.py:830 | one row with 5 downloads: corrected total 5, as written 0 |
| TableLayout.LayoutTable | clone_sweeper.py:827-926 | the table geometry: totals, estimates, clamped widths, positions, table width ≥ 760, heights, wrapped descriptions |
| SummaryCard.CombinedTotalIsSum | clone_sweeper.py:694-696 | the combined total is the clone total plus the unique total |
| SummaryCard.CombinedLabel | clone_sweeper.py:725-731 | `"N/A"` exactly when both counts are missing; otherwise the sum with missing as 0 |
| SummaryCard.NameColumnWidth | clone_sweeper.py:712-714 | between 120 and 420 |
| SummaryCard.NameColumnWidthIsFloor | clone_sweeper.py:714 | equals `int(max(120, min(chars·7.5 + 10, 420)))` |
| SummaryCard.CountTextWidth | clone_sweeper.py:737-738 | at least 64 |
| SummaryCard.CountTextWidthIsFloor | clone_sweeper.py:738 | equals `int(max(64, chars·7.5 + 12))` |
| SummaryCard.CanvasWidth | clone_sweeper.py:741 | at least 820 and at least the name column plus count column plus 292 |
| SummaryCard.BarX | clone_sweeper.py:742 | `bar_x`; `BarsFitCanvas` states where the bars start |
| SummaryCard.BarMaxWidth | clone_sweeper.py:742-743 | the width left for bars in the canvas, at least 226 |
| SummaryCard.BarsFitCanvas | clone_sweeper.py:741-743 | the bars start after the name column, and bars plus count text plus margins fill the canvas exactly |
| SummaryCard.BarWidthBounds | clone_sweeper.py:760-770 | a value within the scale draws a bar between 0 and the maximum width; 0 gives 0, the maximum gives the full width |
| SummaryCard.BarWidthMonotone | clone_sweeper.py:760-770 | larger values never draw shorter bars |
| SummaryCard.BarWidth | clone_sweeper.py:763-765 | `int((v / mx) · w) if mx else 0` with truncation toward zero; `BarWidthBounds` and `BarWidthMonotone` state its properties |
| SummaryCard.MetricScale | clone_sweeper.py:750-752 | `max(...) or 1`: non-zero and bounds every value; it is the attained maximum, or 1 exactly when that maximum is 0 (a negative maximum is kept) |
| SummaryCard.LabelsOf | clone_sweeper.py:717-736 | the label of one metric for each chart row |
| SummaryCard.CountLabels | clone_sweeper.py:736 | the clone, unique and combined labels concatenated: three per row |
| SummaryCard.BuildLabels | clone_sweeper.py:717-736 | the label loop computes `CountLabels` |
| SummaryCard.RowsForAt | clone_sweeper.py:756-775 | row `i` of the template rows is built from chart row `i` |
| SummaryCard.RowFor | clone_sweeper.py:756-775 | the template row of one chart row: name, the three labels and the three bar widths; `ChartBarsFit` bounds the bars |
| SummaryCard.BuildRows | clone_sweeper.py:756-775 | the row loop computes the rows with the three per-metric scales |
| SummaryCard.ChartBarsFit | clone_sweeper.py:750-770 | with non-negative values every drawn bar is within the bar area, and a zero value draws nothing |
| SummaryCard.LayoutSummary | clone_sweeper.py:693-775 | fails exactly when the chart is empty (`max()` of an empty sequence raises); otherwise the totals, widths, height and rows of the card |
| HistoryChart.ColorFor | clone_sweeper.py:1016-1022 | clones colours come from the first palette, others from the second; never the downloads amber |
| HistoryChart.ColorsDistinguishRepos | clone_sweeper.py:1016-1022 | colours repeat every six repositories, differ between positions that differ mod 6, and a clones line never shares a uniques colour |
| HistoryChart.Axis | clone_sweeper.py:1049-1050 | `sorted(dict.fromkeys(keys))`: strictly ascending, with exactly the keys' elements |
| HistoryChart.AxisX | clone_sweeper.py:1063-1073 | `month_tx` / `year_tx` stay within the plot's horizontal extent; with at most one key the point is the plot's horizontal centre |
| HistoryChart.Scale | clone_sweeper.py:1067 | `(idx / (n − 1)) · plot_w` lies in `[0, plot_w]` |
| HistoryChart.ScaleEnds | clone_sweeper.py:1067 | the first key maps to 0 and the last to the full width |
| HistoryChart.ScaleStep | clone_sweeper.py:1067 | a later index maps strictly further right |
| HistoryChart.AxisEnds | clone_sweeper.py:1063-1067 | with two or more keys the first is at the left margin and the last at the right edge of the plot |
| HistoryChart.AxisOrder | clone_sweeper.py:1063-1073 | an earlier period is drawn strictly left of a later one |
| HistoryChart.ValueRange | clone_sweeper.py:1090-1093 | `vmin ≤ vmax` and both bound every value; `(0, 1)` with no values; `vmin` is a value; `vmax` is a value or 1; equal only when all values are one positive number |
| HistoryChart.MapY | clone_sweeper.py:1095-1098 | a value within the range maps inside the plot's vertical extent; when `vmax == vmin` every value maps to the plot's vertical middle |
| HistoryChart.MapYOrder | clone_sweeper.py:1095-1098 | `vmin` maps to the bottom, `vmax` to the top, and larger values are drawn strictly higher |
| HistoryChart.PyInt | clone_sweeper.py:1103 | `int()` of a float truncates toward zero |
| HistoryChart.PyIntBetween | clone_sweeper.py:1103 | truncation keeps non-negative coordinates within integral bounds and is monotone |
| HistoryChart.PointsOf | clone_sweeper.py:1103 | one point per bucket, in order |
| HistoryChart.PointOf | clone_sweeper.py:1103 | one `x,y` entry of `points_clone`/`points_uniq`/`points_dl`: `int` of the axis position and of the mapped value; `PointsInPlot` places it inside the plot |
| HistoryChart.PointsInPlot | clone_sweeper.py:1103 | points of values within the range lie inside the plot |
| HistoryChart.PointsLeftToRight | clone_sweeper.py:1102-1103 | points of buckets in ascending period order have non-decreasing x |
| HistoryChart.SortByPeriod | clone_sweeper.py:1102 | `sorted(monthly, key=period)`: ascending by period and a permutation |
| HistoryChart.SortByPeriodKeepsSorted | clone_sweeper.py:1102 | an already ascending list is unchanged |
| HistoryChart.LegendText | clone_sweeper.py:1105 | the legend text is the repository name, ` — `, the metric word, ` (latest `, the decimal string of the latest value, and `)`, each at its position |
| HistoryChart.LatestBucket | clone_sweeper.py:1105 | `pts_sorted[-1]` is one of the buckets and no bucket's period is later |
| HistoryChart.LatestIsLastSorted | clone_sweeper.py:1102-1105 | the latest bucket is the last one after the sort |
| HistoryChart.Line | clone_sweeper.py:1101-1123 | one line's legend has the name, metric and last bucket's value; one point per bucket; the given colour |
| HistoryChart.RepoSeriesLines | clone_sweeper.py:1101-1123 | the three lines of a repository are clones, uniques and downloads, with the latest bucket's values, the repository's colours and one point per bucket |
| HistoryChart.RepoSeries | clone_sweeper.py:1101-1123 | three lines per repository; `RepoSeriesLines`, `RepoSeriesInPlot` and `RepoSeriesLeftToRight` state what each holds |
| HistoryChart.RepoSeriesInPlot | clone_sweeper.py:1101-1123 | every point of a repository's three lines is inside the plot |
| HistoryChart.RepoSeriesLeftToRight | clone_sweeper.py:1101-1123 | every line of a repository runs left to right |
| HistoryChart.AllSeriesInPlot | clone_sweeper.py:1101-1145 | every point of every line of the chart is inside the plot |
| HistoryChart.AllSeriesLeftToRight | clone_sweeper.py:1101-1145 | every line of the chart runs left to right |
| HistoryChart.AllSeriesLines | clone_sweeper.py:1101-1145 | line `i` belongs to repository `i / 3` and metric `i mod 3`, with its colour |
| HistoryChart.AllSeries | clone_sweeper.py:1101-1145 | three lines per stored repository, in insertion order, the reference `BuildSeries` is proved against |
| HistoryChart.BuildSeries | clone_sweeper.py:1101-1145 | the series loop computes `AllSeries` |
| HistoryChart.AllValuesCover | clone_sweeper.py:1077-1088 | every metric of every stored bucket is among the collected values |
| HistoryChart.CollectValues | clone_sweeper.py:1077-1088 | the value loop computes `AllValues` |
| HistoryChart.AllValues | clone_sweeper.py:1077-1088 | the three values of every stored bucket, in insertion order; `AllValuesCover` and `ValuesInRange` state what the range gets from it |
| HistoryChart.StoreStep | clone_sweeper.py:1040-1046 | storing a repository's non-empty aggregate keeps each stored name aggregated and its periods among the keys |
| HistoryChart.StoredNamesStep | clone_sweeper.py:1034-1046 | a repository is added after the stored ones exactly when it has history and is not already stored |
| HistoryChart.StoredNames | clone_sweeper.py:1034-1046 | the keys of `per_repo_monthly` in insertion order: the distinct chart names with history; `StoredNamesStep` states one step |
| HistoryChart.StoreKeysStep | clone_sweeper.py:1040-1046 | storing a repository's aggregate and extending the keys keeps every key a period of a stored bucket |
| HistoryChart.CollectHistories | clone_sweeper.py:1034-1046 | the collection loop stores the aggregates of exactly the repositories with history, in chart order; the gathered keys are exactly the periods of the stored buckets (`KeysCover` and `KeysStored`) |
| HistoryChart.StoredOnAxis | clone_sweeper.py:1034-1050 | every stored bucket's period is on the axis |
| HistoryChart.ValuesInRange | clone_sweeper.py:1077-1093 | every stored value lies within the computed range |
| HistoryChart.Span | clone_sweeper.py:1148-1151 | the start and end labels are missing (`"-"`) exactly when the axis is empty; otherwise they are the first and last axis keys, the earliest and latest of an ascending axis |
| HistoryChart.DrawChart | clone_sweeper.py:1049-1151 | one chart's series are `AllSeries` over the axis of the gathered keys and the range of all stored values, so labelled by repository and metric, inside the plot and left to right; the count is the axis length and the span its first and last keys, empty exactly without repositories |
| HistoryChart.GenerateHistory | clone_sweeper.py:1013-1151 | for the top repositories with history, the stored monthly and yearly aggregates and exactly their periods as keys; each chart's series are `AllSeries` over that axis and range, its count the axis length and its span the first and last axis keys |

## Left out

- I/O is not modelled. This covers the GitHub API calls, the SQLite reads and writes, the Jinja templates, SVG text output, file writes and console output. `read_history_from_db` and the date of today are parameters.
- Parsing ISO timestamps and the `datetime`/`date` distinction are left out. Snapshots carry a valid calendar date.
- The `strftime` labels of the history card are left out. `HistoryChart.Span` keeps the first and last axis keys that the labels format.
- The `OverflowError` of `today - timedelta(days=14)` near the minimum date is not modelled.
- The history legends are the structured `Legend` value; `HistoryChart.LegendText` formats it as the source's legend string.
- The table card's template-only row fields (`clone_count_h` and similar, and the zebra striping) are not modelled; only `_desc_lines` is.
- Floating-point rounding is not modelled. The bar widths are `int(v·w / max)` computed exactly, where Python computes `int((v / max) · w)` in floating point, which can come out one pixel smaller at exact multiples.
- Python dictionaries are a `map` plus a sequence that records insertion order.
- TableLayout.LayoutTable: states the downloads total as written, which is always 0. The corrected total is `TableLayout.TotalDownloads`.

## Findings

| source | as written | input that shows it | evidently intended | confidence | as-written member | corrected member |
|---|---|---|---|---|---|---|
| clone_sweeper.py:399-404 | the loop takes the first, oldest snapshot dated on or before today − 14 days | today 2024-03-01; snapshots 2024-02-10 (30 downloads) and 2024-02-15 (40 downloads); 100 now: gives 70 | the snapshot closest to the cutoff, as the comments at clone_sweeper.py:394 and :400 say, giving 60 | not executed | TrailingDownloads.OldestNotNearest | TrailingDownloads.NearestIsClosest |
| clone_sweeper.py:951-955 | a description that fits on one line sets `line1` from `cur` but leaves `cur`, which then also becomes `line2` | description `"tool"`, limit 60: `["tool", "tool"]` | the line shown once | not executed | DescriptionWrap.OneLineShownTwice | DescriptionWrap.FixedShowsWordsOnce |
| clone_sweeper.py:944-950 | a first word at least the limit long is set as `line1` and kept in `cur` (`cur = w`), so the next word overflows and `line2` repeats it | a 70-character URL then `foo`, limit 60: both lines start with the URL; `"abcd x"` at limit 3 gives `["ab…", "ab…"]` | the long word shown once, the next word on line 2 | not executed | DescriptionWrap.LongFirstWordShownTwice | DescriptionWrap.LongFirstWordShownOnce |
| clone_sweeper.py:830 | the total sums the key `download_count`, which no row has | one row with `download_total` 5: total 0 | the sum of `download_total` | not executed | TableLayout.TotalDownloadsAsWrittenIsZero | TableLayout.TotalDownloadsCountsRows |
