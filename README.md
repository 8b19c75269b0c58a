# Quarterly regional dashboard: quarter labels, loading, selectors, year-over-year

This project models the data logic of the quarterly regional results
dashboard in `aeon_region_dashboard_quaterly/app.py`:

- the sort key `sort_quarter_key`, which turns a label such as `FY2023-1Q`
  into `20231`;
- the steps of `load_region_data` after the sheet is read: keep the rows
  of kind `Q1`–`Q4`, add the key column 四半期数値, sort by region and key,
  and extract the fiscal-year text 年度 (`FY2023`);
- the sidebar lists:
  - every quarter label once, in key order;
  - every fiscal year once, in year order, which raises when the year
    column holds NaN;
  - the last N quarters;
  - the quarters of the selected fiscal years;
  - the regions in the fixed display order 日本, 中国, アセアン, その他;
- the year-over-year columns: per region, the rows in key order, with each
  row compared to the row four places earlier (`shift(4)`), the per-region
  blocks concatenated in region order, then restricted to the shown
  quarters.

Python's `str.replace`, `str.split`, `int()`, string order, list
comprehensions, `Series.unique()`, `sorted`/`sort_values`, `pd.concat`
and slices are modelled on sequences in `text.dfy` and `lists.dfy`.

- `quarter_key.dfy`: the key and the fiscal-year extraction.
- `loading.dfy`: the loading method, proved against the row-by-row keying
  function `KeyRows`, an instance of the generic `ApplyKey`.
- `selectors.dfy`: the sidebar lists.
- `yoy.dfy`: the year-over-year columns. The loop over regions is a method
  proved against the spec function `YoyTableOf`.

The year-over-year ratio `round((a / b - 1) * 100, 1)` is the parameter
`compare`. The model states which two rows each cell compares, not the
float arithmetic.

The model follows the code in these cases, which a reader of the label
format may not expect:

- A label without the `FY` prefix, such as `2023-1Q`, gets a key (20231),
  so loading accepts it (`MissingPrefixAccepted`). Its year is NaN,
  because the year extraction needs `FY` and four digits
  (`NoYearWithoutPrefix`). The fiscal-year list then raises
  `AttributeError`, because NaN has no `replace`
  (`MissingPrefixBreaksYearList`).
- A quarter number outside 1–4 is not rejected. Multi-digit quarter
  numbers make keys collide: `FY2023-10Q` and `FY2024-0Q` both get 20240
  (`WideQuarterCollides`). Leading zeros collide too: `FY2023-01Q` gets
  the key of `FY2023-1Q` (`LeadingZeroCollides`).
- "Last N quarters" never fails. N larger than the list, and N = 0 (the
  slice `[-0:]`), both give the whole list (`TakeLast`).
- The comment at app.py:319 calls the comparison "same quarter of the
  previous year (four quarters back)". The cell compares with the row four
  places back. That row is the same quarter of the previous year when the
  region's series has no gap (`YoyComparesPriorYear`). A quarter missing
  among the four before a row shifts that row's comparison to an earlier
  quarter (`MissingQuarterShiftsComparison`). A gap elsewhere in the series
  does not change it, since a cell depends only on its own row and the row
  four places back (`YoyCellIsLocal`).

## Model

| member | source | states |
|---|---|---|
| QuarterKey.SortQuarterKey | aeon_region_dashboard_quaterly/app.py:68-71 | a key exists only for a label containing '-', and it is never negative |
| QuarterKey.KeyParts | aeon_region_dashboard_quaterly/app.py:70 | there is always at least one piece, and exactly one when no '-' is left after deleting "FY" and "Q" |
| QuarterKey.ShapedLabelParts | aeon_region_dashboard_quaterly/app.py:70 | a label "FY<a>-<b>Q" whose parts hold no F, Q or '-' splits into exactly [a, b] |
| QuarterKey.ShapedLabelKey | aeon_region_dashboard_quaterly/app.py:68-71 | a label "FY<a>-<b>Q" has a key iff a and b are non-empty digit strings, and then the key is a*10 + b |
| QuarterKey.LabelKey | aeon_region_dashboard_quaterly/app.py:68-71 | the label of every period (year, quarter) has key year*10 + quarter |
| QuarterKey.ExampleKey | aeon_region_dashboard_quaterly/app.py:69 | the documented example: FY2023-1Q has key 20231 |
| QuarterKey.PeriodKeyOrder | aeon_region_dashboard_quaterly/app.py:68-71 | for quarters 1–4, key order is (year, quarter) order and equal keys mean equal periods |
| QuarterKey.KeyOrderIsChronological | aeon_region_dashboard_quaterly/app.py:68-71 | for quarters 1–4, comparing the keys of two labels is comparing their periods chronologically, and the key is injective |
| QuarterKey.WideQuarterCollides | aeon_region_dashboard_quaterly/app.py:71 | a quarter number outside 1–4 is accepted and can collide: FY2023-10Q and FY2024-0Q both get 20240 |
| QuarterKey.LeadingZeroCollides | aeon_region_dashboard_quaterly/app.py:71 | int() drops leading zeros, so FY2023-01Q and FY2023-1Q share the key 20231 |
| QuarterKey.MissingPrefixAccepted | aeon_region_dashboard_quaterly/app.py:70-71 | a label without "FY" still gets a key: 2023-1Q gives 20231 |
| QuarterKey.QuarterFirstLabelFails | aeon_region_dashboard_quaterly/app.py:70-71 | a label without '-' ("FY<a>Q<b>") fails with IndexError |
| QuarterKey.BadYearRaisesBeforeMissingDash | aeon_region_dashboard_quaterly/app.py:71 | `int(parts[0])` runs before `parts[1]` is read: for "FY<a>Q" with a not a digit string, the error is ValueError on a, not IndexError |
| QuarterKey.ExtractYearFrom | aeon_region_dashboard_quaterly/app.py:105 | finds a year text iff "FY" plus four digits occurs at or after the start index, and returns the leftmost such occurrence |
| QuarterKey.ExtractYear | aeon_region_dashboard_quaterly/app.py:105 | the year column is the leftmost "FY"+4 digits of the label, or None (NaN) when there is none |
| QuarterKey.ExtractYearOfLabel | aeon_region_dashboard_quaterly/app.py:105 | the label of a period with a four-digit year yields that year's "FY<year>" text |
| QuarterKey.NoYearWithoutPrefix | aeon_region_dashboard_quaterly/app.py:105 | a label without an F has no year: the column holds NaN |
| QuarterKey.ExtractedYearShape | aeon_region_dashboard_quaterly/app.py:105 | an extracted year is "FY" followed by exactly four digits |
| QuarterKey.YearPrefix | aeon_region_dashboard_quaterly/app.py:135 | with four-digit years, a label starts with "FY<y>" iff its period is in year y |
| Text.RemoveAll | aeon_region_dashboard_quaterly/app.py:70 | deleting occurrences of a pattern never lengthens the text or adds characters |
| Text.RemoveAllKeeps | aeon_region_dashboard_quaterly/app.py:70 | a stretch without the pattern's first character passes through the deletion unchanged |
| Text.Split | aeon_region_dashboard_quaterly/app.py:70 | split gives at least one piece, no piece contains the separator, and there is one piece iff the separator is absent |
| Text.JoinSplit | aeon_region_dashboard_quaterly/app.py:70 | joining the pieces of a split with the separator gives back the text |
| Text.SplitJoin | aeon_region_dashboard_quaterly/app.py:70 | splitting pieces joined with the separator gives back the pieces |
| Text.ParseInt | aeon_region_dashboard_quaterly/app.py:71 | int() succeeds exactly on non-empty digit strings, with their decimal value |
| Text.DecimalRoundTrip | aeon_region_dashboard_quaterly/app.py:71 | int(str(n)) == n |
| Text.LessTransitive | aeon_region_dashboard_quaterly/app.py:102 | the code-point order of the region sort is transitive |
| Text.LessTotal | aeon_region_dashboard_quaterly/app.py:102 | any two different region texts are ordered one way or the other |
| Lists.Filter | aeon_region_dashboard_quaterly/app.py:135 | a comprehension with a condition keeps exactly the elements that satisfy it, each as often as in the input, in order, with no new repeats |
| Lists.Unique | aeon_region_dashboard_quaterly/app.py:121 | unique() has the same members as its input, each once |
| Lists.SortBy | aeon_region_dashboard_quaterly/app.py:102 | sorting is a permutation of its input |
| Lists.SortByIsSorted | aeon_region_dashboard_quaterly/app.py:102 | for a total preorder, the sorted list is in order |
| Lists.SortByIdempotent | aeon_region_dashboard_quaterly/app.py:102 | sorting a sorted list changes nothing |
| Lists.SubseqSorted | aeon_region_dashboard_quaterly/app.py:135 | a subsequence of a sorted list is sorted |
| Lists.TakeLast | aeon_region_dashboard_quaterly/app.py:132 | `s[-n:]` is a suffix of s; it has n elements for 0 < n <= len, and it is the whole list for n == 0 or n >= len |
| Lists.TakeLastKeepsGreatest | aeon_region_dashboard_quaterly/app.py:132 | in a sorted list, every element the suffix slice leaves out is ordered before every element it keeps |
| Lists.ConcatMapMembers | aeon_region_dashboard_quaterly/app.py:317-323 | an element is in the concatenation of the per-key pieces iff it is in the piece of a listed key |
| Loading.KeepQuarterRows | aeon_region_dashboard_quaterly/app.py:92 | keeps exactly the rows of kind Q1–Q4, each as often as in the file, in file order |
| Loading.ApplyKey | aeon_region_dashboard_quaterly/app.py:101 | applying a key row by row succeeds iff every label has a key, and then gives one row per row |
| Loading.ApplyKeyPointwise | aeon_region_dashboard_quaterly/app.py:101 | each keyed row is its own sheet row with its own label's key and year |
| Loading.ApplyKeyFirstError | aeon_region_dashboard_quaterly/app.py:101 | a failed keying raises the error of the first label without a key |
| Loading.ApplyKeyFailsAt | aeon_region_dashboard_quaterly/app.py:101 | once the rows before i are keyed, a label at i without a key makes the whole keying fail with its error |
| Loading.KeyRows | aeon_region_dashboard_quaterly/app.py:101 | keying with `sort_quarter_key` succeeds iff every label has a key, with one row per row |
| Loading.KeyedRowsWellKeyed | aeon_region_dashboard_quaterly/app.py:92-105 | every keyed row is a quarterly row of the sheet with the key and year of its label |
| Loading.KeyedRowsCoverSheet | aeon_region_dashboard_quaterly/app.py:92-101 | after a successful keying, every quarterly row of the sheet has a key |
| Loading.FailedKeyingHasCulprit | aeon_region_dashboard_quaterly/app.py:92-101 | a failed keying points at a quarterly row of the sheet whose label has no key |
| Loading.Annotate | aeon_region_dashboard_quaterly/app.py:101-105 | a loaded row keeps every column of its sheet row and carries the key it was given |
| Loading.RowLe | aeon_region_dashboard_quaterly/app.py:102 | the order of `sort_values(['地域', '四半期数値'])`: region by code point, then key |
| Loading.RowLeIsTotalPreorder | aeon_region_dashboard_quaterly/app.py:102 | sorting by (region, key) uses a total preorder |
| Loading.LoadedRows | aeon_region_dashboard_quaterly/app.py:92-105 | a successful load sorts the keyed rows by (region, key), as a permutation, each row a quarterly sheet row with its label's key and year |
| Loading.LoadRegionData | aeon_region_dashboard_quaterly/app.py:92-105 | fails iff a quarterly row's label has no key, with the first such error; otherwise every row is a quarterly sheet row with its label's key and year, the rows are sorted by (region, key), and they are a permutation of the keyed quarterly rows |
| Selectors.LoadedPeriodsAreKeyed | aeon_region_dashboard_quaterly/app.py:121 | every label of the loaded rows has a key, so sorting the labels by key cannot fail |
| Selectors.SortedQuarters | aeon_region_dashboard_quaterly/app.py:121 | the sorted quarter list holds exactly the labels of the column |
| Selectors.SortedQuartersNoDup | aeon_region_dashboard_quaterly/app.py:121 | each label appears in the sorted list once |
| Selectors.SortedQuartersOrdered | aeon_region_dashboard_quaterly/app.py:121 | the sorted quarter list is in ascending key order |
| Selectors.SortedQuartersChronological | aeon_region_dashboard_quaterly/app.py:121 | for quarters 1–4, the list is in strictly chronological order |
| Selectors.YearKey | aeon_region_dashboard_quaterly/app.py:124 | the year key raises AttributeError on NaN, and a key it returns is a non-negative number of a present year text |
| Selectors.YearKeyOfYearLabel | aeon_region_dashboard_quaterly/app.py:124 | the key of "FY<y>" is y |
| Selectors.YearKeyOfExtracted | aeon_region_dashboard_quaterly/app.py:105-124 | every year the extraction finds has a key |
| Selectors.YearKeys | aeon_region_dashboard_quaterly/app.py:124 | `sorted` keys every value first: it succeeds iff every value has a key, pairing each with its key, and otherwise raises the error of the first value without one |
| Selectors.FiscalYears | aeon_region_dashboard_quaterly/app.py:124 | the year list exists iff every value of the year column has a key, and it is no longer than the data |
| Selectors.FiscalYearsFailsOnMissingYear | aeon_region_dashboard_quaterly/app.py:105-124 | on loaded rows the year list raises iff some row has no year, and then with AttributeError |
| Selectors.MissingPrefixBreaksYearList | aeon_region_dashboard_quaterly/app.py:105-124 | a loaded row labelled 2023-1Q makes the year list raise AttributeError |
| Selectors.FiscalYearsSorted | aeon_region_dashboard_quaterly/app.py:124 | a successful year list holds exactly the years of the data, each once, in ascending year order |
| Selectors.LastQuarters | aeon_region_dashboard_quaterly/app.py:131-132 | for n >= 4, the slider's minimum, the selection is the suffix of the list with min(n, len) quarters |
| Selectors.LastQuartersAreLatest | aeon_region_dashboard_quaterly/app.py:131-132 | no quarter left out of the last n has a larger key than a quarter shown |
| Selectors.LastFourOfFive | aeon_region_dashboard_quaterly/app.py:131-132 | an example at the slider's minimum: of five quarters, the last four |
| Selectors.QuartersOfYears | aeon_region_dashboard_quaterly/app.py:135 | keeps exactly the quarters that start with a selected year text, each as often as in the list, in order; an empty selection gives an empty list |
| Selectors.QuartersOfYearsInKeyOrder | aeon_region_dashboard_quaterly/app.py:135 | the quarters selected by year stay in key order |
| Selectors.QuartersOfYearsByPeriod | aeon_region_dashboard_quaterly/app.py:135 | with four-digit years, a period's label is selected iff it is among the quarters and its year is selected |
| Selectors.RegionList | aeon_region_dashboard_quaterly/app.py:138-139 | the region list is the subsequence of 日本, 中国, アセアン, その他 made of the regions present in the data, each once, and no other region |
| YearOverYear.KeyOrder | aeon_region_dashboard_quaterly/app.py:318 | the order of `sort_values('四半期数値')`: by key alone |
| YearOverYear.KeyOrderIsTotalPreorder | aeon_region_dashboard_quaterly/app.py:318 | ordering by key alone is a total preorder |
| YearOverYear.RegionSeries | aeon_region_dashboard_quaterly/app.py:318 | a region's series holds exactly that region's rows, as often as in the data, in key order |
| YearOverYear.LoadedSeriesNeedsNoResort | aeon_region_dashboard_quaterly/app.py:318 | for loaded rows, which are sorted by (region, key), the per-region sort leaves the filtered rows in place, given the model's stable tie order (pandas agrees when keys within a region are distinct) |
| YearOverYear.YoyColumn | aeon_region_dashboard_quaterly/app.py:320-322 | the column has one cell per row of the series, and a cell has no value exactly at the first four places |
| YearOverYear.YoyCellIsLocal | aeon_region_dashboard_quaterly/app.py:320-322 | a cell depends only on the rows at its place and four places earlier |
| YearOverYear.FourQuartersMakeAYear | aeon_region_dashboard_quaterly/app.py:319-321 | four steps of the fiscal calendar reach the same quarter of the next year |
| YearOverYear.FourBackIsPriorYear | aeon_region_dashboard_quaterly/app.py:319-321 | in a gapless run of periods, four places back is the same quarter of the previous year |
| YearOverYear.YoyComparesPriorYear | aeon_region_dashboard_quaterly/app.py:318-322 | for a gapless series, every cell from the fifth on compares a quarter with the same quarter of the previous fiscal year |
| YearOverYear.LoadedAt | aeon_region_dashboard_quaterly/app.py:101-105 | the row a load makes of a sheet row labelled with a period has that period's label and key |
| YearOverYear.LoadedAtWellKeyed | aeon_region_dashboard_quaterly/app.py:92-105 | a quarterly sheet row labelled with a period loads as a well-keyed row |
| YearOverYear.GapSeries | aeon_region_dashboard_quaterly/app.py:318 | a region series of five loaded rows, quarter 1 of y to quarter 2 of y+1, without quarter 3 of y |
| YearOverYear.GapSeriesWellKeyed | aeon_region_dashboard_quaterly/app.py:92-105 | every row of that series is one a load can produce |
| YearOverYear.MissingQuarterShiftsComparison | aeon_region_dashboard_quaterly/app.py:319-322 | with quarter 3 of y missing, the cell of quarter 2 of y+1 compares it with quarter 1 of y, not with quarter 2 of y |
| YearOverYear.YoyBlock | aeon_region_dashboard_quaterly/app.py:318-322 | a region's block has one entry per row of the region's series, in series order; the detail tab's `reg_all` (app.py:492-495) is the same block |
| YearOverYear.YoyBlockRows | aeon_region_dashboard_quaterly/app.py:318-322 | a region's block holds only rows of that region from the data, and every one of them |
| YearOverYear.YoyTableBlocks | aeon_region_dashboard_quaterly/app.py:317-323 | an entry is in the table iff it is in the block of a listed region |
| YearOverYear.YoyTableRows | aeon_region_dashboard_quaterly/app.py:316-323 | the table holds exactly the rows of the listed regions, each in an entry of its own region's block, whose cell is computed on that region's series |
| YearOverYear.YoyTableOf | aeon_region_dashboard_quaterly/app.py:316-323 | the table after the loop: the blocks of the listed regions concatenated in list order |
| YearOverYear.YoyTable | aeon_region_dashboard_quaterly/app.py:316-323 | the loop appends each region's series with its column, in region-list order |
| YearOverYear.YoyShown | aeon_region_dashboard_quaterly/app.py:326 | the shown rows are exactly the table rows of the selected quarters, each as often as in the table, in table order, with cells computed on the whole series |

## Left out

- Excel reading, `st.cache_data`, and the missing-file branch that returns None are I/O; the model starts from the rows read.
- `convert_to_numeric` and the numeric columns are float coercion. The figures are carried along untouched.
- The Streamlit widgets, tabs, tables, fonts, plots and the HTML report are presentation only. The slider's value and the multiselect's choice are parameters.
- What the slider does with `min_value=4, max_value=len(raw_quarters), value=12` when the list has fewer than 4 or fewer than 12 quarters is widget behaviour and is not modelled; `LastQuarters` accepts any n >= 4, and `TakeLast` covers every n.
- The multiselect default `fiscal_years[-2:]` (app.py:134) is a widget default. The by-year selection takes the selected year texts as a parameter.
- The year-over-year ratio, `np.round`, and division by zero (inf or NaN) are float arithmetic. They are abstracted as the parameter `compare`.
- `pivot_table` sums and means are float aggregation.
- The profit column (app.py:358-367) repeats the revenue loop over another column. It is covered by the same members with a different `compare`.
- The detail tab (app.py:492-496) computes the same revenue column for the one region `selected_region`: that is `YoyBlock` for that region with the same `compare`, followed by the `YoyShown` filter on the selected quarters.
- Text.ParseInt: Python's `int()` also accepts surrounding whitespace, a sign, underscores and non-ASCII digits. The model accepts ASCII digits only.
- QuarterKey.ExtractYear: `\d` in a Python `str` pattern also matches non-ASCII digits. The model matches ASCII digits only.
- Lists.SortBy: `sort_values` and `sorted` are modelled as one stable insertion sort. A pandas sort on one column is not guaranteed to be stable. Ties on the key come from any two labels with the same key: with and without the `FY` or `Q` markers (`2023-1Q` and `FY2023-1Q`), with leading zeros (`FY2023-01Q`), or with a multi-digit quarter (`FY2023-10Q` and `FY2024-0Q`). Among tied labels the model keeps input order, which pandas does not promise.
- Lists.Unique: first-appearance order is implemented but not stated; only the members and the absence of repeats are.
- An empty label cell is NaN, and `sort_quarter_key` then raises AttributeError at `q.replace` (app.py:70). Labels are modelled as present text, so `KeyError` has no case for it.
- `reset_index` is left out because row positions are implicit in a sequence.
