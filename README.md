# COVID-19 trend scripts: analytic core in Dafny

This project models the analytic core of two scripts that read the ECDC daily case/death table.

- `covid_stats_compare.py` builds a per-million series for each requested country. The series starts at the country's first day with a positive count and walks the rows in reversed file order. The script then plots a seven-day moving average of each series.
- `covid_stats.py` keeps the rows of one country. It splits them into parallel date, case and death lists and plots seven-day averages of cases and deaths against a slice of the dates.

Both scripts share the same `moving_average(a, n)`. It computes numpy prefix sums into an integer buffer, overwrites the tail of the buffer with differences of prefix sums, and divides by `n`.

Modules:

- `Averages` (averages.dfy): `moving_average` as imperative code over fresh arrays.
  - `CumSum` is `np.cumsum(a, dtype=int)`.
  - `ShiftSubtract` is `ret[n:] = ret[n:] - ret[:-n]`. It builds the right-hand side in a temporary array first, then assigns it, the same order numpy uses.
  - `MovingAverage` is the whole function, with the final `ret[n - 1:] / n`.
  - The method is proved against a direct reference definition, `WindowMeans`, built on a recursive `Sum`.
  - `Trunc` models numpy's float-to-int cast, which truncates toward zero.
- `Ecdc` (ecdc.dfy): `get_ecdc_data` as a loop over the rows from last to first.
  - The loop mutates a map of lists and a `found` list.
  - It is proved equal to the reference function `Series`, and the lemmas characterise `Series`.
  - The module also has the per-country averaging loop of `plot`.
- `Trend` (trend.dfy): the parts of `covid_stats.py` listed below.
  - The column-building loop.
  - Python's clamped slices `x[6:]` and `date_list[:-6]`.
  - The pairing of averages with dates in `plot` and `print_graph`.
  - The country filter of `run`.

The model follows the code in these respects:

- A series shorter than the window gives an empty average. No error is raised.
- Rows are put in order by reversing the input, not by sorting on dates.
- A requested country with no positive row is absent from the result of `get_ecdc_data`. It is not mapped to an empty list.
- `plot` in `covid_stats.py` pairs average `i` with row `i`, the first row of its window in list order. `print_graph` pairs it with row `i + 6`, the last row of its window. The ECDC file lists the newest day first, so `plot` anchors each average at the newest day of its window and `print_graph` at the oldest. The model states both pairings as written.

Modelling choices:

- Rows are already-parsed records.
- In `Ecdc`, a record holds the country, the count of the requested kind and the population. The population is a positive-integer subtype.
- In `Trend`, a record holds the date, cases, deaths and the country.
- Dates are opaque: `Trend.Record` takes the date type as a type parameter, and the model carries dates in parallel with the counts without inspecting them.
- Per-million values are exact `real`s.
- Counts are unbounded `int`s and may be negative, as some ECDC corrections are.

## Model

| member | source | states |
|---|---|---|
| `Averages.CumSum` | covid_stats_compare.py:28 | the buffer has one entry per input element, and entry k is the sum of elements 0..k |
| `Averages.ShiftSubtract` | covid_stats_compare.py:29 | entries below n are untouched; every entry k >= n becomes old entry k minus old entry k - n, subtracting values from before the assignment; a buffer of at most n entries is unchanged |
| `Averages.WindowIsPrefixDifference` | covid_stats_compare.py:29 | the sum of a window equals the difference of two prefix sums, the identity line 29 relies on |
| `Averages.SumSplit` | covid_stats_compare.py:28-29 | a range sum splits additively at any interior point |
| `Averages.MovingAverage` | covid_stats_compare.py:27-30 | for n >= 1 the result has len(a) - n + 1 elements when len(a) >= n and none otherwise, no failure on short input; element i is the mean of a[i..i+n-1]; the prefix-sum algorithm equals the direct reference definition (the same function is duplicated at covid_stats.py:20-23) |
| `Averages.SlidingStep` | covid_stats_compare.py:29 | consecutive window sums differ by the element entering minus the element leaving |
| `Averages.MeansSlide` | covid_stats_compare.py:27-30 | consecutive averages differ by (entering element - leaving element) / n |
| `Averages.MeansNonNegative` | covid_stats_compare.py:27-30 | non-negative inputs give non-negative averages |
| `Averages.MeansOfConstant` | covid_stats_compare.py:27-30 | a constant input gives that constant at every output position |
| `Averages.ExampleWindowOfThree` | covid_stats_compare.py:27-30 | window 3 over [3, 5, 0, 2, 4, 6, 8, 10] gives [8/3, 7/3, 2, 4, 6, 8] |
| `Averages.ExampleShortInput` | covid_stats_compare.py:29-30 | two values with window 3 give an empty result |
| `Averages.Trunc` | covid_stats_compare.py:28 | the `dtype=int` cast truncates toward zero: the result is within 1 below a non-negative value and within 1 above a negative value |
| `Averages.TruncAllBounds` | covid_stats_compare.py:28 | each cast element keeps the sign of its float and lies within one of it, on the side of zero |
| `Ecdc.PerMillion` | covid_stats_compare.py:48 | value times population equals count times one million, using the row's own population; the value is positive iff the count is |
| `Ecdc.ScaledAppend` | covid_stats_compare.py:48 | scaling works row by row, so it distributes over concatenation, the step an append to a list takes |
| `Ecdc.ScaledPositive` | covid_stats_compare.py:48 | a stored value is positive exactly where its row's count is |
| `Ecdc.ReverseReverse` | covid_stats_compare.py:42 | reversing twice gives the rows back |
| `Ecdc.ReverseAppend` | covid_stats_compare.py:42 | the reversal of a concatenation is the reversed parts in swapped order |
| `Ecdc.EntryStep` | covid_stats_compare.py:43-50 | one row changes only its own country's entry: a found country gets the row's value appended; an unfound one becomes found with a one-element list at a positive row; a non-positive row leaves an unfound country alone |
| `Ecdc.GetEcdcData` | covid_stats_compare.py:32-51 | the loop over reversed rows, with its `found` list and map of lists, yields exactly the reference map `Series` |
| `Ecdc.HasPositiveOf` | covid_stats_compare.py:44-45 | a country's filtered rows contain a positive count iff the input has a positive row of that country |
| `Ecdc.OfReverse` | covid_stats_compare.py:42-43 | filtering by country commutes with reversal |
| `Ecdc.FromFirstPositiveShape` | covid_stats_compare.py:44-50 | truncation keeps exactly the suffix that starts at the first positive row; every earlier row is non-positive |
| `Ecdc.SeriesKeys` | covid_stats_compare.py:43-47 | a country is a key iff it was requested and at least one of its rows has a positive count; countries with only zero rows are absent |
| `Ecdc.SeriesShape` | covid_stats_compare.py:42-50 | a key's list is the per-million values of that country's rows in reversed input order, starting at its first positive row in that order, all later rows (zeros included) kept |
| `Ecdc.SeriesStartsPositive` | covid_stats_compare.py:44-50 | every list is non-empty, starts with a positive value and is no longer than the country's rows |
| `Ecdc.SeriesIndependent` | covid_stats_compare.py:45-46 | a country's presence and list depend only on its own rows, never on other countries' rows or on which other countries were requested |
| `Ecdc.PlotAverages` | covid_stats_compare.py:63-66 | every country of the data gets exactly one curve, the seven-day average of its truncated per-million values |
| `Ecdc.Compare` | covid_stats_compare.py:79-81 | `get_ecdc_data` then `plot`: a country is plotted iff it was requested and has a positive row; its series is non-empty and no longer than its rows; its curve has max(0, len - 6) points, where len is the length of its series; point i is the mean of the truncated values i..i+6; a short series gives an empty curve |
| `Trend.From` | covid_stats.py:41 | `x[6:]` has max(0, len - 6) elements, and element i is x[i + 6] |
| `Trend.DropLast` | covid_stats.py:62 | `date_list[:-6]` has max(0, len - 6) elements, and element i is date_list[i] |
| `Trend.Columns` | covid_stats.py:51-55 | the three lists have the length of the rows, one element per row in row order; the loop at covid_stats.py:34-38 is the same |
| `Trend.Plot` | covid_stats.py:62-69 | the dates and the two average curves always agree in length, max(0, rows - 6), including fewer than 7 rows; average i is the mean of rows i..i+6 and is paired with the date of row i, the first of its window in list order |
| `Trend.PrintGraph` | covid_stats.py:29-42 | `x[6:]` and both curves agree in length for every row count; average i is paired with the date of row i + 6, the last of its window in list order |
| `Trend.OfCountry` | covid_stats.py:84 | every kept row has the requested country and comes from the input |
| `Trend.OfCountryKeepsAll` | covid_stats.py:84 | every row of the requested country is kept |
| `Trend.OfCountryAppend` | covid_stats.py:84 | the filter distributes over concatenation, so the original order is preserved |
| `Trend.OfCountryIdentity` | covid_stats.py:84 | rows that are all of the country pass through unchanged |
| `Trend.OfCountryNone` | covid_stats.py:84 | rows of other countries are all dropped |
| `Trend.Run` | covid_stats.py:83-85 | filter then plot: the curves and dates have max(0, own - 6) elements, where own is the number of the country's rows; point i comes from the country's rows i..i+6 in input order |

## Left out

- `get_csv` and `requests.get` (network I/O) and `csv.DictReader`: rows are given as already-parsed records.
- `int(...)` parsing of CSV fields and `datetime.strptime`: counts are integers, and a date is an opaque `Date` value.
- Non-positive populations. The source reads `int(line['popData2018'])` only when it scales a row, at covid_stats_compare.py:48 and 50. It scales only rows of requested countries at or after their first positive row. A zero or unparsable population raises only on such a row.
- A zero, empty or negative population on any other row is never read, and the source runs normally. The model's `Population` type is nonetheless positive on every row, including rows the source never divides by. So `GetEcdcData` cannot be given some inputs that the source processes without error.
- Negative populations are also excluded. The source accepts them silently and produces negative per-million values.
- `n <= 0` in `moving_average`: numpy misbehaves there, and the model requires `n >= 1`.
- IEEE floating point. `value / pop * 1000000` is an exact real, and the cast to `int` is exact truncation toward zero, so rounding in the last bits of a float is not modelled.
- numpy's 64-bit integer overflow in `cumsum`: sums are unbounded integers, which realistic counts never exceed.
- All matplotlib work (axes, labels, colours, titles, `plt.show`). The figure is modelled only as the sequences handed to `plot`.
- The colour lookup `colors[i]` in covid_stats_compare.py `plot`, which raises IndexError for an eighth country: presentation code.
- `argparse` and `run` in both scripts, apart from the country filter at covid_stats.py:84 and its hand-off to `plot`.
- Iteration order of the result dictionary of `get_ecdc_data`: the model's result is a map, so only keys and lists are modelled.
- `Ecdc.PlotAverages` does not model the order in which curves are drawn: it returns the map of plotted curves.
