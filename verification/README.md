# Tokopedia sales dashboard: the figures, modelled and proved

`visualisasi.py` reads a table of sales transactions and renders one HTML
dashboard. This project models the part of that script that computes the
figures the dashboard shows, and proves what those figures mean:

- the `bulan` column: each registration date turned into a "YYYY-MM"
  label, or "NaT" when the date does not parse;
- the summary cards: total sales, number of transactions, the best-selling
  category (`idxmax` of the per-category sums) and the most used payment
  method (`mode()[0]`);
- the three chart tables: sales per category sorted by amount, payment
  method shares (`value_counts(normalize=True)`, the first six plus a
  "Lainnya" slice for the rest) and sales per month;
- the insight list: the five best categories, the average sale with its
  zero guard, the peak month and the share of the most used payment method;
- the month range printed in the page header.

The script is a chain of pure pandas expressions, so the model is pure too:
datatypes, functions and lemmas, with no state.

Modules:

- `Lex` (`lex.dfy`): Python's string order, which is the order in which
  pandas sorts group keys and breaks ties.
- `Months` (`months.dfy`): dates, month labels, and the proof that sorting
  labels as strings gives calendar order with "NaT" last.
- `Table` (`table.dfy`): transactions, prepared rows, and the sums and
  counts over them.
- `Groups` (`groups.dfy`): the result of `groupby(...).sum()` as a strictly
  ascending list of `(key, total)` entries, plus `idxmax` and the
  descending sort.
- `Report` (`report.dfy`): every figure of the dashboard, and `Build`, which
  runs the whole script on a table.
- `Scenarios` (`scenarios.dfy`): small tables worked through the model.
- `Wrappers` (`wrappers.dfy`): `Option` and `Result`.

What the script does at its edges, and so what the model does:

- An empty table makes `idxmax` at line 14 raise, and `Report.Build`
  returns `Err(EmptyTable)`.
- An unparseable date becomes pandas' "NaT". Its label is the string "NaT",
  and the monthly rollup keeps it as an ordinary key. The peak month
  (line 113) can therefore be "NaT". A table whose every date is
  unparseable is not an error.
- The header's month range (line 142) includes "NaT" (see Findings below).
  The dashboard that `Report.Build` returns carries this range as printed.
  The corrected range is `Report.MonthRange`.
- `sort_values` and `value_counts` do not promise an order among equal
  totals. The contracts therefore promise only non-increasing order.

## Model

| member | source | states |
|---|---|---|
| Months.LabelOrder | visualisasi.py:9 | Comparing two month labels as strings agrees with calendar order of the dates, with every real month before "NaT" (both directions). |
| Months.LabelSameMonth | visualisasi.py:9 | Two dates get the same label exactly when they fall in the same calendar month, or are both unparseable. |
| Months.LabelShape | visualisasi.py:9 | A parsed date's label has seven characters, "YYYY-MM" with digits around the dash; a label equals "NaT" exactly when the date did not parse. |
| Months.DigitsOrder | visualisasi.py:9 | Zero-padded fixed-width decimal strings compare as strings exactly as their numbers compare, and are equal exactly when the numbers are. |
| Table.Prepare | visualisasi.py:9 | Adding `bulan` keeps every row and every field, and gives each row the label of its own date. |
| Table.RowsMeasureCounts | visualisasi.py:15 | Summing one per row counts rows, so counting by method is a group sum with the row measure. |
| Groups.AddTo | visualisasi.py:19-20 | Adding one row's value to a table keeps the keys strictly ascending, adds the key, adds the value to the grand total, and changes only that key's total. |
| Groups.Group | visualisasi.py:19-20 | `groupby(col).sum()`: keys strictly ascending, exactly the values that occur in the column, each key's total is the sum over its rows, and the totals add up to the column total. |
| Groups.GroupSize | visualisasi.py:19-20 | The grouped table has one entry per distinct value of the column. |
| Groups.GroupEntry | visualisasi.py:19-20 | Every entry of the grouped table holds a value of the column and exactly that value's total. |
| Groups.MaxIndex | visualisasi.py:14 | `idxmax` position: no total exceeds the chosen one, and every earlier entry is strictly smaller (the first maximum). |
| Groups.ArgMaxIsTop | visualisasi.py:14 | The chosen key exists exactly when the table is non-empty; it has the largest total and sorts first among keys with that total. |
| Groups.TopUnique | visualisasi.py:14 | At most one key has the largest total while sorting first among ties, so that property decides the answer. |
| Groups.InsertDesc | visualisasi.py:21 | Inserting into a non-increasing table keeps it non-increasing and adds exactly that entry (multiset), its key and its total. |
| Groups.SortDesc | visualisasi.py:21 | `sort_values(ascending=False)`: the result is non-increasing by total and a permutation of the input, with the same keys and the same grand total. |
| Groups.SortDescDistinct | visualisasi.py:21 | Sorting keeps distinct keys distinct. |
| Groups.CountDistinct | visualisasi.py:21 | A table with as many keys as entries repeats no key. |
| Report.TopCategoryIsLargest | visualisasi.py:14 | The best-selling category exists exactly for a non-empty table, is a category of the table, sells at least as much as every other category, and sorts first among categories that sell the same. |
| Report.TopPaymentMethodIsMode | visualisasi.py:15 | `mode()[0]` exists exactly for a non-empty table, is used at least as often as every other method, and is the smallest name among the equally frequent ones. |
| Report.CategoryRollupSpec | visualisasi.py:18-22 | One entry per category, each holding that category's summed amount, keys distinct, non-increasing by amount, and the amounts add up to total sales. |
| Report.TopCategoryLeadsChart | visualisasi.py:14-22 | The best-selling category's amount is the first bar of the category chart. |
| Report.Normalize | visualisasi.py:49 | `normalize=True`: each share keeps its method's name and is its count over the number of rows; the shares add up to the counts' sum over the number of rows. |
| Report.PaymentSharesSpec | visualisasi.py:49-50 | `df_pie` has one share per payment method: every method of the table appears, only those, and none twice. |
| Report.PaymentSharesFractions | visualisasi.py:49-50 | Each share is the method's number of rows over all rows, the shares are in non-increasing order, and they add up to 1 for a non-empty table. |
| Report.SortedKeys | visualisasi.py:49 | The sorted counts hold every method of the table exactly once. |
| Report.PaymentChart | visualisasi.py:52-58 | `df_final` is the first min(6, n) shares unchanged followed by one "Lainnya" slice holding the sum of the rest, which is 0 when there are at most six methods; the chart sums to the same total as the shares. |
| Report.PaymentChartSumsToOne | visualisasi.py:52-58 | The donut chart's slices add up to 1, and "Lainnya" is 1 minus the shown methods. |
| Report.MonthlyRollupSpec | visualisasi.py:86 | One entry per month label, keys strictly ascending, each holding that month's summed amount, adding up to total sales. |
| Report.MonthBucketsAreCalendarMonths | visualisasi.py:9 | Two rows share a `bulan` bucket exactly when their dates fall in the same calendar month. |
| Report.MonthlyRollupInCalendarOrder | visualisasi.py:86 | The monthly chart runs in calendar order of the underlying dates, and the "NaT" bucket, when present, is its last point. |
| Report.TopCategoriesSpec | visualisasi.py:111 | `df_kat.head(5)` is the first min(5, n) entries of the category chart, and no category left out sells more than one listed. |
| Report.AverageSpec | visualisasi.py:112 | The average is 0 for an empty table; otherwise the average times the number of rows is total sales, and it lies between any lower and upper bound on the row amounts. |
| Report.PeakMonthIsLargest | visualisasi.py:113 | The peak month exists exactly for a non-empty table, is a month of the chart, has the largest total, and is the earliest label among equal totals ("NaT" included). |
| Report.TopPaymentShareSpec | visualisasi.py:195 | The share in the insight list exists exactly for a non-empty table, is the largest share, and equals the most used method's count over the number of rows. |
| Report.MonthRangeAsWrittenSpec | visualisasi.py:142 | As written, the header range exists for a non-empty table; its two ends are month labels of the table, and every label, "NaT" included, lies between them. |
| Report.HeaderEndsAtNaT | visualisasi.py:142 | As written, one row with an unparseable date makes the header's range end at "NaT". |
| Report.DatedMonths | visualisasi.py:142 | Dropping the "NaT" bucket keeps the months ascending and removes exactly the "NaT" key. |
| Report.MonthRangeSpec | visualisasi.py:142 | The corrected range exists exactly when some label is a real month; its ends are real months of the table, and every real month lies between them. |
| Report.MonthRangeIsCalendar | visualisasi.py:142 | For a prepared table, the corrected range exists exactly when some date parsed, and every parsed date's month lies within it. |
| Report.Build | visualisasi.py:12-15 | The script fails exactly when the table is empty, where `idxmax` raises. |
| Report.DashboardHeader | visualisasi.py:142 | The built dashboard's header range is the first and last point of the monthly chart. Both are month labels of the table, and every label lies between them. It ends at "NaT" as soon as one date did not parse. |
| Report.DashboardTotals | visualisasi.py:12-13 | The transaction card counts the rows. The category chart and the monthly chart both add up to the total sales card. The average is total sales over the transaction count. |
| Report.DashboardPayments | visualisasi.py:52-58 | The donut chart adds up to 1 and ends with "Lainnya"; the insight list's percentage is the chart's first slice. |
| Report.DashboardInsights | visualisasi.py:111 | The best-selling category card shows the first bar's amount, and the insight list's categories are the first bars of the category chart. |
| Report.DashboardPeak | visualisasi.py:113 | The insight list's peak month is a point of the monthly chart with no larger point. |
| Report.PeakLeadsChart | visualisasi.py:113 | The peak month is a key of the monthly chart, and no point of the chart is higher than its point. |
| Scenarios.SalesPrepared | visualisasi.py:9 | Example table: dates 2024-01-05, 2024-02-10 and an unparseable one get "2024-01", "2024-02" and "NaT". |
| Scenarios.SalesSummary | visualisasi.py:12-14 | Example table: total 350, 3 transactions, top category "B". |
| Scenarios.SalesPaymentMethod | visualisasi.py:15 | Example table: the most used method is "X". |
| Scenarios.SalesMonths | visualisasi.py:86 | Example table: monthly chart 2024-01 → 100, 2024-02 → 200, NaT → 50. |
| Scenarios.SalesPeak | visualisasi.py:113 | Example table: the peak month is "2024-02". |
| Scenarios.SalesRange | visualisasi.py:142 | Example table: the header as written reads "2024-01" to "NaT"; the corrected range is "2024-01" to "2024-02". |
| Scenarios.SalesHeader | visualisasi.py:142 | Example table: the built dashboard's header reads "2024-01" to "NaT". |
| Scenarios.TiedCategories | visualisasi.py:14 | Two categories with equal sales: `idxmax` picks "Food", the name that sorts first. |
| Scenarios.TiedPaymentMethods | visualisasi.py:15 | Two methods used once each: `mode()[0]` picks "COD", the smaller name. |
| Scenarios.TiedPaymentChart | visualisasi.py:52-58 | Two methods used once each: the chart has three slices. The first two are COD and Transfer, in an order left open because they tie, each 0.5. The last is a "Lainnya" slice of 0 that is still present. |

## Left out

- Reading `tokped.csv` (line 6): the model starts from a sequence of transactions.
- Parsing `registered_date` with `to_datetime(errors='coerce')` (line 9): each date arrives already parsed, or as `NaT`. Years are limited to 0..9999, which covers every date pandas can represent.
- Missing values in `category`, `payment_method` or `after_discount`: `groupby`, `mode` and `value_counts` drop them, and the model has none.
- `after_discount` is a whole number of Rupiah. Floating-point amounts and their rounding are not modelled.
- Report.PaymentSharesFractions: shares are exact rationals, so they sum to exactly 1. The script's `float64` shares sum to 1 only up to rounding.
- Groups.SortDesc: promises non-increasing order and a permutation, but not which of several equal totals comes first. `sort_values` (quicksort) leaves that order open, and `value_counts` keeps equal counts in order of first occurrence. The model's own order among ties (ascending name) is one particular choice, and no contract or scenario relies on it.
- The model assumes pandas 1.x/2.x: `astype(str)` writes a missing period as the string "NaT". Under pandas 3's default string dtype a missing month stays missing, so `groupby` would drop that bucket and `min()`/`max()` would skip it. The monthly chart, the peak month and the Findings row assume the older behaviour.
- The three Plotly figures (lines 24–46, 60–83, 87–108): the model stops at the tables passed to them.
- The HTML text, number formatting (`:,.0f`, `.1%`) and the page template (lines 116–216): only the header's month range (line 142) is modelled.
- Writing `index.html` and printing the final message (lines 218–221): file output and console output are not part of this model.
- A payment method literally named "Lainnya" appears twice in the chart. The model does the same and says nothing more about it.

## Findings

| source | as written | input that shows it | evidently intended | confidence | as-written member | corrected member |
|---|---|---|---|---|---|---|
| visualisasi.py:142 | The header prints `df['bulan'].min()` and `.max()` over the string labels, and "NaT" sorts after every "YYYY-MM". | Any table with one unparseable date, e.g. `Scenarios.Sales`: the header reads "2024-01 hingga NaT". | The range of real months, "2024-01" to "2024-02", leaving "NaT" out. | not executed; follows from the label order | Report.HeaderEndsAtNaT | Report.MonthRangeSpec |
