# Airline delay dashboard: the data pipeline, modelled in Dafny

The dashboard (`Airline-Delay.py`) loads a table of US airline delay
statistics, offers two selectors (airline and airport), filters the table by
them and draws five views of the filtered rows. This project models that data
pipeline as pure functions over a `seq<Row>` and proves what the dashboard
relies on:

- **Option lists** (`Options`): `"All"` followed by the distinct non-missing
  values of `carrier_name` / `airport_name`, in Python's string order
  (`LexOrder.Less`, code point by code point, a prefix first).
- **Filter** (`Filtering`): the sentinel `"All"` imposes nothing; any other
  selection keeps exactly the rows whose column equals it; the airline and
  airport filters are applied one after the other, which is their
  conjunction. A missing value (pandas NaN) equals no selection.
- **Top ten** (`Ranking`, `Aggregates`): group by airport or airline
  (missing keys are dropped, as `groupby` does), sum `arr_del15` (or average
  `arr_delay` for the third view), sort by the aggregate, largest first, and
  keep the first ten.
- **Delay causes** (`Aggregates.Causes`): the five cause columns summed, in
  the fixed order `carrier_ct`, `weather_ct`, `nas_ct`, `security_ct`,
  `late_aircraft_ct`.
- **Monthly trend** (`Monthly`): `arr_del15` per month present, in month order.
- **One render pass** (`Dashboard.Render`): the five views of the filtered table.

Rows are values; the table is never changed by any step (the source filters a
copy), which the model has for free. Numbers are Dafny's exact `real`. Key
columns are `Option<string>`, where `None` is a missing value. Months are the
subset type 1..12.

Sorting by total is modelled as a stable insertion sort, so equal totals keep
the ascending key order that `groupby` produces. pandas' default sort is not
stable, so no contract says anything about the order of equal totals.

The monthly view is computed by scanning the calendar months 1 to 12 and
keeping those that occur. Because every month lies in 1..12, this gives the
same result as `groupby("month")` followed by `sort_values(by="month")`.

The cause labels are the column names (`"carrier_ct"`, …), which is what
`reset_index` produces at `Airline-Delay.py:87-93`; they are not short names
such as `"carrier"`.

## Model

| member | source | states |
|---|---|---|
| `LexOrder.Less` | Airline-Delay.py:37-38 | Python's `str` order used by `sorted`: code point by code point, a proper prefix first; a string is never below itself |
| `LexOrder.LessIrreflexive` | Airline-Delay.py:37-38 | no string sorts before itself in the order `sorted` uses |
| `LexOrder.LessTransitive` | Airline-Delay.py:37-38 | the string order is transitive |
| `LexOrder.LessTotal` | Airline-Delay.py:37-38 | any two different strings are ordered one way or the other |
| `LexOrder.AscendingDistinct` | Airline-Delay.py:37-38 | a sorted list of distinct values holds no value twice |
| `Options.InsertValue` | Airline-Delay.py:37 | adding a value to a sorted distinct list keeps it sorted and distinct, and its members are the old ones plus the value |
| `Options.SortedValues` | Airline-Delay.py:37-38 | `sorted(col.dropna().unique())`: strictly ascending, and a string is in it exactly when some row has it in that column |
| `Options.OptionList` | Airline-Delay.py:37-38 | starts with "All"; the rest is strictly ascending, has no duplicates, and is exactly the set of non-missing values of the column |
| `Table.Match` | Airline-Delay.py:52 | the rows kept by `col == value` are exactly the rows whose column equals the value; a missing value matches nothing; never more rows than the input |
| `Table.MatchMultiplicity` | Airline-Delay.py:52 | the mask keeps each matching row as many times as the table holds it, and no other row |
| `Table.ColumnSum` | Airline-Delay.py:59 | `.sum()` of one column over some rows, 0 over no rows; never negative when every value is non-negative |
| `Table.MatchSum` | Airline-Delay.py:58-59 | summing a column over the rows of one key equals a one-pass sum over the table counting only that key's rows, and the number of matched rows is the number of such rows |
| `Filtering.Restrict` | Airline-Delay.py:51-54 | one selector: "All" returns the rows unchanged, any other value keeps exactly the rows equal to it |
| `Filtering.Filter` | Airline-Delay.py:50-54 | "All"/"All" returns the table unchanged; a row is in the result iff it is in the table and passes both selectors; the result is empty iff no row passes |
| `Filtering.FilterIsMatching` | Airline-Delay.py:50-54 | the two successive filters equal the single one-pass filter by the conjunction of both selectors |
| `Filtering.MatchingIsSubsequence` | Airline-Delay.py:51-54 | the kept rows appear in the table's order |
| `Filtering.FilterPartition` | Airline-Delay.py:51-54 | kept and dropped rows together are the table, as multisets and in number |
| `Filtering.RejectedRejects` | Airline-Delay.py:51-54 | every dropped row is a table row that fails a selector |
| `Filtering.FilterExact` | Airline-Delay.py:50-54 | the filtered table is a subsequence of the table that, with the rows that fail a selector, makes up the table row for row |
| `Ranking.Insert` | Airline-Delay.py:62 | inserting a group into a list adds exactly that group (multiset) |
| `Ranking.InsertNonIncreasing` | Airline-Delay.py:62 | insertion keeps a list ordered by total, largest first |
| `Ranking.InsertDistinct` | Airline-Delay.py:62 | inserting a group with a new key keeps the keys distinct |
| `Ranking.SortByTotal` | Airline-Delay.py:62 | `sort_values(ascending=False)`: a permutation of its input, ordered non-increasingly by total |
| `Ranking.SortByTotalDistinct` | Airline-Delay.py:62 | sorting keeps keys distinct |
| `Ranking.Head` | Airline-Delay.py:63 | `head(n)`: the first min(n, length) groups |
| `Ranking.TopN` | Airline-Delay.py:62-63 | `sort_values(ascending=False).head(n)`: min(n, groups) groups, non-increasing by total, all taken from the input |
| `Ranking.TopNCorrect` | Airline-Delay.py:62-63 | sort-then-head returns min(n, groups) groups, non-increasing, with distinct keys, all from the input, and every group left out has a total no larger than every group kept |
| `Aggregates.GroupSum` | Airline-Delay.py:58-59 | `groupby(col)["arr_del15"].sum()` for one key: the one-pass sum of `arr_del15` over the table's rows with that key |
| `Aggregates.GroupMean` | Airline-Delay.py:78-79 | `groupby(col)["arr_delay"].mean()` for a key that occurs: at least one row has it, and the value is the one-pass `arr_delay` sum over those rows divided by their number |
| `Aggregates.Grouped` | Airline-Delay.py:58-61 | one group per distinct non-missing key, no key twice, every key of the table present, each value the group's sum (or mean) |
| `Aggregates.Top` | Airline-Delay.py:57-84 | the ranked view: min(10, keys) groups, non-increasing, distinct keys, each value its group's aggregate, and any key cut off has an aggregate no larger than any shown |
| `Aggregates.WorstAirports` | Airline-Delay.py:57-64 | min(10, airports) airports, non-increasing, distinct, each total the `arr_del15` sum of that airport's rows, every airport cut off no worse than any shown |
| `Aggregates.WorstAirlines` | Airline-Delay.py:67-74 | the same for airlines |
| `Aggregates.LongestAverageDelays` | Airline-Delay.py:77-84 | min(10, airlines) airlines, non-increasing, distinct, each value the mean `arr_delay` of that airline's rows, every airline cut off no higher than any shown |
| `Aggregates.ColumnName` | Airline-Delay.py:88-93 | the column headers used as `Cause` labels; the five cause columns are exactly those whose header ends in `_ct` |
| `Aggregates.Causes` | Airline-Delay.py:87-93 | exactly five entries named `carrier_ct`, `weather_ct`, `nas_ct`, `security_ct`, `late_aircraft_ct` in that order, each the column's sum, all 0 on an empty table |
| `Aggregates.CausesSplit` | Airline-Delay.py:88-89 | the five column sums add up to the per-row sums of the five cause counts |
| `Aggregates.CausesConserve` | Airline-Delay.py:87-93 | the five cause totals add up to every cause count of every row |
| `Monthly.MonthRows` | Airline-Delay.py:97 | the rows of one month are exactly the table's rows with that month |
| `Monthly.MonthSum` | Airline-Delay.py:97-98 | the per-month `arr_del15` sum equals a one-pass sum over the table counting only that month's rows |
| `Monthly.MonthRowsSum` | Airline-Delay.py:97-98 | summing over a month's rows is summing over the table with other months counted as 0 |
| `Monthly.MonthlyFrom` | Airline-Delay.py:96-102 | months strictly increasing, none before the start month, each total that month's `arr_del15` sum |
| `Monthly.MonthlyFromLists` | Airline-Delay.py:96-102 | a month from the start month on is listed iff some row has it |
| `Monthly.MonthlyTotals` | Airline-Delay.py:96-102 | months strictly increasing, listed iff present in the table, each total its month's sum, at most 12 entries |
| `Monthly.StrictMonthsBound` | Airline-Delay.py:101 | strictly increasing months leave room for at most 12 entries |
| `Monthly.DelaysFromSplit` | Airline-Delay.py:97-98 | the delays from month m on are month m's delays plus those from m+1 on |
| `Monthly.DelaysFromEnds` | Airline-Delay.py:97-98 | nothing lies after month 12, and everything lies from month 1 on |
| `Monthly.AbsentMonthIsZero` | Airline-Delay.py:97-98 | a month with no rows sums to 0 |
| `Monthly.MonthlyFromStep` | Airline-Delay.py:96-102 | each calendar month adds its own sum to the view's total |
| `Monthly.MonthlyFromConserves` | Airline-Delay.py:96-102 | the totals from month m on add up to the delays from month m on |
| `Monthly.MonthlyConserves` | Airline-Delay.py:96-102 | the monthly totals add up to the `arr_del15` sum of the whole table |
| `Dashboard.FilteredKey` | Airline-Delay.py:50-54 | after filtering by a selection other than "All", the only key left in that column is the selection |
| `Dashboard.Render` | Airline-Delay.py:50-102 | the five views are exactly the single-view functions applied to the filtered table, so all their contracts hold of the filtered rows; the ranked totals are the one-pass per-key sums and the cause totals the column sums over the filtered rows; every ranked view has at most 10 entries, a selected airport or airline is the only key its views show, the monthly totals add up to the filtered table's delays, and "All"/"All" gives the monthly view of the whole table |
| `Example.TwoRowOptions` | Airline-Delay.py:37 | two rows AA/JFK and DL/JFK give the airline options "All", "AA", "DL" |
| `Example.TwoRowWorstAirports` | Airline-Delay.py:57-64 | the same two rows give the single airport group JFK with 8 delays |
| `Example.TwoRowColumnSums` | Airline-Delay.py:88-89 | the same two rows sum to 3, 1, 2, 0, 2 in the five cause columns |
| `Example.TwoRowCauses` | Airline-Delay.py:87-93 | the same two rows give cause totals 3, 1, 2, 0, 2 |
| `Example.TwoRowMonthly` | Airline-Delay.py:96-102 | the same two rows give the single month group January with 8 delays |

## Left out

- Page configuration, styling, titles, the sidebar widgets and the footer (`Airline-Delay.py:8-27`, `41-47`, `144`): presentation only. The two selected strings are parameters of `Filtering.Filter` and `Dashboard.Render`.
- Loading the CSV file and the `st.cache_data` memoisation (`Airline-Delay.py:30-34`): file I/O and a library cache; the table is a parameter.
- All plotly charts (`Airline-Delay.py:105-141`): rendering by a foreign library. The seaborn and matplotlib imports are unused.
- Missing numeric values: pandas skips NaN in `sum` and `mean`; the model's numeric columns are never missing. Missing keys are modelled (`None`).
- Floating point: all arithmetic is exact `real`, so rounding in float sums and means is not modelled.
- Order among equal totals in the ranked views: pandas' default sort gives no guarantee, so no contract fixes it.
- LongestAverageDelays: states the value of each mean exactly, which a float `mean` only approximates.
- Selector values that are not in the option list: the filter simply finds no row equal to them, so the result is empty; no separate error is modelled.
