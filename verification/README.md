# UrbanMart sales dashboard: filter and aggregate pipeline

The UrbanMart dashboard (`app.py`) loads a table of retail line items and
appends a net line revenue and a weekday name to every row. It filters the
table by five sidebar selections: an inclusive date range, stores, one
channel, categories and customer segments. When nothing is left it shows a
"no data" warning and stops. Otherwise it shows four headline numbers:
total revenue, distinct transactions, mean line revenue and distinct
customers. It also shows revenue grouped by category, store, channel and
weekday, and the five products and five customers with the most revenue.

This Dafny project models that pipeline as pure functions over an
immutable sequence of rows:

- `transactions.dfy` (module `Transactions`): the row record, the derived
  columns, and the columns used for grouping.
- `filters.dfy` (module `Filters`): the criteria and the five guarded
  filter steps, applied in the dashboard's order (`Pipeline`). They are
  proved equal to a one-pass conjunctive filter (`Where`) and to a
  field-by-field reference predicate (`Matches`). From that follow the
  subsequence property, idempotence, commutativity and the no-op rule for
  empty selections.
- `aggregates.dfy` (module `Aggregates`): total, distinct counts, mean and
  group-by-sum, with conservation and one-entry-per-key proofs.
- `ranking.dfy` (module `Ranking`): sorting groups by revenue and the
  top-five tables.
- `keyorder.dfy` (module `KeyOrder`): Python's string order and the
  key-sorted group-by-sum.
- `dashboard.dfy` (module `Dashboard`): one refresh, with the empty-result
  guard, plus the worked examples.

Modelling choices:

- Money is whole cents (`int`). Line revenue is exact and can be negative.
- A date is an integer day number that orders like the calendar.
- The weekday name comes from a caller-supplied `dayName` function.
- The mean is an exact fraction `Ratio(total, rows)`.
- The date filter applies only when the picker returns exactly two dates.
  It is then inclusive at both ends. If the first date is after the
  second, no row passes, as the comparison in the code is written.
- The channel value `"All"` means "no channel filter". A channel whose
  real name is `"All"` therefore cannot be selected on its own.
- "Avg Revenue per Transaction" is the mean over line items, not over
  transactions, as `app.py:77` computes it. Several line items can share
  one transaction id.

Ordering and empty tables:

- No tie order is modelled. The `sort_values` calls at app.py:82, 85, 97
  and 105 use pandas' default sort, which is not stable.
- The top-five tables are non-increasing in revenue, not strictly
  decreasing, because equal sums can occur.
- `groupby` sorts its keys. The channel and weekday charts (app.py:88, 91)
  are therefore in Python string order, code point by code point with a
  proper prefix first.
- On an empty filtered table app.py stops before any KPI (app.py:67-69).
  So `Refresh` returns `NoData`, and `MeanRevenue`/`ComputeKpis` return
  `None` on empty input.

## Model

| member | source | states |
|---|---|---|
| Transactions.LoadTable | app.py:11-12 | Every loaded row keeps its transaction unchanged. Its line revenue is exactly quantity × unit price − discount, with no clamping. Its weekday is the name of its date. Length and order are kept. |
| Transactions.LineRevenue | app.py:11 | Revenue plus discount equals gross. Revenue is negative exactly when the discount exceeds the gross amount. |
| Filters.WhereSpec | app.py:49-64 | A one-pass filter. Its result is an order-preserving subsequence of the input. Every kept row passes every dimension. Each row keeps its full multiplicity if it passes and none if it fails. |
| Filters.ApplyStepIsWhere | app.py:48-64 | One guarded step (skip when inactive, else keep the passing rows) equals the filter by that dimension. |
| Filters.WhereWhere | app.py:49-64 | Filtering by `a` and then by `b` equals one filter by both. |
| Filters.PipelineIsWhere | app.py:46-64 | The guarded steps run in sequence equal one conjunctive filter. |
| Filters.MatchesIsPassesAll | app.py:48-64 | The five dimensions of a criteria value accept exactly the rows that satisfy every active selection, written out field by field. |
| Filters.FilterRows | app.py:45-64 | The filtered table is an order-preserving subsequence of the input. Every kept row satisfies every active selection. No satisfying row is dropped, and none is duplicated. |
| Filters.FilterIdempotent | app.py:46-64 | Filtering the filtered table again by the same criteria changes nothing. |
| Filters.StepsCommute | app.py:48-64 | Any two filter steps give the same rows in either order. |
| Filters.PipelineOrderIrrelevant | app.py:48-64 | Any two sequences of steps naming the same dimensions give the same rows. |
| Filters.OmitInactive | app.py:48-64 | Leaving out an inactive step does not change the result. |
| Filters.EmptySelectionsAreNoOps | app.py:48-64 | Each of these filters exactly as if that dimension were absent: an empty store, category or segment selection, the channel "All", or a date range without two endpoints. |
| Aggregates.KeySetHas | app.py:76-78 | Each row's value of the column is one of its distinct values. |
| Aggregates.KeySetFrom | app.py:76-78 | Each distinct value of the column is held by some row. |
| Aggregates.KeySetSize | app.py:76-78 | A column has at most as many distinct values as rows, and at least one in a non-empty table. |
| Aggregates.CountDistinct | app.py:76-78 | The one-pass count equals the number of distinct values of the column. |
| Aggregates.RevenueBounds | app.py:77 | The smallest and the largest line revenue bound every row's, and each is some row's. |
| Aggregates.MeanRevenue | app.py:77 | No value for an empty table. Otherwise the fraction of total revenue over row count, which lies between the smallest and the largest line revenue. |
| Aggregates.TotalWithin | app.py:75-77 | If every line revenue lies in [lo, hi], the total lies in [lo·n, hi·n]. |
| Aggregates.MeanWithinRange | app.py:77 | The mean lies between the smallest and the largest line revenue. |
| Aggregates.ComputeKpis | app.py:75-78 | No KPIs for an empty table. Otherwise: total revenue; distinct transaction and customer counts, each between 1 and the row count; and the mean. |
| Aggregates.AddTo | app.py:82-91 | Adding an amount to a key keeps keys distinct. It adds the key to the key set, raises the sum by the amount, and changes only that key's revenue. |
| Aggregates.SumRemove | app.py:82-91 | Taking out the group at one position takes exactly its revenue off the groups' sum. |
| Aggregates.SameGroupsSameSum | app.py:82-91 | Lists holding the same groups, in any order, have the same total revenue. |
| Aggregates.LookupMember | app.py:82-91 | In groups with distinct keys, looking up a group's key returns that group's revenue. |
| Aggregates.DistinctKeysCount | app.py:82-91 | Groups with distinct keys number as many as their keys. |
| Aggregates.GroupSum | app.py:82-91 | Group-by-sum has distinct keys, exactly one group per key present in the table and none for absent keys. Each group holds the sum over its key's rows. The groups sum to the table's total revenue. |
| Ranking.Place | app.py:82 | Inserting into a ranked list keeps it ranked and adds exactly the inserted group. |
| Ranking.PlaceAddsRevenue | app.py:82 | Inserting a group adds its revenue to the list's sum. |
| Ranking.PlaceKeepsDistinct | app.py:82 | Inserting a group with a new key keeps keys distinct. |
| Ranking.SortByRevenue | app.py:82-85 | Sorting by revenue gives a ranked permutation of the groups. |
| Ranking.SortKeepsSum | app.py:82-85 | Sorting leaves the groups' total revenue unchanged. |
| Ranking.SortKeepsDistinct | app.py:82-85 | Sorting groups with distinct keys keeps the keys distinct. |
| Ranking.PrefixOfRanked | app.py:97-98 | The first k of a descending ranking are ranked and drawn from it. Each has at least the revenue of every group after them. |
| Ranking.Top | app.py:97-98 | The top n have length min(n, groups) and are non-increasing. They are drawn from the groups, and no group left out earns more than one chosen. |
| Ranking.TopFive | app.py:94-107 | The top five keys of a column number min(5, distinct keys), with distinct keys and non-increasing revenue. Each holds its key's full revenue, and no omitted key earns more. |
| KeyOrder.BelowIrreflexive | app.py:88-91 | No key comes before itself in string order. |
| KeyOrder.BelowTransitive | app.py:88-91 | String order is transitive. |
| KeyOrder.BelowTotal | app.py:88-91 | Of two different keys, one comes before the other. |
| KeyOrder.KeySortedIsDistinct | app.py:88-91 | Strictly increasing keys are distinct. |
| KeyOrder.InsertByKey | app.py:88-91 | Inserting a group with a new key into a key-sorted list keeps it key-sorted and adds exactly that group. |
| KeyOrder.SortByKey | app.py:88-91 | Groups with distinct keys are rearranged into a key-sorted permutation. |
| KeyOrder.KeySortedUnique | app.py:88-91 | Two key-sorted lists holding the same groups are equal, so the key order fixes the chart. |
| KeyOrder.GroupSumByKey | app.py:88-91 | The key-ordered group-by-sum has strictly increasing keys and holds the same groups as `GroupSum`. Its keys are exactly the column's distinct values, and each group holds its key's full revenue. |
| Dashboard.FilteredEmptyIff | app.py:67-69 | The filtered table is empty exactly when no row satisfies the criteria. |
| Dashboard.BuildReportCharts | app.py:81-91 | The category and store charts are ascending permutations of their group-by-sums. The channel and weekday charts hold their group-by-sums with strictly increasing keys. Every chart adds up to the filtered revenue. |
| Dashboard.BuildReportTops | app.py:93-107 | Each top-five table has min(5, distinct keys) entries with distinct keys and non-increasing revenue. Each entry holds its key's full revenue, and no left-out group earns more. |
| Dashboard.Refresh | app.py:45-107 | The view is the warning state exactly when the filtered table is empty, that is, when no row satisfies the criteria. Otherwise it holds the KPIs, the revenue-sorted charts and the key-ordered charts of the filtered table. It also holds top-five tables with the tie-free properties of `TopChart`. |
| Dashboard.ExampleStoreFilter | app.py:54-76 | Worked example: two rows total 24.00. Selecting store A leaves 19.00 and one transaction. |
| Dashboard.ExampleDateRangeExcludesAll | app.py:48-69 | A date range outside every row's date gives an empty table and no mean. |

## Left out

- CSV loading and date parsing (app.py:5, 8): file I/O and a library parser. Rows come in already loaded, with dates as ordered day numbers. A malformed date or a missing column is not modelled.
- Weekday naming (app.py:12): calendar computation in the library. It is the `dayName` parameter of `LoadTable`.
- Streamlit calls (app.py:14-43, 68-69, 72-73, the `metric`, `bar_chart`, `write` calls of 75-107, and 109-110): titles, sidebar widgets, metrics, charts and the stop are presentation only. Criteria are taken as arbitrary values, not limited to the options the widgets offer. The `head(20)` preview is display only.
- Floating point and `round(..., 2)` (app.py:75, 77): money is integer cents and the mean an exact fraction. Rounding only affects display.
- Ranking.SortByRevenue: promises no order among groups with equal revenue, because pandas' default `sort_values` is not stable.
- Aggregates.GroupSum: builds its groups in first-appearance order, not in pandas' key order. The charts shown in key order use `KeyOrder.GroupSumByKey`, which sorts them.
- Ranking.TopFive: its body happens to break ties by the first-appearance order of `GroupSum`. pandas would break them from `groupby`'s key order. `Refresh` therefore does not equate its top-five tables with `TopFive`. It states only the tie-free facts of `TopChart`, so which of several tied groups fills the last places is left open.
- KeyOrder.Below: models Python's comparison of text keys. Keys of other types, and pandas' handling of mixed types, are not modelled.
- Missing values (NaN) in any column: the model's rows always have every field.
