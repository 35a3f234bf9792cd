# E-commerce sales analysis, modelled in Dafny

`ecommerce-data-analysis/analysis.py` loads a transaction log (one row per invoice
line item) into a pandas DataFrame `df` and then works in two stages:

* **Preparation, in place.** `InvoiceDate` is made a datetime column. A `Revenue`
  column is derived as `Quantity * UnitPrice`, but only when the file has no
  `Revenue` column. Later a `Month` column (the monthly period of the invoice
  date) is added.
* **Aggregation, as pure expressions.**
  * Revenue is summed per `Description` and ranked from the highest total down.
  * The mean `Revenue` of the rows of each month is computed. The script calls it
    "average order value", but it is a mean over line items, not over invoices.
  * The distinct `InvoiceNo` values of each month are counted.
  * The month with the most invoices is picked (`idxmax`).
  * The first ten ranked products are taken as the chart's input.

The model has five modules:

* `Wrappers` (wrappers.dfy): `Option` and `Result`.
* `Series` (series.dfy): a pandas Series as a sequence of `(key, value)` pairs.
  This module defines once the group-by reducers (sum, group size, distinct
  values), the descending sort, `head(n)` and `idxmax`.
* `Months` (months.dfy): dates, monthly periods, their chronological order, and
  the sorted month index that `groupby("Month")` produces.
* `Sales` (sales.dfy): the row datatype and the table's value `Frame`. It also
  holds the class `Table`, which is `df` updated in place. Its methods are proved
  against the specification functions `WithDatetimeDates`, `WithRevenue`,
  `Prepared` and `WithMonth`.
* `Analysis` (analysis.dfy): the three questions, the top-10 selection, and
  `Analyse`, which runs the script from preparation to the chart input.

Money is `real` (exact). Quantities are `int` and may be negative (returns). A
missing `Description` cell is `None`. Rows without a description are dropped by
`groupby`, as pandas drops NaN keys.

Behaviour the code fixes, and how the model states it:

* The ranking's tie order is left open. `sort_values` defaults to an unstable
  sort, so the code fixes no order among products with equal revenue.
* `idxmax` raises on an empty table, so the run fails at line 38.
  `HighestOrdersMonth` returns `None` for that error, and `Analyse` returns
  `Failure(NoOrders)`.
* Rows with a NaN description form no group, because `groupby` drops NaN keys.

## Model

| member | source | states |
|---|---|---|
| Series.DistinctKeys | ecommerce-data-analysis/analysis.py:20 | the group keys: every key of the rows exactly once, and nothing else |
| Series.GroupSum | ecommerce-data-analysis/analysis.py:20-21 | `groupby(...).sum()` has unique keys, exactly the keys of the rows, and each value is the sum of that key's rows |
| Series.GroupSumTotal | ecommerce-data-analysis/analysis.py:20-21 | grouping conserves the grand total of the summed column |
| Series.SortDescending | ecommerce-data-analysis/analysis.py:22 | `sort_values(ascending=False)` returns a permutation of its input with non-increasing values |
| Series.SortDescendingKeeps | ecommerce-data-analysis/analysis.py:22 | sorting keeps the set of keys and the total of the values |
| Series.SortDescendingUnique | ecommerce-data-analysis/analysis.py:22 | sorting a series with unique keys yields one with unique keys |
| Series.Head | ecommerce-data-analysis/analysis.py:44 | `head(n)` is a prefix of the series of length min(n, size) |
| Series.MaxIndex | ecommerce-data-analysis/analysis.py:38 | the position of a maximal value, with every earlier value strictly smaller |
| Series.IdxMax | ecommerce-data-analysis/analysis.py:38 | `idxmax` fails exactly on an empty series; otherwise it gives the key of the first entry holding the maximum |
| Series.CountAtPositive | ecommerce-data-analysis/analysis.py:30-31 | a key is a group exactly when its group has at least one row, so a group mean never divides by zero |
| Series.ValuesAtBounds | ecommerce-data-analysis/analysis.py:37 | `nunique` of a group is at least 1 and at most the group's row count |
| Series.SumAtBounds | ecommerce-data-analysis/analysis.py:30-31 | if every value of a group lies in [lo, hi], the group sum lies between size×lo and size×hi |
| Series.MeanWithin | ecommerce-data-analysis/analysis.py:31 | the mean of n values lying in [lo, hi] lies in [lo, hi] |
| Months.BeforeIsOrdinalOrder | ecommerce-data-analysis/analysis.py:28 | the chronological order of months is the order of pandas' monthly period ordinals (months since January 1970) |
| Months.InsertMonth | ecommerce-data-analysis/analysis.py:30 | adding a month to a strictly increasing month list keeps it strictly increasing and adds exactly that month |
| Months.MonthsOf | ecommerce-data-analysis/analysis.py:30 | the `groupby("Month")` index: exactly the months present, strictly increasing in time |
| Months.ChronologicalUnique | ecommerce-data-analysis/analysis.py:30 | the chronological month index is determined by the set of months alone |
| Months.MonthsOfAppendPresent | ecommerce-data-analysis/analysis.py:37 | another row for a month already present leaves the month index unchanged |
| Sales.RevenueColumn | ecommerce-data-analysis/analysis.py:16 | every row's revenue becomes its `Quantity * UnitPrice`, and no other field changes |
| Sales.MonthColumn | ecommerce-data-analysis/analysis.py:28 | every row's month becomes (year, month) of its invoice date, and no other field changes |
| Sales.WithDatetimeDates | ecommerce-data-analysis/analysis.py:13-14 | after the dtype check and conversion, the date column is datetime and no row changes |
| Sales.WithRevenue | ecommerce-data-analysis/analysis.py:15-16 | a table without `Revenue` gets `Quantity * UnitPrice` on every row; a table that has it keeps every value; row count, order and other fields are kept; well-formedness is preserved |
| Sales.Prepared | ecommerce-data-analysis/analysis.py:13-16 | after preparation, dates are datetime, `Revenue` exists and is the supplied value or the line total, and rows keep their count, order and other fields |
| Sales.WithMonth | ecommerce-data-analysis/analysis.py:28 | each row's `Month` is the period of its `InvoiceDate`; row count, order and other fields are kept |
| Sales.PreparedIdempotent | ecommerce-data-analysis/analysis.py:13-16 | running the preparation twice gives the same table as running it once |
| Sales.PreparedKeepsSuppliedRevenue | ecommerce-data-analysis/analysis.py:15-16 | a `Revenue` column supplied by the file leaves the rows untouched |
| Sales.PreparedHasRevenue | ecommerce-data-analysis/analysis.py:15-16 | after preparation every row of a well-formed table carries a revenue |
| Sales.Table.constructor | ecommerce-data-analysis/analysis.py:5 | the mutable table starts as the loaded frame |
| Sales.Table.ConvertDates | ecommerce-data-analysis/analysis.py:13-14 | the in-place step leaves `df` equal to `WithDatetimeDates` of its old value |
| Sales.Table.EnsureRevenue | ecommerce-data-analysis/analysis.py:15-16 | the in-place step leaves `df` equal to `WithRevenue` of its old value and keeps it well-formed |
| Sales.Table.Prepare | ecommerce-data-analysis/analysis.py:13-16 | the in-place preparation leaves `df` equal to `Prepared` of its old value |
| Sales.Table.AddMonthColumn | ecommerce-data-analysis/analysis.py:28 | the in-place column assignment leaves `df` equal to `WithMonth` of its old value |
| Analysis.ProductKeys | ecommerce-data-analysis/analysis.py:20 | the product groups are exactly the descriptions present on some row |
| Analysis.ProductRevenuesTotal | ecommerce-data-analysis/analysis.py:20-21 | when every row has a description, the grouped rows carry the table's whole revenue |
| Analysis.RevenueByProduct | ecommerce-data-analysis/analysis.py:19-23 | each product at most once, exactly the products present, each valued at the sum of its rows' revenue, values non-increasing |
| Analysis.RevenueByProductTotal | ecommerce-data-analysis/analysis.py:19-23 | the ranking's values add up to the revenue of the grouped rows |
| Analysis.RevenueByProductConservesRevenue | ecommerce-data-analysis/analysis.py:19-23 | with a description on every row, the ranking adds up to `df["Revenue"].sum()` |
| Analysis.TopProducts | ecommerce-data-analysis/analysis.py:44 | the chart input is a prefix of the ranking of length min(10, size), and no product left out earned more than one shown |
| Analysis.MonthKeys | ecommerce-data-analysis/analysis.py:28-30 | the keys of a monthly grouping are exactly the months of the table's rows |
| Analysis.AverageOrderValue | ecommerce-data-analysis/analysis.py:28-32 | one entry per month present, strictly chronological, each the month's revenue sum divided by its (positive) row count |
| Analysis.AverageWithinLineRange | ecommerce-data-analysis/analysis.py:29-32 | a month's mean lies within any bounds that hold for the revenue of all of that month's rows |
| Analysis.ValuesAtIsInvoicesIn | ecommerce-data-analysis/analysis.py:37 | the reducer behind `nunique` yields exactly the invoice numbers on the month's rows |
| Analysis.OrdersPerMonth | ecommerce-data-analysis/analysis.py:37 | one entry per month present, strictly chronological, each the number of distinct invoice numbers in that month, between 1 and the month's row count |
| Analysis.OrdersDependOnInvoiceSets | ecommerce-data-analysis/analysis.py:37 | two tables with the same set of invoice numbers in every month have the same `orders_per_month` |
| Analysis.OrdersIgnoreRepeatedLineItems | ecommerce-data-analysis/analysis.py:37 | another line item for an invoice already present in its month, inserted at any position of the table, leaves the whole series unchanged |
| Analysis.OrdersIgnoreRowOrder | ecommerce-data-analysis/analysis.py:37 | any reordering of the table's rows leaves `orders_per_month` unchanged |
| Analysis.HighestOrdersMonth | ecommerce-data-analysis/analysis.py:38 | fails (ValueError) exactly when the table is empty; otherwise it is a month of the table |
| Analysis.HighestOrdersMonthIsEarliestMaximum | ecommerce-data-analysis/analysis.py:38 | the chosen month has at least as many distinct invoices as any month, and every earlier month has strictly fewer |
| Analysis.MonthColumnKeepsProductRevenues | ecommerce-data-analysis/analysis.py:19-28 | computing the ranking after line 28 adds the `Month` column would give the same product groups |
| Analysis.Analyse | ecommerce-data-analysis/analysis.py:13-44 | the run fails exactly on an empty table; otherwise it reports the four aggregates and the chart input of the prepared, month-annotated table |

## Left out

- Loading the CSV file and decoding it as ISO-8859-1 (line 5): file I/O. The loaded table is a parameter of `Analyse`.
- Console output (lines 8-9, 24-25, 33-34, 39-41): display only.
- Date parsing by `pd.to_datetime` (line 14): dates arrive already split into (year, month, day), and the dtype test on line 13 is a flag. A date that fails to parse, which would raise, is not modelled. Neither is the time of day.
- Chart rendering with matplotlib (lines 44-49): only the `head(10)` selection is kept.
- Floating-point arithmetic: revenue and prices are exact reals, so rounding in sums and means is not modelled.
- Missing values other than `Description`: `InvoiceNo`, `Quantity`, `UnitPrice` and `InvoiceDate` are always present, so NaN revenues and NaT dates are not modelled.
- Columns the script never reads: rows carry only the columns used, plus `Country`, which no aggregation reads.
- A missing input column: every `Row` carries every input field, so such a file cannot be represented, and the `KeyError` it raises at lines 13, 16, 20 and 37 is not modelled.
- `Table.AddMonthColumn` requires the date column to be datetime, which is where the `.dt` accessor is defined. Lines 13-14 ensure this before line 28 runs.
- Series.DistinctKeys, Series.GroupSum: the group keys are listed in the order of their last occurrence, not in pandas' sorted key order. Their contracts promise the set of keys and each key's sum, not the order.
- RevenueByProduct: the order among products with equal revenue is left open. Because the unstable sort that follows keeps no promise about input order, the key order left by `groupby` cannot be observed in the ranking.
