# Demand-forecasting app: the deterministic core, in Dafny

The app is a small Streamlit tool for sales data. The user filters a sales
table by product category, customer and customer class. The user then pages
through the matching products one at a time and asks for a Holt-Winters
forecast of the selected product's monthly demand. The fitting itself is done
by statsmodels. This model covers the integer, date and string work around
that fit, all of it in `utils.py`:

- `calendar.dfy` (module `Calendar`): Gregorian dates with leap years and
  days-in-month. It also holds the two pieces of pandas month arithmetic the
  forecast dates use: `pd.DateOffset(months=1)`, which clamps the day to the
  length of the target month, and the month-end frequency `'M'`. `EndOfMonth`
  is an independent reference definition (the last day of the k-th month).
- `sales.dfy` (module `Sales`): the sales record and the table operations.
  - `Where` models a pandas boolean mask.
  - `FilterData` models `filter_data`: three successive narrowings, each
    skipped when its value is the sentinel `"All Categories"`,
    `"All Customers"` or `"All Classes"`.
  - `UniqueProducts` models `get_unique_products`, i.e. `unique()` in order
    of first appearance.
  - `ProductSeries` is the selected product's rows sorted by `Date`.
- `navigation.dfy` (module `Navigation`): the session-state entry
  `current_product_index` is the class `ProductNavigator`. Its methods are
  `Setup` (`setup_product_navigation`) and the Previous and Next buttons.
  Both buttons compute `(i ± 1) % n`.
- `forecast.dfy` (module `Forecast`):
  - `CreateForecastDates` models `create_forecast_dates`.
  - `ForecastTable` is the export table.
  - `DownloadFileName` is the CSV file name.

Forecast values are opaque `real`s and never computed on. Dates are taken as
already parsed `(year, month, day)` values with no time of day.

A pandas `Timestamp` at nanosecond resolution only reaches from 1677-09-21 to
2262-04-11. `pd.to_datetime` (utils.py:128) raises `OutOfBoundsDatetime` for a
date outside that range, so the series the forecast is built from only holds
dates inside it (`AllDatesValid`). The forecast dates can still run past
2262-04-11, and pandas then raises `OutOfBoundsDatetime`. This happens in
three places:

- shifting the last date by a month;
- rolling the shifted start forward to its month end, which `pd.date_range`
  does even when the horizon is 0;
- the last month end of the forecast.

`app.py:63` calls `create_forecast_dates` outside any `try`, so the error ends
the page run. `CreateForecastDates` returns `None` in exactly those cases.
The horizon widget has `min_value=1` (utils.py:171-177), so the app never
passes a horizon of 0; the model still covers it.

Python's `%` floors and Dafny's `%` is Euclidean. The two agree whenever the
divisor is positive, which is the only case the buttons can reach without
raising. So `NextIndex` and `PreviousIndex` use Dafny's `%` directly, also for
negative operands.

Both buttons are drawn even when the filters match no products. A click then
divides by zero (`ZeroDivisionError`) before anything is stored.
`ProductNavigator.Previous` and `ProductNavigator.Next` model this as
`ok == false` with the session state unchanged.

Where the source raises on an input that no caller in `app.py` can pass, the
model puts a `requires` on it instead of an error result:

- an empty product series. `.max()` of no dates gives `NaT` without raising;
  the error then comes from `pd.date_range(start=NaT)` or from `.iloc[0]`.
  `app.py:45-47` only forecasts a product taken from the product list, and
  `ListedProductHasSeries` proves that such a product has rows;
- forecast values whose count differs from the number of dates: both are the
  forecast horizon;
- an observation date that is not a valid calendar date or lies outside the
  `Timestamp` range: `pd.to_datetime` raises on it before any forecast is made.

Three details of the code are worth stating on their own:

- The first forecast date is the end of the month after the last
  observation's month, not the same day one month later. For example,
  2023-01-15 is followed by 2023-02-28, not by 2023-02-15.
- The file name only turns the spaces of the description into underscores.
  The product ID is used as it is, and other separators stay.
- Every exception in `generate_forecast` is swallowed into
  `(None, None, None)`, so failures are not told apart.

## Model

| member | source | states |
|---|---|---|
| Calendar.DaysInMonth | utils.py:229-233 | month lengths lie between 28 and 31, and February has 29 days exactly in Gregorian leap years |
| Calendar.EndOfMonth | utils.py:229-233 | reference definition: the date it builds is a valid month end lying in the month with the given index |
| Calendar.MonthEndIsEndOfMonth | utils.py:229-233 | a month-end date is determined by its month: it equals `EndOfMonth` of its month index |
| Calendar.AddOneMonth | utils.py:230 | `+ pd.DateOffset(months=1)` gives a valid date in the next month (December to January of the next year). The day is kept, or it is the target month's last day when that month is shorter |
| Calendar.RollForwardToMonthEnd | utils.py:229-232 | the anchor of a month-end `date_range` is a month end in the start's own month, not before the start, and no later than any month end on or after the start |
| Calendar.NextMonthEnd | utils.py:232 | one month-end step from a month end is the month end of the following month, strictly later |
| Sales.Where | utils.py:50-57 | a boolean mask keeps exactly the rows satisfying the condition, each as often as in the input, as a subsequence of the input (original order) |
| Sales.WhereWhere | utils.py:50-57 | narrowing twice equals narrowing once by both conditions |
| Sales.FilterData | utils.py:46-59 | when all three criteria are their sentinels, the table is returned unchanged |
| Sales.FilterDataSelects | utils.py:48-59 | the three successive, sentinel-skipped narrowings equal one selection by "every criterion is its sentinel or matches the row" |
| Sales.FilterDataExactRows | utils.py:48-59 | `filter_data` returns exactly the rows matching every non-sentinel criterion, each as often as in the input, in the input's order |
| Sales.Distinct | utils.py:63 | `unique()` has no repeated value and contains exactly the values of its input |
| Sales.DistinctInFirstOccurrenceOrder | utils.py:63 | `unique()` lists values in the order of their first occurrence in the input |
| Sales.UniqueProducts | utils.py:61-63 | every product ID of the filtered rows appears exactly once, no other ID appears, in order of first appearance |
| Sales.SortByDate | utils.py:165 | `sort_values('Date')` returns a permutation of its input with non-decreasing dates |
| Sales.ProductSeries | utils.py:162-165 | the forecast series contains exactly the current product's rows, each as often as in the table, sorted by date |
| Sales.ListedProductHasSeries | app.py:45-47 | a product taken from the product list has a non-empty series, so the later `.max()` and `.iloc[0]` have a row to read |
| Navigation.NextIndex | utils.py:113 | Next stores `(i + 1) % n`: always in `[0, n)`. From an index in range it moves one step on, and from the last index to 0 |
| Navigation.PreviousIndex | utils.py:85 | Previous stores `(i - 1) % n`: always in `[0, n)`. From an index in range it moves one step back, and from 0 to the last index |
| Navigation.PreviousUndoesNext | utils.py:85 | Previous after Next returns any stored index, reduced modulo `n` (the index itself when it is in range) |
| Navigation.NextUndoesPrevious | utils.py:113 | Next after Previous returns any stored index, reduced modulo `n` |
| Navigation.NextPressesWrapAround | utils.py:112-114 | `k` Next presses move the index to `(i + k) % n`; `n` presses come back to the starting product |
| Navigation.ProductNavigator.constructor | utils.py:68 | a fresh session holds no `current_product_index` entry |
| Navigation.ProductNavigator.Setup | utils.py:65-75 | creates the entry at 0 if missing, keeps it if below the product count and otherwise resets it to 0, returns it; with products, the returned index lies in `[0, n)` |
| Navigation.ProductNavigator.Previous | utils.py:84-86 | stores `(i - 1) % n` when there are products; with none the division raises and the state is unchanged |
| Navigation.ProductNavigator.Next | utils.py:112-114 | stores `(i + 1) % n` when there are products; with none the division raises and the state is unchanged |
| Navigation.ClickNext | utils.py:111-114 | after a Next click and the rerun it triggers, the product shown is the next one in the list; the index stays in range |
| Forecast.LastDate | utils.py:228 | `Date.max()` is one of the series' dates and no date is later; it is a `Timestamp` when all the series' dates are |
| Forecast.MonthEndRange | utils.py:229-233 | `date_range` from a month end with `freq='M'` yields `periods` dates, the i-th being the end of the i-th following month |
| Forecast.CreateForecastDates | utils.py:226-234 | when nothing is raised, exactly `forecast_periods` dates |
| Forecast.ForecastDatesAreMonthEnds | utils.py:228-233 | when nothing is raised, the i-th date is the last day of the (i+1)-th month after the month of the last observation, whatever its day |
| Forecast.ForecastDatesOutOfBounds | utils.py:229-233 | `OutOfBoundsDatetime` (`None`) exactly when the end of the month after the last observation's month, or the end of the `forecast_periods`-th month after it, lies past 2262-04-11; the first condition applies even for a horizon of 0 |
| Forecast.ForecastDatesInTimestampRange | utils.py:229-233 | when nothing is raised, every forecast date lies within the `Timestamp` range |
| Forecast.ForecastDatesFollowHistory | utils.py:228-233 | each forecast date is the last day of its month. Consecutive dates lie in consecutive months and are strictly increasing. The first is in the month after the last observation, December rolling over to January of the next year. Every observation is before it |
| Forecast.ForecastDatesAcrossNewYear | utils.py:229-233 | 2023-12-15 is followed by 2024-01-31, 2024-02-29 (leap year) and 2024-03-31 |
| Forecast.ForecastDatesClampToShortMonth | utils.py:229-233 | 2023-01-31 is followed by 2023-02-28 |
| Forecast.ForecastDatesNearLastTimestamp | utils.py:229-233 | from 2262-02-15 a horizon of 6 raises `OutOfBoundsDatetime`, while a horizon of 1 gives 2262-03-31; from 2262-03-05 even a horizon of 0 raises |
| Forecast.ForecastTable | utils.py:239-244 | one row per forecast date. The Date column gives back the dates and the Forecast column gives back the values, index by index. Every row carries the same product ID and the description of the series' first row |
| Forecast.SpacesToUnderscores | utils.py:306 | `replace(" ", "_")` keeps the length, turns every space into `_`, leaves every other character unchanged, and leaves no space |
| Forecast.DownloadFileName | utils.py:306 | the name splits into `forecast_`, the unsanitised product ID, `_`, the first row's description with spaces replaced, and `.csv` |

## Left out

- `generate_forecast` (utils.py:201-224): the Holt-Winters fit is a foreign call into statsmodels over floating-point data. Every exception in it is swallowed. The forecast values enter the model only as an opaque sequence with one value per forecast date.
- The mean, minimum and maximum of the forecast and their `.1f` formatting (utils.py:254-258), and the progress fraction (utils.py:118): floating-point display only.
- `load_data` (utils.py:6-10): reading the CSV file. The `st.cache_data` memoisation of `load_data` and `filter_data` is also left out, since caching does not change results.
- Widgets, charts, the sidebar (`setup_sidebar_filters`), the `to_csv` serialisation and the download button: UI and I/O. The widget bounds on α and seasonal period are not needed by any modelled operation. The horizon bound (1 to 24) is not needed either, since `CreateForecastDates` is defined for every horizon.
- Missing `Date` cells: `pd.to_datetime` turns them into `NaT` without raising. `NaT` is not modelled; `max` skips it and `sort_values` puts it last.
- The in-place `pd.to_datetime` conversion of the `Date` column (utils.py:128): dates enter the model already parsed as `(year, month, day)` with no time of day. Product IDs enter as the strings the f-string prints.
- `app.py` (page setup and orchestration) and `run_app.py` (process launch and dependency check): glue and I/O. The only part of `app.py` used is its guard that forecasting happens only for a listed product.
- Sales.SortByDate: does not fix the order among rows with equal dates, because pandas' default sort is not stable and that order is not defined by the source.
