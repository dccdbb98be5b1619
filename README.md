# SIP XIRR calculator: the contribution schedule, the valuation and the cash flows

This project models the computation behind the "Calculate SIP XIRR" button of the
calculator in `main.py`: given a price series of an index fund (one closing price per
trading day, sorted by date) and a start and an end date, it

1. refuses the request when the start date is not before the end date;
2. keeps the rows dated from the start date to the end date, both included;
3. groups the kept rows by calendar month and takes the first row of every month as that
   month's purchase, months in ascending order;
4. buys units for a fixed amount of 10000 at every purchase (amount over price) and adds
   them up;
5. takes the price of the last kept row dated on or before the end date as the
   liquidation price (the positional lookup fails when no row was kept) and values the
   holding at it;
6. builds the cash flows handed to the rate solver: one outflow of the amount per
   purchase, dated on the purchase, then the final value as one inflow dated on the end
   date; and the exponent the solver discounts each flow with, elapsed days since the
   first flow's date over 365.

The model is a set of pure functions over sequences, as the source is (it has no loops):

- `Dates` (`dates.dfy`): calendar dates of the proleptic Gregorian calendar, their order,
  the calendar month (`MonthKey`, the "Year-Month" period) and the day number from which
  elapsed days are taken (the `.days` of a difference of two timestamps).
- `PriceSeries` (`series.dfy`): a row of the table (`PricePoint`), what the loader hands
  on (`ValidSeries`: valid dates, positive prices, sorted by date), and row selection by
  a boolean mask (`Select`), used for the window filter and for the lookup of the
  liquidation row.
- `Scheduler` (`scheduler.dfy`): the window filter and the month grouping keeping the
  first row of each group (`MonthlyFirst`). The grouping is modelled for rows in any
  order: it takes the smallest month present, the first row of that month in row order,
  and goes on with the rows of the other months. Only the statement that this row is the
  earliest of its month needs the rows sorted.
- `Portfolio` (`portfolio.dfy`): units bought, total units, liquidation row and final
  value.
- `CashFlows` (`cashflows.dfy`): the amounts, the dates and the discount exponents.
- `SipCalculator` (`calculator.dfy`): the whole calculation, `CalculateSip`, with its two
  failures: `EndNotAfterStart` (the start date is not before the end date) and
  `NoLiquidationPrice` (no row was kept, so the positional lookup of the last row fails).
  A successful result (`SipRun`) holds every intermediate value: the kept rows, the
  purchases, the units, the total, the liquidation price, the final value, the amounts,
  the dates and the exponents. `CalculateSipStages` shows that a successful result is
  `BuildRun` applied to the monthly schedule of the kept rows and the price of the last
  kept row. The `BuildRun…` and `Window…` lemmas then state what each stage promises.

Prices and amounts are exact reals. Dates carry no time of day: every timestamp in the
source is at midnight.

Three points of the code that the model keeps as they are:

- The code has no separate empty-window error. The first failure on an empty window is
  the positional lookup of the liquidation row, so the model reports
  `NoLiquidationPrice`.
- `main.py` adds no check of its own for cash flows that all fall on one date or for a
  rate that cannot be found. The library's `newton` raises an error when it does not
  converge, and that failure belongs to the solver, which is left out below.
- The code does not remove duplicate dates from the series. Every row is kept, and the
  first row of a month in row order is the purchase.

## Model

| member | source | states |
|---|---|---|
| Dates.DayNumberOrder | main.py:25 | one date is before another exactly when its day number is smaller, and two dates are equal exactly when their day numbers are |
| Dates.DayNumber | main.py:25 | the day number of a date lies within its own year: after all the days of the earlier years and no further than the length of its year; its order is stated in `DayNumberOrder` |
| Dates.DaysBetween | main.py:25 | the `.days` of the difference of two timestamps; its contract is carried by `DaysBetweenSign` (sign and zero) and `DayNumberOrder` |
| Dates.DaysBetweenSign | main.py:25 | the elapsed days from `a` to `b` are not negative exactly when `a` is on or before `b`, and zero exactly when the dates are equal |
| Dates.DaysBeforeNextYear | main.py:25 | the day count runs on without a gap from one year to the next: the days before year `y + 1` are the days before `y` plus the length of `y` (366 in a leap year) |
| Dates.MonthKey | main.py:37 | the monthly period of a date: for a valid month, dividing the key by 12 gives back the year and the remainder gives back the month, so the key loses nothing of the period |
| Dates.MonthKeyOrder | main.py:37 | the month period never decreases along the dates, and two dates share a period exactly when they share year and month |
| PriceSeries.Select | main.py:36 | a masked selection is no longer than the rows and holds exactly the rows the mask accepts |
| PriceSeries.SelectAppend | main.py:36 | selection keeps the original row order: selecting from two stretches of rows gives the two selections one after the other |
| PriceSeries.SelectAll | main.py:44 | a mask that accepts every row selects all rows unchanged |
| PriceSeries.SelectValid | main.py:36 | a selection from a sorted series of valid rows is again sorted and valid |
| PriceSeries.SortedTail | main.py:20 | dropping the first row of a sorted series leaves it sorted |
| PriceSeries.SortedBounds | main.py:20 | in a sorted series every row is dated between the first row and the last row |
| Scheduler.FilterWindow | main.py:36 | the kept rows are exactly the rows dated on or after the start date and on or before the end date |
| Scheduler.EarliestMonth | main.py:38 | the first group is a month that occurs among the rows, and no row is of an earlier month |
| Scheduler.FirstOfMonth | main.py:38 | the row kept for a month is one of the rows, and it is of that month; that it is the first such row is `FirstOfMonthIsFirst` |
| Scheduler.FirstOfMonthIsFirst | main.py:38 | the row kept for a month stands at a position before which no row is of that month: it is the first row of the month in row order, which is what `first()` keeps |
| Scheduler.OtherMonths | main.py:38 | the rows left after a group is taken are exactly the rows of the other months, fewer than before when the month occurred |
| Scheduler.MonthlyFirst | main.py:37-38 | no purchases exactly when no rows; every purchase is one of the rows; the months of the purchases strictly increase |
| Scheduler.MonthlyFirstCoversMonths | main.py:37-38 | the purchases cover exactly the months of the rows, one purchase per month |
| Scheduler.MonthlyFirstPicksFirstRow | main.py:38 | each purchase is the first row, in row order, of its own month |
| Scheduler.FirstOfMonthEarliest | main.py:38 | in a sorted series the first row of a month is dated no later than any row of that month |
| Scheduler.MonthlyFirstEarliest | main.py:38 | in a sorted series each purchase is the earliest row of its month, and purchase dates strictly increase |
| Portfolio.UnitsBought | main.py:42 | one positive unit count per purchase |
| Portfolio.UnitsBoughtAt | main.py:42 | the units of each purchase are the fixed amount over its price |
| Portfolio.Sum | main.py:43 | the sum of a column, zero for an empty one; its contract is carried by `SumAppend` and `SumPositive` |
| Portfolio.SumAppend | main.py:43 | the sum of two columns joined is the sum of their sums |
| Portfolio.SumPositive | main.py:43 | a non-empty column of positive values sums to a positive value |
| Portfolio.TotalUnits | main.py:43 | the total is zero exactly when there are no purchases, and positive otherwise |
| Portfolio.TotalUnitsAppend | main.py:43 | the totals of two runs of purchases add up, so the total does not depend on how the purchases are split |
| Portfolio.LiquidationRow | main.py:44 | the lookup finds nothing exactly when no row is dated on or before the end date; otherwise its row is one of the rows and dated on or before the end date |
| Portfolio.LiquidationRowIsLatest | main.py:44 | in a sorted series the row found is the latest row dated on or before the end date |
| Portfolio.LiquidationRowIsLast | main.py:44 | when no row is after the end date, the row found is the last row |
| Portfolio.FinalValue | main.py:45 | the value of a positive holding at a positive price is positive |
| Portfolio.FinalValueAtLeastInvested | main.py:45 | selling at a price no lower than any purchase price returns at least the amount times the number of purchases |
| Portfolio.FinalValueAtMostInvested | main.py:45 | selling at a price no higher than any purchase price returns at most the amount times the number of purchases |
| CashFlows.CashFlowAmounts | main.py:48 | one more amount than purchases: the negated fixed amount for each purchase, then the final value |
| CashFlows.CashFlowDates | main.py:49 | one more date than purchases: each purchase's date at its position, then the end date |
| CashFlows.CashFlowTotals | main.py:48 | the outflows total the fixed amount times the number of purchases, there is exactly one inflow, and the flows sum to the final value less the amount invested |
| CashFlows.CashFlowDatesChronological | main.py:49 | purchases at strictly increasing dates, none after the end date, give a chronological date list |
| CashFlows.DiscountExponents | main.py:25 | one exponent per date |
| CashFlows.DiscountExponentsOrdered | main.py:25 | on chronological dates the first exponent is zero, none is negative, they never decrease, and an exponent is zero exactly for a flow on the first date |
| SipCalculator.CalculateSip | main.py:31-49 | one press of the button: the date check, the filter, the schedule, the valuation and the cash flows; its outcome is stated by `CalculateSipOutcome`, its stages by `CalculateSipStages` and its successful results by `CalculateSipSuccess` |
| SipCalculator.RunWindow | main.py:36-49 | everything after the date check: the schedule of the kept rows and the positional lookup of the liquidation row, failing when the lookup finds no row; stated through `CalculateSipStages` and `RunWindowAllUpToEnd` |
| SipCalculator.BuildRun | main.py:41-49 | the units, the total, the final value, the amounts, the dates and the exponents of a schedule at a liquidation price; its contract is carried by `BuildRunUnits`, `BuildRunValue`, `BuildRunCashFlows`, `BuildRunExponents` and `BuildRunSuccessful` |
| SipCalculator.WindowValid | main.py:36-38 | the kept rows form a sorted series of valid rows, and the purchases picked from them are valid |
| SipCalculator.CalculateSipOutcome | main.py:32-44 | the request fails with `EndNotAfterStart` exactly when the start date is not before the end date; it fails with `NoLiquidationPrice` exactly when the dates are in order and no row falls in the window; it succeeds exactly when the dates are in order and some row falls in the window |
| SipCalculator.CalculateSipStages | main.py:32-49 | a success had the dates in order and kept at least one row; its result is built from the monthly schedule of the kept rows and the price of the last kept row |
| SipCalculator.RunWindowAllUpToEnd | main.py:44 | when every kept row is on or before the end date, the liquidation price is the price of the last kept row |
| SipCalculator.WindowSchedule | main.py:36-38 | the kept rows stay sorted; the schedule has one purchase per month among them, each the earliest row of its month and none after the end date, at strictly increasing dates |
| SipCalculator.WindowLiquidation | main.py:44 | the last kept row is the row the lookup finds, and it is the latest row of the whole series on or before the end date |
| SipCalculator.BuildRunUnits | main.py:42-43 | the result keeps the rows, the purchases and the price it was given; it holds one unit count per purchase, the amount over that purchase's price, and their sum as the total |
| SipCalculator.BuildRunValue | main.py:45 | the final value is the total units valued at the liquidation price; it is positive, and no less (no more) than the amount invested when no purchase price is above (below) that price |
| SipCalculator.BuildRunCashFlows | main.py:48-49 | amounts and dates run in parallel, one more than the purchases: an outflow of the fixed amount dated on each purchase, then the final value dated on the end date; the outflows total the amount invested, the final value is the only inflow, and the flows sum to the gain |
| SipCalculator.BuildRunSuccessful | main.py:42-49 | a schedule at strictly increasing dates, none after the end date, gives a run with one purchase or more, one more amount, date and exponent than purchases, the end date last, a positive final value as the last amount and only inflow, outflows totalling the amount invested, chronological dates, and exponents that start at zero, are never negative and never decrease |
| SipCalculator.CalculateSipSuccess | main.py:31-49 | every successful calculation has all the properties listed for `BuildRunSuccessful`: flows of the right shape, chronological dates and ordered exponents |
| SipCalculator.BuildRunExponents | main.py:25 | one exponent per flow: the first is zero, an exponent is zero exactly for a flow on the first date, and on a strictly increasing schedule within the end date the dates are chronological and the exponents are never negative and never decrease |

## Left out

- The rate itself: the present-value function raises `1 + rate` to real powers, and the root finder is scipy's `newton`, which runs the secant method when no derivative is given and raises an error when it does not converge within 50 iterations (as when all flows fall on one date and the present value is constant). Neither is modelled. The model stops at the amounts, dates and exponents handed to the solver, and so it has no failure for a solver that does not converge.
- Floating point: prices, units and values are exact reals. Rounding in the division, the sum and the product is not modelled.
- Loading the CSV file: parsing dates in the `%d-%b-%y` format, dropping unparsable dates and sorting by date. A valid, sorted series is a precondition (`ValidSeries`), and so is a present positive price on every row.
- The date pickers bound the start and end dates by the first and last dates of the series. That is user-interface behaviour, so the model accepts any valid dates.
- `first()` takes the first non-missing value of each column. Every row carries a price here, so this is simply the first row of the group.
- The Streamlit page is not modelled: title, upload widget, button, messages and the formatted result. The charts are not modelled either, including the cumulative invested amounts drawn in them.
- The wording of the error message shown for a wrong date order.
