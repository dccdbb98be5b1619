/** One press of "Calculate SIP XIRR": check the window, filter the series to it, pick the
    monthly purchases, value the holding and build the cash flows and their discount
    exponents for the rate solver. */
module SipCalculator {
  import opened Dates
  import opened PriceSeries
  import opened Scheduler
  import opened Portfolio
  import opened CashFlows

  datatype SipError =
    | EndNotAfterStart    // the start date is not before the end date: nothing is computed
    | NoLiquidationPrice  // no row on or before the end date inside the window

  datatype Result<T> = Ok(value: T) | Err(error: SipError)

  /** Everything one calculation produces before the rate is solved for. */
  datatype SipRun = SipRun(
    filtered: seq<PricePoint>,   // the rows in the window
    purchases: seq<PricePoint>,  // one row per month
    units: seq<real>,            // units bought at each purchase
    totalUnits: real,
    finalNav: real,              // the liquidation price
    finalValue: real,
    cashFlows: seq<real>,
    dates: seq<Date>,
    exponents: seq<real>)

  predicate ValidRequest(series: seq<PricePoint>, start: Date, end: Date) {
    ValidSeries(series) && ValidDate(start) && ValidDate(end)
  }

  /** The rows in the window form a valid series, and so do the purchases picked from them. */
  lemma WindowValid(series: seq<PricePoint>, start: Date, end: Date)
    requires ValidSeries(series)
    ensures ValidSeries(FilterWindow(series, start, end))
    ensures AllValid(MonthlyFirst(FilterWindow(series, start, end)))
  {
    SelectValid(series, WindowMask(start, end));
  }

  /** The valuation and the cash flows of a schedule, given the liquidation price. */
  function BuildRun(filtered: seq<PricePoint>, purchases: seq<PricePoint>, finalNav: real, end: Date): SipRun
    requires purchases != [] && AllValid(purchases) && finalNav > 0.0 && ValidDate(end)
  {
    var units := UnitsBought(purchases);
    var totalUnits := TotalUnits(purchases);
    var finalValue := FinalValue(totalUnits, finalNav);
    var dates := CashFlowDates(purchases, end);
    CashFlowDatesValid(purchases, end);
    SipRun(filtered, purchases, units, totalUnits, finalNav, finalValue,
           CashFlowAmounts(|purchases|, finalValue), dates, DiscountExponents(dates))
  }

  /** Everything after the window check: the monthly schedule, and the positional lookup
      of the liquidation price, which fails when no row was kept. */
  function RunWindow(filtered: seq<PricePoint>, end: Date): Result<SipRun>
    requires ValidSeries(filtered) && ValidDate(end)
  {
    var purchases := MonthlyFirst(filtered);
    match LiquidationRow(filtered, end)
    case None => Err(NoLiquidationPrice)
    case Some(last) =>
      assert last in filtered && purchases != [];
      Ok(BuildRun(filtered, purchases, last.price, end))
  }

  function CalculateSip(series: seq<PricePoint>, start: Date, end: Date): Result<SipRun>
    requires ValidRequest(series, start, end)
  {
    if !Before(start, end) then Err(EndNotAfterStart)
    else
      WindowValid(series, start, end);
      RunWindow(FilterWindow(series, start, end), end)
  }

  /** A successful calculation had a start date before the end date and kept at least
      one row; its liquidation price is the price of the last row kept, and everything
      else is computed from the monthly schedule of the kept rows and that price. */
  lemma CalculateSipStages(series: seq<PricePoint>, start: Date, end: Date)
    requires ValidRequest(series, start, end)
    requires CalculateSip(series, start, end).Ok?
    ensures Before(start, end)
    ensures var filtered := FilterWindow(series, start, end);
      && filtered != [] && ValidSeries(filtered)
      && MonthlyFirst(filtered) != [] && AllValid(MonthlyFirst(filtered))
      && filtered[|filtered| - 1].price > 0.0
      && CalculateSip(series, start, end) ==
           Ok(BuildRun(filtered, MonthlyFirst(filtered), filtered[|filtered| - 1].price, end))
  {
    var filtered := FilterWindow(series, start, end);
    WindowValid(series, start, end);
    RunWindowAllUpToEnd(filtered, end);
  }

  /** When every kept row is on or before the end date, the liquidation price is the
      price of the last kept row. */
  lemma RunWindowAllUpToEnd(filtered: seq<PricePoint>, end: Date)
    requires ValidSeries(filtered) && ValidDate(end) && filtered != []
    requires forall p :: p in filtered ==> AtOrBefore(p.date, end)
    ensures MonthlyFirst(filtered) != [] && AllValid(MonthlyFirst(filtered))
    ensures filtered[|filtered| - 1].price > 0.0
    ensures RunWindow(filtered, end) ==
              Ok(BuildRun(filtered, MonthlyFirst(filtered), filtered[|filtered| - 1].price, end))
  {
    LiquidationRowIsLast(filtered, end);
    assert filtered[|filtered| - 1] in filtered;
  }

  /** A calculation runs only when the start date is before the end date, and then
      fails only when no row of the series falls in the window. */
  lemma CalculateSipOutcome(series: seq<PricePoint>, start: Date, end: Date)
    requires ValidRequest(series, start, end)
    ensures CalculateSip(series, start, end) == Err(EndNotAfterStart) <==> !Before(start, end)
    ensures CalculateSip(series, start, end) == Err(NoLiquidationPrice) <==>
              Before(start, end) && forall p :: p in series ==> !InWindow(p.date, start, end)
    ensures CalculateSip(series, start, end).Ok? <==>
              Before(start, end) && exists p :: p in series && InWindow(p.date, start, end)
  {
    if Before(start, end) {
      var filtered := FilterWindow(series, start, end);
      if filtered != [] {
        assert filtered[0] in filtered;
      }
    }
  }

  /** The window keeps the rows dated in `[start, end]`, still sorted; its schedule has
      exactly one purchase per month among them, each the earliest row of its month, at
      strictly increasing dates none of which is after the end date. */
  lemma WindowSchedule(series: seq<PricePoint>, start: Date, end: Date)
    requires ValidSeries(series)
    ensures var filtered := FilterWindow(series, start, end);
      var purchases := MonthlyFirst(filtered);
      && ValidSeries(filtered)
      && MonthsOf(purchases) == MonthsOf(filtered)
      && |purchases| == |MonthsOf(filtered)|
      && (forall p :: p in purchases ==> p in filtered && AtOrBefore(p.date, end))
      && (forall p, q :: p in purchases && q in filtered && MonthKey(q.date) == MonthKey(p.date)
            ==> AtOrBefore(p.date, q.date))
      && (forall k :: 0 < k < |purchases| ==> Before(purchases[k - 1].date, purchases[k].date))
  {
    var filtered := FilterWindow(series, start, end);
    SelectValid(series, WindowMask(start, end));
    MonthlyFirstCoversMonths(filtered);
    MonthlyFirstEarliest(filtered);
  }

  /** The last row of the window is the latest row of the whole series on or before the
      end date, and it is the row the positional lookup picks. */
  lemma WindowLiquidation(series: seq<PricePoint>, start: Date, end: Date)
    requires ValidSeries(series) && FilterWindow(series, start, end) != []
    ensures var filtered := FilterWindow(series, start, end);
      && LiquidationRow(filtered, end) == Some(filtered[|filtered| - 1])
      && (forall p :: p in series && AtOrBefore(p.date, end) ==>
            AtOrBefore(p.date, filtered[|filtered| - 1].date))
  {
    var filtered := FilterWindow(series, start, end);
    SelectValid(series, WindowMask(start, end));
    LiquidationRowIsLast(filtered, end);
    var last := filtered[|filtered| - 1];
    forall p | p in series && AtOrBefore(p.date, end)
      ensures AtOrBefore(p.date, last.date)
    {
      if AtOrBefore(start, p.date) {
        assert p in filtered;
        SortedBounds(filtered, p);
      } else {
        assert last in filtered;
      }
    }
  }

  /** The units of a schedule: the fixed amount over each purchase price, adding up to
      the total held. */
  lemma BuildRunUnits(filtered: seq<PricePoint>, purchases: seq<PricePoint>, finalNav: real, end: Date)
    requires purchases != [] && AllValid(purchases) && finalNav > 0.0 && ValidDate(end)
    ensures var run := BuildRun(filtered, purchases, finalNav, end);
      && run.filtered == filtered && run.purchases == purchases && run.finalNav == finalNav
      && |run.units| == |purchases|
      && (forall k :: 0 <= k < |purchases| ==>
            purchases[k].price > 0.0 && run.units[k] == SIP_AMOUNT / purchases[k].price)
      && run.totalUnits == Sum(run.units)
  {
    var units := UnitsBought(purchases);
    forall k | 0 <= k < |purchases|
      ensures purchases[k].price > 0.0 && units[k] == SIP_AMOUNT / purchases[k].price
    {
      UnitsBoughtAt(purchases, k);
    }
  }

  /** The value of a schedule: the total units at the liquidation price, positive, and no
      less (no more) than the amount invested when no purchase price exceeds (falls below)
      that price. */
  lemma BuildRunValue(filtered: seq<PricePoint>, purchases: seq<PricePoint>, finalNav: real, end: Date)
    requires purchases != [] && AllValid(purchases) && finalNav > 0.0 && ValidDate(end)
    ensures var run := BuildRun(filtered, purchases, finalNav, end);
      && run.finalValue == FinalValue(TotalUnits(purchases), finalNav)
      && run.finalValue > 0.0
      && ((forall p :: p in purchases ==> p.price <= finalNav) ==>
            run.finalValue >= SIP_AMOUNT * |purchases| as real)
      && ((forall p :: p in purchases ==> finalNav <= p.price) ==>
            run.finalValue <= SIP_AMOUNT * |purchases| as real)
  {
    var run := BuildRun(filtered, purchases, finalNav, end);
    var total := TotalUnits(purchases);
    assert run.totalUnits == total && run.finalValue == FinalValue(total, finalNav);
    if forall p :: p in purchases ==> p.price <= finalNav {
      FinalValueAtLeastInvested(purchases, finalNav);
    }
    if forall p :: p in purchases ==> finalNav <= p.price {
      FinalValueAtMostInvested(purchases, finalNav);
    }
  }

  /** The cash flows of a schedule: amounts and dates run in parallel, one more than there
      are purchases; an outflow of the fixed amount per purchase dated on it, then the
      final value dated on the end date. The outflows total the fixed amount times the
      number of purchases, the final value is the only inflow, and the flows net to the
      final value less the amount invested. */
  lemma BuildRunCashFlows(filtered: seq<PricePoint>, purchases: seq<PricePoint>, finalNav: real, end: Date)
    requires purchases != [] && AllValid(purchases) && finalNav > 0.0 && ValidDate(end)
    ensures var run := BuildRun(filtered, purchases, finalNav, end);
      var n := |purchases|;
      && |run.cashFlows| == |run.dates| == n + 1
      && (forall k :: 0 <= k < n ==> run.cashFlows[k] == -SIP_AMOUNT && run.dates[k] == purchases[k].date)
      && run.cashFlows[n] == run.finalValue && run.dates[n] == end
      && Outflow(run.cashFlows) == SIP_AMOUNT * n as real
      && InflowCount(run.cashFlows) == 1
      && Sum(run.cashFlows) == run.finalValue - SIP_AMOUNT * n as real
  {
    var run := BuildRun(filtered, purchases, finalNav, end);
    CashFlowTotals(|purchases|, run.finalValue);
  }

  /** The exponents of a schedule, one per flow: the first is zero, and an exponent is
      zero exactly for a flow on the first date. When the purchase dates strictly increase
      and none is after the end date, the dates are chronological and the exponents are
      never negative and never decrease. */
  lemma BuildRunExponents(filtered: seq<PricePoint>, purchases: seq<PricePoint>, finalNav: real, end: Date)
    requires purchases != [] && AllValid(purchases) && finalNav > 0.0 && ValidDate(end)
    ensures var run := BuildRun(filtered, purchases, finalNav, end);
      && |run.exponents| == |run.dates|
      && run.exponents[0] == 0.0
      && (forall k :: 0 <= k < |run.dates| ==> (run.exponents[k] == 0.0 <==> run.dates[k] == run.dates[0]))
    ensures var run := BuildRun(filtered, purchases, finalNav, end);
      (forall k :: 0 < k < |purchases| ==> Before(purchases[k - 1].date, purchases[k].date)) &&
      (forall p :: p in purchases ==> AtOrBefore(p.date, end)) ==>
        && (forall i, j :: 0 <= i < j < |run.dates| ==> AtOrBefore(run.dates[i], run.dates[j]))
        && (forall k :: 0 <= k < |run.exponents| ==> run.exponents[k] >= 0.0)
        && (forall i, j :: 0 <= i < j < |run.exponents| ==> run.exponents[i] <= run.exponents[j])
  {
    var run := BuildRun(filtered, purchases, finalNav, end);
    var dates := CashFlowDates(purchases, end);
    CashFlowDatesValid(purchases, end);
    assert run.dates == dates && run.exponents == DiscountExponents(dates);
    var e := DiscountExponents(dates);
    forall k | 0 <= k < |dates|
      ensures e[k] == 0.0 <==> dates[k] == dates[0]
    {
      DaysBetweenSign(dates[0], dates[k]);
    }
    if (forall k :: 0 < k < |purchases| ==> Before(purchases[k - 1].date, purchases[k].date)) &&
       (forall p :: p in purchases ==> AtOrBefore(p.date, end)) {
      CashFlowDatesChronological(purchases, end);
      DiscountExponentsOrdered(dates);
    }
  }

  /** What every successful calculation looks like: its cash flows have the right shape,
      its dates are chronological, and its exponents are ordered. */
  predicate SuccessfulRun(run: SipRun, end: Date) {
    RunFlowsShaped(run, end) && RunDatesChronological(run) && RunExponentsOrdered(run)
  }

  /** At least one purchase; one more amount, date and exponent than purchases; the end
      date as the last date and a positive final value as the last amount and only
      inflow; outflows totalling the amount invested. */
  predicate RunFlowsShaped(run: SipRun, end: Date) {
    && |run.purchases| >= 1
    && |run.cashFlows| == |run.dates| == |run.exponents| == |run.purchases| + 1
    && run.dates[|run.purchases|] == end
    && run.cashFlows[|run.purchases|] == run.finalValue > 0.0
    && Outflow(run.cashFlows) == SIP_AMOUNT * |run.purchases| as real
    && InflowCount(run.cashFlows) == 1
  }

  predicate RunDatesChronological(run: SipRun) {
    forall i, j :: 0 <= i < j < |run.dates| ==> AtOrBefore(run.dates[i], run.dates[j])
  }

  /** Exponents that start at zero, are never negative and never decrease. */
  predicate RunExponentsOrdered(run: SipRun) {
    && run.exponents != []
    && run.exponents[0] == 0.0
    && (forall k :: 0 <= k < |run.exponents| ==> run.exponents[k] >= 0.0)
    && (forall i, j :: 0 <= i < j < |run.exponents| ==> run.exponents[i] <= run.exponents[j])
  }

  /** A schedule at strictly increasing dates, none after the end date, gives a
      successful run. */
  lemma BuildRunSuccessful(filtered: seq<PricePoint>, purchases: seq<PricePoint>, finalNav: real, end: Date)
    requires purchases != [] && AllValid(purchases) && finalNav > 0.0 && ValidDate(end)
    requires forall k :: 0 < k < |purchases| ==> Before(purchases[k - 1].date, purchases[k].date)
    requires forall p :: p in purchases ==> AtOrBefore(p.date, end)
    ensures SuccessfulRun(BuildRun(filtered, purchases, finalNav, end), end)
  {
    BuildRunValue(filtered, purchases, finalNav, end);
    BuildRunCashFlows(filtered, purchases, finalNav, end);
    BuildRunExponents(filtered, purchases, finalNav, end);
  }

  /** End to end: every successful calculation is a successful run. */
  lemma CalculateSipSuccess(series: seq<PricePoint>, start: Date, end: Date)
    requires ValidRequest(series, start, end)
    requires CalculateSip(series, start, end).Ok?
    ensures SuccessfulRun(CalculateSip(series, start, end).value, end)
  {
    var filtered := FilterWindow(series, start, end);
    var purchases := MonthlyFirst(filtered);
    assert filtered != [] && purchases != [] && AllValid(purchases) by {
      CalculateSipStages(series, start, end);
    }
    var nav := filtered[|filtered| - 1].price;
    assert nav > 0.0 && CalculateSip(series, start, end).value == BuildRun(filtered, purchases, nav, end) by {
      CalculateSipStages(series, start, end);
    }
    assert SuccessfulRun(BuildRun(filtered, purchases, nav, end), end) by {
      WindowSchedule(series, start, end);
      BuildRunSuccessful(filtered, purchases, nav, end);
    }
  }
}
