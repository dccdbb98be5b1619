/** The dated cash-flow schedule handed to the rate solver: one outflow of the fixed
    amount per purchase, then the liquidation value as one inflow dated on the end date,
    as two parallel lists (amounts and dates), and the day-count exponents the solver
    discounts each flow with: elapsed days since the first date over 365. */
module CashFlows {
  import opened Dates
  import opened PriceSeries
  import opened Portfolio

  predicate AllValidDates(dates: seq<Date>) {
    forall k :: 0 <= k < |dates| ==> ValidDate(dates[k])
  }

  /** `[-amount] * n + [final_value]`. */
  function CashFlowAmounts(n: nat, finalValue: real): (amounts: seq<real>)
    ensures |amounts| == n + 1
    ensures forall k :: 0 <= k < n ==> amounts[k] == -SIP_AMOUNT
    ensures amounts[n] == finalValue
  {
    seq(n, _ => -SIP_AMOUNT) + [finalValue]
  }

  /** The purchase dates, then the end date. */
  function CashFlowDates(purchases: seq<PricePoint>, end: Date): (dates: seq<Date>)
    ensures |dates| == |purchases| + 1
    ensures forall k :: 0 <= k < |purchases| ==> dates[k] == purchases[k].date
    ensures dates[|purchases|] == end
  {
    if purchases == [] then [end]
    else [purchases[0].date] + CashFlowDates(purchases[1..], end)
  }

  lemma {:induction false} CashFlowDatesValid(purchases: seq<PricePoint>, end: Date)
    requires AllValid(purchases) && ValidDate(end)
    ensures AllValidDates(CashFlowDates(purchases, end))
  {
    if purchases != [] {
      assert purchases[0] in purchases;
      CashFlowDatesValid(purchases[1..], end);
      var rest := CashFlowDates(purchases[1..], end);
      assert CashFlowDates(purchases, end) == [purchases[0].date] + rest;
    }
  }

  /** The total paid out: the magnitudes of the negative amounts. */
  function Outflow(amounts: seq<real>): (total: real)
    ensures total >= 0.0
  {
    if amounts == [] then 0.0
    else (if amounts[0] < 0.0 then -amounts[0] else 0.0) + Outflow(amounts[1..])
  }

  /** How many amounts are positive (money coming back). */
  function InflowCount(amounts: seq<real>): (n: nat)
    ensures n <= |amounts|
  {
    if amounts == [] then 0
    else (if amounts[0] > 0.0 then 1 else 0) + InflowCount(amounts[1..])
  }

  /** The schedule pays out the fixed amount once per purchase, and has exactly one
      inflow, the final value, when that value is positive. */
  lemma {:induction false} CashFlowTotals(n: nat, finalValue: real)
    requires finalValue > 0.0
    ensures Outflow(CashFlowAmounts(n, finalValue)) == SIP_AMOUNT * n as real
    ensures InflowCount(CashFlowAmounts(n, finalValue)) == 1
    ensures Sum(CashFlowAmounts(n, finalValue)) == finalValue - SIP_AMOUNT * n as real
  {
    var amounts := CashFlowAmounts(n, finalValue);
    if n == 0 {
      assert amounts == [finalValue];
      assert amounts[1..] == [];
    } else {
      var rest := CashFlowAmounts(n - 1, finalValue);
      assert amounts == [-SIP_AMOUNT] + rest;
      assert amounts[1..] == rest;
      CashFlowTotals(n - 1, finalValue);
    }
  }

  /** Purchases in strictly increasing date order, all on or before the end date, give a
      date list in chronological order. */
  lemma CashFlowDatesChronological(purchases: seq<PricePoint>, end: Date)
    requires forall k :: 0 < k < |purchases| ==> Before(purchases[k - 1].date, purchases[k].date)
    requires forall p :: p in purchases ==> AtOrBefore(p.date, end)
    ensures forall i, j :: 0 <= i < j < |CashFlowDates(purchases, end)| ==>
              AtOrBefore(CashFlowDates(purchases, end)[i], CashFlowDates(purchases, end)[j])
  {
    var dates := CashFlowDates(purchases, end);
    forall i, j | 0 <= i < j < |dates|
      ensures AtOrBefore(dates[i], dates[j])
    {
      if j == |purchases| {
        assert purchases[i] in purchases;
      } else {
        StrictlyIncreasingApart(purchases, i, j);
      }
    }
  }

  lemma {:induction false} StrictlyIncreasingApart(purchases: seq<PricePoint>, i: int, j: int)
    requires forall k :: 0 < k < |purchases| ==> Before(purchases[k - 1].date, purchases[k].date)
    requires 0 <= i < j < |purchases|
    ensures Before(purchases[i].date, purchases[j].date)
    decreases j - i
  {
    if i + 1 < j {
      StrictlyIncreasingApart(purchases, i + 1, j);
    }
  }

  /** The exponent of each flow in the present-value sum: `(d - dates[0]).days / 365`. */
  function DiscountExponents(dates: seq<Date>): (e: seq<real>)
    requires dates != [] && AllValidDates(dates)
    ensures |e| == |dates|
  {
    seq(|dates|, k requires 0 <= k < |dates| => DaysBetween(dates[0], dates[k]) as real / 365.0)
  }

  /** On a chronological date list the first exponent is zero, none is negative, they
      never decrease, and an exponent is zero exactly for a flow on the first date. */
  lemma DiscountExponentsOrdered(dates: seq<Date>)
    requires dates != [] && AllValidDates(dates)
    requires forall i, j :: 0 <= i < j < |dates| ==> AtOrBefore(dates[i], dates[j])
    ensures DiscountExponents(dates)[0] == 0.0
    ensures forall k :: 0 <= k < |dates| ==> DiscountExponents(dates)[k] >= 0.0
    ensures forall k :: 0 <= k < |dates| ==> (DiscountExponents(dates)[k] == 0.0 <==> dates[k] == dates[0])
    ensures forall i, j :: 0 <= i < j < |dates| ==> DiscountExponents(dates)[i] <= DiscountExponents(dates)[j]
  {
    var e := DiscountExponents(dates);
    forall k | 0 <= k < |dates|
      ensures e[k] >= 0.0 && (e[k] == 0.0 <==> dates[k] == dates[0])
    {
      DaysBetweenSign(dates[0], dates[k]);
    }
    forall i, j | 0 <= i < j < |dates|
      ensures e[i] <= e[j]
    {
      DayNumberOrder(dates[i], dates[j]);
    }
  }
}
