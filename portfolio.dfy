/** The simulated portfolio: a fixed amount spent at every purchase, the units it buys,
    the units held at the end, the liquidation price (the last price on or before the end
    date) and the value of the holding at that price. Prices are exact reals. */
module Portfolio {
  import opened Dates
  import opened PriceSeries

  /** The amount invested at every monthly purchase. */
  const SIP_AMOUNT: real := 10000.0

  datatype Option<T> = None | Some(value: T)

  /** The "Units Bought" column: the units the fixed amount buys at each purchase price. */
  function UnitsBought(purchases: seq<PricePoint>): (units: seq<real>)
    requires AllValid(purchases)
    ensures |units| == |purchases|
    ensures forall k :: 0 <= k < |units| ==> units[k] > 0.0
  {
    if purchases == [] then []
    else
      assert purchases[0] in purchases;
      [SIP_AMOUNT / purchases[0].price] + UnitsBought(purchases[1..])
  }

  /** The units of the purchase at position `k`. */
  lemma {:induction false} UnitsBoughtAt(purchases: seq<PricePoint>, k: int)
    requires AllValid(purchases) && 0 <= k < |purchases|
    ensures purchases[k].price > 0.0
    ensures UnitsBought(purchases)[k] == SIP_AMOUNT / purchases[k].price
  {
    assert purchases[k] in purchases;
    if k > 0 {
      UnitsBoughtAt(purchases[1..], k - 1);
    }
  }

  /** The sum of a column, 0 for an empty one. */
  function Sum(xs: seq<real>): real {
    if xs == [] then 0.0 else xs[0] + Sum(xs[1..])
  }

  lemma {:induction false} SumAppend(a: seq<real>, b: seq<real>)
    ensures Sum(a + b) == Sum(a) + Sum(b)
  {
    if a == [] {
      assert a + b == b;
    } else {
      assert (a + b)[0] == a[0] && (a + b)[1..] == a[1..] + b;
      SumAppend(a[1..], b);
    }
  }

  lemma {:induction false} SumPositive(xs: seq<real>)
    requires xs != [] && forall k :: 0 <= k < |xs| ==> xs[k] > 0.0
    ensures Sum(xs) > 0.0
  {
    if |xs| > 1 {
      SumPositive(xs[1..]);
    }
  }

  /** The units held after all purchases: positive as soon as one purchase was made. */
  function TotalUnits(purchases: seq<PricePoint>): (total: real)
    requires AllValid(purchases)
    ensures purchases == [] <==> total == 0.0
    ensures purchases != [] ==> total > 0.0
  {
    var units := UnitsBought(purchases);
    if purchases == [] then Sum(units)
    else
      SumPositive(units);
      Sum(units)
  }

  /** The first purchase's units plus the units of the rest. */
  lemma TotalUnitsCons(purchases: seq<PricePoint>)
    requires AllValid(purchases) && purchases != []
    ensures purchases[0].price > 0.0
    ensures TotalUnits(purchases) == SIP_AMOUNT / purchases[0].price + TotalUnits(purchases[1..])
  {
    assert purchases[0] in purchases;
  }

  /** The units of two runs of purchases add up: the order of the purchases does not
      matter to the holding. */
  lemma {:induction false} TotalUnitsAppend(a: seq<PricePoint>, b: seq<PricePoint>)
    requires AllValid(a) && AllValid(b)
    ensures AllValid(a + b)
    ensures TotalUnits(a + b) == TotalUnits(a) + TotalUnits(b)
  {
    if a == [] {
      assert a + b == b;
    } else {
      assert (a + b)[0] == a[0] && (a + b)[1..] == a[1..] + b;
      TotalUnitsAppend(a[1..], b);
      TotalUnitsCons(a);
      TotalUnitsCons(a + b);
    }
  }

  /** The value of the holding at the liquidation price. */
  function FinalValue(totalUnits: real, finalNav: real): (value: real)
    requires totalUnits > 0.0 && finalNav > 0.0
    ensures value > 0.0
  {
    totalUnits * finalNav
  }

  function UpToMask(end: Date): PricePoint -> bool {
    (p: PricePoint) => AtOrBefore(p.date, end)
  }

  /** `frame[frame.Date <= end].iloc[-1]`: the last row dated on or before `end`, or
      nothing when there is no such row (where the positional lookup fails). */
  function LiquidationRow(rows: seq<PricePoint>, end: Date): (r: Option<PricePoint>)
    ensures r.None? <==> forall p :: p in rows ==> !AtOrBefore(p.date, end)
    ensures r.Some? ==> r.value in rows && AtOrBefore(r.value.date, end)
  {
    var upTo := Select(rows, UpToMask(end));
    if upTo == [] then None
    else
      assert upTo[|upTo| - 1] in upTo;
      Some(upTo[|upTo| - 1])
  }

  /** In a sorted series the liquidation row is the latest row dated on or before `end`. */
  lemma LiquidationRowIsLatest(rows: seq<PricePoint>, end: Date)
    requires ValidSeries(rows) && LiquidationRow(rows, end).Some?
    ensures forall p :: p in rows && AtOrBefore(p.date, end) ==>
              AtOrBefore(p.date, LiquidationRow(rows, end).value.date)
  {
    var upTo := Select(rows, UpToMask(end));
    SelectValid(rows, UpToMask(end));
    forall p | p in rows && AtOrBefore(p.date, end)
      ensures AtOrBefore(p.date, upTo[|upTo| - 1].date)
    {
      assert p in upTo;
      SortedBounds(upTo, p);
    }
  }

  /** When no row lies after `end`, the liquidation row is simply the last row. */
  lemma LiquidationRowIsLast(rows: seq<PricePoint>, end: Date)
    requires rows != [] && forall p :: p in rows ==> AtOrBefore(p.date, end)
    ensures LiquidationRow(rows, end) == Some(rows[|rows| - 1])
  {
    SelectAll(rows, UpToMask(end));
  }

  lemma LotValueBounds(price: real, nav: real)
    requires price > 0.0 && nav > 0.0
    ensures price <= nav ==> (SIP_AMOUNT / price) * nav >= SIP_AMOUNT
    ensures nav <= price ==> (SIP_AMOUNT / price) * nav <= SIP_AMOUNT
  {
    assert (SIP_AMOUNT / price) * nav == SIP_AMOUNT * (nav / price);
    if price <= nav {
      assert nav / price >= 1.0;
    }
    if nav <= price {
      assert nav / price <= 1.0;
    }
  }

  lemma Distribute(u: real, t: real, nav: real)
    ensures (u + t) * nav == u * nav + t * nav
  {
  }

  /** Selling at a price at least every purchase price returns at least what was
      invested. */
  lemma {:induction false} FinalValueAtLeastInvested(purchases: seq<PricePoint>, nav: real)
    requires AllValid(purchases) && nav > 0.0
    requires forall p :: p in purchases ==> p.price <= nav
    ensures TotalUnits(purchases) * nav >= SIP_AMOUNT * |purchases| as real
  {
    if purchases != [] {
      var tail := purchases[1..];
      TotalUnitsCons(purchases);
      var u := SIP_AMOUNT / purchases[0].price;
      var t := TotalUnits(tail);
      FinalValueAtLeastInvested(tail, nav);
      assert purchases[0] in purchases;
      LotValueBounds(purchases[0].price, nav);
      Distribute(u, t, nav);
    }
  }

  /** Selling at a price at most every purchase price returns at most what was
      invested. */
  lemma {:induction false} FinalValueAtMostInvested(purchases: seq<PricePoint>, nav: real)
    requires AllValid(purchases) && nav > 0.0
    requires forall p :: p in purchases ==> nav <= p.price
    ensures TotalUnits(purchases) * nav <= SIP_AMOUNT * |purchases| as real
  {
    if purchases != [] {
      var tail := purchases[1..];
      TotalUnitsCons(purchases);
      var u := SIP_AMOUNT / purchases[0].price;
      var t := TotalUnits(tail);
      FinalValueAtMostInvested(tail, nav);
      assert purchases[0] in purchases;
      LotValueBounds(purchases[0].price, nav);
      Distribute(u, t, nav);
    }
  }
}
