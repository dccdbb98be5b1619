/** The price table after loading: one row per trading day with its date and closing
    price, sorted by date, and boolean-mask row selection (`frame[mask]`), which keeps the
    rows a mask accepts in their original order. */
module PriceSeries {
  import opened Dates

  /** One row of the table: the "Date" and "Closing Price" columns. */
  datatype PricePoint = PricePoint(date: Date, price: real)

  predicate ValidPoint(p: PricePoint) {
    ValidDate(p.date) && p.price > 0.0
  }

  predicate AllValid(rows: seq<PricePoint>) {
    forall p :: p in rows ==> ValidPoint(p)
  }

  /** Rows in chronological order (equal dates allowed). */
  predicate SortedByDate(rows: seq<PricePoint>) {
    forall i, j :: 0 <= i < j < |rows| ==> AtOrBefore(rows[i].date, rows[j].date)
  }

  /** Dropping the first row of a sorted series leaves it sorted. */
  lemma SortedTail(rows: seq<PricePoint>)
    requires SortedByDate(rows) && rows != []
    ensures SortedByDate(rows[1..])
  {
    var tail := rows[1..];
    forall i, j | 0 <= i < j < |tail|
      ensures AtOrBefore(tail[i].date, tail[j].date)
    {
      assert tail[i] == rows[i + 1] && tail[j] == rows[j + 1];
    }
  }

  /** What the loader hands on: parsed dates, present positive prices, sorted by date. */
  predicate ValidSeries(rows: seq<PricePoint>) {
    AllValid(rows) && SortedByDate(rows)
  }

  /** `frame[mask]`: the rows for which `keep` holds, in their original order. */
  function Select(rows: seq<PricePoint>, keep: PricePoint -> bool): (r: seq<PricePoint>)
    ensures |r| <= |rows|
    ensures forall p :: p in r <==> p in rows && keep(p)
  {
    if rows == [] then []
    else if keep(rows[0]) then [rows[0]] + Select(rows[1..], keep)
    else Select(rows[1..], keep)
  }

  /** A mask that accepts every row selects them all. */
  lemma {:induction false} SelectAll(rows: seq<PricePoint>, keep: PricePoint -> bool)
    requires forall p :: p in rows ==> keep(p)
    ensures Select(rows, keep) == rows
  {
    if rows != [] {
      assert rows[0] in rows;
      SelectAll(rows[1..], keep);
    }
  }

  /** Selecting from two stretches of rows one after the other gives the two selections
      one after the other: selection keeps the original order and drops nothing else. */
  lemma {:induction false} SelectAppend(a: seq<PricePoint>, b: seq<PricePoint>, keep: PricePoint -> bool)
    ensures Select(a + b, keep) == Select(a, keep) + Select(b, keep)
  {
    if a != [] {
      assert (a + b)[0] == a[0] && (a + b)[1..] == a[1..] + b;
      SelectAppend(a[1..], b, keep);
      if keep(a[0]) {
        assert Select(a, keep) == [a[0]] + Select(a[1..], keep);
        assert Select(a + b, keep) == [a[0]] + Select(a[1..] + b, keep);
      }
    } else {
      assert a + b == b;
    }
  }

  /** A selection from a valid series is itself a valid series. */
  lemma {:induction false} SelectValid(rows: seq<PricePoint>, keep: PricePoint -> bool)
    requires ValidSeries(rows)
    ensures ValidSeries(Select(rows, keep))
  {
    if rows != [] {
      var tail := rows[1..];
      assert ValidSeries(tail) by {
        SortedTail(rows);
      }
      SelectValid(tail, keep);
      var r := Select(rows, keep);
      if keep(rows[0]) {
        var rest := Select(tail, keep);
        assert r == [rows[0]] + rest;
        forall j | 0 < j < |r|
          ensures AtOrBefore(r[0].date, r[j].date)
        {
          assert r[j] in rest;
          var k :| 0 <= k < |tail| && tail[k] == r[j];
          assert rows[k + 1] == r[j];
        }
      }
    }
  }

  /** Every row of a sorted series lies between its first and its last row. */
  lemma SortedBounds(rows: seq<PricePoint>, p: PricePoint)
    requires SortedByDate(rows) && p in rows
    ensures AtOrBefore(rows[0].date, p.date) && AtOrBefore(p.date, rows[|rows| - 1].date)
  {
    var k :| 0 <= k < |rows| && rows[k] == p;
    if 0 < k {
      assert AtOrBefore(rows[0].date, rows[k].date);
    }
    if k < |rows| - 1 {
      assert AtOrBefore(rows[k].date, rows[|rows| - 1].date);
    }
  }
}
