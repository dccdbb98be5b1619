/** The contribution schedule: the rows inside the chosen date window, grouped by calendar
    month, with the first row of every month as that month's purchase. */
module Scheduler {
  import opened Dates
  import opened PriceSeries

  /** `start <= date <= end`. */
  predicate InWindow(d: Date, start: Date, end: Date) {
    AtOrBefore(start, d) && AtOrBefore(d, end)
  }

  function WindowMask(start: Date, end: Date): PricePoint -> bool {
    (p: PricePoint) => InWindow(p.date, start, end)
  }

  /** The rows whose date lies in `[start, end]`, in their original order. */
  function FilterWindow(rows: seq<PricePoint>, start: Date, end: Date): (r: seq<PricePoint>)
    ensures forall p :: p in r <==> p in rows && InWindow(p.date, start, end)
  {
    Select(rows, WindowMask(start, end))
  }

  /** The calendar months (as month keys) that occur among the rows. */
  function MonthsOf(rows: seq<PricePoint>): set<int> {
    set p | p in rows :: MonthKey(p.date)
  }

  /** The smallest month key among the rows: the group that sorts first. */
  function EarliestMonth(rows: seq<PricePoint>): (m: int)
    requires rows != []
    ensures m in MonthsOf(rows)
    ensures forall p :: p in rows ==> m <= MonthKey(p.date)
  {
    if |rows| == 1 then MonthKey(rows[0].date)
    else
      var rest := EarliestMonth(rows[1..]);
      assert forall p :: p in rows[1..] ==> p in rows;
      if MonthKey(rows[0].date) <= rest then MonthKey(rows[0].date) else rest
  }

  /** The first row, in row order, that falls in month `m`: what `first()` keeps of a group. */
  function FirstOfMonth(rows: seq<PricePoint>, m: int): (p: PricePoint)
    requires m in MonthsOf(rows)
    ensures p in rows && MonthKey(p.date) == m
  {
    if MonthKey(rows[0].date) == m then rows[0]
    else
      assert m in MonthsOf(rows[1..]) by {
        var q :| q in rows && MonthKey(q.date) == m;
        assert q != rows[0] && q in rows[1..];
      }
      FirstOfMonth(rows[1..], m)
  }

  /** The row kept for month `m` comes before every other row of that month: no earlier
      row is of month `m`. */
  lemma {:induction false} FirstOfMonthIsFirst(rows: seq<PricePoint>, m: int)
    requires m in MonthsOf(rows)
    ensures exists i :: 0 <= i < |rows| && rows[i] == FirstOfMonth(rows, m) &&
              forall j :: 0 <= j < i ==> MonthKey(rows[j].date) != m
  {
    if MonthKey(rows[0].date) == m {
      assert rows[0] == FirstOfMonth(rows, m);
    } else {
      var tail := rows[1..];
      assert m in MonthsOf(tail) by {
        var q :| q in rows && MonthKey(q.date) == m;
        assert q != rows[0] && q in tail;
      }
      FirstOfMonthIsFirst(tail, m);
      var i :| 0 <= i < |tail| && tail[i] == FirstOfMonth(tail, m) &&
               forall j :: 0 <= j < i ==> MonthKey(tail[j].date) != m;
      assert rows[i + 1] == FirstOfMonth(rows, m);
      forall j | 0 <= j < i + 1
        ensures MonthKey(rows[j].date) != m
      {
        if j > 0 {
          assert rows[j] == tail[j - 1];
        }
      }
    }
  }

  function OtherMonthMask(m: int): PricePoint -> bool {
    (p: PricePoint) => MonthKey(p.date) != m
  }

  /** The rows of every month except `m`, in their original order. */
  function OtherMonths(rows: seq<PricePoint>, m: int): (r: seq<PricePoint>)
    ensures forall p :: p in r <==> p in rows && MonthKey(p.date) != m
    ensures m in MonthsOf(rows) ==> |r| < |rows|
  {
    var r := Select(rows, OtherMonthMask(m));
    if m in MonthsOf(rows) then
      SelectShrinks(rows, OtherMonthMask(m), FirstOfMonth(rows, m));
      r
    else r
  }

  /** Dropping a row the mask rejects makes the selection shorter than the rows. */
  lemma {:induction false} SelectShrinks(rows: seq<PricePoint>, keep: PricePoint -> bool, p: PricePoint)
    requires p in rows && !keep(p)
    ensures |Select(rows, keep)| < |rows|
  {
    if rows[0] != p {
      assert p in rows[1..];
      SelectShrinks(rows[1..], keep, p);
    }
  }

  /** `groupby(month).first()`: one row per month, the first row of that month, with the
      groups in ascending month order. */
  function MonthlyFirst(rows: seq<PricePoint>): (r: seq<PricePoint>)
    ensures rows == [] <==> r == []
    ensures forall p :: p in r ==> p in rows
    ensures forall k :: 0 < k < |r| ==> MonthKey(r[k - 1].date) < MonthKey(r[k].date)
    decreases |rows|
  {
    if rows == [] then []
    else
      var m := EarliestMonth(rows);
      var rest := MonthlyFirst(OtherMonths(rows, m));
      assert forall p :: p in rest ==> m < MonthKey(p.date);
      [FirstOfMonth(rows, m)] + rest
  }

  /** The month set of the rows splits into the earliest month and the months of the
      other rows, which no longer contain it. */
  lemma MonthsSplit(rows: seq<PricePoint>, m: int)
    ensures MonthsOf(OtherMonths(rows, m)) == MonthsOf(rows) - {m}
  {
    var rest := OtherMonths(rows, m);
    forall k | k in MonthsOf(rows) - {m}
      ensures k in MonthsOf(rest)
    {
      var q :| q in rows && MonthKey(q.date) == k;
      assert q in rest;
    }
  }

  lemma MonthsOfCons(head: PricePoint, rest: seq<PricePoint>)
    ensures MonthsOf([head] + rest) == {MonthKey(head.date)} + MonthsOf(rest)
  {
    forall q | q in [head] + rest
      ensures q == head || q in rest
    {
    }
  }

  /** Exactly one purchase per distinct month among the rows, and every such month has
      one. */
  lemma {:induction false} MonthlyFirstCoversMonths(rows: seq<PricePoint>)
    ensures MonthsOf(MonthlyFirst(rows)) == MonthsOf(rows)
    ensures |MonthlyFirst(rows)| == |MonthsOf(rows)|
    decreases |rows|
  {
    if rows != [] {
      var m := EarliestMonth(rows);
      var others := OtherMonths(rows, m);
      var rest := MonthlyFirst(others);
      var head := FirstOfMonth(rows, m);
      MonthlyFirstCoversMonths(others);
      MonthsSplit(rows, m);
      assert MonthlyFirst(rows) == [head] + rest;
      MonthsOfCons(head, rest);
      Reinsert(m, MonthsOf(rows));
    }
  }

  lemma Reinsert(m: int, s: set<int>)
    requires m in s
    ensures {m} + (s - {m}) == s
    ensures |s - {m}| + 1 == |s|
  {
  }

  /** A row of another month does not change which row comes first in a month. */
  lemma {:induction false} FirstOfMonthInOthers(rows: seq<PricePoint>, m: int, k: int)
    requires k in MonthsOf(rows) && k != m
    ensures k in MonthsOf(OtherMonths(rows, m))
    ensures FirstOfMonth(OtherMonths(rows, m), k) == FirstOfMonth(rows, k)
  {
    MonthsSplit(rows, m);
    var mask := OtherMonthMask(m);
    var tail := rows[1..];
    if MonthKey(rows[0].date) == k {
      assert Select(rows, mask) == [rows[0]] + Select(tail, mask);
    } else {
      assert k in MonthsOf(tail) by {
        var q :| q in rows && MonthKey(q.date) == k;
        assert q in tail;
      }
      FirstOfMonthInOthers(tail, m, k);
      if MonthKey(rows[0].date) != m {
        assert Select(rows, mask) == [rows[0]] + Select(tail, mask);
      } else {
        assert Select(rows, mask) == Select(tail, mask);
      }
    }
  }

  /** Each purchase is the first row of its own month. */
  lemma {:induction false} MonthlyFirstPicksFirstRow(rows: seq<PricePoint>)
    ensures forall p :: p in MonthlyFirst(rows) ==>
              MonthKey(p.date) in MonthsOf(rows) && p == FirstOfMonth(rows, MonthKey(p.date))
    decreases |rows|
  {
    if rows != [] {
      var m := EarliestMonth(rows);
      var others := OtherMonths(rows, m);
      MonthlyFirstPicksFirstRow(others);
      assert MonthlyFirst(rows) == [FirstOfMonth(rows, m)] + MonthlyFirst(others);
      forall p | p in MonthlyFirst(others)
        ensures MonthKey(p.date) in MonthsOf(rows) && p == FirstOfMonth(rows, MonthKey(p.date))
      {
        assert p in rows;
        FirstOfMonthInOthers(rows, m, MonthKey(p.date));
      }
    }
  }

  /** In a sorted series the first row of a month is its earliest date. */
  lemma {:induction false} FirstOfMonthEarliest(rows: seq<PricePoint>, m: int)
    requires SortedByDate(rows) && m in MonthsOf(rows)
    ensures forall q :: q in rows && MonthKey(q.date) == m ==> AtOrBefore(FirstOfMonth(rows, m).date, q.date)
  {
    if MonthKey(rows[0].date) == m {
      forall q | q in rows
        ensures AtOrBefore(rows[0].date, q.date)
      {
        SortedBounds(rows, q);
      }
    } else {
      var tail := rows[1..];
      SortedTail(rows);
      assert m in MonthsOf(tail) by {
        var q :| q in rows && MonthKey(q.date) == m;
        assert q in tail;
      }
      FirstOfMonthEarliest(tail, m);
      forall q | q in rows && MonthKey(q.date) == m
        ensures q in tail
      {
      }
    }
  }

  /** On a sorted series every purchase is the earliest row of its month, and purchase
      dates strictly increase. */
  lemma MonthlyFirstEarliest(rows: seq<PricePoint>)
    requires ValidSeries(rows)
    ensures forall p, q :: p in MonthlyFirst(rows) && q in rows && MonthKey(q.date) == MonthKey(p.date)
              ==> AtOrBefore(p.date, q.date)
    ensures forall k :: 0 < k < |MonthlyFirst(rows)| ==>
              Before(MonthlyFirst(rows)[k - 1].date, MonthlyFirst(rows)[k].date)
  {
    var r := MonthlyFirst(rows);
    MonthlyFirstPicksFirstRow(rows);
    forall p | p in r
      ensures forall q :: q in rows && MonthKey(q.date) == MonthKey(p.date) ==> AtOrBefore(p.date, q.date)
    {
      FirstOfMonthEarliest(rows, MonthKey(p.date));
    }
    forall k | 0 < k < |r|
      ensures Before(r[k - 1].date, r[k].date)
    {
      assert r[k - 1] in rows && r[k] in rows;
      assert ValidDate(r[k - 1].date) && ValidDate(r[k].date) by {
        var i :| 0 <= i < |rows| && rows[i] == r[k - 1];
        var j :| 0 <= j < |rows| && rows[j] == r[k];
      }
      MonthKeyOrder(r[k].date, r[k - 1].date);
    }
  }
}
