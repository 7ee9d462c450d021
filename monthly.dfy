/** View 5: delayed arrivals per calendar month, in month order. */
module Monthly {
  import opened Table

  datatype MonthTotal = MonthTotal(month: Month, total: real)

  predicate HasMonth(rows: seq<Row>, m: int)
  {
    exists x :: x in rows && x.month == m
  }

  /** The output lists month `m`. */
  predicate Lists(ts: seq<MonthTotal>, m: int)
  {
    exists i :: 0 <= i < |ts| && ts[i].month == m
  }

  /** The rows of month `m`, in table order. */
  function MonthRows(rows: seq<Row>, m: Month): (r: seq<Row>)
    ensures forall x :: x in r <==> x in rows && x.month == m
  {
    if rows == [] then []
    else (if rows[0].month == m then [rows[0]] else []) + MonthRows(rows[1..], m)
  }

  /** `arr_del15` summed over the rows of month `m`. */
  function MonthSum(rows: seq<Row>, m: Month): (r: real)
    ensures r == MonthDelays(rows, m)
  {
    MonthRowsSum(rows, m);
    ColumnSum(MonthRows(rows, m), ArrDel15)
  }

  /** Reference definition: `arr_del15` summed in one pass over the rows of
      month `m`. */
  function MonthDelays(rows: seq<Row>, m: Month): real
  {
    if rows == [] then 0.0
    else (if rows[0].month == m then rows[0].arrDel15 else 0.0) + MonthDelays(rows[1..], m)
  }

  lemma {:induction false} MonthRowsSum(rows: seq<Row>, m: Month)
    ensures ColumnSum(MonthRows(rows, m), ArrDel15) == MonthDelays(rows, m)
  {
    if rows != [] {
      MonthRowsSum(rows[1..], m);
      var h := if rows[0].month == m then [rows[0]] else [];
      ColumnSumAppend(h, MonthRows(rows[1..], m), ArrDel15);
    }
  }

  /** The groups for months `m` to 12 that occur in `rows`. */
  function MonthlyFrom(rows: seq<Row>, m: int): (r: seq<MonthTotal>)
    requires 1 <= m <= 13
    ensures forall i, j :: 0 <= i < j < |r| ==> r[i].month < r[j].month
    ensures forall i :: 0 <= i < |r| ==> m <= r[i].month && r[i].total == MonthSum(rows, r[i].month)
    decreases 13 - m
  {
    if m == 13 then []
    else if HasMonth(rows, m) then [MonthTotal(m, MonthSum(rows, m))] + MonthlyFrom(rows, m + 1)
    else MonthlyFrom(rows, m + 1)
  }

  /** Exactly the months from `m` on that occur in `rows` are listed. */
  lemma {:induction false} MonthlyFromLists(rows: seq<Row>, m: int)
    requires 1 <= m <= 13
    ensures forall mm :: Lists(MonthlyFrom(rows, m), mm) <==> m <= mm <= 12 && HasMonth(rows, mm)
    decreases 13 - m
  {
    if m < 13 {
      MonthlyFromLists(rows, m + 1);
      var rest := MonthlyFrom(rows, m + 1);
      if HasMonth(rows, m) {
        ListsCons(MonthTotal(m, MonthSum(rows, m)), rest);
      }
    }
  }

  lemma ListsCons(t: MonthTotal, rest: seq<MonthTotal>)
    ensures forall mm :: Lists([t] + rest, mm) <==> mm == t.month || Lists(rest, mm)
  {
    var r := [t] + rest;
    forall mm | Lists(r, mm) && mm != t.month
      ensures Lists(rest, mm)
    {
      var i :| 0 <= i < |r| && r[i].month == mm;
      assert rest[i - 1] == r[i];
    }
    forall mm | Lists(rest, mm)
      ensures Lists(r, mm)
    {
      var i :| 0 <= i < |rest| && rest[i].month == mm;
      assert r[i + 1] == rest[i];
    }
    assert r[0].month == t.month;
  }

  /** The monthly view: `groupby("month").sum()` sorted by month. */
  function MonthlyTotals(rows: seq<Row>): (r: seq<MonthTotal>)
    ensures forall i, j :: 0 <= i < j < |r| ==> r[i].month < r[j].month
    ensures forall i :: 0 <= i < |r| ==> r[i].total == MonthSum(rows, r[i].month)
    ensures forall m :: Lists(r, m) <==> HasMonth(rows, m)
    ensures |r| <= 12
  {
    var r := MonthlyFrom(rows, 1);
    MonthlyFromLists(rows, 1);
    assert |r| <= 12 by {
      StrictMonthsBound(r);
    }
    r
  }

  /** Strictly increasing months leave room for at most 12 entries. */
  lemma {:induction false} StrictMonthsBound(ts: seq<MonthTotal>)
    requires forall i, j :: 0 <= i < j < |ts| ==> ts[i].month < ts[j].month
    ensures |ts| <= 13 - (if ts == [] then 1 else ts[0].month)
  {
    if |ts| > 1 {
      StrictMonthsBound(ts[1..]);
    }
  }

  function TotalOf(ts: seq<MonthTotal>): real
  {
    if ts == [] then 0.0 else ts[0].total + TotalOf(ts[1..])
  }

  /** `arr_del15` summed over the rows whose month is at least `m`. */
  function DelaysFrom(rows: seq<Row>, m: int): real
  {
    if rows == [] then 0.0
    else (if rows[0].month >= m then rows[0].arrDel15 else 0.0) + DelaysFrom(rows[1..], m)
  }

  lemma {:induction false} DelaysFromSplit(rows: seq<Row>, m: Month)
    ensures DelaysFrom(rows, m) == MonthSum(rows, m) + DelaysFrom(rows, m + 1)
  {
    if rows != [] {
      DelaysFromSplit(rows[1..], m);
      var h := if rows[0].month == m then [rows[0]] else [];
      ColumnSumAppend(h, MonthRows(rows[1..], m), ArrDel15);
    }
  }

  lemma {:induction false} DelaysFromEnds(rows: seq<Row>)
    ensures DelaysFrom(rows, 13) == 0.0
    ensures DelaysFrom(rows, 1) == ColumnSum(rows, ArrDel15)
  {
    if rows != [] {
      DelaysFromEnds(rows[1..]);
    }
  }

  lemma AbsentMonthIsZero(rows: seq<Row>, m: Month)
    requires !HasMonth(rows, m)
    ensures MonthSum(rows, m) == 0.0
  {
  }

  /** One calendar month's contribution to the monthly view's total. */
  lemma MonthlyFromStep(rows: seq<Row>, m: Month)
    ensures TotalOf(MonthlyFrom(rows, m)) == MonthSum(rows, m) + TotalOf(MonthlyFrom(rows, m + 1))
  {
    var rest := MonthlyFrom(rows, m + 1);
    if HasMonth(rows, m) {
      var r := [MonthTotal(m, MonthSum(rows, m))] + rest;
      assert MonthlyFrom(rows, m) == r;
      assert r[1..] == rest;
    } else {
      AbsentMonthIsZero(rows, m);
    }
  }

  lemma {:induction false} MonthlyFromConserves(rows: seq<Row>, m: int)
    requires 1 <= m <= 13
    ensures TotalOf(MonthlyFrom(rows, m)) == DelaysFrom(rows, m)
    decreases 13 - m
  {
    if m == 13 {
      DelaysFromEnds(rows);
    } else {
      MonthlyFromConserves(rows, m + 1);
      DelaysFromSplit(rows, m);
      MonthlyFromStep(rows, m);
    }
  }

  /** The monthly totals add up to all delayed arrivals of the table. */
  lemma MonthlyConserves(rows: seq<Row>)
    ensures TotalOf(MonthlyTotals(rows)) == ColumnSum(rows, ArrDel15)
  {
    MonthlyFromConserves(rows, 1);
    DelaysFromEnds(rows);
  }
}
