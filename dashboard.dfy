/** The whole pipeline of one render pass: filter the table by the two
    selections, then compute the five views from the filtered rows. */
module Dashboard {
  import opened Table
  import opened Options
  import opened Ranking
  import opened Filtering
  import opened Aggregates
  import opened Monthly

  datatype Views = Views(
    worstAirports: seq<Group>,
    worstAirlines: seq<Group>,
    averageDelays: seq<Group>,
    causes: seq<CauseTotal>,
    monthly: seq<MonthTotal>)

  /** A key that survives the filter in dimension `d` is the selected one. */
  lemma FilteredKey(rows: seq<Row>, airline: string, airport: string, d: Dim, k: string)
    requires Occurs(Filter(rows, airline, airport), d, k)
    ensures d == Carrier && airline != All ==> k == airline
    ensures d == Airport && airport != All ==> k == airport
  {
    var x :| x in Filter(rows, airline, airport) && KeyOf(x, d) == Some(k);
    assert Accepts(x, airline, airport);
  }

  /** The views are the single-view functions applied to the filtered
      table, so each of their contracts holds of the filtered rows. */
  function Render(rows: seq<Row>, airline: string, airport: string): (v: Views)
    ensures var f := Filter(rows, airline, airport);
      v == Views(WorstAirports(f), WorstAirlines(f), LongestAverageDelays(f), Causes(f), MonthlyTotals(f))
    ensures forall g :: g in v.worstAirports ==> g.total == KeyedSum(Filter(rows, airline, airport), Airport, g.key, ArrDel15)
    ensures forall g :: g in v.worstAirlines ==> g.total == KeyedSum(Filter(rows, airline, airport), Carrier, g.key, ArrDel15)
    ensures forall i :: 0 <= i < 5 ==> v.causes[i].total == ColumnSum(Filter(rows, airline, airport), CauseColumns[i])
    ensures |v.worstAirports| <= TopCount && |v.worstAirlines| <= TopCount && |v.averageDelays| <= TopCount
    ensures airport != All ==> forall g :: g in v.worstAirports ==> g.key == airport
    ensures airline != All ==> forall g :: g in v.worstAirlines ==> g.key == airline
    ensures airline != All ==> forall g :: g in v.averageDelays ==> g.key == airline
    ensures |v.causes| == 5
    ensures TotalOf(v.monthly) == ColumnSum(Filter(rows, airline, airport), ArrDel15)
    ensures airline == All && airport == All ==> v.monthly == MonthlyTotals(rows)
  {
    var f := Filter(rows, airline, airport);
    var v := Views(WorstAirports(f), WorstAirlines(f), LongestAverageDelays(f), Causes(f), MonthlyTotals(f));
    assert forall g :: g in v.worstAirports ==> Occurs(f, Airport, g.key);
    assert forall g :: g in v.worstAirlines ==> Occurs(f, Carrier, g.key);
    assert forall g :: g in v.averageDelays ==> Occurs(f, Carrier, g.key);
    forall k | Occurs(f, Airport, k) ensures airport != All ==> k == airport {
      FilteredKey(rows, airline, airport, Airport, k);
    }
    forall k | Occurs(f, Carrier, k) ensures airline != All ==> k == airline {
      FilteredKey(rows, airline, airport, Carrier, k);
    }
    MonthlyConserves(f);
    v
  }
}

/** The two-row table AA/JFK and DL/JFK, both in January. */
module Example {
  import opened LexOrder
  import opened Table
  import opened Options
  import opened Ranking
  import opened Aggregates
  import opened Monthly

  const AA := Row(Some("AA"), Some("JFK"), 1, 5.0, 50.0, 2.0, 1.0, 1.0, 0.0, 1.0)
  const DL := Row(Some("DL"), Some("JFK"), 1, 3.0, 30.0, 1.0, 0.0, 1.0, 0.0, 1.0)

  lemma TwoRowOptions()
    ensures OptionList([AA, DL], Carrier) == ["All", "AA", "DL"]
  {
    assert [AA, DL][1..] == [DL];
    assert SortedValues([DL], Carrier) == ["DL"] by {
      assert [DL][1..] == [];
    }
    assert Less("AA", "DL");
    assert SortedValues([AA, DL], Carrier) == ["AA", "DL"];
  }

  lemma TwoRowWorstAirports()
    ensures WorstAirports([AA, DL]) == [Group("JFK", 8.0)]
  {
    var rows := [AA, DL];
    assert rows[1..] == [DL] && [DL][1..] == [];
    assert SortedValues([DL], Airport) == ["JFK"];
    assert SortedValues(rows, Airport) == ["JFK"];
    assert Match([DL], Airport, "JFK") == [DL];
    assert Match(rows, Airport, "JFK") == rows;
    assert ColumnSum([DL], ArrDel15) == 3.0;
    assert ColumnSum(rows, ArrDel15) == 8.0;
    assert Grouped(rows, Airport, Sum) == [Group("JFK", 8.0)];
    assert SortByTotal([Group("JFK", 8.0)]) == [Group("JFK", 8.0)];
  }

  lemma TwoRowMonthly()
    ensures MonthlyTotals([AA, DL]) == [MonthTotal(1, 8.0)]
  {
    var rows := [AA, DL];
    assert rows[1..] == [DL] && [DL][1..] == [];
    assert HasMonth(rows, 1) by {
      assert AA in rows;
    }
    assert MonthRows([DL], 1) == [DL];
    assert MonthRows(rows, 1) == rows;
    assert ColumnSum([DL], ArrDel15) == 3.0;
    assert MonthSum(rows, 1) == 8.0;
    assert MonthlyFrom(rows, 2) == [] by {
      MonthlyFromLists(rows, 2);
      var r := MonthlyFrom(rows, 2);
      if r != [] {
        assert Lists(r, r[0].month);
      }
    }
  }

  lemma TwoRowColumnSums()
    ensures ColumnSum([AA, DL], CarrierCt) == 3.0 && ColumnSum([AA, DL], WeatherCt) == 1.0
    ensures ColumnSum([AA, DL], NasCt) == 2.0 && ColumnSum([AA, DL], SecurityCt) == 0.0
    ensures ColumnSum([AA, DL], LateAircraftCt) == 2.0
  {
    var rows := [AA, DL];
    assert rows[1..] == [DL] && [DL][1..] == [];
    assert ColumnSum([DL], CarrierCt) == 1.0 && ColumnSum([DL], WeatherCt) == 0.0;
    assert ColumnSum([DL], NasCt) == 1.0 && ColumnSum([DL], SecurityCt) == 0.0;
    assert ColumnSum([DL], LateAircraftCt) == 1.0;
  }

  lemma TwoRowCauses()
    ensures Causes([AA, DL]) == [CauseTotal("carrier_ct", 3.0), CauseTotal("weather_ct", 1.0),
      CauseTotal("nas_ct", 2.0), CauseTotal("security_ct", 0.0), CauseTotal("late_aircraft_ct", 2.0)]
  {
    TwoRowColumnSums();
    var r := Causes([AA, DL]);
    assert r[0].total == ColumnSum([AA, DL], CauseColumns[0]);
    assert r[1].total == ColumnSum([AA, DL], CauseColumns[1]);
    assert r[2].total == ColumnSum([AA, DL], CauseColumns[2]);
    assert r[3].total == ColumnSum([AA, DL], CauseColumns[3]);
    assert r[4].total == ColumnSum([AA, DL], CauseColumns[4]);
  }
}
