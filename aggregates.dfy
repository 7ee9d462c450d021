/** The five views the dashboard draws from the filtered table. */
module Aggregates {
  import opened Table
  import opened LexOrder
  import opened Options
  import opened Ranking

  /** Views 1 to 3 keep this many groups. */
  const TopCount: nat := 10

  // ---- group-by over a string column ----

  /** How a group's rows are reduced: `arr_del15` summed, or `arr_delay`
      averaged. */
  datatype Reduce = Sum | Mean

  /** `arr_del15` summed over the rows of group `k`. */
  function GroupSum(rows: seq<Row>, d: Dim, k: string): (r: real)
    ensures r == KeyedSum(rows, d, k, ArrDel15)
  {
    MatchSum(rows, d, k, ArrDel15);
    ColumnSum(Match(rows, d, k), ArrDel15)
  }

  /** `arr_delay` averaged (exactly) over the rows of group `k`. */
  function GroupMean(rows: seq<Row>, d: Dim, k: string): (r: real)
    requires Occurs(rows, d, k)
    ensures KeyedCount(rows, d, k) > 0
    ensures r == KeyedSum(rows, d, k, ArrDelay) / (KeyedCount(rows, d, k) as real)
  {
    var m := Match(rows, d, k);
    assert m != [] by {
      var x :| x in rows && KeyOf(x, d) == Some(k);
      assert x in m;
    }
    MatchSum(rows, d, k, ArrDelay);
    ColumnSum(m, ArrDelay) / (|m| as real)
  }

  /** Group `k` reduced by `op`. */
  function Aggregate(rows: seq<Row>, d: Dim, op: Reduce, k: string): real
    requires Occurs(rows, d, k)
  {
    match op
    case Sum => GroupSum(rows, d, k)
    case Mean => GroupMean(rows, d, k)
  }

  /** A grouped table: one group per distinct non-missing key, in ascending
      key order, reduced by `op`. */
  function Grouped(rows: seq<Row>, d: Dim, op: Reduce): (r: seq<Group>)
    ensures |r| == |SortedValues(rows, d)|
    ensures DistinctKeys(r)
    ensures forall g :: g in r ==> Occurs(rows, d, g.key)
    ensures forall g :: g in r ==> g.total == Aggregate(rows, d, op, g.key)
    ensures forall k :: Occurs(rows, d, k) ==> Shown(r, k)
  {
    var ks := SortedValues(rows, d);
    AscendingDistinct(ks);
    var r := seq(|ks|, i requires 0 <= i < |ks| =>
      assert ks[i] in ks;
      Group(ks[i], Aggregate(rows, d, op, ks[i])));
    assert forall k :: Occurs(rows, d, k) ==> Shown(r, k) by {
      forall k | Occurs(rows, d, k)
        ensures Shown(r, k)
      {
        var i :| 0 <= i < |ks| && ks[i] == k;
        assert r[i] in r;
      }
    }
    r
  }

  /** The top ten groups of a grouped view, with everything the dashboard
      relies on stated about them. */
  function Top(rows: seq<Row>, d: Dim, op: Reduce): (r: seq<Group>)
    ensures |r| == Min(TopCount, |SortedValues(rows, d)|)
    ensures NonIncreasing(r) && DistinctKeys(r)
    ensures forall g :: g in r ==> Occurs(rows, d, g.key)
    ensures forall g :: g in r ==> g.total == Aggregate(rows, d, op, g.key)
    ensures forall k, h :: Occurs(rows, d, k) && !Shown(r, k) && h in r ==>
      Aggregate(rows, d, op, k) <= h.total
  {
    var all := Grouped(rows, d, op);
    TopNCorrect(all, TopCount);
    var r := TopN(all, TopCount);
    assert forall k, h :: Occurs(rows, d, k) && !Shown(r, k) && h in r ==>
      Aggregate(rows, d, op, k) <= h.total by {
      forall k, h | Occurs(rows, d, k) && !Shown(r, k) && h in r
        ensures Aggregate(rows, d, op, k) <= h.total
      {
        var g :| g in all && g.key == k;
        assert g !in r;
      }
    }
    r
  }

  /** View 1: the ten airports with the most delayed arrivals. */
  function WorstAirports(rows: seq<Row>): (r: seq<Group>)
    ensures |r| <= TopCount && NonIncreasing(r) && DistinctKeys(r)
    ensures forall g :: g in r ==> Occurs(rows, Airport, g.key) && g.total == GroupSum(rows, Airport, g.key)
    ensures forall k, h :: Occurs(rows, Airport, k) && !Shown(r, k) && h in r ==> GroupSum(rows, Airport, k) <= h.total
    ensures |r| == Min(TopCount, |SortedValues(rows, Airport)|)
  {
    Top(rows, Airport, Sum)
  }

  /** View 2: the ten airlines with the most delayed arrivals. */
  function WorstAirlines(rows: seq<Row>): (r: seq<Group>)
    ensures |r| <= TopCount && NonIncreasing(r) && DistinctKeys(r)
    ensures forall g :: g in r ==> Occurs(rows, Carrier, g.key) && g.total == GroupSum(rows, Carrier, g.key)
    ensures forall k, h :: Occurs(rows, Carrier, k) && !Shown(r, k) && h in r ==> GroupSum(rows, Carrier, k) <= h.total
    ensures |r| == Min(TopCount, |SortedValues(rows, Carrier)|)
  {
    Top(rows, Carrier, Sum)
  }

  /** View 3: the ten airlines with the highest mean arrival delay. */
  function LongestAverageDelays(rows: seq<Row>): (r: seq<Group>)
    ensures |r| <= TopCount && NonIncreasing(r) && DistinctKeys(r)
    ensures forall g :: g in r ==> Occurs(rows, Carrier, g.key) && g.total == GroupMean(rows, Carrier, g.key)
    ensures forall k, h :: Occurs(rows, Carrier, k) && !Shown(r, k) && h in r ==> GroupMean(rows, Carrier, k) <= h.total
    ensures |r| == Min(TopCount, |SortedValues(rows, Carrier)|)
  {
    Top(rows, Carrier, Mean)
  }

  // ---- view 4: delay causes ----

  datatype CauseTotal = CauseTotal(cause: string, total: real)

  /** The five cause columns in the order the view lists them. */
  const CauseColumns: seq<Column> := [CarrierCt, WeatherCt, NasCt, SecurityCt, LateAircraftCt]

  /** The column's header in the CSV file; the cause columns are exactly
      the ones whose header ends in "_ct". */
  function ColumnName(c: Column): (r: string)
    ensures c in CauseColumns <==> |r| >= 3 && r[|r| - 3..] == "_ct"
  {
    match c
    case ArrDel15 => "arr_del15"
    case ArrDelay => "arr_delay"
    case CarrierCt => "carrier_ct"
    case WeatherCt => "weather_ct"
    case NasCt => "nas_ct"
    case SecurityCt => "security_ct"
    case LateAircraftCt => "late_aircraft_ct"
  }

  /** All five cause counts of one row together. */
  function RowCauses(x: Row): real
  {
    x.carrierCt + x.weatherCt + x.nasCt + x.securityCt + x.lateAircraftCt
  }

  function CauseSum(cs: seq<CauseTotal>): real
  {
    if cs == [] then 0.0 else cs[0].total + CauseSum(cs[1..])
  }

  /** The view's ("Cause", "Total Delays") table. */
  function Causes(rows: seq<Row>): (r: seq<CauseTotal>)
    ensures |r| == 5
    ensures r[0].cause == "carrier_ct" && r[1].cause == "weather_ct" && r[2].cause == "nas_ct"
    ensures r[3].cause == "security_ct" && r[4].cause == "late_aircraft_ct"
    ensures forall i :: 0 <= i < 5 ==> r[i].total == ColumnSum(rows, CauseColumns[i])
    ensures rows == [] ==> forall i :: 0 <= i < 5 ==> r[i].total == 0.0
  {
    seq(5, i requires 0 <= i < 5 => CauseTotal(ColumnName(CauseColumns[i]), ColumnSum(rows, CauseColumns[i])))
  }

  /** The five totals together account for every cause count of every row. */
  lemma CausesConserve(rows: seq<Row>)
    ensures CauseSum(Causes(rows)) == RowCausesSum(rows)
  {
    var r := Causes(rows);
    assert CauseSum(r[4..]) == r[4].total by {
      assert r[4..][1..] == [];
    }
    assert CauseSum(r[3..]) == r[3].total + CauseSum(r[4..]) by { assert r[3..][1..] == r[4..]; }
    assert CauseSum(r[2..]) == r[2].total + CauseSum(r[3..]) by { assert r[2..][1..] == r[3..]; }
    assert CauseSum(r[1..]) == r[1].total + CauseSum(r[2..]) by { assert r[1..][1..] == r[2..]; }
    CausesSplit(rows);
  }

  function RowCausesSum(rows: seq<Row>): real
  {
    if rows == [] then 0.0 else RowCauses(rows[0]) + RowCausesSum(rows[1..])
  }

  lemma {:induction false} CausesSplit(rows: seq<Row>)
    ensures ColumnSum(rows, CarrierCt) + ColumnSum(rows, WeatherCt) + ColumnSum(rows, NasCt)
      + ColumnSum(rows, SecurityCt) + ColumnSum(rows, LateAircraftCt) == RowCausesSum(rows)
  {
    if rows != [] {
      CausesSplit(rows[1..]);
    }
  }
}
