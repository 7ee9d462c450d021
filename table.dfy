/** The delay table: one `Row` per line of the CSV file, the two categorical
    dimensions the dashboard filters and groups on, and the numeric columns
    it sums. */
module Table {

  /** A value that may be missing from the CSV file (pandas' NaN). */
  datatype Option<+T> = None | Some(value: T)

  type Month = m: int | 1 <= m <= 12 witness 1

  datatype Row = Row(
    carrierName: Option<string>,
    airportName: Option<string>,
    month: Month,
    arrDel15: real,
    arrDelay: real,
    carrierCt: real,
    weatherCt: real,
    nasCt: real,
    securityCt: real,
    lateAircraftCt: real)

  /** The two string columns the dashboard filters and groups by. */
  datatype Dim = Carrier | Airport

  /** The numeric columns the dashboard aggregates. */
  datatype Column = ArrDel15 | ArrDelay | CarrierCt | WeatherCt | NasCt | SecurityCt | LateAircraftCt

  function KeyOf(r: Row, d: Dim): Option<string>
  {
    match d
    case Carrier => r.carrierName
    case Airport => r.airportName
  }

  function Value(r: Row, c: Column): real
  {
    match c
    case ArrDel15 => r.arrDel15
    case ArrDelay => r.arrDelay
    case CarrierCt => r.carrierCt
    case WeatherCt => r.weatherCt
    case NasCt => r.nasCt
    case SecurityCt => r.securityCt
    case LateAircraftCt => r.lateAircraftCt
  }

  /** The sum of one column over some rows (0 over no rows). */
  function ColumnSum(rows: seq<Row>, c: Column): (r: real)
    ensures (forall i :: 0 <= i < |rows| ==> Value(rows[i], c) >= 0.0) ==> r >= 0.0
  {
    if rows == [] then 0.0 else Value(rows[0], c) + ColumnSum(rows[1..], c)
  }

  /** Some row carries the value `k` in dimension `d`. */
  predicate Occurs(rows: seq<Row>, d: Dim, k: string)
  {
    exists r :: r in rows && KeyOf(r, d) == Some(k)
  }

  /** The rows whose `d` value equals `k`, in table order; a missing value
      equals nothing. */
  function Match(rows: seq<Row>, d: Dim, k: string): (r: seq<Row>)
    ensures |r| <= |rows|
    ensures forall x :: x in r <==> x in rows && KeyOf(x, d) == Some(k)
  {
    if rows == [] then []
    else (if KeyOf(rows[0], d) == Some(k) then [rows[0]] else []) + Match(rows[1..], d, k)
  }

  /** Every matching row is kept as often as the table holds it, and no
      other row is kept. */
  lemma {:induction false} MatchMultiplicity(rows: seq<Row>, d: Dim, k: string)
    ensures forall x :: multiset(Match(rows, d, k))[x] == if KeyOf(x, d) == Some(k) then multiset(rows)[x] else 0
  {
    if rows != [] {
      MatchMultiplicity(rows[1..], d, k);
      assert rows == [rows[0]] + rows[1..];
    }
  }

  /** Reference definition: column `c` summed in one pass over the rows
      whose `d` value is `k`. */
  function KeyedSum(rows: seq<Row>, d: Dim, k: string, c: Column): real
  {
    if rows == [] then 0.0
    else (if KeyOf(rows[0], d) == Some(k) then Value(rows[0], c) else 0.0) + KeyedSum(rows[1..], d, k, c)
  }

  /** Reference definition: the number of rows whose `d` value is `k`. */
  function KeyedCount(rows: seq<Row>, d: Dim, k: string): nat
  {
    if rows == [] then 0
    else (if KeyOf(rows[0], d) == Some(k) then 1 else 0) + KeyedCount(rows[1..], d, k)
  }

  /** Summing over the matched rows is summing over the table with every
      other row counted as 0; every matching row is counted once per
      occurrence. */
  lemma {:induction false} MatchSum(rows: seq<Row>, d: Dim, k: string, c: Column)
    ensures ColumnSum(Match(rows, d, k), c) == KeyedSum(rows, d, k, c)
    ensures |Match(rows, d, k)| == KeyedCount(rows, d, k)
  {
    if rows != [] {
      MatchSum(rows[1..], d, k, c);
      var h := if KeyOf(rows[0], d) == Some(k) then [rows[0]] else [];
      ColumnSumAppend(h, Match(rows[1..], d, k), c);
    }
  }

  lemma {:induction false} MatchAppend(a: seq<Row>, b: seq<Row>, d: Dim, k: string)
    ensures Match(a + b, d, k) == Match(a, d, k) + Match(b, d, k)
  {
    if a != [] {
      assert (a + b)[1..] == a[1..] + b;
      MatchAppend(a[1..], b, d, k);
    } else {
      assert a + b == b;
    }
  }

  lemma {:induction false} ColumnSumAppend(a: seq<Row>, b: seq<Row>, c: Column)
    ensures ColumnSum(a + b, c) == ColumnSum(a, c) + ColumnSum(b, c)
  {
    if a != [] {
      assert (a + b)[1..] == a[1..] + b;
      ColumnSumAppend(a[1..], b, c);
    } else {
      assert a + b == b;
    }
  }
}
