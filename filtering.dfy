/** The airline and airport filters applied to the table before any view is
    computed. The table itself is a value and is never changed. */
module Filtering {
  import opened Table
  import opened Options

  /** One selector applied to one dimension: "All" keeps every row, any other
      value keeps exactly the rows whose column equals it. */
  function Restrict(rows: seq<Row>, d: Dim, selected: string): (r: seq<Row>)
    ensures selected == All ==> r == rows
    ensures forall x :: x in r <==> x in rows && (selected == All || KeyOf(x, d) == Some(selected))
  {
    if selected == All then rows else Match(rows, d, selected)
  }

  /** The row passes both selectors. */
  predicate Accepts(x: Row, airline: string, airport: string)
  {
    && (airline == All || x.carrierName == Some(airline))
    && (airport == All || x.airportName == Some(airport))
  }

  /** The airline filter, then the airport filter, on a copy of the table. */
  function Filter(rows: seq<Row>, airline: string, airport: string): (r: seq<Row>)
    ensures airline == All && airport == All ==> r == rows
    ensures forall x :: x in r <==> x in rows && Accepts(x, airline, airport)
    ensures r == [] <==> forall x :: x in rows ==> !Accepts(x, airline, airport)
  {
    var r := Restrict(Restrict(rows, Carrier, airline), Airport, airport);
    assert r != [] ==> r[0] in r;
    r
  }

  /** Reference definition: one pass keeping the accepted rows in order. */
  function Matching(rows: seq<Row>, airline: string, airport: string): seq<Row>
  {
    if rows == [] then []
    else (if Accepts(rows[0], airline, airport) then [rows[0]] else []) + Matching(rows[1..], airline, airport)
  }

  /** The rows a filter drops, in order. */
  function Rejected(rows: seq<Row>, airline: string, airport: string): seq<Row>
  {
    if rows == [] then []
    else (if Accepts(rows[0], airline, airport) then [] else [rows[0]]) + Rejected(rows[1..], airline, airport)
  }

  /** `a` is `b` with some elements removed and the rest kept in order. */
  predicate IsSubsequence<T(==)>(a: seq<T>, b: seq<T>)
    decreases |b|
  {
    if a == [] then true
    else if b == [] then false
    else (a[0] == b[0] && IsSubsequence(a[1..], b[1..])) || IsSubsequence(a, b[1..])
  }

  /** Two filters in a row are the single conjunctive filter. */
  lemma {:induction false} FilterIsMatching(rows: seq<Row>, airline: string, airport: string)
    ensures Filter(rows, airline, airport) == Matching(rows, airline, airport)
  {
    if rows != [] {
      FilterIsMatching(rows[1..], airline, airport);
      var h, t := rows[0], rows[1..];
      assert rows == [h] + t;
      var c := Restrict(rows, Carrier, airline);
      var ch := if airline == All || h.carrierName == Some(airline) then [h] else [];
      assert c == ch + Restrict(t, Carrier, airline);
      if airport != All {
        MatchAppend(ch, Restrict(t, Carrier, airline), Airport, airport);
        if ch != [] {
          assert ch[1..] == [];
        }
      }
    }
  }

  lemma {:induction false} MatchingIsSubsequence(rows: seq<Row>, airline: string, airport: string)
    ensures IsSubsequence(Matching(rows, airline, airport), rows)
  {
    if rows != [] {
      MatchingIsSubsequence(rows[1..], airline, airport);
      var m := Matching(rows, airline, airport);
      if Accepts(rows[0], airline, airport) {
        assert m[0] == rows[0] && m[1..] == Matching(rows[1..], airline, airport);
      } else {
        assert m == Matching(rows[1..], airline, airport);
      }
    }
  }

  /** The kept and the dropped rows together are the table, row for row. */
  lemma {:induction false} FilterPartition(rows: seq<Row>, airline: string, airport: string)
    ensures multiset(Matching(rows, airline, airport)) + multiset(Rejected(rows, airline, airport)) == multiset(rows)
    ensures |Matching(rows, airline, airport)| + |Rejected(rows, airline, airport)| == |rows|
  {
    if rows != [] {
      FilterPartition(rows[1..], airline, airport);
      assert rows == [rows[0]] + rows[1..];
    }
  }

  /** The filtered table is exactly the accepted rows of the source, in the
      source's order, with their multiplicities. */
  lemma FilterExact(rows: seq<Row>, airline: string, airport: string)
    ensures IsSubsequence(Filter(rows, airline, airport), rows)
    ensures multiset(Filter(rows, airline, airport)) + multiset(Rejected(rows, airline, airport)) == multiset(rows)
    ensures forall x :: x in Rejected(rows, airline, airport) ==> !Accepts(x, airline, airport)
  {
    FilterIsMatching(rows, airline, airport);
    MatchingIsSubsequence(rows, airline, airport);
    FilterPartition(rows, airline, airport);
    RejectedRejects(rows, airline, airport);
  }

  lemma {:induction false} RejectedRejects(rows: seq<Row>, airline: string, airport: string)
    ensures forall x :: x in Rejected(rows, airline, airport) ==> x in rows && !Accepts(x, airline, airport)
  {
    if rows != [] {
      RejectedRejects(rows[1..], airline, airport);
    }
  }
}
