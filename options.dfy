/** The choices offered by the two sidebar selectors: the sentinel "All"
    followed by the distinct non-missing values of a column, sorted. */
module Options {
  import opened Table
  import opened LexOrder

  const All: string := "All"

  /** Adds `k` to an ascending sequence of distinct values unless it is
      already there. */
  function InsertValue(k: string, s: seq<string>): (r: seq<string>)
    requires Ascending(s)
    ensures Ascending(r)
    ensures forall x :: x in r <==> x == k || x in s
  {
    if s == [] then [k]
    else if k == s[0] then s
    else if Less(k, s[0]) then
      BelowHead(k, s);
      AscendingCons(k, s);
      [k] + s
    else
      var t := InsertValue(k, s[1..]);
      assert forall x :: x in t ==> Less(s[0], x) by {
        LessTotal(k, s[0]);
        forall x | x in t
          ensures Less(s[0], x)
        {
          if x != k {
            var j :| 0 <= j < |s[1..]| && s[1..][j] == x;
            assert s[j + 1] == x;
          }
        }
      }
      AscendingCons(s[0], t);
      assert s == [s[0]] + s[1..];
      [s[0]] + t
  }

  /** `sorted(column.dropna().unique())`: the distinct values of dimension
      `d` present in `rows`, missing values left out, in ascending order. */
  function SortedValues(rows: seq<Row>, d: Dim): (r: seq<string>)
    ensures Ascending(r)
    ensures forall k :: k in r <==> Occurs(rows, d, k)
  {
    if rows == [] then []
    else
      var rest := SortedValues(rows[1..], d);
      assert forall x :: x in rows <==> x == rows[0] || x in rows[1..] by {
        assert rows == [rows[0]] + rows[1..];
      }
      match KeyOf(rows[0], d)
      case None => rest
      case Some(k) => InsertValue(k, rest)
  }

  /** The selector's option list: "All", then the sorted distinct values. */
  function OptionList(rows: seq<Row>, d: Dim): (r: seq<string>)
    ensures |r| >= 1 && r[0] == All
    ensures Ascending(r[1..])
    ensures forall i, j :: 1 <= i < j < |r| ==> r[i] != r[j]
    ensures forall k :: k in r[1..] <==> Occurs(rows, d, k)
  {
    var vs := SortedValues(rows, d);
    AscendingDistinct(vs);
    assert ([All] + vs)[1..] == vs;
    [All] + vs
  }
}
