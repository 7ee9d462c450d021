/** `sort_values(by=..., ascending=False).head(n)` over a grouped table: the
    groups ordered by their aggregate, largest first, truncated to `n`. */
module Ranking {

  /** One row of a grouped table: the group's key and its aggregate. */
  datatype Group = Group(key: string, total: real)

  predicate NonIncreasing(s: seq<Group>)
  {
    forall i, j :: 0 <= i < j < |s| ==> s[i].total >= s[j].total
  }

  predicate DistinctKeys(s: seq<Group>)
  {
    forall i, j :: 0 <= i < j < |s| ==> s[i].key != s[j].key
  }

  /** Some group with key `k` is listed. */
  predicate Shown(s: seq<Group>, k: string)
  {
    exists g :: g in s && g.key == k
  }

  function Min(a: int, b: int): int
  {
    if a <= b then a else b
  }

  /** Inserts `g` in front of the first group whose total it reaches. */
  function Insert(g: Group, s: seq<Group>): (r: seq<Group>)
    ensures multiset(r) == multiset(s) + multiset{g}
  {
    if s == [] then [g]
    else if g.total >= s[0].total then
      assert s == [s[0]] + s[1..];
      [g] + s
    else
      assert s == [s[0]] + s[1..];
      [s[0]] + Insert(g, s[1..])
  }

  lemma InsertMembers(g: Group, s: seq<Group>)
    ensures forall x :: x in Insert(g, s) <==> x == g || x in s
  {
    var r := Insert(g, s);
    assert forall x :: x in r <==> x in multiset(r);
  }

  lemma {:induction false} InsertNonIncreasing(g: Group, s: seq<Group>)
    requires NonIncreasing(s)
    ensures NonIncreasing(Insert(g, s))
  {
    var r := Insert(g, s);
    if s != [] && g.total < s[0].total {
      var t := Insert(g, s[1..]);
      InsertNonIncreasing(g, s[1..]);
      InsertMembers(g, s[1..]);
      forall i, j | 0 <= i < j < |r|
        ensures r[i].total >= r[j].total
      {
        if i == 0 {
          assert r[j] in t;
        } else {
          assert r[i] == t[i - 1] && r[j] == t[j - 1];
        }
      }
    }
  }

  lemma {:induction false} InsertDistinct(g: Group, s: seq<Group>)
    requires DistinctKeys(s) && !Shown(s, g.key)
    ensures DistinctKeys(Insert(g, s))
  {
    var r := Insert(g, s);
    if s != [] {
      if g.total >= s[0].total {
        forall i, j | 0 <= i < j < |r|
          ensures r[i].key != r[j].key
        {
          if i == 0 {
            assert r[j] in s;
          } else {
            assert r[i] == s[i - 1] && r[j] == s[j - 1];
          }
        }
      } else {
        var t := Insert(g, s[1..]);
        assert !Shown(s[1..], g.key) by {
          forall x | x in s[1..] ensures x.key != g.key { assert x in s; }
        }
        InsertDistinct(g, s[1..]);
        InsertMembers(g, s[1..]);
        forall i, j | 0 <= i < j < |r|
          ensures r[i].key != r[j].key
        {
          if i == 0 {
            assert r[j] in t;
            if r[j] != g {
              var q :| 0 <= q < |s[1..]| && s[1..][q] == r[j];
              assert s[q + 1] == r[j];
            }
          } else {
            assert r[i] == t[i - 1] && r[j] == t[j - 1];
          }
        }
      }
    }
  }

  /** The groups ordered by total, largest first; among equal totals the
      earlier group stays first. */
  function SortByTotal(s: seq<Group>): (r: seq<Group>)
    ensures multiset(r) == multiset(s)
    ensures NonIncreasing(r)
  {
    if s == [] then []
    else
      var t := SortByTotal(s[1..]);
      assert s == [s[0]] + s[1..];
      InsertNonIncreasing(s[0], t);
      Insert(s[0], t)
  }

  /** Sorting never puts two groups with the same key into the output. */
  lemma {:induction false} SortByTotalDistinct(s: seq<Group>)
    requires DistinctKeys(s)
    ensures DistinctKeys(SortByTotal(s))
  {
    if s != [] {
      var t := SortByTotal(s[1..]);
      assert DistinctKeys(s[1..]) by {
        forall i, j | 0 <= i < j < |s[1..]| ensures s[1..][i].key != s[1..][j].key {
          assert s[1..][i] == s[i + 1] && s[1..][j] == s[j + 1];
        }
      }
      SortByTotalDistinct(s[1..]);
      assert !Shown(t, s[0].key) by {
        forall x | x in t
          ensures x.key != s[0].key
        {
          assert x in multiset(t);
          assert x in s[1..];
          var q :| 0 <= q < |s[1..]| && s[1..][q] == x;
          assert s[q + 1] == x;
        }
      }
      InsertDistinct(s[0], t);
    }
  }

  /** `head(n)`: the first `n` groups, or all of them when there are fewer. */
  function Head(s: seq<Group>, n: nat): (r: seq<Group>)
    ensures |r| == Min(n, |s|)
    ensures r == s[..|r|]
  {
    if |s| <= n then s else s[..n]
  }

  function TopN(s: seq<Group>, n: nat): (r: seq<Group>)
    ensures |r| == Min(n, |s|)
    ensures NonIncreasing(r)
    ensures forall g :: g in r ==> g in s
  {
    var t := SortByTotal(s);
    assert |t| == |s| by {
      assert |multiset(t)| == |multiset(s)|;
    }
    assert forall g :: g in t ==> g in s by {
      assert forall g :: g in t <==> g in multiset(t);
    }
    Head(SortByTotal(s), n)
  }

  /** What any correct top-`n` selection of `all` satisfies, whatever order
      it gives to equal totals. */
  predicate IsTopN(all: seq<Group>, out: seq<Group>, n: nat)
  {
    && |out| == Min(n, |all|)
    && NonIncreasing(out)
    && DistinctKeys(out)
    && (forall g :: g in out ==> g in all)
    && (forall g, h :: g in all && g !in out && h in out ==> g.total <= h.total)
  }

  lemma TopNCorrect(all: seq<Group>, n: nat)
    requires DistinctKeys(all)
    ensures IsTopN(all, TopN(all, n), n)
  {
    var sorted := SortByTotal(all);
    SortByTotalDistinct(all);
    var out := TopN(all, n);
    assert forall x :: x in sorted <==> x in all by {
      assert forall x :: x in sorted <==> x in multiset(sorted);
    }
    assert |sorted| == |all| by {
      assert |multiset(sorted)| == |multiset(all)|;
    }
    forall g, h | g in all && g !in out && h in out
      ensures g.total <= h.total
    {
      var j :| 0 <= j < |sorted| && sorted[j] == g;
      var i :| 0 <= i < |out| && out[i] == h;
      assert out[i] == sorted[i];
      assert out == sorted[..|out|];
    }
  }
}
