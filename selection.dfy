/** `DataFrame.nlargest(n, 'Overall_Score')` with pandas' default keep='first':
    the rows in descending score order, ties in table order, cut to n rows
    (none when n <= 0). Of the rows tied at the cut, the earliest are kept. */
module Selection {
  import opened Tables

  ghost predicate SortedDesc(s: seq<ScoredRow>)
  {
    forall i, j :: 0 <= i < j < |s| ==> s[i].score >= s[j].score
  }

  /** The rows of s scoring exactly v, in their order in s. Sorting is
      stable when it keeps every such subsequence. */
  function Tied(s: seq<ScoredRow>, v: real): seq<ScoredRow>
  {
    if s == [] then []
    else (if s[0].score == v then [s[0]] else []) + Tied(s[1..], v)
  }

  /** Places x ahead of every row it does not score below, so that an
      earlier row stays ahead of a later one with the same score. */
  function Insert(x: ScoredRow, t: seq<ScoredRow>): (r: seq<ScoredRow>)
    requires SortedDesc(t)
    ensures |r| == |t| + 1
    ensures SortedDesc(r)
    ensures multiset(r) == multiset(t) + multiset{x}
  {
    if t == [] || x.score >= t[0].score then
      assert forall j :: 0 <= j < |t| ==> t[j].score <= x.score by {
        forall j | 0 <= j < |t|
          ensures t[j].score <= x.score
        {
          assert j == 0 || t[0].score >= t[j].score;
        }
      }
      ConsSorted(x, t);
      [x] + t
    else
      var rest := Insert(x, t[1..]);
      assert t == [t[0]] + t[1..];
      BelowHead(x, t, rest);
      ConsSorted(t[0], rest);
      [t[0]] + rest
  }

  /** Every row of x inserted into the tail scores no higher than the head. */
  lemma BelowHead(x: ScoredRow, t: seq<ScoredRow>, rest: seq<ScoredRow>)
    requires SortedDesc(t) && t != [] && x.score < t[0].score
    requires multiset(rest) == multiset(t[1..]) + multiset{x}
    ensures forall j :: 0 <= j < |rest| ==> rest[j].score <= t[0].score
  {
    forall j | 0 <= j < |rest|
      ensures rest[j].score <= t[0].score
    {
      assert rest[j] in multiset(rest);
      if rest[j] != x {
        assert rest[j] in t[1..];
        var b :| 0 <= b < |t[1..]| && t[1..][b] == rest[j];
        assert t[b + 1] == rest[j];
      }
    }
  }

  /** A head no lower than every row keeps a descending sequence descending. */
  lemma ConsSorted(h: ScoredRow, rest: seq<ScoredRow>)
    requires SortedDesc(rest)
    requires forall j :: 0 <= j < |rest| ==> rest[j].score <= h.score
    ensures SortedDesc([h] + rest)
  {
    var r := [h] + rest;
    forall i, j | 0 <= i < j < |r|
      ensures r[i].score >= r[j].score
    {
      assert r[j] == rest[j - 1];
      if i > 0 {
        assert r[i] == rest[i - 1];
      }
    }
  }

  /** The ties of a sequence with a head row. */
  lemma TiedCons(h: ScoredRow, rest: seq<ScoredRow>, v: real)
    ensures Tied([h] + rest, v) == (if h.score == v then [h] else []) + Tied(rest, v)
  {
    assert ([h] + rest)[1..] == rest;
  }

  /** Inserting x puts it ahead of the rows it ties with. */
  lemma {:induction false} InsertStable(x: ScoredRow, t: seq<ScoredRow>, v: real)
    requires SortedDesc(t)
    ensures Tied(Insert(x, t), v) == (if x.score == v then [x] else []) + Tied(t, v)
    decreases |t|
  {
    if t == [] || x.score >= t[0].score {
      assert Insert(x, t) == [x] + t;
      TiedCons(x, t, v);
    } else {
      var rest := Insert(x, t[1..]);
      assert Insert(x, t) == [t[0]] + rest;
      assert t == [t[0]] + t[1..];
      TiedCons(t[0], rest, v);
      TiedCons(t[0], t[1..], v);
      InsertStable(x, t[1..], v);
      if t[0].score == v {
        assert x.score != v;
        assert Tied(rest, v) == Tied(t[1..], v);
        assert Tied(Insert(x, t), v) == [t[0]] + Tied(t[1..], v);
      } else {
        assert Tied(t, v) == Tied(t[1..], v);
        assert Tied(Insert(x, t), v) == Tied(rest, v);
      }
    }
  }

  /** Sorting keeps tied rows in table order, as pandas' `keep='first'` does. */
  lemma {:induction false} SortStable(s: seq<ScoredRow>, v: real)
    ensures Tied(SortDesc(s), v) == Tied(s, v)
    decreases |s|
  {
    if s != [] {
      SortStable(s[1..], v);
      InsertStable(s[0], SortDesc(s[1..]), v);
    }
  }

  /** The ties among the first k rows open the ties of the whole sequence. */
  lemma {:induction false} TiedPrefix(s: seq<ScoredRow>, k: int, v: real)
    requires 0 <= k <= |s|
    ensures Tied(s[..k], v) <= Tied(s, v)
    decreases k
  {
    if k > 0 {
      assert s[..k][0] == s[0];
      assert s[..k][1..] == s[1..][..k - 1];
      TiedPrefix(s[1..], k - 1, v);
    }
  }

  function SortDesc(s: seq<ScoredRow>): (r: seq<ScoredRow>)
    ensures |r| == |s|
    ensures SortedDesc(r)
    ensures multiset(r) == multiset(s)
  {
    if s == [] then []
    else
      assert s == [s[0]] + s[1..];
      Insert(s[0], SortDesc(s[1..]))
  }

  /** In a descending sequence, what lies past the cut scores no higher than
      what lies before it. */
  lemma CutIsBoundary(sorted: seq<ScoredRow>, k: int, x: ScoredRow, y: ScoredRow)
    requires SortedDesc(sorted) && 0 <= k <= |sorted|
    requires x in sorted[..k] && y in sorted[k..]
    ensures y.score <= x.score
  {
    var a :| 0 <= a < k && sorted[..k][a] == x;
    var b :| 0 <= b < |sorted| - k && sorted[k..][b] == y;
    assert sorted[a] == x && sorted[k + b] == y;
  }

  function NLargest(s: seq<ScoredRow>, n: int): (r: seq<ScoredRow>)
    ensures |r| == if n <= 0 then 0 else if n < |s| then n else |s|
    ensures SortedDesc(r)
    ensures multiset(r) <= multiset(s)
    ensures forall x, y :: x in r && y in multiset(s) - multiset(r) ==> y.score <= x.score
    ensures forall v :: Tied(r, v) <= Tied(s, v)
  {
    var sorted := SortDesc(s);
    var k := if n <= 0 then 0 else if n < |s| then n else |s|;
    TakeProperties(s, sorted, k);
    forall v
      ensures Tied(sorted[..k], v) <= Tied(s, v)
    {
      TiedPrefix(sorted, k, v);
      SortStable(s, v);
    }
    sorted[..k]
  }

  /** The first k rows of a descending arrangement of s: descending, drawn
      from s, and no lower than any row of s left out, counting duplicates:
      every copy of a row that is not taken scores no higher than each row
      taken. */
  lemma TakeProperties(s: seq<ScoredRow>, sorted: seq<ScoredRow>, k: int)
    requires SortedDesc(sorted) && multiset(sorted) == multiset(s) && 0 <= k <= |sorted|
    ensures SortedDesc(sorted[..k])
    ensures multiset(sorted[..k]) <= multiset(s)
    ensures forall x, y :: x in sorted[..k] && y in multiset(s) - multiset(sorted[..k]) ==>
      y.score <= x.score
  {
    assert sorted == sorted[..k] + sorted[k..];
    assert multiset(sorted) == multiset(sorted[..k]) + multiset(sorted[k..]);
    assert multiset(s) - multiset(sorted[..k]) == multiset(sorted[k..]);
    forall x, y | x in sorted[..k] && y in multiset(s) - multiset(sorted[..k])
      ensures y.score <= x.score
    {
      assert y in multiset(sorted[k..]);
      CutIsBoundary(sorted, k, x, y);
    }
  }

  /** A row that occurs twice and outscores the rest is taken twice by
      `nlargest(2)`: no copy of it gives way to a lower-scoring row. */
  lemma DuplicatesTaken(a: ScoredRow, c: ScoredRow)
    requires a.score > c.score
    ensures NLargest([a, a, c], 2) == [a, a]
  {
  }
}
