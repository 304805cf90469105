/** `Series.rank(ascending=False, method='min')` on the score column: a
    player's rank is one more than the number of strictly higher scores. */
module Ranking {

  /** How many entries of s are strictly greater than x. */
  function CountGreater(s: seq<real>, x: real): (n: nat)
    ensures n <= |s|
  {
    if s == [] then 0 else (if s[0] > x then 1 else 0) + CountGreater(s[1..], x)
  }

  function RankOf(s: seq<real>, i: int): nat
    requires 0 <= i < |s|
  {
    1 + CountGreater(s, s[i])
  }

  /** The rank column for a score column. */
  function Ranks(s: seq<real>): (r: seq<nat>)
    ensures |r| == |s|
  {
    seq(|s|, i requires 0 <= i < |s| => RankOf(s, i))
  }

  /** Raising the threshold never counts more entries. */
  lemma {:induction false} CountGreaterMono(s: seq<real>, x: real, y: real)
    requires x <= y
    ensures CountGreater(s, y) <= CountGreater(s, x)
  {
    if s != [] {
      CountGreaterMono(s[1..], x, y);
    }
  }

  /** An entry above x but not above y is counted for x only. */
  lemma {:induction false} CountGreaterStrict(s: seq<real>, x: real, y: real, k: int)
    requires 0 <= k < |s| && x < s[k] <= y
    ensures CountGreater(s, y) + 1 <= CountGreater(s, x)
  {
    if k == 0 {
      CountGreaterMono(s[1..], x, y);
    } else {
      CountGreaterStrict(s[1..], x, y, k - 1);
    }
  }

  /** An entry that equals x is not counted, so fewer than |s| entries beat it. */
  lemma {:induction false} CountGreaterOwn(s: seq<real>, k: int)
    requires 0 <= k < |s|
    ensures CountGreater(s, s[k]) <= |s| - 1
  {
    if k > 0 {
      CountGreaterOwn(s[1..], k - 1);
    }
  }

  /** Ranks lie in [1, n]. */
  lemma RankBounds(s: seq<real>, i: int)
    requires 0 <= i < |s|
    ensures 1 <= RankOf(s, i) <= |s|
  {
    CountGreaterOwn(s, i);
  }

  /** Equal scores share a rank; a higher score has a strictly smaller rank,
      and a smaller rank means a strictly higher score. */
  lemma RankOrder(s: seq<real>, i: int, j: int)
    requires 0 <= i < |s| && 0 <= j < |s|
    ensures s[i] == s[j] ==> RankOf(s, i) == RankOf(s, j)
    ensures s[i] > s[j] <==> RankOf(s, i) < RankOf(s, j)
  {
    if s[i] > s[j] {
      CountGreaterStrict(s, s[j], s[i], i);
    } else {
      CountGreaterMono(s, s[i], s[j]);
    }
  }

  /** A lowest score (such as the 0 of an Unknown player when no score is
      negative) has the largest rank in the column. */
  lemma MinimumRanksLast(s: seq<real>, i: int)
    requires 0 <= i < |s|
    requires forall j :: 0 <= j < |s| ==> s[i] <= s[j]
    ensures forall j :: 0 <= j < |s| ==> RankOf(s, j) <= RankOf(s, i)
  {
    forall j | 0 <= j < |s|
      ensures RankOf(s, j) <= RankOf(s, i)
    {
      CountGreaterMono(s, s[i], s[j]);
    }
  }

  /** Worked cases of the min-rank tie policy. */
  lemma RankExamples()
    ensures Ranks([90.0, 90.0, 80.0]) == [1, 1, 3]
    ensures Ranks([7.0, 7.0, 7.0, 5.0]) == [1, 1, 1, 4]
  {
    var a := [90.0, 90.0, 80.0];
    assert a[1..] == [90.0, 80.0] && a[1..][1..] == [80.0] && a[1..][1..][1..] == [];
    var b := [7.0, 7.0, 7.0, 5.0];
    assert b[1..] == [7.0, 7.0, 5.0] && b[1..][1..] == [7.0, 5.0];
    assert b[1..][1..][1..] == [5.0] && b[1..][1..][1..][1..] == [];
  }
}
