/** The sums a role scorer accumulates over its weight table. A weight table
    is the role's dictionary of (metric, weight) pairs in insertion order; a
    metric takes part only when the row has its "<metric>_normalized" column. */
module Weighting {
  import opened Base
  import opened Text
  import opened Frames

  type WeightTable = seq<(string, real)>

  function NormKey(m: string): string
  {
    m + "_normalized"
  }

  /** The listed, existing column whose `_normalized` column k is. */
  function NormSource(df: Frame, cols: seq<string>, k: string): (b: Option<string>)
    ensures b.Some? ==> b.value in cols && b.value in df.columns && NormKey(b.value) == k
    ensures forall c :: c in cols && c in df.columns && NormKey(c) == k ==> b == Some(c)
  {
    assert forall c :: NormKey(c) == k ==> StripSuffix(k, "_normalized") == Some(c) by {
      forall c | NormKey(c) == k
        ensures StripSuffix(k, "_normalized") == Some(c)
      {
        StripAppended(c, "_normalized");
      }
    }
    var b := StripSuffix(k, "_normalized");
    if b.Some? && b.value in cols && b.value in df.columns then b else None
  }

  predicate Present(row: Row, m: string)
  {
    NormKey(m) in row
  }

  /** Sum of normalized value times weight over the present metrics. */
  function WeightedSum(row: Row, ws: WeightTable): real
    decreases |ws|
  {
    if ws == [] then 0.0
    else
      var (m, w) := ws[|ws| - 1];
      WeightedSum(row, ws[..|ws| - 1]) + (if Present(row, m) then row[NormKey(m)] * w else 0.0)
  }

  /** Sum of the weights of the present metrics. */
  function PresentWeight(row: Row, ws: WeightTable): real
    decreases |ws|
  {
    if ws == [] then 0.0
    else
      var (m, w) := ws[|ws| - 1];
      PresentWeight(row, ws[..|ws| - 1]) + (if Present(row, m) then w else 0.0)
  }

  function Abs(x: real): real
  {
    if x < 0.0 then -x else x
  }

  /** Sum of the absolute weights of the present metrics. */
  function PresentAbsWeight(row: Row, ws: WeightTable): real
    decreases |ws|
  {
    if ws == [] then 0.0
    else
      var (m, w) := ws[|ws| - 1];
      PresentAbsWeight(row, ws[..|ws| - 1]) + (if Present(row, m) then Abs(w) else 0.0)
  }

  function TotalWeight(ws: WeightTable): real
    decreases |ws|
  {
    if ws == [] then 0.0 else TotalWeight(ws[..|ws| - 1]) + ws[|ws| - 1].1
  }

  function TotalAbsWeight(ws: WeightTable): real
    decreases |ws|
  {
    if ws == [] then 0.0 else TotalAbsWeight(ws[..|ws| - 1]) + Abs(ws[|ws| - 1].1)
  }

  predicate NonePresent(row: Row, ws: WeightTable)
  {
    forall k :: 0 <= k < |ws| ==> !Present(row, ws[k].0)
  }

  predicate AllPresent(row: Row, ws: WeightTable)
  {
    forall k :: 0 <= k < |ws| ==> Present(row, ws[k].0)
  }

  /** With no metric present nothing is accumulated. */
  lemma {:induction false} NonePresentSums(row: Row, ws: WeightTable)
    requires NonePresent(row, ws)
    ensures WeightedSum(row, ws) == 0.0
    ensures PresentWeight(row, ws) == 0.0
    ensures PresentAbsWeight(row, ws) == 0.0
    decreases |ws|
  {
    if ws != [] {
      NonePresentSums(row, ws[..|ws| - 1]);
    }
  }

  /** With every metric present the accumulated weights are the table totals. */
  lemma {:induction false} AllPresentSums(row: Row, ws: WeightTable)
    requires AllPresent(row, ws)
    ensures PresentWeight(row, ws) == TotalWeight(ws)
    ensures PresentAbsWeight(row, ws) == TotalAbsWeight(ws)
    decreases |ws|
  {
    if ws != [] {
      AllPresentSums(row, ws[..|ws| - 1]);
    }
  }

  /** When some metric is present and no weight is zero, the absolute weight
      accumulated is positive; with positive weights so is the plain one. */
  lemma {:induction false} SomePresentWeight(row: Row, ws: WeightTable, k: int)
    requires 0 <= k < |ws| && Present(row, ws[k].0)
    requires forall j :: 0 <= j < |ws| ==> ws[j].1 != 0.0
    ensures PresentAbsWeight(row, ws) > 0.0
    ensures (forall j :: 0 <= j < |ws| ==> ws[j].1 > 0.0) ==> PresentWeight(row, ws) > 0.0
    decreases |ws|
  {
    var init := ws[..|ws| - 1];
    PresentSumsNonNegative(row, init);
    if k < |ws| - 1 {
      SomePresentWeight(row, init, k);
    }
  }

  /** Absolute weights, and positive weights, accumulate to non-negative sums. */
  lemma {:induction false} PresentSumsNonNegative(row: Row, ws: WeightTable)
    ensures PresentAbsWeight(row, ws) >= 0.0
    ensures (forall j :: 0 <= j < |ws| ==> ws[j].1 > 0.0) ==> PresentWeight(row, ws) >= 0.0
    decreases |ws|
  {
    if ws != [] {
      PresentSumsNonNegative(row, ws[..|ws| - 1]);
    }
  }

  /** One step of the table totals over a prefix of the table. */
  lemma TotalStep(ws: WeightTable, k: int)
    requires 0 < k <= |ws|
    ensures TotalWeight(ws[..k]) == TotalWeight(ws[..k - 1]) + ws[k - 1].1
    ensures TotalAbsWeight(ws[..k]) == TotalAbsWeight(ws[..k - 1]) + Abs(ws[k - 1].1)
  {
    assert ws[..k][..k - 1] == ws[..k - 1];
  }

  /** The weight at index j, or 0 past the end of the table. */
  function WeightAt(ws: WeightTable, j: nat): real
  {
    if j < |ws| then ws[j].1 else 0.0
  }

  function AbsWeightAt(ws: WeightTable, j: nat): real
  {
    if j < |ws| then Abs(ws[j].1) else 0.0
  }

  /** The totals of a table of at most eight entries, written out. */
  lemma SmallTotals(ws: WeightTable)
    requires |ws| <= 8
    ensures TotalWeight(ws) == WeightAt(ws, 0) + WeightAt(ws, 1) + WeightAt(ws, 2) + WeightAt(ws, 3) +
      WeightAt(ws, 4) + WeightAt(ws, 5) + WeightAt(ws, 6) + WeightAt(ws, 7)
    ensures TotalAbsWeight(ws) == AbsWeightAt(ws, 0) + AbsWeightAt(ws, 1) + AbsWeightAt(ws, 2) +
      AbsWeightAt(ws, 3) + AbsWeightAt(ws, 4) + AbsWeightAt(ws, 5) + AbsWeightAt(ws, 6) + AbsWeightAt(ws, 7)
  {
    assert ws[..0] == [] && ws[..|ws|] == ws;
    if |ws| >= 1 { TotalStep(ws, 1); }
    if |ws| >= 2 { TotalStep(ws, 2); }
    if |ws| >= 3 { TotalStep(ws, 3); }
    if |ws| >= 4 { TotalStep(ws, 4); }
    if |ws| >= 5 { TotalStep(ws, 5); }
    if |ws| >= 6 { TotalStep(ws, 6); }
    if |ws| >= 7 { TotalStep(ws, 7); }
    if |ws| >= 8 { TotalStep(ws, 8); }
  }

  /** The present weight at index j: 0 when absent or past the end. */
  function PresentWeightAt(row: Row, ws: WeightTable, j: nat): real
  {
    if j < |ws| && Present(row, ws[j].0) then ws[j].1 else 0.0
  }

  /** The present weight of a table of at most eight entries, written out. */
  lemma SmallPresentWeight(row: Row, ws: WeightTable)
    requires |ws| <= 8
    ensures PresentWeight(row, ws) == PresentWeightAt(row, ws, 0) + PresentWeightAt(row, ws, 1) +
      PresentWeightAt(row, ws, 2) + PresentWeightAt(row, ws, 3) + PresentWeightAt(row, ws, 4) +
      PresentWeightAt(row, ws, 5) + PresentWeightAt(row, ws, 6) + PresentWeightAt(row, ws, 7)
  {
    assert ws[..0] == [] && ws[..|ws|] == ws;
    if |ws| >= 1 { PresentStep(row, ws, 1); }
    if |ws| >= 2 { PresentStep(row, ws, 2); }
    if |ws| >= 3 { PresentStep(row, ws, 3); }
    if |ws| >= 4 { PresentStep(row, ws, 4); }
    if |ws| >= 5 { PresentStep(row, ws, 5); }
    if |ws| >= 6 { PresentStep(row, ws, 6); }
    if |ws| >= 7 { PresentStep(row, ws, 7); }
    if |ws| >= 8 { PresentStep(row, ws, 8); }
  }

  lemma PresentStep(row: Row, ws: WeightTable, k: int)
    requires 0 < k <= |ws|
    ensures PresentWeight(row, ws[..k]) ==
      PresentWeight(row, ws[..k - 1]) + (if Present(row, ws[k - 1].0) then ws[k - 1].1 else 0.0)
  {
    assert ws[..k][..k - 1] == ws[..k - 1];
  }

  /** One step of each sum over a prefix of the table. */
  lemma PrefixStep(row: Row, ws: WeightTable, k: int)
    requires 0 < k <= |ws|
    ensures PresentWeight(row, ws[..k]) ==
      PresentWeight(row, ws[..k - 1]) + (if Present(row, ws[k - 1].0) then ws[k - 1].1 else 0.0)
    ensures PresentAbsWeight(row, ws[..k]) ==
      PresentAbsWeight(row, ws[..k - 1]) + (if Present(row, ws[k - 1].0) then Abs(ws[k - 1].1) else 0.0)
    ensures WeightedSum(row, ws[..k]) ==
      WeightedSum(row, ws[..k - 1]) + (if Present(row, ws[k - 1].0) then row[NormKey(ws[k - 1].0)] * ws[k - 1].1 else 0.0)
  {
    assert ws[..k][..k - 1] == ws[..k - 1];
  }

  /** A quotient of a sum bounded by 100 times a positive weight. */
  lemma DivBounds(s: real, t: real)
    requires t > 0.0 && 0.0 <= s <= 100.0 * t
    ensures 0.0 <= s / t <= 100.0
  {
    assert s / t * t == s;
  }

  lemma MulBounds(v: real, w: real)
    requires w > 0.0 && 0.0 <= v <= 100.0
    ensures 0.0 <= v * w <= 100.0 * w
  {
  }

  lemma AddBounds(a: real, p: real, x: real, w: real)
    requires 0.0 <= a <= 100.0 * p && 0.0 <= x <= 100.0 * w
    ensures 0.0 <= a + x <= 100.0 * (p + w)
  {
  }

  /** With positive weights and present values in [0, 100], the weighted sum
      lies between 0 and 100 times the accumulated weight. */
  lemma {:induction false} ConvexSum(row: Row, ws: WeightTable)
    requires forall j :: 0 <= j < |ws| ==> ws[j].1 > 0.0
    requires forall j :: 0 <= j < |ws| && Present(row, ws[j].0) ==> 0.0 <= row[NormKey(ws[j].0)] <= 100.0
    ensures 0.0 <= WeightedSum(row, ws) <= 100.0 * PresentWeight(row, ws)
    decreases |ws|
  {
    if ws != [] {
      ConvexSum(row, ws[..|ws| - 1]);
      ConvexStep(row, ws);
    }
  }

  /** One more entry, present or not, keeps a sum within 100 times its weight. */
  lemma StepBound(a: real, p: real, v: real, w: real, present: bool)
    requires 0.0 <= a <= 100.0 * p && w > 0.0 && (present ==> 0.0 <= v <= 100.0)
    ensures 0.0 <= a + (if present then v * w else 0.0) <= 100.0 * (p + if present then w else 0.0)
  {
    if present {
      MulBounds(v, w);
      AddBounds(a, p, v * w, w);
    }
  }

  /** The last entry keeps the weighted sum within 100 times the weight. */
  lemma ConvexStep(row: Row, ws: WeightTable)
    requires ws != [] && ws[|ws| - 1].1 > 0.0
    requires Present(row, ws[|ws| - 1].0) ==> 0.0 <= row[NormKey(ws[|ws| - 1].0)] <= 100.0
    requires 0.0 <= WeightedSum(row, ws[..|ws| - 1]) <= 100.0 * PresentWeight(row, ws[..|ws| - 1])
    ensures 0.0 <= WeightedSum(row, ws) <= 100.0 * PresentWeight(row, ws)
  {
    var m, w := ws[|ws| - 1].0, ws[|ws| - 1].1;
    var present := Present(row, m);
    var v := if present then row[NormKey(m)] else 0.0;
    StepBound(WeightedSum(row, ws[..|ws| - 1]), PresentWeight(row, ws[..|ws| - 1]), v, w, present);
  }

  /** If every present value is 0 the weighted sum is 0. */
  lemma {:induction false} ZeroValuesSum(row: Row, ws: WeightTable)
    requires forall j :: 0 <= j < |ws| && Present(row, ws[j].0) ==> row[NormKey(ws[j].0)] == 0.0
    ensures WeightedSum(row, ws) == 0.0
    decreases |ws|
  {
    if ws != [] {
      ZeroValuesSum(row, ws[..|ws| - 1]);
    }
  }
}
