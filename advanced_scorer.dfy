/** The advanced scorer (`AdvancedPlayerScorer`): per-90-minute rates,
    outlier-clipped min-max normalization, signed weights whose absolute
    values form the weight base, a score re-centred on 50 and clipped to
    [0, 100], and competition ranks. */
module AdvancedScorer {
  import opened Base
  import opened Text
  import opened Positions
  import opened Frames
  import opened Weighting
  import opened Tables
  import Scaler
  import Ranking

  // ---------------------------------------------------------------- positions

  const ForwardKeywords: seq<string> := ["FW", "CF", "ST", "LW", "RW", "SS"]
  const DefenseKeywords: seq<string> := ["DF", "CB", "LB", "RB", "WB", "SW"]
  const MidfieldKeywords: seq<string> := ["MF", "CM", "DM", "AM", "LM", "RM", "CDM", "CAM"]

  /** The keyword set that selects a role. */
  function KeywordsOf(r: Role): seq<string>
  {
    match r
    case GK => ["GK"]
    case FW => ForwardKeywords
    case DF => DefenseKeywords
    case MF => MidfieldKeywords
    case Unknown => []
  }

  /** The order in which the keyword sets are tried: GK, FW, DF, MF. */
  function Priority(r: Role): nat
  {
    match r
    case GK => 0
    case FW => 1
    case DF => 2
    case MF => 3
    case Unknown => 4
  }

  /** `identify_position`: like the basic scorer's, but with larger keyword
      sets and defenders tried before midfielders. The result is a role whose
      keywords occur in the upper-cased label, and no set tried earlier occurs. */
  function IdentifyPosition(pos: Option<string>): (r: Role)
    ensures r != Unknown ==> pos.Some? && ContainsAny(Upper(pos.value), KeywordsOf(r))
    ensures forall q: Role :: pos.Some? && ContainsAny(Upper(pos.value), KeywordsOf(q)) ==>
      Priority(r) <= Priority(q)
  {
    if pos.None? then Unknown
    else
      var u := Upper(pos.value);
      ContainsAnyAt(u, ["GK"]);
      if Contains(u, "GK") then GK
      else if ContainsAny(u, ForwardKeywords) then FW
      else if ContainsAny(u, DefenseKeywords) then DF
      else if ContainsAny(u, MidfieldKeywords) then MF
      else Unknown
  }

  /** A label listing two roles takes the one tried first: here the defender. */
  lemma IdentifyTwoRoles()
    ensures IdentifyPosition(Some("dF,mf")) == DF
  {
    UpperExamples();
    GoalkeeperExamples();
    TwoRolesLabel();
  }

  /** Which keyword sets "DF,MF" holds. */
  lemma TwoRolesLabel()
    ensures !ContainsAny("DF,MF", ForwardKeywords) && ContainsAny("DF,MF", DefenseKeywords)
  {
  }

  /** A right wing-back's "RWB" holds "RW" and is classed as a forward;
      a second striker's "SS" is a forward too. */
  lemma IdentifyWingBack()
    ensures IdentifyPosition(Some("rwb")) == FW
    ensures IdentifyPosition(Some("SS")) == FW
  {
    UpperExamples();
    GoalkeeperExamples();
    ForwardLabels();
  }

  /** "RWB" and "SS" both hold a forward's keyword. */
  lemma ForwardLabels()
    ensures ContainsAny("RWB", ForwardKeywords) && ContainsAny("SS", ForwardKeywords)
  {
  }

  // ------------------------------------------------------------------ weights

  /** `position_weights`: signed weights; a negative weight penalizes. */
  function PositionWeights(r: Role): Option<WeightTable>
  {
    match r
    case FW => Some([("goals", 0.28), ("assists", 0.18), ("shots", 0.12), ("shot_on_target", 0.12),
                     ("key_passes", 0.10), ("dribbles_successful", 0.08), ("aerial_duels_won", 0.06),
                     ("offsides", -0.06)])
    case MF => Some([("assists", 0.22), ("key_passes", 0.18), ("pass_accuracy", 0.15),
                     ("progressive_passes", 0.12), ("tackles", 0.12), ("interceptions", 0.10),
                     ("goals", 0.11)])
    case DF => Some([("tackles", 0.22), ("interceptions", 0.22), ("clearances", 0.18),
                     ("blocks", 0.13), ("aerial_duels_won", 0.13), ("errors_leading_to_shot", -0.12)])
    case GK => Some([("saves", 0.28), ("clean_sheets", 0.22), ("save_percentage", 0.22),
                     ("goals_against", -0.15), ("distribution_accuracy", 0.13)])
    case Unknown => None
  }

  /** Every table has nonzero weights whose absolute values add up to 1. */
  lemma AbsWeightsSumToOne(r: Role)
    requires PositionWeights(r).Some?
    ensures forall j :: 0 <= j < |PositionWeights(r).value| ==> PositionWeights(r).value[j].1 != 0.0
    ensures TotalAbsWeight(PositionWeights(r).value) == 1.0
  {
    match r
    case FW => SmallTotals(PositionWeights(FW).value);
    case MF => SmallTotals(PositionWeights(MF).value);
    case DF => SmallTotals(PositionWeights(DF).value);
    case GK => SmallTotals(PositionWeights(GK).value);
  }

  // -------------------------------------------------------------- scoring

  /** The weighted average re-centred on 50 and clipped to [0, 100]. */
  function Recentre(sum: real, tw: real): real
    requires tw > 0.0
  {
    Scaler.Clip(sum / tw * 100.0 + 50.0, 0.0, 100.0)
  }

  /** The score `calculate_position_score` returns. */
  function PositionScore(row: Row, role: Role): real
  {
    if PositionWeights(role).None? || role == Unknown then 0.0
    else
      var ws := PositionWeights(role).value;
      var tw := PresentAbsWeight(row, ws);
      if tw > 0.0 then Recentre(WeightedSum(row, ws), tw) else WeightedSum(row, ws)
  }

  /** The loop of `calculate_position_score`: one pass over a weight table,
      accumulating the signed weighted values and the absolute weights of the
      metrics whose normalized column the row has. */
  method Accumulate(row: Row, weights: WeightTable) returns (score: real, totalWeight: real)
    ensures score == WeightedSum(row, weights)
    ensures totalWeight == PresentAbsWeight(row, weights)
  {
    score := 0.0;
    totalWeight := 0.0;
    var i := 0;
    while i < |weights|
      invariant 0 <= i <= |weights|
      invariant score == WeightedSum(row, weights[..i])
      invariant totalWeight == PresentAbsWeight(row, weights[..i])
    {
      var (metric, weight) := weights[i];
      var metricCol := NormKey(metric);
      PrefixStep(row, weights, i + 1);
      if metricCol in row {
        score := score + row[metricCol] * weight;
        totalWeight := totalWeight + Abs(weight);
      }
      i := i + 1;
    }
    assert weights[..|weights|] == weights;
  }

  /** `calculate_position_score`: 0 for an unknown role, otherwise the
      accumulated sum re-centred on the accumulated absolute weight. */
  method CalculatePositionScore(row: Row, role: Role) returns (score: real)
    ensures score == PositionScore(row, role)
  {
    if PositionWeights(role).None? || role == Unknown {
      return 0.0;
    }
    var totalWeight;
    score, totalWeight := Accumulate(row, PositionWeights(role).value);
    if totalWeight > 0.0 {
      score := Recentre(score, totalWeight);
    }
  }

  /** A zero absolute weight base means no metric was present. */
  lemma ZeroBaseNonePresent(row: Row, role: Role)
    requires PositionWeights(role).Some?
    requires PresentAbsWeight(row, PositionWeights(role).value) <= 0.0
    ensures NonePresent(row, PositionWeights(role).value)
    ensures WeightedSum(row, PositionWeights(role).value) == 0.0
  {
    var ws := PositionWeights(role).value;
    AbsWeightsSumToOne(role);
    forall k | 0 <= k < |ws|
      ensures !Present(row, ws[k].0)
    {
      if Present(row, ws[k].0) {
        SomePresentWeight(row, ws, k);
      }
    }
    NonePresentSums(row, ws);
  }

  /** Every score lies in [0, 100], whatever the row holds. */
  lemma ScoreInRange(row: Row, role: Role)
    ensures 0.0 <= PositionScore(row, role) <= 100.0
  {
    if PositionWeights(role).Some? && role != Unknown {
      if PresentAbsWeight(row, PositionWeights(role).value) <= 0.0 {
        ZeroBaseNonePresent(row, role);
      }
    }
  }

  /** Unknown scores 0, and so does a player none of whose role's metrics has
      a normalized column. */
  lemma ScoreZeroCases(row: Row, role: Role)
    requires role == Unknown || (PositionWeights(role).Some? && NonePresent(row, PositionWeights(role).value))
    ensures PositionScore(row, role) == 0.0
  {
    if role != Unknown {
      NonePresentSums(row, PositionWeights(role).value);
    }
  }

  /** A player with some metric present, all of whose present normalized
      values are 0, scores the neutral 50. */
  lemma NeutralScore(row: Row, role: Role, k: int)
    requires role != Unknown && PositionWeights(role).Some?
    requires 0 <= k < |PositionWeights(role).value| && Present(row, PositionWeights(role).value[k].0)
    requires var ws := PositionWeights(role).value;
      forall j :: 0 <= j < |ws| && Present(row, ws[j].0) ==> row[NormKey(ws[j].0)] == 0.0
    ensures PositionScore(row, role) == 50.0
  {
    var ws := PositionWeights(role).value;
    AbsWeightsSumToOne(role);
    SomePresentWeight(row, ws, k);
    ZeroValuesSum(row, ws);
  }

  /** With every metric present the weight base is exactly 1. */
  lemma FullBase(row: Row, role: Role)
    requires PositionWeights(role).Some? && AllPresent(row, PositionWeights(role).value)
    ensures PresentAbsWeight(row, PositionWeights(role).value) == 1.0
  {
    AllPresentSums(row, PositionWeights(role).value);
    AbsWeightsSumToOne(role);
  }

  /** Saturation: once the weighted average reaches 0.5 the score is 100,
      and once it falls to -0.5 the score is 0. */
  lemma Saturation(sum: real, tw: real)
    requires tw > 0.0
    ensures sum / tw >= 0.5 ==> Recentre(sum, tw) == 100.0
    ensures sum / tw <= -0.5 ==> Recentre(sum, tw) == 0.0
    ensures -0.5 <= sum / tw <= 0.5 ==> Recentre(sum, tw) == sum / tw * 100.0 + 50.0
  {
  }

  /** With normalized values in [0, 100] and all metrics present, a forward
      whose weighted sum is at least half its weight base scores 100: for
      typical inputs the clip decides the score. */
  lemma ForwardSaturates(row: Row)
    requires AllPresent(row, PositionWeights(FW).value)
    requires WeightedSum(row, PositionWeights(FW).value) >= 0.5
    ensures PositionScore(row, FW) == 100.0
  {
    FullBase(row, FW);
    Saturation(WeightedSum(row, PositionWeights(FW).value), 1.0);
  }

  // -------------------------------------------------------------- per 90

  const MinutesCandidates: seq<string> := ["Min", "Minutes", "90s", "MP"]
  const Skipped: seq<string> := ["Age", "Minutes_Played", "90s_Played", "Born"]

  /** The minutes column: the first candidate the table has. */
  function MinutesColumn(f: Frame): (m: Option<string>)
    ensures m.Some? ==> m.value in MinutesCandidates && m.value in f.columns
    ensures m.None? ==> forall c :: c in MinutesCandidates ==> c !in f.columns
    ensures m.Some? ==> forall k, j :: 0 <= j < k < |MinutesCandidates| && MinutesCandidates[k] == m.value ==>
      MinutesCandidates[j] !in f.columns
  {
    if "Min" in f.columns then Some("Min")
    else if "Minutes" in f.columns then Some("Minutes")
    else if "90s" in f.columns then Some("90s")
    else if "MP" in f.columns then Some("MP")
    else None
  }

  /** A whole column, nulls included. */
  function Column(f: Frame, c: string): (vals: seq<Option<real>>)
    ensures |vals| == |f.rows|
    ensures forall i :: 0 <= i < |f.rows| ==> vals[i] == Cell(f, i, c)
  {
    seq(|f.rows|, i requires 0 <= i < |f.rows| => Cell(f, i, c))
  }

  /** `x / d` on two cells, as pandas divides: a null operand gives null,
      0 / 0 gives NaN (null), and the infinities of x / 0 are replaced by 0. */
  function Per90Cell(x: Option<real>, d: Option<real>): (r: Option<real>)
    ensures r.Some? ==> x.Some? && d.Some?
    ensures r.Some? && d.value != 0.0 ==> r.value * d.value == x.value
    ensures x.Some? && d.Some? && d.value == 0.0 ==> (r.Some? <==> x.value != 0.0) && (r.Some? ==> r.value == 0.0)
    ensures x.Some? && d.Some? && d.value != 0.0 ==> r.Some?
  {
    if x.None? || d.None? then None
    else if d.value != 0.0 then Some(x.value / d.value)
    else if x.value != 0.0 then Some(0.0)
    else None
  }

  /** Minutes divided by 90, null where the minutes are. */
  function Nineties(ms: seq<Option<real>>): (vals: seq<Option<real>>)
    ensures |vals| == |ms|
    ensures forall i :: 0 <= i < |ms| ==> (vals[i].Some? <==> ms[i].Some?)
    ensures forall i :: 0 <= i < |ms| && ms[i].Some? ==> vals[i].value * 90.0 == ms[i].value
  {
    seq(|ms|, i requires 0 <= i < |ms| => if ms[i].Some? then Some(ms[i].value / 90.0) else None)
  }

  /** The copy with `Minutes_Played` and `90s_Played` added. */
  function WithMinutes(f: Frame, m: string): (g: Frame)
    ensures |g.rows| == |f.rows|
    ensures forall i :: 0 <= i < |g.rows| ==> Cell(g, i, "Minutes_Played") == Cell(f, i, m)
    ensures forall i :: 0 <= i < |g.rows| ==> Cell(g, i, "90s_Played") == Nineties(Column(f, m))[i]
    ensures forall i, k :: 0 <= i < |g.rows| && k != "Minutes_Played" && k != "90s_Played" ==>
      Cell(g, i, k) == Cell(f, i, k)
    ensures forall k :: k in g.columns <==> k in f.columns || k == "Minutes_Played" || k == "90s_Played"
  {
    var minutes := WithColumn(f, "Minutes_Played", Column(f, m));
    WithColumn(minutes, "90s_Played", Nineties(Column(minutes, "Minutes_Played")))
  }

  /** The per-90 column of c, computed from the table as it stands. */
  function Per90Column(acc: Frame, c: string): (vals: seq<Option<real>>)
    ensures |vals| == |acc.rows|
    ensures forall i :: 0 <= i < |acc.rows| ==> vals[i] == Per90Cell(Cell(acc, i, c), Cell(acc, i, "90s_Played"))
  {
    seq(|acc.rows|, i requires 0 <= i < |acc.rows| => Per90Cell(Cell(acc, i, c), Cell(acc, i, "90s_Played")))
  }

  /** The per-90 columns written for the numeric columns `cols`, in order. */
  function Per90Fold(base: Frame, cols: seq<string>): (g: Frame)
    ensures |g.rows| == |base.rows|
    decreases |cols|
  {
    if cols == [] then base
    else
      var acc := Per90Fold(base, cols[..|cols| - 1]);
      var c := cols[|cols| - 1];
      if c in Skipped then acc else WithColumn(acc, c + "_per90", Per90Column(acc, c))
  }

  /** What `calculate_per_90_stats` returns: the table unchanged when it has
      no minutes column; otherwise the minutes columns and a `<col>_per90`
      column for every numeric column except the four skipped ones. */
  function Per90Spec(f: Frame): Frame
  {
    match MinutesColumn(f)
    case None => f
    case Some(m) =>
      var base := WithMinutes(f, m);
      Per90Fold(base, base.columns)
  }

  /** `calculate_per_90_stats(df)`: the minutes columns are added to a copy,
      then one pass over its numeric columns adds the rates. */
  method CalculatePer90Stats(df: Frame) returns (df90: Frame)
    ensures df90 == Per90Spec(df)
  {
    var minutesCol := MinutesColumn(df);
    if minutesCol.None? {
      return df;
    }
    df90 := WithColumn(df, "Minutes_Played", Column(df, minutesCol.value));
    df90 := WithColumn(df90, "90s_Played", Nineties(Column(df90, "Minutes_Played")));
    assert df90 == WithMinutes(df, minutesCol.value);
    df90 := AddPer90Columns(df90);
  }

  /** The loop of `calculate_per_90_stats`: a `<col>_per90` column for each
      numeric column of the copy, in column order, skipping the four. */
  method AddPer90Columns(base: Frame) returns (df90: Frame)
    ensures df90 == Per90Fold(base, base.columns)
  {
    df90 := base;
    var numericCols := base.columns;
    var i := 0;
    while i < |numericCols|
      invariant 0 <= i <= |numericCols|
      invariant df90 == Per90Fold(base, numericCols[..i])
    {
      var col := numericCols[i];
      assert numericCols[..i + 1][..i] == numericCols[..i];
      if col !in Skipped {
        df90 := WithColumn(df90, col + "_per90", Per90Column(df90, col));
      }
      i := i + 1;
    }
    assert numericCols[..|numericCols|] == numericCols;
  }

  /** The per-90 column k is, when it comes from a listed column that is not skipped. */
  function Per90Source(cols: seq<string>, k: string): (b: Option<string>)
    ensures b.Some? ==> b.value in cols && b.value !in Skipped && b.value + "_per90" == k
    ensures forall c :: c in cols && c !in Skipped && c + "_per90" == k ==> b == Some(c)
  {
    assert forall c :: c + "_per90" == k ==> StripSuffix(k, "_per90") == Some(c) by {
      forall c | c + "_per90" == k
        ensures StripSuffix(k, "_per90") == Some(c)
      {
        StripAppended(c, "_per90");
      }
    }
    var b := StripSuffix(k, "_per90");
    if b.Some? && b.value in cols && b.value !in Skipped then b else None
  }

  /** No listed column is itself a per-90 name, so every rate is computed
      from the input's own values. */
  predicate NoPer90Names(cols: seq<string>)
  {
    forall c :: c in cols ==> StripSuffix(c, "_per90").None?
  }

  lemma {:induction false} Per90FoldCells(base: Frame, cols: seq<string>, i: nat, k: string)
    requires i < |base.rows| && NoPer90Names(cols)
    ensures Cell(Per90Fold(base, cols), i, k) ==
      if Per90Source(cols, k).Some?
      then Per90Cell(Cell(base, i, Per90Source(cols, k).value), Cell(base, i, "90s_Played"))
      else Cell(base, i, k)
    ensures k in Per90Fold(base, cols).columns <==> k in base.columns || Per90Source(cols, k).Some?
    decreases |cols|
  {
    if cols != [] {
      var init, c := cols[..|cols| - 1], cols[|cols| - 1];
      assert forall x :: x in cols <==> x in init || x == c;
      var acc := Per90Fold(base, init);
      Per90FoldCells(base, init, i, k);
      if c !in Skipped {
        StripAppended(c, "_per90");
        assert StripSuffix(c, "_per90").None?;
        assert StripSuffix("90s_Played", "_per90").None?;
        Per90FoldCells(base, init, i, c);
        Per90FoldCells(base, init, i, "90s_Played");
        assert Per90Source(cols, k) ==
          if k == c + "_per90" then Some(c) else Per90Source(init, k);
      } else {
        assert Per90Source(cols, k) == Per90Source(init, k);
      }
    }
  }

  /** When the table has a minutes column (and no column of its own is named
      like a per-90 column) every cell of the result is: the rate of its
      source column for a `<col>_per90` name, the minutes and nineties for the
      two added columns, and the input cell otherwise. */
  lemma Per90Cells(f: Frame, m: string, i: nat, k: string)
    requires MinutesColumn(f) == Some(m) && i < |f.rows| && NoPer90Names(f.columns)
    ensures var base := WithMinutes(f, m); var b := Per90Source(base.columns, k);
      Cell(Per90Spec(f), i, k) ==
        if b.Some? then Per90Cell(Cell(base, i, b.value), Nineties(Column(f, m))[i])
        else if k == "Minutes_Played" then Cell(f, i, m)
        else if k == "90s_Played" then Nineties(Column(f, m))[i]
        else Cell(f, i, k)
  {
    var base := WithMinutes(f, m);
    assert StripSuffix("Minutes_Played", "_per90").None?;
    assert StripSuffix("90s_Played", "_per90").None?;
    Per90FoldCells(base, base.columns, i, k);
  }

  /** Without a minutes column the table is returned unchanged. */
  lemma NoMinutesUnchanged(f: Frame)
    requires forall c :: c in MinutesCandidates ==> c !in f.columns
    ensures Per90Spec(f) == f
  {
  }

  // -------------------------------------------------------------- normalizing

  /** np.std is a parameter; all that is assumed of it is that it is never negative. */
  ghost predicate StdNonNegative(stdOf: seq<real> -> real)
  {
    forall xs :: stdOf(xs) >= 0.0
  }

  /** The null-filled column clipped to mean +/- 3 standard deviations. */
  function Clipped(xs: seq<real>, sd: real): (ys: seq<real>)
    requires |xs| > 0 && sd >= 0.0
    ensures |ys| == |xs|
    ensures forall i :: 0 <= i < |xs| ==>
      Scaler.Mean(xs) - 3.0 * sd <= ys[i] <= Scaler.Mean(xs) + 3.0 * sd
    ensures forall i :: 0 <= i < |xs| && Scaler.Mean(xs) - 3.0 * sd <= xs[i] <= Scaler.Mean(xs) + 3.0 * sd ==>
      ys[i] == xs[i]
    ensures forall i :: 0 <= i < |xs| && xs[i] < Scaler.Mean(xs) - 3.0 * sd ==> ys[i] == Scaler.Mean(xs) - 3.0 * sd
    ensures forall i :: 0 <= i < |xs| && xs[i] > Scaler.Mean(xs) + 3.0 * sd ==> ys[i] == Scaler.Mean(xs) + 3.0 * sd
  {
    var mean := Scaler.Mean(xs);
    seq(|xs|, i requires 0 <= i < |xs| => Scaler.Clip(xs[i], mean - 3.0 * sd, mean + 3.0 * sd))
  }

  /** One column of `normalize_stats`: the clipped values min-max scaled to
      [0, 100], or 50 throughout when the clipped column is constant. */
  function Normalize(xs: seq<real>, sd: real): (ys: seq<real>)
    requires |xs| > 0 && sd >= 0.0
    ensures |ys| == |xs|
  {
    var cs := Clipped(xs, sd);
    if Scaler.Max(cs) > Scaler.Min(cs) then Scaler.ScaleTo100(cs) else seq(|xs|, i => 50.0)
  }

  /** Every normalized value lies in [0, 100]; a constant clipped column is 50. */
  lemma NormalizeRange(xs: seq<real>, sd: real, i: int)
    requires |xs| > 0 && sd >= 0.0 && 0 <= i < |xs|
    ensures 0.0 <= Normalize(xs, sd)[i] <= 100.0
    ensures Scaler.Max(Clipped(xs, sd)) == Scaler.Min(Clipped(xs, sd)) ==> Normalize(xs, sd)[i] == 50.0
  {
    var cs := Clipped(xs, sd);
    if Scaler.Max(cs) > Scaler.Min(cs) {
      Scaler.ScaleRange(cs, i);
    }
  }

  /** Clipping keeps the order of values (ties may appear, never inversions). */
  lemma ClipMonotone(x: real, y: real, lo: real, hi: real)
    requires lo <= hi && x <= y
    ensures Scaler.Clip(x, lo, hi) <= Scaler.Clip(y, lo, hi)
  {
  }

  /** Normalization keeps the order of values. */
  lemma NormalizeMonotone(xs: seq<real>, sd: real, i: int, j: int)
    requires |xs| > 0 && sd >= 0.0 && 0 <= i < |xs| && 0 <= j < |xs| && xs[i] <= xs[j]
    ensures Normalize(xs, sd)[i] <= Normalize(xs, sd)[j]
  {
    var cs := Clipped(xs, sd);
    var mean := Scaler.Mean(xs);
    ClipMonotone(xs[i], xs[j], mean - 3.0 * sd, mean + 3.0 * sd);
    if Scaler.Max(cs) > Scaler.Min(cs) {
      Scaler.ScaleMonotone(cs, i, j);
    }
  }

  /** In a column that is not constant after clipping, its smallest clipped
      value becomes 0 and its largest 100; a value clipped at the upper bound
      (an outlier above mean + 3 sd) is therefore 100. */
  lemma NormalizeEnds(xs: seq<real>, sd: real, i: int)
    requires |xs| > 0 && sd >= 0.0 && 0 <= i < |xs|
    requires Scaler.Max(Clipped(xs, sd)) > Scaler.Min(Clipped(xs, sd))
    ensures Clipped(xs, sd)[i] == Scaler.Min(Clipped(xs, sd)) ==> Normalize(xs, sd)[i] == 0.0
    ensures Clipped(xs, sd)[i] == Scaler.Max(Clipped(xs, sd)) ==> Normalize(xs, sd)[i] == 100.0
    ensures xs[i] >= Scaler.Mean(xs) + 3.0 * sd ==> Normalize(xs, sd)[i] == 100.0
  {
    var cs := Clipped(xs, sd);
    if cs[i] == Scaler.Min(cs) {
      Scaler.ScaleMinIsZero(cs, i);
    }
    if cs[i] == Scaler.Max(cs) {
      Scaler.ScaleMaxIsHundred(cs, i);
    }
    if xs[i] >= Scaler.Mean(xs) + 3.0 * sd {
      assert cs[i] == Scaler.Mean(xs) + 3.0 * sd;
      assert cs[i] == Scaler.Max(cs);
      Scaler.ScaleMaxIsHundred(cs, i);
    }
  }

  /** The `<col>_normalized` column of an existing column c. */
  function NormalizedColumn(df: Frame, c: string, stdOf: seq<real> -> real): (xs: seq<real>)
    requires |df.rows| > 0 && StdNonNegative(stdOf)
    ensures |xs| == |df.rows|
  {
    Normalize(Filled(df, c), stdOf(Filled(df, c)))
  }

  /** What `normalize_stats` computes after the listed columns `cols`:
      a `_normalized` column for each one that exists, computed from the
      input table, which is otherwise copied unchanged. A table with no rows
      fails as soon as a listed column exists. */
  function NormalizeSpec(df: Frame, cols: seq<string>, stdOf: seq<real> -> real): (r: Result<Frame, FrameError>)
    requires StdNonNegative(stdOf)
    ensures r.Err? <==> |df.rows| == 0 && AnyPresent(df, cols)
    ensures r.Ok? ==> |r.value.rows| == |df.rows|
    decreases |cols|
  {
    if cols == [] then Ok(df)
    else
      var init := cols[..|cols| - 1];
      var c := cols[|cols| - 1];
      assert forall j :: 0 <= j < |init| ==> init[j] == cols[j];
      assert AnyPresent(df, cols) <==> AnyPresent(df, init) || c in df.columns;
      match NormalizeSpec(df, init, stdOf)
      case Err(e) => Err(e)
      case Ok(acc) =>
        if c !in df.columns then Ok(acc)
        else if |df.rows| == 0 then Err(EmptyColumn(c))
        else Ok(WithColumn(acc, NormKey(c), Known(NormalizedColumn(df, c, stdOf))))
  }

  /** Once a prefix of the column list fails, the whole list fails alike
      (the basic scorer's PrefixError, for this scorer's NormalizeSpec). */
  lemma {:induction false} PrefixError(df: Frame, cols: seq<string>, stdOf: seq<real> -> real, n: int)
    requires StdNonNegative(stdOf)
    requires 0 <= n <= |cols| && NormalizeSpec(df, cols[..n], stdOf).Err?
    ensures NormalizeSpec(df, cols, stdOf) == NormalizeSpec(df, cols[..n], stdOf)
    decreases |cols| - n
  {
    if n < |cols| {
      assert cols[..n + 1][..n] == cols[..n];
      PrefixError(df, cols, stdOf, n + 1);
    } else {
      assert cols[..n] == cols;
    }
  }

  /** `normalize_stats(df, columns)`: one pass over the listed columns. */
  method NormalizeStats(df: Frame, columns: seq<string>, stdOf: seq<real> -> real)
    returns (r: Result<Frame, FrameError>)
    requires StdNonNegative(stdOf)
    ensures r == NormalizeSpec(df, columns, stdOf)
  {
    var normalized := df;
    var i := 0;
    while i < |columns|
      invariant 0 <= i <= |columns|
      invariant NormalizeSpec(df, columns[..i], stdOf) == Ok(normalized)
    {
      var col := columns[i];
      assert columns[..i + 1][..i] == columns[..i];
      if col in df.columns {
        if |df.rows| == 0 {
          assert NormalizeSpec(df, columns[..i + 1], stdOf) == Err(EmptyColumn(col));
          PrefixError(df, columns, stdOf, i + 1);
          return Err(EmptyColumn(col));
        }
        normalized := WithColumn(normalized, NormKey(col), Known(NormalizedColumn(df, col, stdOf)));
      }
      i := i + 1;
    }
    assert columns[..|columns|] == columns;
    r := Ok(normalized);
  }

  /** `normalize_stats` only adds `_normalized` columns: each holds its source
      column normalized, and every other cell is the input's. */
  lemma {:induction false} NormalizeCells(df: Frame, cols: seq<string>, stdOf: seq<real> -> real, i: nat, k: string)
    requires StdNonNegative(stdOf) && NormalizeSpec(df, cols, stdOf).Ok? && i < |df.rows|
    ensures Cell(NormalizeSpec(df, cols, stdOf).value, i, k) ==
      if NormSource(df, cols, k).Some? then Some(NormalizedColumn(df, NormSource(df, cols, k).value, stdOf)[i])
      else Cell(df, i, k)
    ensures k in NormalizeSpec(df, cols, stdOf).value.columns <==> k in df.columns || NormSource(df, cols, k).Some?
    decreases |cols|
  {
    if cols != [] {
      var init, c := cols[..|cols| - 1], cols[|cols| - 1];
      assert forall x :: x in cols <==> x in init || x == c;
      NormalizeCells(df, init, stdOf, i, k);
      if c in df.columns {
        assert NormSource(df, cols, k) == if k == NormKey(c) then Some(c) else NormSource(df, init, k);
      } else {
        assert NormSource(df, cols, k) == NormSource(df, init, k);
      }
    }
  }

  // -------------------------------------------------------------- pipeline

  function Categories(pos: seq<Option<string>>): (cats: seq<Role>)
    ensures |cats| == |pos|
  {
    seq(|pos|, i requires 0 <= i < |pos| => IdentifyPosition(pos[i]))
  }

  /** The table `score_players` returns: per-90 rates added, every numeric
      column normalized, then each player's category, score and rank. */
  function ScoreSpec(pos: seq<Option<string>>, stats: Frame, stdOf: seq<real> -> real): Result<Scored, FrameError>
    requires |pos| == |stats.rows| && StdNonNegative(stdOf)
  {
    var cats := Categories(pos);
    var df90 := Per90Spec(stats);
    match NormalizeSpec(df90, df90.columns, stdOf)
    case Err(e) => Err(e)
    case Ok(nf) =>
      var scores := seq(|nf.rows|, i requires 0 <= i < |nf.rows| => PositionScore(nf.rows[i], cats[i]));
      Ok(Scored(nf.columns, seq(|nf.rows|, i requires 0 <= i < |nf.rows| =>
        ScoredRow(pos[i], cats[i], nf.rows[i], scores[i], Ranking.RankOf(scores, i)))))
  }

  /** The loop of `score_players` that scores each row for its category. */
  method ScoreRows(rows: seq<Row>, cats: seq<Role>) returns (scores: seq<real>)
    requires |cats| == |rows|
    ensures |scores| == |rows|
    ensures forall j :: 0 <= j < |rows| ==> scores[j] == PositionScore(rows[j], cats[j])
  {
    scores := [];
    var i := 0;
    while i < |rows|
      invariant 0 <= i <= |rows| && |scores| == i
      invariant forall j :: 0 <= j < i ==> scores[j] == PositionScore(rows[j], cats[j])
    {
      var s := CalculatePositionScore(rows[i], cats[i]);
      scores := scores + [s];
      i := i + 1;
    }
  }

  /** `score_players(df)`: adds `Position_Category` to the caller's table in
      place; the rest works on copies. */
  method ScorePlayers(df: PlayerTable, stdOf: seq<real> -> real) returns (r: Result<Scored, FrameError>)
    requires df.Valid() && StdNonNegative(stdOf)
    modifies df
    ensures df.Valid() && df.pos == old(df.pos) && df.stats == old(df.stats)
    ensures df.category == Some(Categories(df.pos))
    ensures r == ScoreSpec(df.pos, df.stats, stdOf)
  {
    var pos, stats := df.pos, df.stats;
    var cats := Categories(pos);
    df.category := Some(cats);
    var df90 := CalculatePer90Stats(stats);
    var normalized := NormalizeStats(df90, df90.columns, stdOf);
    if normalized.Err? {
      return Err(normalized.error);
    }
    var nf := normalized.value;
    var scores := ScoreRows(nf.rows, cats);
    assert scores == seq(|nf.rows|, j requires 0 <= j < |nf.rows| => PositionScore(nf.rows[j], cats[j]));
    var ranks := Ranking.Ranks(scores);
    var rows := seq(|nf.rows|, i requires 0 <= i < |nf.rows| =>
      ScoredRow(pos[i], cats[i], nf.rows[i], scores[i], ranks[i]));
    assert rows == ScoreSpec(pos, stats, stdOf).value.rows;
    r := Ok(Scored(nf.columns, rows));
  }

  /** End to end, on a table none of whose columns already carries a
      `_normalized` name, so that every `_normalized` cell the scorer reads
      was written by `normalize_stats` and none is null: scores lie in
      [0, 100], ranks in [1, n], and an Unknown player scores 0 and ranks last. */
  lemma ScoredTableProperties(pos: seq<Option<string>>, stats: Frame, stdOf: seq<real> -> real, i: int)
    requires |pos| == |stats.rows| && StdNonNegative(stdOf) && WellFormed(stats)
    requires forall c :: c in stats.columns ==> StripSuffix(c, "_normalized").None?
    requires ScoreSpec(pos, stats, stdOf).Ok? && 0 <= i < |stats.rows|
    ensures var rows := ScoreSpec(pos, stats, stdOf).value.rows;
      |rows| == |pos| && rows[i].category == IdentifyPosition(pos[i]) &&
      0.0 <= rows[i].score <= 100.0 && 1 <= rows[i].rank <= |rows|
    ensures var rows := ScoreSpec(pos, stats, stdOf).value.rows;
      rows[i].category == Unknown ==>
        rows[i].score == 0.0 && forall j :: 0 <= j < |rows| ==> rows[j].rank <= rows[i].rank
  {
    var cats := Categories(pos);
    var df90 := Per90Spec(stats);
    var nf := NormalizeSpec(df90, df90.columns, stdOf).value;
    var scores := seq(|nf.rows|, j requires 0 <= j < |nf.rows| => PositionScore(nf.rows[j], cats[j]));
    forall j | 0 <= j < |nf.rows|
      ensures 0.0 <= scores[j] <= 100.0
    {
      ScoreInRange(nf.rows[j], cats[j]);
    }
    Ranking.RankBounds(scores, i);
    if cats[i] == Unknown {
      Ranking.MinimumRanksLast(scores, i);
    }
  }
}
