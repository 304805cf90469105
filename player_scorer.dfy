/** The basic scorer (`PlayerScorer`): classify each player's position label,
    min-max normalize every numeric column to [0, 100], score each player as
    the weighted average of its role's normalized metrics, rank the scores,
    and pick the top players of a role. */
module PlayerScorer {
  import opened Base
  import opened Text
  import opened Positions
  import opened Frames
  import opened Weighting
  import opened Tables
  import Scaler
  import Ranking
  import Selection

  // ---------------------------------------------------------------- positions

  const ForwardKeywords: seq<string> := ["FW", "CF", "ST", "LW", "RW"]
  const MidfieldKeywords: seq<string> := ["MF", "CM", "DM", "AM", "LM", "RM"]
  const DefenseKeywords: seq<string> := ["DF", "CB", "LB", "RB", "WB"]

  /** The keyword set that selects a role. */
  function KeywordsOf(r: Role): seq<string>
  {
    match r
    case GK => ["GK"]
    case FW => ForwardKeywords
    case MF => MidfieldKeywords
    case DF => DefenseKeywords
    case Unknown => []
  }

  /** The order in which the keyword sets are tried: GK, FW, MF, DF. */
  function Priority(r: Role): nat
  {
    match r
    case GK => 0
    case FW => 1
    case MF => 2
    case DF => 3
    case Unknown => 4
  }

  /** `identify_position`: the upper-cased label is searched for the keyword
      sets in priority order and the first set that occurs decides. The result
      is a role whose keywords occur in the label, and no set tried earlier
      occurs; a missing label, or one with no keyword, is Unknown. */
  function IdentifyPosition(pos: Option<string>): (r: Role)
    ensures r != Unknown ==> pos.Some? && ContainsAny(Upper(pos.value), KeywordsOf(r))
    ensures forall q: Role :: pos.Some? && ContainsAny(Upper(pos.value), KeywordsOf(q)) ==>
      Priority(r) <= Priority(q)
  {
    if pos.None? then Unknown
    else
      var u := Upper(pos.value);
      SingleKeyword(u, "GK");
      if Contains(u, "GK") then GK
      else if ContainsAny(u, ForwardKeywords) then FW
      else if ContainsAny(u, MidfieldKeywords) then MF
      else if ContainsAny(u, DefenseKeywords) then DF
      else Unknown
  }

  /** The goalkeeper test is a single substring test. */
  lemma SingleKeyword(s: string, kw: string)
    ensures ContainsAny(s, [kw]) <==> Contains(s, kw)
  {
    ContainsAnyAt(s, [kw]);
  }

  /** A label listing two roles takes the one tried first: midfield. */
  lemma IdentifyTwoRoles()
    ensures IdentifyPosition(Some("DF,MF")) == MF
  {
    UpperExamples();
    GoalkeeperExamples();
    TwoRolesLabel();
  }

  /** Which keyword sets "DF,MF" holds. */
  lemma TwoRolesLabel()
    ensures !ContainsAny("DF,MF", ForwardKeywords) && ContainsAny("DF,MF", MidfieldKeywords)
  {
  }

  /** Lower-case labels are matched after upper-casing; "cdm" contains "DM". */
  lemma IdentifyLowerCase()
    ensures IdentifyPosition(Some("cdm")) == MF
    ensures IdentifyPosition(Some("st")) == FW
    ensures IdentifyPosition(Some("Gk")) == GK
  {
    UpperExamples();
    GoalkeeperExamples();
    LowerCaseLabels();
  }

  /** Which keyword sets "CDM" and "ST" hold. */
  lemma LowerCaseLabels()
    ensures !ContainsAny("CDM", ForwardKeywords) && ContainsAny("CDM", MidfieldKeywords)
    ensures ContainsAny("ST", ForwardKeywords)
  {
  }

  /** "CB" is a defender's label; a missing label is Unknown. */
  lemma IdentifyDefender()
    ensures IdentifyPosition(Some("CB")) == DF
    ensures IdentifyPosition(None) == Unknown
  {
    UpperExamples();
    GoalkeeperExamples();
    DefenderLabel();
  }

  /** Which keyword sets "CB" holds. */
  lemma DefenderLabel()
    ensures !ContainsAny("CB", ForwardKeywords) && !ContainsAny("CB", MidfieldKeywords)
    ensures ContainsAny("CB", DefenseKeywords)
  {
  }

  /** "SS" holds none of the basic scorer's keywords. */
  lemma SecondStrikerLabel()
    ensures !ContainsAny("SS", ForwardKeywords) && !ContainsAny("SS", MidfieldKeywords)
    ensures !ContainsAny("SS", DefenseKeywords)
  {
  }

  // ------------------------------------------------------------------ weights

  /** `position_weights`: each role's metrics and weights, in dictionary order. */
  function PositionWeights(r: Role): Option<WeightTable>
  {
    match r
    case FW => Some([("goals", 0.30), ("assists", 0.20), ("shots", 0.15),
                     ("shot_accuracy", 0.15), ("key_passes", 0.10), ("dribbles", 0.10)])
    case MF => Some([("assists", 0.25), ("key_passes", 0.20), ("pass_accuracy", 0.15),
                     ("tackles", 0.15), ("interceptions", 0.10), ("goals", 0.15)])
    case DF => Some([("tackles", 0.25), ("interceptions", 0.25), ("clearances", 0.20),
                     ("blocks", 0.15), ("aerial_duels", 0.15)])
    case GK => Some([("saves", 0.30), ("clean_sheets", 0.25), ("save_percentage", 0.25),
                     ("distribution", 0.20)])
    case Unknown => None
  }

  /** Every role with a table has positive weights that add up to exactly 1. */
  lemma WeightsSumToOne(r: Role)
    requires PositionWeights(r).Some?
    ensures forall j :: 0 <= j < |PositionWeights(r).value| ==> PositionWeights(r).value[j].1 > 0.0
    ensures TotalWeight(PositionWeights(r).value) == 1.0
  {
    match r
    case FW => SmallTotals(PositionWeights(FW).value);
    case MF => SmallTotals(PositionWeights(MF).value);
    case DF => SmallTotals(PositionWeights(DF).value);
    case GK => SmallTotals(PositionWeights(GK).value);
  }

  // -------------------------------------------------------------- scoring

  /** The score `calculate_position_score` returns: the weighted sum of the
      present metrics divided by their total weight. */
  function PositionScore(row: Row, role: Role): real
  {
    if PositionWeights(role).None? || role == Unknown then 0.0
    else
      var ws := PositionWeights(role).value;
      var tw := PresentWeight(row, ws);
      if tw > 0.0 then WeightedSum(row, ws) / tw else WeightedSum(row, ws)
  }

  /** The loop of `calculate_position_score`: one pass over a weight table,
      accumulating the weighted values and the weights of the metrics whose
      normalized column the row has. */
  method Accumulate(row: Row, weights: WeightTable) returns (score: real, totalWeight: real)
    ensures score == WeightedSum(row, weights)
    ensures totalWeight == PresentWeight(row, weights)
  {
    score := 0.0;
    totalWeight := 0.0;
    var i := 0;
    while i < |weights|
      invariant 0 <= i <= |weights|
      invariant score == WeightedSum(row, weights[..i])
      invariant totalWeight == PresentWeight(row, weights[..i])
    {
      var (metric, weight) := weights[i];
      var metricCol := NormKey(metric);
      PrefixStep(row, weights, i + 1);
      if metricCol in row {
        score := score + row[metricCol] * weight;
        totalWeight := totalWeight + weight;
      }
      i := i + 1;
    }
    assert weights[..|weights|] == weights;
  }

  /** `calculate_position_score`: 0 for an unknown role, otherwise the
      accumulated sum divided by the accumulated weight. */
  method CalculatePositionScore(row: Row, role: Role) returns (score: real)
    ensures score == PositionScore(row, role)
  {
    if PositionWeights(role).None? || role == Unknown {
      return 0.0;
    }
    var totalWeight;
    score, totalWeight := Accumulate(row, PositionWeights(role).value);
    if totalWeight > 0.0 {
      score := score / totalWeight;
    }
  }

  /** Every "_normalized" cell of the row lies in [0, 100]. */
  ghost predicate NormalizedInRange(row: Row)
  {
    forall k :: k in row && StripSuffix(k, "_normalized").Some? ==> 0.0 <= row[k] <= 100.0
  }

  /** With normalized values in [0, 100] the score is a convex combination of
      them and lies in [0, 100]. */
  lemma ScoreInRange(row: Row, role: Role)
    requires NormalizedInRange(row)
    ensures 0.0 <= PositionScore(row, role) <= 100.0
  {
    if PositionWeights(role).Some? && role != Unknown {
      var ws := PositionWeights(role).value;
      WeightsSumToOne(role);
      forall j | 0 <= j < |ws| && Present(row, ws[j].0)
        ensures 0.0 <= row[NormKey(ws[j].0)] <= 100.0
      {
        StripAppended(ws[j].0, "_normalized");
      }
      ConvexSum(row, ws);
      PresentSumsNonNegative(row, ws);
      var tw := PresentWeight(row, ws);
      if tw > 0.0 {
        DivBounds(WeightedSum(row, ws), tw);
      }
    }
  }

  /** Unknown scores 0, and so does a player none of whose role's metrics has
      a normalized column. */
  lemma ScoreZeroCases(row: Row, role: Role)
    requires role == Unknown || (PositionWeights(role).Some? && NonePresent(row, PositionWeights(role).value))
    ensures PositionScore(row, role) == 0.0
  {
    if role != Unknown {
      NonePresentSums(row, PositionWeights(role).value);
    }
  }

  /** A forward whose table lacks `shots_normalized` but has the other five
      metrics is scored on those five: the weight base is 0.85, not 1. */
  lemma ForwardWithoutShots(row: Row)
    requires Present(row, "goals") && Present(row, "assists") && !Present(row, "shots")
    requires Present(row, "shot_accuracy") && Present(row, "key_passes") && Present(row, "dribbles")
    ensures PresentWeight(row, PositionWeights(FW).value) == 0.85
    ensures PositionScore(row, FW) == WeightedSum(row, PositionWeights(FW).value) / 0.85
  {
    SmallPresentWeight(row, PositionWeights(FW).value);
  }

  // -------------------------------------------------------------- normalizing

  /** The `<col>_normalized` column: the null-filled column min-max scaled. */
  function NormalizedColumn(df: Frame, c: string): (xs: seq<real>)
    requires |df.rows| > 0
    ensures |xs| == |df.rows|
  {
    Scaler.ScaleTo100(Filled(df, c))
  }

  /** The loop body of `normalize_stats` for a column c that exists:
      `df[c] = df[c].fillna(0)` on the copy, then the scaled column. */
  function NormalizeStep(df: Frame, acc: Frame, c: string): (g: Frame)
    requires |df.rows| > 0 && |acc.rows| == |df.rows|
    ensures |g.rows| == |df.rows|
    ensures forall i, k :: 0 <= i < |g.rows| ==>
      Cell(g, i, k) == (if k == NormKey(c) then Some(NormalizedColumn(df, c)[i])
                        else if k == c then Some(Filled(df, c)[i])
                        else Cell(acc, i, k))
    ensures forall k :: k in g.columns <==> k == NormKey(c) || k == c || k in acc.columns
  {
    var filled := WithColumn(acc, c, Known(Filled(df, c)));
    WithColumn(filled, NormKey(c), Known(NormalizedColumn(df, c)))
  }

  /** What `normalize_stats` computes after the listed columns `cols` have
      been processed in order: each one that exists in the table is replaced by
      its null-filled version and gets a `_normalized` column; the column
      values are read from the input table. It fails on a table with no rows
      as soon as a listed column exists. */
  function NormalizeSpec(df: Frame, cols: seq<string>): (r: Result<Frame, FrameError>)
    ensures r.Err? <==> |df.rows| == 0 && AnyPresent(df, cols)
    ensures r.Ok? ==> |r.value.rows| == |df.rows|
    decreases |cols|
  {
    if cols == [] then Ok(df)
    else
      var init := cols[..|cols| - 1];
      var c := cols[|cols| - 1];
      assert forall j :: 0 <= j < |init| ==> init[j] == cols[j];
      assert AnyPresent(df, cols) <==> AnyPresent(df, init) || c in df.columns;
      match NormalizeSpec(df, init)
      case Err(e) => Err(e)
      case Ok(acc) =>
        if c !in df.columns then Ok(acc)
        else if |df.rows| == 0 then Err(EmptyColumn(c))
        else Ok(NormalizeStep(df, acc, c))
  }

  /** `normalize_stats(df, columns)`: one pass over the listed columns,
      writing into a copy of the table. */
  method NormalizeStats(df: Frame, columns: seq<string>) returns (r: Result<Frame, FrameError>)
    ensures r == NormalizeSpec(df, columns)
  {
    var normalized := df;
    var i := 0;
    while i < |columns|
      invariant 0 <= i <= |columns|
      invariant NormalizeSpec(df, columns[..i]) == Ok(normalized)
    {
      var col := columns[i];
      assert columns[..i + 1][..i] == columns[..i];
      if col in df.columns {
        if |df.rows| == 0 {
          assert NormalizeSpec(df, columns[..i + 1]) == Err(EmptyColumn(col));
          PrefixError(df, columns, i + 1);
          return Err(EmptyColumn(col));
        }
        normalized := WithColumn(normalized, col, Known(Filled(df, col)));
        normalized := WithColumn(normalized, NormKey(col), Known(NormalizedColumn(df, col)));
        assert normalized == NormalizeStep(df, NormalizeSpec(df, columns[..i]).value, col);
      }
      i := i + 1;
    }
    assert columns[..|columns|] == columns;
    r := Ok(normalized);
  }

  /** Once a prefix of the column list fails, the whole list fails alike. */
  lemma {:induction false} PrefixError(df: Frame, cols: seq<string>, n: int)
    requires 0 <= n <= |cols| && NormalizeSpec(df, cols[..n]).Err?
    ensures NormalizeSpec(df, cols) == NormalizeSpec(df, cols[..n])
    decreases |cols| - n
  {
    if n < |cols| {
      assert cols[..n + 1][..n] == cols[..n];
      PrefixError(df, cols, n + 1);
    } else {
      assert cols[..n] == cols;
    }
  }

  /** No listed column is the `_normalized` name of another listed column;
      otherwise the later of the two writes to that name would win. */
  ghost predicate NoDerivedClash(df: Frame, cols: seq<string>)
  {
    forall c :: c in cols && c in df.columns ==> !(NormKey(c) in cols && NormKey(c) in df.columns)
  }

  /** The cell a normalized table holds, stated without the loop: the
      `_normalized` value of a processed column, the null-filled value of a
      processed column, or else the input cell unchanged. */
  function ExpectedCell(df: Frame, cols: seq<string>, i: nat, k: string): Option<real>
    requires i < |df.rows|
  {
    var b := NormSource(df, cols, k);
    if b.Some? then Some(NormalizedColumn(df, b.value)[i])
    else if k in cols && k in df.columns then Some(Filled(df, k)[i])
    else Cell(df, i, k)
  }

  /** How the expected cells change when one more existing column c is processed. */
  lemma ExpectedStep(df: Frame, cols: seq<string>, i: nat, k: string)
    requires |cols| > 0 && i < |df.rows| && cols[|cols| - 1] in df.columns
    requires NoDerivedClash(df, cols)
    ensures var init, c := cols[..|cols| - 1], cols[|cols| - 1];
      ExpectedCell(df, cols, i, k) ==
        if k == NormKey(c) then Some(NormalizedColumn(df, c)[i])
        else if k == c then Some(Filled(df, c)[i])
        else ExpectedCell(df, init, i, k)
    ensures var init, c := cols[..|cols| - 1], cols[|cols| - 1];
      NormSource(df, cols, k).Some? <==> k == NormKey(c) || NormSource(df, init, k).Some?
  {
    var init, c := cols[..|cols| - 1], cols[|cols| - 1];
    assert forall x :: x in cols <==> x in init || x == c;
    var b := StripSuffix(k, "_normalized");
    StripAppended(c, "_normalized");
    if k == NormKey(c) {
      assert NormSource(df, cols, k) == Some(c);
    } else if k == c {
      assert b.Some? ==> NormKey(b.value) == k;
      assert NormSource(df, cols, k).None?;
    } else {
      assert b.Some? ==> b.value != c;
    }
  }

  /** `normalize_stats` overwrites each processed column with its null-filled
      values, adds its `_normalized` column, and leaves every other cell and
      column as it was. */
  lemma {:induction false} NormalizeCells(df: Frame, cols: seq<string>, i: nat, k: string)
    requires NormalizeSpec(df, cols).Ok? && i < |df.rows|
    requires NoDerivedClash(df, cols)
    ensures Cell(NormalizeSpec(df, cols).value, i, k) == ExpectedCell(df, cols, i, k)
    ensures k in NormalizeSpec(df, cols).value.columns <==> k in df.columns || NormSource(df, cols, k).Some?
    decreases |cols|
  {
    if cols != [] {
      var init, c := cols[..|cols| - 1], cols[|cols| - 1];
      assert NoDerivedClash(df, init) by {
        assert forall x :: x in init ==> x in cols;
      }
      NormalizeCells(df, init, i, k);
      if c in df.columns {
        ExpectedStep(df, cols, i, k);
      } else {
        assert forall x :: x in cols && x in df.columns ==> x in init;
        assert NormSource(df, cols, k) == NormSource(df, init, k);
      }
    }
  }

  // -------------------------------------------------------------- pipeline

  function Categories(pos: seq<Option<string>>): (cats: seq<Role>)
    ensures |cats| == |pos|
  {
    seq(|pos|, i requires 0 <= i < |pos| => IdentifyPosition(pos[i]))
  }

  /** The table `score_players` returns: every numeric column normalized,
      the category, score and rank of each player. */
  function ScoreSpec(pos: seq<Option<string>>, stats: Frame): Result<Scored, FrameError>
    requires |pos| == |stats.rows|
  {
    var cats := Categories(pos);
    match NormalizeSpec(stats, stats.columns)
    case Err(e) => Err(e)
    case Ok(nf) =>
      var scores := seq(|nf.rows|, i requires 0 <= i < |nf.rows| => PositionScore(nf.rows[i], cats[i]));
      Ok(Scored(nf.columns, seq(|nf.rows|, i requires 0 <= i < |nf.rows| =>
        ScoredRow(pos[i], cats[i], nf.rows[i], scores[i], Ranking.RankOf(scores, i)))))
  }

  /** The loop of `score_players` that scores each row for its category. */
  method ScoreRows(rows: seq<Row>, cats: seq<Role>) returns (scores: seq<real>)
    requires |cats| == |rows|
    ensures |scores| == |rows|
    ensures forall j :: 0 <= j < |rows| ==> scores[j] == PositionScore(rows[j], cats[j])
  {
    scores := [];
    var i := 0;
    while i < |rows|
      invariant 0 <= i <= |rows| && |scores| == i
      invariant forall j :: 0 <= j < i ==> scores[j] == PositionScore(rows[j], cats[j])
    {
      var s := CalculatePositionScore(rows[i], cats[i]);
      scores := scores + [s];
      i := i + 1;
    }
  }

  /** `score_players(df)`: adds `Position_Category` to the caller's table in
      place, then normalizes a copy, scores each row and ranks the scores. */
  method ScorePlayers(df: PlayerTable) returns (r: Result<Scored, FrameError>)
    requires df.Valid()
    modifies df
    ensures df.Valid() && df.pos == old(df.pos) && df.stats == old(df.stats)
    ensures df.category == Some(Categories(df.pos))
    ensures r == ScoreSpec(df.pos, df.stats)
  {
    var pos, stats := df.pos, df.stats;
    var cats := Categories(pos);
    df.category := Some(cats);
    var normalized := NormalizeStats(stats, stats.columns);
    if normalized.Err? {
      return Err(normalized.error);
    }
    var nf := normalized.value;
    var scores := ScoreRows(nf.rows, cats);
    assert scores == seq(|nf.rows|, j requires 0 <= j < |nf.rows| => PositionScore(nf.rows[j], cats[j]));
    var ranks := Ranking.Ranks(scores);
    var rows := seq(|nf.rows|, i requires 0 <= i < |nf.rows| =>
      ScoredRow(pos[i], cats[i], nf.rows[i], scores[i], ranks[i]));
    assert rows == ScoreSpec(pos, stats).value.rows;
    r := Ok(Scored(nf.columns, rows));
  }

  /** End to end, on a table none of whose columns already carries a
      `_normalized` name: every score lies in [0, 100], ranks lie in [1, n],
      and an Unknown player scores exactly 0 and ranks last. */
  lemma ScoredTableProperties(pos: seq<Option<string>>, stats: Frame, i: int)
    requires |pos| == |stats.rows| && WellFormed(stats)
    requires forall c :: c in stats.columns ==> StripSuffix(c, "_normalized").None?
    requires ScoreSpec(pos, stats).Ok? && 0 <= i < |stats.rows|
    ensures var rows := ScoreSpec(pos, stats).value.rows;
      |rows| == |pos| && rows[i].category == IdentifyPosition(pos[i]) &&
      0.0 <= rows[i].score <= 100.0 && 1 <= rows[i].rank <= |rows|
    ensures var rows := ScoreSpec(pos, stats).value.rows;
      rows[i].category == Unknown ==>
        rows[i].score == 0.0 && forall j :: 0 <= j < |rows| ==> rows[j].rank <= rows[i].rank
  {
    var cats := Categories(pos);
    var nf := NormalizeSpec(stats, stats.columns).value;
    var scores := seq(|nf.rows|, j requires 0 <= j < |nf.rows| => PositionScore(nf.rows[j], cats[j]));
    assert NoDerivedClash(stats, stats.columns) by {
      forall c | c in stats.columns
        ensures NormKey(c) !in stats.columns
      {
        StripAppended(c, "_normalized");
      }
    }
    forall j | 0 <= j < |nf.rows|
      ensures 0.0 <= scores[j] <= 100.0
    {
      forall k | k in nf.rows[j] && StripSuffix(k, "_normalized").Some?
        ensures 0.0 <= nf.rows[j][k] <= 100.0
      {
        NormalizeCells(stats, stats.columns, j, k);
        var b := StripSuffix(k, "_normalized").value;
        if b in stats.columns {
          Scaler.ScaleRange(Filled(stats, b), j);
        } else {
          assert false;
        }
      }
      ScoreInRange(nf.rows[j], cats[j]);
    }
    Ranking.RankBounds(scores, i);
    if cats[i] == Unknown {
      Ranking.MinimumRanksLast(scores, i);
    }
  }

  // -------------------------------------------------------------- top players

  /** `df_scored[df_scored['Position_Category'] == position]`. */
  function FilterCategory(rows: seq<ScoredRow>, p: string): (r: seq<ScoredRow>)
    ensures |r| <= |rows|
  {
    if rows == [] then []
    else if RoleName(rows[0].category) == p then [rows[0]] + FilterCategory(rows[1..], p)
    else FilterCategory(rows[1..], p)
  }

  /** The filter keeps exactly the rows of the category, each as often as it
      occurs in the table. */
  lemma {:induction false} FilterCount(rows: seq<ScoredRow>, p: string)
    ensures var r := FilterCategory(rows, p);
      forall x :: multiset(r)[x] == if RoleName(x.category) == p then multiset(rows)[x] else 0
    ensures var r := FilterCategory(rows, p);
      (forall x :: x in r ==> x in rows && RoleName(x.category) == p) &&
      (forall x :: x in rows && RoleName(x.category) == p ==> x in r)
    decreases |rows|
  {
    if rows != [] {
      assert rows == [rows[0]] + rows[1..];
      FilterCount(rows[1..], p);
      var r := FilterCategory(rows, p);
      forall x: ScoredRow
        ensures multiset(r)[x] == if RoleName(x.category) == p then multiset(rows)[x] else 0
      {
      }
      forall x | x in r
        ensures x in rows && RoleName(x.category) == p
      {
        assert x in multiset(r);
      }
      forall x | x in rows && RoleName(x.category) == p
        ensures x in r
      {
        assert x in multiset(rows);
        assert multiset(r)[x] > 0;
      }
    }
  }

  /** The filter keeps table order: filtering a concatenation filters each
      part in turn. */
  lemma {:induction false} FilterAppend(a: seq<ScoredRow>, b: seq<ScoredRow>, p: string)
    ensures FilterCategory(a + b, p) == FilterCategory(a, p) + FilterCategory(b, p)
    decreases |a|
  {
    if a == [] {
      assert a + b == b;
    } else {
      assert (a + b)[0] == a[0] && (a + b)[1..] == a[1..] + b;
      FilterAppend(a[1..], b, p);
      var fa, fb := FilterCategory(a[1..], p), FilterCategory(b, p);
      if RoleName(a[0].category) == p {
        assert FilterCategory(a + b, p) == [a[0]] + (fa + fb);
        assert [a[0]] + (fa + fb) == ([a[0]] + fa) + fb;
      } else {
        assert FilterCategory(a + b, p) == fa + fb;
      }
    }
  }

  /** A single row is kept exactly when it has the requested category. */
  lemma FilterSingle(x: ScoredRow, p: string)
    ensures FilterCategory([x], p) == if RoleName(x.category) == p then [x] else []
  {
    assert [x][1..] == [];
  }

  /** The rows `get_top_players` chooses from: all of them, or those of the
      requested category when a (non-empty) position is given. */
  function Candidates(scored: Scored, position: Option<string>): seq<ScoredRow>
  {
    if position.Some? && position.value != "" then FilterCategory(scored.rows, position.value)
    else scored.rows
  }

  /** `get_top_players(df_scored, position, top_n)`: the min(top_n, |candidates|)
      best-scoring candidates in descending score order; each is a candidate,
      of the requested category when one is given, and no candidate left out
      (counting each copy of a duplicate row) scores above one taken. */
  function GetTopPlayers(scored: Scored, position: Option<string>, topN: int): (r: Scored)
    ensures r.columns == scored.columns
    ensures var n := |Candidates(scored, position)|;
      |r.rows| == if topN <= 0 then 0 else if topN < n then topN else n
    ensures position.Some? && position.value != "" ==>
      forall x :: x in r.rows ==> RoleName(x.category) == position.value
    ensures forall i, j :: 0 <= i < j < |r.rows| ==> r.rows[i].score >= r.rows[j].score
    ensures multiset(r.rows) <= multiset(Candidates(scored, position))
    ensures forall x, y ::
      x in r.rows && y in multiset(Candidates(scored, position)) - multiset(r.rows) ==>
      y.score <= x.score
    ensures forall v :: Selection.Tied(r.rows, v) <= Selection.Tied(Candidates(scored, position), v)
  {
    var top := Selection.NLargest(Candidates(scored, position), topN);
    assert position.Some? && position.value != "" ==>
      forall x :: x in Candidates(scored, position) ==> RoleName(x.category) == position.value by {
      if position.Some? && position.value != "" {
        FilterCount(scored.rows, position.value);
      }
    }
    assert forall x :: x in top ==> x in multiset(Candidates(scored, position));
    Scored(scored.columns, top)
  }
}
