# Football scouting scorers, modelled in Dafny

This project models the scoring core of a football scouting system, plus the ID
allocator of its amateur-league data entry. The scoring core rates players
from a table of match statistics.

- **Basic scorer** (`PlayerScorer`):
  - Classifies each player's position label into GK, FW, MF, DF or Unknown by keyword search.
  - Min-max scales every numeric column to [0, 100] in a new `<col>_normalized` column.
  - Scores each player as the weighted average of their role's normalized metrics, using only the metrics the table has.
  - Ranks the scores with ties sharing the lowest rank.
  - `get_top_players` picks the n best players, optionally of one category.
- **Advanced scorer** (`AdvancedScorer`):
  - Adds "SS" and "SW" to the keyword sets and tries defenders before midfielders.
  - Adds per-90-minute rates when a minutes column exists.
  - Clips each column to mean ± 3 standard deviations before scaling; a constant column becomes 50.
  - Uses signed weights: a negative weight penalizes. The weighted average is re-centred on 50 and clipped to [0, 100].
- **Amateur player database** (`AmateurDataEntry`):
  - Derives the next `P…`/`M…` ID from the string maximum of the existing IDs: its number plus one, `%03d`-formatted.
  - `add_player` writes the ID and the creation date into the caller's record and appends that record as a row.

How the model represents things:

- A table is `Frames.Frame`: column names plus one `map<string, real>` per row. A row without a key holds a null cell there.
- All the frame's columns are numeric. The `Pos` labels are kept beside it as `seq<Option<string>>`.
- The caller's DataFrame, which `score_players` changes in place by adding `Position_Category`, is the class `Tables.PlayerTable`.
- The loops over the rows of the normalized table, over columns and over a weight table are methods. Each is proved equal to a specification function, and the properties are lemmas about those functions.
- Three loops are functions:
  - the search for the minutes column (`MinutesColumn`);
  - the `any(...)` keyword tests of `identify_position` (the recursive predicate `Text.AnyFrom`);
  - the row-wise `df['Pos'].apply(identify_position)` (`Categories`).

Python and pandas behaviour modelled explicitly:

- Per-90 division follows pandas float rules:
  - a null operand gives null;
  - `x / 0` with `x ≠ 0` is ±inf, which is replaced by 0;
  - `0 / 0` gives null.
- Scaling a column of a table with no rows raises in the code. That case is an `Err(EmptyColumn(c))` result.
- `Series.max()` on string IDs is lexicographic order, so "P999" sorts above "P1000".
  - The maximum of an ID column holding a null raises, because the null cannot be compared with a string. That case is `Err(NullId)`.
- `int(...)` on ASCII text is modelled as follows:
  - the white space it strips is ASCII 9–13 and 28–32;
  - one optional sign;
  - digit groups joined by single underscores.
- `%03d` pads to three characters, counting the sign, and never truncates.

## Model

| member | source | states |
|---|---|---|
| PlayerScorer.IdentifyPosition | src/analysis/player_scorer.py:61-79 | A role other than Unknown is returned only for a label whose upper-cased text holds one of that role's keywords. No role tried before it (GK, then FW, MF, DF) has a keyword in the label. A null label is Unknown. |
| PlayerScorer.IdentifyTwoRoles | src/analysis/player_scorer.py:70-75 | "DF,MF" is a midfielder, because midfield is tried before defence. |
| PlayerScorer.IdentifyLowerCase | src/analysis/player_scorer.py:68-73 | Labels are upper-cased first: "cdm" is MF, "st" is FW, "Gk" is GK. |
| PlayerScorer.IdentifyDefender | src/analysis/player_scorer.py:65-77 | "CB" is a defender and a null label is Unknown. |
| PlayerScorer.WeightsSumToOne | src/analysis/player_scorer.py:12-42 | Every role's weights are positive and add up to exactly 1. |
| PlayerScorer.Accumulate | src/analysis/player_scorer.py:92-98 | The loop yields the weighted sum of the present normalized metrics and the total weight of those metrics. |
| PlayerScorer.CalculatePositionScore | src/analysis/player_scorer.py:81-104 | The result is the specified score: 0 for Unknown; otherwise the weighted sum divided by the present weight when that weight is positive. |
| PlayerScorer.ScoreInRange | src/analysis/player_scorer.py:92-102 | With normalized values in [0, 100], every score lies in [0, 100]: it is a convex combination of them. |
| PlayerScorer.ScoreZeroCases | src/analysis/player_scorer.py:85-86 | Unknown scores 0, and so does a player none of whose role's metrics has a normalized column. |
| PlayerScorer.ForwardWithoutShots | src/analysis/player_scorer.py:92-102 | A forward missing only `shots_normalized` is scored over a weight base of 0.85 instead of 1. |
| PlayerScorer.NormalizeStats | src/analysis/player_scorer.py:44-59 | The loop yields the specified table. It fails exactly when the table has no rows and some listed column exists. |
| PlayerScorer.NormalizeCells | src/analysis/player_scorer.py:51-57 | When no listed column is the `_normalized` name of another listed column: in the result, each processed column holds its null-filled values and its `_normalized` column holds the scaled values. Every other cell and column is unchanged. |
| PlayerScorer.ScoreRows | src/analysis/player_scorer.py:120-123 | Each row gets the score of its own category. |
| PlayerScorer.ScorePlayers | src/analysis/player_scorer.py:106-128 | The caller's table gains the category column and is otherwise unchanged. The result is the normalized table with category, score and rank for each player. |
| PlayerScorer.ScoredTableProperties | src/analysis/player_scorer.py:106-128 | For any table whose columns do not already end in `_normalized`: each player keeps their category, scores within [0, 100] and ranks within [1, n]. An Unknown player scores 0 and ranks last. |
| PlayerScorer.FilterCount | src/analysis/player_scorer.py:134-135 | The filter keeps exactly the rows of the requested category, each as many times as it occurs in the table. |
| PlayerScorer.FilterAppend | src/analysis/player_scorer.py:135 | The filter keeps table order: filtering a concatenation filters each part in turn. |
| PlayerScorer.FilterSingle | src/analysis/player_scorer.py:135 | A single row is kept exactly when it has the requested category. |
| PlayerScorer.GetTopPlayers | src/analysis/player_scorer.py:130-139 | Returns min(top_n, candidates) rows, none for top_n ≤ 0. The rows are in descending score order and drawn from the candidates, which are of the requested category when one is given. No candidate left out scores above one taken, counting duplicates: every copy of a row that is not taken (the multiset difference) scores no higher than each row taken. Among candidates with equal scores, the earliest in table order are the ones taken (`keep='first'`). |
| Selection.Insert | src/analysis/player_scorer.py:139 | Inserting into a descending sequence keeps it descending, and the result is a permutation of the old rows plus the new one. |
| Selection.SortDesc | src/analysis/player_scorer.py:139 | Sorting by descending score gives a permutation of the rows. |
| Selection.InsertStable | src/analysis/player_scorer.py:139 | An inserted row goes ahead of the rows it ties with. |
| Selection.SortStable | src/analysis/player_scorer.py:139 | Sorting is stable: the rows of any one score keep their table order. |
| Selection.TiedPrefix | src/analysis/player_scorer.py:139 | Cutting a sequence keeps, for each score, the earliest of its rows. |
| Selection.NLargest | src/analysis/player_scorer.py:139 | `nlargest(n)` returns min(n, len) rows in descending order, drawn from the input. No row left out scores above a row taken, counting duplicates: every copy not taken (the multiset difference of input and result) scores no higher than each row taken. For each score, the rows taken are the earliest of that score in the input, in input order. |
| Selection.DuplicatesTaken | src/analysis/player_scorer.py:139 | A row that occurs twice and outscores the only other row is taken twice by `nlargest(2)`. |
| Scaler.ScaleRange | src/analysis/player_scorer.py:48-57 | Min-max scaling to (0, 100) puts every value in [0, 100]. |
| Scaler.ScaleMinIsZero | src/analysis/player_scorer.py:48-57 | The column minimum scales to 0. |
| Scaler.ScaleMaxIsHundred | src/analysis/player_scorer.py:48-57 | A column's maximum scales to 100 when the column is not constant. |
| Scaler.ScaleConstantIsZero | src/analysis/player_scorer.py:48-57 | A constant column scales to 0, as the scaler does for a zero range. |
| Scaler.ScaleMonotone | src/analysis/player_scorer.py:48-57 | Scaling preserves the order of values, and strict order as well. |
| Scaler.ScaleExample | src/analysis/player_scorer.py:48-57 | [1, 5, 10] scales to [0, 400/9, 100]. |
| Ranking.RankBounds | src/analysis/player_scorer.py:126 | A descending "min" rank lies in [1, n]. |
| Ranking.RankOrder | src/analysis/player_scorer.py:126 | Equal scores share a rank, and a score is strictly higher exactly when its rank is strictly better. |
| Ranking.MinimumRanksLast | src/analysis/player_scorer.py:126 | A lowest score has the largest rank. |
| Ranking.RankExamples | src/analysis/player_scorer.py:126 | [90, 90, 80] ranks [1, 1, 3]; [7, 7, 7, 5] ranks [1, 1, 1, 4]. |
| AdvancedScorer.IdentifyPosition | src/analysis/advanced_scorer.py:55-77 | A role other than Unknown is returned only for a label holding one of its keywords. No role tried before it (GK, then FW, DF, MF) has a keyword in the label. A null label is Unknown. |
| AdvancedScorer.IdentifyTwoRoles | src/analysis/advanced_scorer.py:69-75 | "dF,mf" is a defender, because defence is tried before midfield. |
| AdvancedScorer.IdentifyWingBack | src/analysis/advanced_scorer.py:65-67 | "rwb" is a forward (it holds "RW"), and so is "SS". |
| AdvancedScorer.AbsWeightsSumToOne | src/analysis/advanced_scorer.py:16-51 | Every role's weights are nonzero and their absolute values add up to exactly 1. |
| AdvancedScorer.Accumulate | src/analysis/advanced_scorer.py:132-137 | The loop yields the signed weighted sum and the total absolute weight of the present metrics. |
| AdvancedScorer.CalculatePositionScore | src/analysis/advanced_scorer.py:123-143 | The result is the specified score: 0 for Unknown; otherwise the average re-centred on 50 and clipped, when the weight base is positive. |
| AdvancedScorer.ZeroBaseNonePresent | src/analysis/advanced_scorer.py:139-143 | A zero weight base happens only when no metric is present, and then the raw sum returned is 0. |
| AdvancedScorer.ScoreInRange | src/analysis/advanced_scorer.py:123-143 | Every score lies in [0, 100], whatever the row holds. |
| AdvancedScorer.ScoreZeroCases | src/analysis/advanced_scorer.py:125-126 | Unknown scores 0, and so does a player with none of their role's metrics. |
| AdvancedScorer.NeutralScore | src/analysis/advanced_scorer.py:139-141 | A player with some metric present, all present values 0, scores 50. |
| AdvancedScorer.FullBase | src/analysis/advanced_scorer.py:132-137 | With all metrics present the weight base is 1. |
| AdvancedScorer.Saturation | src/analysis/advanced_scorer.py:139-141 | An average of at least 0.5 gives 100, at most −0.5 gives 0, and anything between maps linearly. |
| AdvancedScorer.ForwardSaturates | src/analysis/advanced_scorer.py:139-141 | A forward with every metric and a weighted sum of at least 0.5 scores 100. |
| AdvancedScorer.MinutesColumn | src/analysis/advanced_scorer.py:83-87 | The minutes column found is the first of Min, Minutes, 90s, MP that the table has. None is found only when the table has none of them. |
| AdvancedScorer.Per90Cell | src/analysis/advanced_scorer.py:97-99 | A rate is null on a null operand. Otherwise it is the quotient; for a zero divisor it is 0 when the numerator is nonzero and null when it is 0. |
| AdvancedScorer.Nineties | src/analysis/advanced_scorer.py:91 | Each nineties value times 90 gives the minutes, and a null stays null. |
| AdvancedScorer.WithMinutes | src/analysis/advanced_scorer.py:89-91 | Adds `Minutes_Played` (a copy of the minutes column) and `90s_Played`, leaving every other cell unchanged. |
| AdvancedScorer.CalculatePer90Stats | src/analysis/advanced_scorer.py:79-103 | The method yields the specified table. |
| AdvancedScorer.AddPer90Columns | src/analysis/advanced_scorer.py:93-101 | The loop adds a rate column for every numeric column of the table. |
| AdvancedScorer.Per90Source | src/analysis/advanced_scorer.py:94-97 | Identifies the unique non-skipped column a `<col>_per90` name comes from. |
| AdvancedScorer.Per90Cells | src/analysis/advanced_scorer.py:89-101 | Each result cell is one of: the rate for a `_per90` column; the minutes or nineties for the two added columns; otherwise the input cell. |
| AdvancedScorer.NoMinutesUnchanged | src/analysis/advanced_scorer.py:89 | A table with no minutes column is returned unchanged. |
| AdvancedScorer.Clipped | src/analysis/advanced_scorer.py:111-114 | Every clipped value lies within mean ± 3 standard deviations. A value inside that band is unchanged, and a value outside it goes to the nearer bound. |
| AdvancedScorer.NormalizeRange | src/analysis/advanced_scorer.py:111-119 | Normalized values lie in [0, 100], and a constant clipped column is 50. |
| AdvancedScorer.NormalizeMonotone | src/analysis/advanced_scorer.py:111-119 | Normalizing preserves the order of values. |
| AdvancedScorer.NormalizeEnds | src/analysis/advanced_scorer.py:111-117 | The clipped minimum goes to 0 and the clipped maximum to 100. Any value at least 3 standard deviations above the mean goes to 100. |
| AdvancedScorer.NormalizeStats | src/analysis/advanced_scorer.py:105-121 | The loop yields the specified table. It fails exactly when the table has no rows and some listed column exists. |
| AdvancedScorer.NormalizeCells | src/analysis/advanced_scorer.py:109-119 | Each processed column gains its `_normalized` column, and every other cell and column is unchanged. |
| AdvancedScorer.ScoreRows | src/analysis/advanced_scorer.py:159-162 | Each row gets the score of its own category. |
| AdvancedScorer.ScorePlayers | src/analysis/advanced_scorer.py:145-169 | The caller's table gains the category column and is otherwise unchanged. The result is the per-90, normalized, scored and ranked table. |
| AdvancedScorer.ScoredTableProperties | src/analysis/advanced_scorer.py:145-169 | For any table whose columns do not already end in `_normalized`: each player keeps their category, scores within [0, 100] and ranks within [1, n]. An Unknown player scores 0 and ranks last. |
| Variants.MidfieldSetsAgree | src/analysis/advanced_scorer.py:73 | The extra midfield keywords "CDM" and "CAM" accept no label the basic set rejects. |
| Variants.ClassifiersAgreeUnlessAmbiguous | src/analysis/advanced_scorer.py:55-77 | The two classifiers disagree only on a label holding "SS" or "SW", or holding both a defender's and a midfielder's keyword. |
| Variants.TwoRolesDiffer | src/analysis/advanced_scorer.py:69-75 | "DF,MF" is MF to the basic classifier and DF to the advanced one. |
| Variants.SecondStrikerDiffers | src/analysis/advanced_scorer.py:65 | "SS" is Unknown to the basic classifier and FW to the advanced one. |
| AmateurDataEntry.LexMax | amateur_data_entry.py:43 | The maximum ID is one of the IDs and no ID sorts above it. |
| AmateurDataEntry.LexTotal | amateur_data_entry.py:43 | String order is total. |
| AmateurDataEntry.LexTrans | amateur_data_entry.py:43 | String order is transitive. |
| AmateurDataEntry.LexAntisym | amateur_data_entry.py:43 | String order is antisymmetric. |
| AmateurDataEntry.ParseDigitString | amateur_data_entry.py:44 | `int` of a non-empty digit string is its decimal value. |
| AmateurDataEntry.FormatParse | amateur_data_entry.py:44-45 | `int` of the `%03d` text of any integer gives that integer back. |
| AmateurDataEntry.Format03 | amateur_data_entry.py:45 | Numbers 0 to 999 give exactly three characters; 1000 and above give more. |
| AmateurDataEntry.NextId | amateur_data_entry.py:40-45 | An empty table gives `P001`. A null ID is an error. A success is the prefix followed by at least three characters. |
| AmateurDataEntry.LexIsNumeric | amateur_data_entry.py:43-44 | For IDs of the form letter plus three digits, string order is numeric order. |
| AmateurDataEntry.NextIdFresh | amateur_data_entry.py:40-45 | While all IDs are well formed and below 999, the next ID is well formed, numerically above every existing one, and not taken. |
| AmateurDataEntry.ThousandSortsFirst | amateur_data_entry.py:43 | "P1000" sorts below "P999". |
| AmateurDataEntry.OverflowDuplicates | amateur_data_entry.py:40-45 | After "P999" the next ID is "P1000". With "P1000" already present the next ID is "P1000" again: the ID is duplicated. |
| AmateurDataEntry.AmateurPlayerDatabase.AddPlayer | amateur_data_entry.py:37-51 | Returns the derived ID. On success it writes the ID and the date into the caller's record and appends that record as the last player row. On failure nothing changes. The match table never changes. |
| AmateurDataEntry.AmateurPlayerDatabase.NextMatchId | amateur_data_entry.py:55-61 | An empty match table gives `M001`. While every match ID is `M` plus three digits below 999, the new ID has the same form and no existing match row carries it. |
| AmateurDataEntry.AddedRowIsFresh | amateur_data_entry.py:40-49 | With well-formed IDs below 999, no existing player row carries the ID just added. |

## Left out

- Reading and writing the CSV files, creating the data directory and the Streamlit import are not modelled. The tables the database holds are fields in memory.
- The date comes from the system clock in the code. Here it is the parameter `today`.
- The `print` calls, the warning filter and the unused KMeans/PCA imports are left out.
- The `__main__` blocks of both scorers are left out.
- Floating point is real arithmetic here. NaN is a null cell: an input null, or a per-90 `0 / 0`. ±inf from the per-90 division is replaced by 0, as in the code.
- The model reads a null `_normalized` cell as a missing metric. In pandas the column exists, so the NaN enters the sum and the score is NaN. Only the advanced scorer can meet such a cell: it must come from an input column that already ends in `_normalized`, since the columns `normalize_stats` writes are never null and the basic scorer null-fills every numeric column it normalizes.
- `np.std` is passed to the advanced scorer as the function `stdOf`, because a square root is not computable in the model. Only its non-negativity is used.
- `str.upper()` is modelled for ASCII letters only. `int()` accepts only ASCII digits and ASCII white space, not other Unicode digits or spaces.
- The caller's table is reduced to the `Pos` labels and the numeric columns. Other text columns are not carried. A table without `Pos` (a `KeyError` in the code) is not modelled.
- `select_dtypes(include=number)` is the frame's column list, since every frame column is numeric. `pd.to_numeric(errors='coerce')` is the identity for the same reason.
- A null ID in a non-empty table is modelled as the error `NullId`, since the string maximum cannot compare it.
- A non-string ID value is not modelled.
- `add_match_stats` past the ID derivation (line 63 onwards) is not part of this model; only `NextMatchId` is.
- In the code, an empty table with a present numeric column makes the scaler raise; here that is the error path.
- The `MinMaxScaler` object that the advanced scorer keeps in `self.scaler` is refit for every column. Since nothing reads it in between, the model scales each column afresh.
- PlayerScorer.ScoredTableProperties: stated only for tables whose columns do not already end in `_normalized`. Such a column `x_normalized` is written twice: once with x's scaled values and once with its own null-filled values. Whichever pass comes later in column order wins. When `x_normalized` comes after x, it keeps its own raw values, and a score can then leave [0, 100].
- PlayerScorer.NormalizeCells: stated only when no listed, existing column is the `_normalized` name of another listed, existing column. In that case the two writes to the derived name described above would clash.
- AmateurDataEntry.NextIdFresh: freshness is stated only for well-formed IDs below 999. Past that point the code repeats IDs, as AmateurDataEntry.OverflowDuplicates shows.
- AdvancedScorer.Per90Cells: stated only for tables none of whose columns already ends in `_per90`. Such a column would be overwritten by the rate of its source.
- AdvancedScorer.ScoredTableProperties: stated only for tables whose columns do not already end in `_normalized`. A null cell in such a column would make the source's score and rank NaN, while the model skips the metric.
- PlayerScorer.GetTopPlayers: the source's defaults `position=None` and `top_n=10` are not modelled. Callers pass both; `None` means no category filter.
