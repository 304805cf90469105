/** The player table a scorer is handed, and the scored table it produces. */
module Tables {
  import opened Base
  import opened Positions
  import opened Frames

  /** The caller's DataFrame: the `Pos` label column (None is NaN), the
      `Position_Category` column once a scorer has added it, and the numeric
      statistics. */
  class PlayerTable {
    var pos: seq<Option<string>>
    var category: Option<seq<Role>>
    var stats: Frame

    ghost predicate Valid()
      reads this
    {
      |pos| == |stats.rows| && (category.Some? ==> |category.value| == |pos|)
    }

    constructor (pos: seq<Option<string>>, stats: Frame)
      requires |pos| == |stats.rows|
      ensures Valid()
      ensures this.pos == pos && this.stats == stats && category == None
    {
      this.pos := pos;
      this.stats := stats;
      category := None;
    }
  }

  /** One row of a scored table: its label, category, numeric cells
      (raw and normalized), `Overall_Score` and `Rank`. */
  datatype ScoredRow = ScoredRow(pos: Option<string>, category: Role, stats: Row, score: real, rank: nat)

  datatype Scored = Scored(columns: seq<string>, rows: seq<ScoredRow>)
}
