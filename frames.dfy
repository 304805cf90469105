/** An in-memory statistics table. Every column is numeric; a row holds a
    value for a column exactly when the cell is not null (pandas NaN). */
module Frames {
  import opened Base

  type Row = map<string, real>

  /** Normalizing a column of a table with no rows raises in scikit-learn and
      numpy; the error names the column. */
  datatype FrameError = EmptyColumn(column: string)

  datatype Frame = Frame(columns: seq<string>, rows: seq<Row>)

  /** The cell of row i in column k; None is a null cell. */
  function Cell(f: Frame, i: nat, k: string): Option<real>
    requires i < |f.rows|
  {
    if k in f.rows[i] then Some(f.rows[i][k]) else None
  }

  /** `df[c].fillna(0)`: the column with nulls replaced by 0. */
  function Filled(f: Frame, c: string): seq<real>
  {
    seq(|f.rows|, i requires 0 <= i < |f.rows| => if c in f.rows[i] then f.rows[i][c] else 0.0)
  }

  /** `df[k] = vals`: a new column is appended after the existing ones, an
      existing one keeps its place and is overwritten in every row. */
  function WithColumn(f: Frame, k: string, vals: seq<Option<real>>): (g: Frame)
    requires |vals| == |f.rows|
    ensures |g.rows| == |f.rows|
    ensures forall i, j :: 0 <= i < |g.rows| ==> Cell(g, i, j) == if j == k then vals[i] else Cell(f, i, j)
    ensures forall j :: j in g.columns <==> j == k || j in f.columns
  {
    var rows := seq(|f.rows|, i requires 0 <= i < |f.rows| =>
      if vals[i].Some? then f.rows[i][k := vals[i].value] else f.rows[i] - {k});
    Frame(if k in f.columns then f.columns else f.columns + [k], rows)
  }

  /** A column given as plain numbers, with no null cell. */
  function Known(xs: seq<real>): (vals: seq<Option<real>>)
    ensures |vals| == |xs|
    ensures forall i :: 0 <= i < |xs| ==> vals[i] == Some(xs[i])
  {
    seq(|xs|, i requires 0 <= i < |xs| => Some(xs[i]))
  }

  /** Some listed column exists in the table. */
  predicate AnyPresent(df: Frame, cols: seq<string>)
  {
    exists j :: 0 <= j < |cols| && cols[j] in df.columns
  }

  /** Every non-null cell belongs to a column of the table. */
  ghost predicate WellFormed(f: Frame)
  {
    forall i, k :: 0 <= i < |f.rows| && k in f.rows[i] ==> k in f.columns
  }
}
