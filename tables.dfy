/**
 * Query results: the ordered column names of a data frame and its rows,
 * each row holding one cell per column. Floating-point cells are not part
 * of this model.
 */
module Tables {
  datatype Cell = BoolCell(b: bool) | IntCell(i: int) | TextCell(s: string) | NullCell

  datatype Table = Table(columns: seq<string>, rows: seq<seq<Cell>>) {
    /** Every row has exactly one cell per column, as in a data frame. */
    predicate Valid() {
      forall r :: r in rows ==> |r| == |columns|
    }
  }

  /** A table whose rows all fit its columns, as every data frame's do. */
  type Frame = t: Table | t.Valid() witness Table([], [])
}
