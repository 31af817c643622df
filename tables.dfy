/** The in-memory table the cleaning stages work on: named, typed columns and
    rows of nullable cells, every row as wide as the column list. */
module Tables {
  import opened Wrappers

  /** The dtype families the cleaning rules tell apart: numbers (`int64`,
      `float64`), objects (strings), datetimes, and everything else (`bool`, ...)
      to which no rule applies. */
  datatype Kind = Numeric | Text | DateTime | Other

  datatype Cell = Num(x: real) | Str(s: string) | Stamp(t: int) | Flag(b: bool)

  /** One row; `None` is pandas' null (NaN / None / NaT). */
  type Row = seq<Option<Cell>>

  /** A column: its name, its kind and the dtype name pandas reports for it. */
  datatype Column = Column(name: string, kind: Kind, dtype: string)

  predicate Rect(rows: seq<Row>, width: nat) {
    forall i :: 0 <= i < |rows| ==> |rows[i]| == width
  }

  datatype Frame = Frame(columns: seq<Column>, rows: seq<Row>)

  /** A data frame: aligned rows under the column list. */
  type Table = f: Frame | Rect(f.rows, |f.columns|) witness Frame([], [])

  function Names(cols: seq<Column>): (names: seq<string>)
    ensures |names| == |cols|
    ensures forall k :: 0 <= k < |cols| ==> names[k] == cols[k].name
  {
    seq(|cols|, k requires 0 <= k < |cols| => cols[k].name)
  }

  /** The cells of column `c`, top to bottom. */
  function ColumnCells(rows: seq<Row>, c: nat): (cells: seq<Option<Cell>>)
    requires forall i :: 0 <= i < |rows| ==> c < |rows[i]|
    ensures |cells| == |rows|
    ensures forall i :: 0 <= i < |rows| ==> cells[i] == rows[i][c]
  {
    seq(|rows|, i requires 0 <= i < |rows| => rows[i][c])
  }

  /** Replaces column `c` by `cells`, leaving every other column as it was. */
  function SetColumn(rows: seq<Row>, c: nat, cells: seq<Option<Cell>>): (out: seq<Row>)
    requires forall i :: 0 <= i < |rows| ==> c < |rows[i]|
    requires |cells| == |rows|
    ensures |out| == |rows|
    ensures forall i :: 0 <= i < |rows| ==> |out[i]| == |rows[i]| && out[i] == rows[i][c := cells[i]]
  {
    seq(|rows|, i requires 0 <= i < |rows| => rows[i][c := cells[i]])
  }

  /** Every member of `a` is a member of `b`, so rows taken from a rectangle keep its width. */
  lemma RectOfMembers(a: seq<Row>, b: seq<Row>, width: nat)
    requires Rect(b, width)
    requires forall r :: r in a ==> r in b
    ensures Rect(a, width)
  {
    forall i | 0 <= i < |a| ensures |a[i]| == width {
      assert a[i] in b;
    }
  }
}
