/** `transform_data`: the six cleaning stages, each a function on rows with the
    properties it guarantees, and the method that runs them the way the
    handler does (column loops for the null fill, the outlier filter and the
    trim). Median and quantile are pandas' and come in as parameters. */
module Transform {
  import opened Wrappers
  import opened Tables
  import opened Seqs
  import Text

  // ---------------------------------------------------------------------------
  // Stage 1: dropna(how='all')

  predicate AllNull(r: Row) {
    forall k :: 0 <= k < |r| ==> r[k].None?
  }

  /** Drops every row whose cells are all null, keeping every copy of the
      others in their order. */
  function DropEmptyRows(rows: seq<Row>): (out: seq<Row>)
    ensures forall r :: r in out <==> r in rows && !AllNull(r)
    ensures forall r :: multiset(out)[r] == if AllNull(r) then 0 else multiset(rows)[r]
    ensures SubseqOf(out, rows)
    decreases |rows|
  {
    if rows == [] then []
    else
      var rest := DropEmptyRows(rows[1..]);
      assert rows == [rows[0]] + rows[1..];
      if AllNull(rows[0]) then rest else [rows[0]] + rest
  }

  /** A table without all-null rows passes stage 1 unchanged. */
  lemma {:induction false} NoEmptyRowsKept(rows: seq<Row>)
    requires forall r :: r in rows ==> !AllNull(r)
    ensures DropEmptyRows(rows) == rows
    decreases |rows|
  {
    if rows != [] {
      assert rows[0] in rows;
      assert forall r :: r in rows[1..] ==> r in rows;
      NoEmptyRowsKept(rows[1..]);
      assert DropEmptyRows(rows) == [rows[0]] + DropEmptyRows(rows[1..]);
    }
  }

  /** Stage 1 is idempotent. */
  lemma DropEmptyRowsIdempotent(rows: seq<Row>)
    ensures DropEmptyRows(DropEmptyRows(rows)) == DropEmptyRows(rows)
  {
    NoEmptyRowsKept(DropEmptyRows(rows));
  }

  // ---------------------------------------------------------------------------
  // Stage 2: drop_duplicates()

  /** Keeps each row not in `seen` the first time it appears. */
  function DedupAfter(rows: seq<Row>, seen: set<Row>): (out: seq<Row>)
    ensures forall r :: r in out <==> r in rows && r !in seen
    ensures Distinct(out)
    ensures SubseqOf(out, rows)
    decreases |rows|
  {
    if rows == [] then []
    else
      assert rows == [rows[0]] + rows[1..];
      if rows[0] in seen then DedupAfter(rows[1..], seen)
      else [rows[0]] + DedupAfter(rows[1..], seen + {rows[0]})
  }

  /** `drop_duplicates()` with its default `keep='first'`. */
  function DropDuplicates(rows: seq<Row>): (out: seq<Row>)
    ensures forall r :: r in out <==> r in rows
    ensures Distinct(out)
    ensures SubseqOf(out, rows)
  {
    DedupAfter(rows, {})
  }

  /** Distinct rows none of which was seen before pass unchanged. */
  lemma {:induction false} DistinctKept(rows: seq<Row>, seen: set<Row>)
    requires Distinct(rows)
    requires forall r :: r in rows ==> r !in seen
    ensures DedupAfter(rows, seen) == rows
    decreases |rows|
  {
    if rows != [] {
      var rest := rows[1..];
      assert forall r :: r in rest ==> r in rows && r != rows[0] by {
        forall r | r in rest ensures r in rows && r != rows[0] {
          var k :| 0 <= k < |rest| && rest[k] == r;
          assert rows[k + 1] == r;
        }
      }
      assert Distinct(rest) by {
        forall a, b | 0 <= a < b < |rest| ensures rest[a] != rest[b] {
          assert rest[a] == rows[a + 1] && rest[b] == rows[b + 1];
        }
      }
      DistinctKept(rest, seen + {rows[0]});
      assert rows == [rows[0]] + rest;
    }
  }

  /** Stage 2 is idempotent. */
  lemma DropDuplicatesIdempotent(rows: seq<Row>)
    ensures DropDuplicates(DropDuplicates(rows)) == DropDuplicates(rows)
  {
    DistinctKept(DropDuplicates(rows), {});
  }

  /** Reference for the rows deduplication keeps: from index `i` on, exactly the
      rows that did not occur earlier, in their original order. */
  function FirstOccurrencesFrom(rows: seq<Row>, i: nat): seq<Row>
    requires i <= |rows|
    decreases |rows| - i
  {
    if i == |rows| then []
    else (if rows[i] in rows[..i] then [] else [rows[i]]) + FirstOccurrencesFrom(rows, i + 1)
  }

  /** The rows seen before index `i`. */
  function SeenBefore(rows: seq<Row>, i: nat): set<Row>
    requires i <= |rows|
  {
    set k | 0 <= k < i :: rows[k]
  }

  lemma {:induction false} DedupAfterIsFirstOccurrences(rows: seq<Row>, i: nat)
    requires i <= |rows|
    ensures DedupAfter(rows[i..], SeenBefore(rows, i)) == FirstOccurrencesFrom(rows, i)
    decreases |rows| - i
  {
    if i < |rows| {
      var seen := SeenBefore(rows, i);
      assert rows[i..][0] == rows[i] && rows[i..][1..] == rows[i + 1..];
      assert rows[i] in seen <==> rows[i] in rows[..i] by {
        if rows[i] in rows[..i] {
          var k :| 0 <= k < i && rows[..i][k] == rows[i];
          assert rows[k] == rows[i];
        }
      }
      if rows[i] in seen {
        assert SeenBefore(rows, i + 1) == seen;
      } else {
        assert SeenBefore(rows, i + 1) == seen + {rows[i]};
      }
      DedupAfterIsFirstOccurrences(rows, i + 1);
    }
  }

  /** Deduplication keeps exactly the first occurrence of every row, in order. */
  lemma DropDuplicatesKeepsFirst(rows: seq<Row>)
    ensures DropDuplicates(rows) == FirstOccurrencesFrom(rows, 0)
  {
    assert rows[0..] == rows;
    assert SeenBefore(rows, 0) == {};
    DedupAfterIsFirstOccurrences(rows, 0);
  }

  /** After stages 1 and 2: no row is all null, no two rows are equal, every
      non-empty input row survives once, and the survivors are the first
      occurrences in their original order. */
  lemma FirstTwoStages(rows: seq<Row>)
    ensures var out := DropDuplicates(DropEmptyRows(rows));
      && (forall r :: r in out <==> r in rows && !AllNull(r))
      && Distinct(out)
      && SubseqOf(out, rows)
      && out == FirstOccurrencesFrom(DropEmptyRows(rows), 0)
  {
    var mid := DropEmptyRows(rows);
    SubseqTrans(DropDuplicates(mid), mid, rows);
    DropDuplicatesKeepsFirst(mid);
  }

  // ---------------------------------------------------------------------------
  // Stage 3: fill nulls by column type

  /** The non-null numbers of a column, top to bottom: what pandas' median and
      quantile see once NaN is skipped. */
  function NumValues(cells: seq<Option<Cell>>): seq<real>
    decreases |cells|
  {
    if cells == [] then []
    else (match cells[0] case Some(Num(x)) => [x] case _ => []) + NumValues(cells[1..])
  }

  /** `fillna(v)`: every null becomes `v`, every other cell stays. */
  function FillNulls(cells: seq<Option<Cell>>, v: Cell): (out: seq<Option<Cell>>)
    ensures |out| == |cells|
    ensures forall i :: 0 <= i < |cells| ==> out[i] == if cells[i].None? then Some(v) else cells[i]
  {
    seq(|cells|, i requires 0 <= i < |cells| => if cells[i].None? then Some(v) else cells[i])
  }

  /** Reference for forward fill: the value of the last non-null cell of `cells`. */
  function LastNonNull(cells: seq<Option<Cell>>): Option<Cell>
    decreases |cells|
  {
    if cells == [] then None
    else if cells[|cells| - 1].Some? then cells[|cells| - 1]
    else LastNonNull(cells[..|cells| - 1])
  }

  /** The last non-null cell is null only when every cell is, and otherwise is
      a non-null cell with only nulls after it. */
  lemma {:induction false} LastNonNullIsLast(cells: seq<Option<Cell>>)
    ensures LastNonNull(cells).None? <==> forall k :: 0 <= k < |cells| ==> cells[k].None?
    ensures LastNonNull(cells).Some? ==>
      exists j :: 0 <= j < |cells| && cells[j] == LastNonNull(cells)
        && forall k :: j < k < |cells| ==> cells[k].None?
    decreases |cells|
  {
    if cells != [] && cells[|cells| - 1].None? {
      var init := cells[..|cells| - 1];
      LastNonNullIsLast(init);
      assert forall k :: 0 <= k < |init| ==> init[k] == cells[k];
    }
  }

  /** `fillna(method='ffill')`: a null takes the value carried from above. */
  function ForwardFill(cells: seq<Option<Cell>>, carried: Option<Cell>): (out: seq<Option<Cell>>)
    ensures |out| == |cells|
    decreases |cells|
  {
    if cells == [] then []
    else
      var v := if cells[0].Some? then cells[0] else carried;
      [v] + ForwardFill(cells[1..], v)
  }

  lemma {:induction false} ForwardFillFrom(cells: seq<Option<Cell>>, k: nat, i: nat)
    requires k <= i < |cells|
    ensures ForwardFill(cells[k..], LastNonNull(cells[..k]))[i - k] == LastNonNull(cells[..i + 1])
    decreases i - k
  {
    var v := LastNonNull(cells[..k + 1]);
    assert cells[..k + 1][..k] == cells[..k];
    assert cells[k..][0] == cells[k] && cells[k..][1..] == cells[k + 1..];
    if i > k {
      ForwardFillFrom(cells, k + 1, i);
    }
  }

  /** Forward fill gives each cell the last non-null value at or above it. */
  lemma ForwardFillIsLastNonNull(cells: seq<Option<Cell>>, i: nat)
    requires i < |cells|
    ensures ForwardFill(cells, None)[i] == LastNonNull(cells[..i + 1])
  {
    var none := cells[..0];
    assert none == [];
    assert LastNonNull(none) == None;
    assert cells[0..] == cells;
    ForwardFillFrom(cells, 0, i);
  }

  /** The fill rule of one column, by its kind: the median of the non-null
      values for numbers (only when a null exists, and a no-op when every value
      is null because the median is then NaN), "Unknown" for objects, forward
      fill for datetimes, nothing for other dtypes. */
  function FillCells(cells: seq<Option<Cell>>, kind: Kind, median: seq<real> -> real): (out: seq<Option<Cell>>)
    ensures |out| == |cells|
    ensures forall i :: 0 <= i < |cells| && cells[i].Some? ==> out[i] == cells[i]
    ensures kind == Text ==> forall i :: 0 <= i < |cells| && cells[i].None? ==> out[i] == Some(Str("Unknown"))
    ensures kind == DateTime ==>
      forall i :: 0 <= i < |cells| && cells[i].None? ==> out[i] == LastNonNull(cells[..i])
    ensures kind == Numeric && None in cells && NumValues(cells) != [] ==>
      forall i :: 0 <= i < |cells| && cells[i].None? ==> out[i] == Some(Num(median(NumValues(cells))))
    ensures (kind == Numeric && (None !in cells || NumValues(cells) == [])) || kind == Other ==> out == cells
  {
    match kind
    case Numeric =>
      if None in cells then
        var vals := NumValues(cells);
        if vals == [] then cells else FillNulls(cells, Num(median(vals)))
      else cells
    case Text => FillNulls(cells, Str("Unknown"))
    case DateTime =>
      if None in cells then
        var out := ForwardFill(cells, None);
        FillByForwardFill(cells);
        out
      else cells
    case Other => cells
  }

  lemma FillByForwardFill(cells: seq<Option<Cell>>)
    ensures forall i :: 0 <= i < |cells| ==>
      ForwardFill(cells, None)[i] == if cells[i].Some? then cells[i] else LastNonNull(cells[..i])
  {
    forall i | 0 <= i < |cells|
      ensures ForwardFill(cells, None)[i] == if cells[i].Some? then cells[i] else LastNonNull(cells[..i])
    {
      ForwardFillIsLastNonNull(cells, i);
      assert cells[..i + 1][..i] == cells[..i];
    }
  }

  /** Stage 3 on the whole table: every column filled by its own rule. */
  function FillAll(rows: seq<Row>, cols: seq<Column>, median: seq<real> -> real): (out: seq<Row>)
    requires Rect(rows, |cols|)
    ensures |out| == |rows| && Rect(out, |cols|)
  {
    seq(|rows|, i requires 0 <= i < |rows| =>
      seq(|cols|, c requires 0 <= c < |cols| => FillCells(ColumnCells(rows, c), cols[c].kind, median)[i]))
  }

  /** The null fill keeps the row count and changes only null cells. */
  lemma FillChangesOnlyNulls(rows: seq<Row>, cols: seq<Column>, median: seq<real> -> real, i: nat, c: nat)
    requires Rect(rows, |cols|) && i < |rows| && c < |cols|
    requires rows[i][c].Some?
    ensures |FillAll(rows, cols, median)| == |rows|
    ensures FillAll(rows, cols, median)[i][c] == rows[i][c]
  {
    assert ColumnCells(rows, c)[i] == rows[i][c];
  }

  // ---------------------------------------------------------------------------
  // Stage 4: IQR outlier removal, numeric columns in order

  /** The indexes of the columns of kind `kind`, in column order (`select_dtypes`). */
  function ColumnsOfKind(cols: seq<Column>, kind: Kind, n: nat): (cs: seq<nat>)
    requires n <= |cols|
    ensures forall k :: 0 <= k < |cs| ==> cs[k] < n && cols[cs[k]].kind == kind
    ensures forall c :: 0 <= c < n && cols[c].kind == kind ==> c in cs
    ensures forall a, b :: 0 <= a < b < |cs| ==> cs[a] < cs[b]
    decreases n
  {
    if n == 0 then []
    else ColumnsOfKind(cols, kind, n - 1) + (if cols[n - 1].kind == kind then [n - 1] else [])
  }

  function NumericColumns(cols: seq<Column>): seq<nat> {
    ColumnsOfKind(cols, Numeric, |cols|)
  }

  datatype Bounds = Bounds(lo: real, hi: real)

  /** [Q1 - 1.5 IQR, Q3 + 1.5 IQR] over the column's non-null values. `None`
      stands for pandas' NaN bounds, which a column with no values gives. */
  function OutlierBounds(rows: seq<Row>, c: nat, quantile: (seq<real>, real) -> real): (b: Option<Bounds>)
    requires forall i :: 0 <= i < |rows| ==> c < |rows[i]|
    ensures b.None? <==> NumValues(ColumnCells(rows, c)) == []
    ensures b.Some? ==>
      var q1 := quantile(NumValues(ColumnCells(rows, c)), 0.25);
      var q3 := quantile(NumValues(ColumnCells(rows, c)), 0.75);
      b.value.hi - b.value.lo == 4.0 * (q3 - q1) && b.value.lo + 1.5 * (q3 - q1) == q1
  {
    var vals := NumValues(ColumnCells(rows, c));
    if vals == [] then None
    else
      var q1 := quantile(vals, 0.25);
      var q3 := quantile(vals, 0.75);
      var iqr := q3 - q1;
      Some(Bounds(q1 - 1.5 * iqr, q3 + 1.5 * iqr))
  }

  /** `lower <= x <= upper`; a null or NaN comparison is false. */
  predicate Within(cell: Option<Cell>, b: Option<Bounds>) {
    match (cell, b)
    case (Some(Num(x)), Some(bd)) => bd.lo <= x <= bd.hi
    case _ => false
  }

  predicate Keeps(r: Row, c: nat, b: Option<Bounds>) {
    c < |r| && Within(r[c], b)
  }

  /** The boolean-mask selection `df[(df[c] >= lo) & (df[c] <= hi)]`. */
  function KeepWithin(rows: seq<Row>, c: nat, b: Option<Bounds>): (out: seq<Row>)
    ensures forall r :: r in out <==> r in rows && Keeps(r, c, b)
    ensures forall r :: multiset(out)[r] == if Keeps(r, c, b) then multiset(rows)[r] else 0
    ensures SubseqOf(out, rows)
    decreases |rows|
  {
    if rows == [] then []
    else
      var rest := KeepWithin(rows[1..], c, b);
      assert rows == [rows[0]] + rows[1..];
      if Keeps(rows[0], c, b) then [rows[0]] + rest else rest
  }

  /** One pass of the loop: bounds computed over the rows still present. */
  function RemoveOutliers(rows: seq<Row>, c: nat, quantile: (seq<real>, real) -> real): seq<Row>
    requires forall i :: 0 <= i < |rows| ==> c < |rows[i]|
  {
    KeepWithin(rows, c, OutlierBounds(rows, c, quantile))
  }

  /** The loop over the numeric columns `cs`, each pass filtering what the
      previous passes left. */
  function RemoveOutliersAll(rows: seq<Row>, w: nat, cs: seq<nat>, quantile: (seq<real>, real) -> real): (out: seq<Row>)
    requires Rect(rows, w)
    requires forall k :: 0 <= k < |cs| ==> cs[k] < w
    ensures Rect(out, w)
    ensures SubseqOf(out, rows)
    decreases |cs|
  {
    if cs == [] then
      SubseqRefl(rows);
      rows
    else
      var prev := RemoveOutliersAll(rows, w, cs[..|cs| - 1], quantile);
      var out := RemoveOutliers(prev, cs[|cs| - 1], quantile);
      RectOfMembers(out, prev, w);
      SubseqTrans(out, prev, rows);
      out
  }

  /** Every row that survives the loop lies, in each numeric column, within that
      column's bounds as computed over the rows the earlier columns left. */
  lemma {:induction false} SurvivorsWithinNarrowedBounds(
    rows: seq<Row>, w: nat, cs: seq<nat>, quantile: (seq<real>, real) -> real, j: nat, r: Row)
    requires Rect(rows, w)
    requires forall k :: 0 <= k < |cs| ==> cs[k] < w
    requires j < |cs| && r in RemoveOutliersAll(rows, w, cs, quantile)
    ensures Keeps(r, cs[j], OutlierBounds(RemoveOutliersAll(rows, w, cs[..j], quantile), cs[j], quantile))
    decreases |cs|
  {
    var n := |cs| - 1;
    LastPassKeeps(rows, w, cs, quantile, r);
    if j < n {
      assert cs[..n][..j] == cs[..j] && cs[..n][j] == cs[j];
      SurvivorsWithinNarrowedBounds(rows, w, cs[..n], quantile, j, r);
    } else {
      assert cs[..j] == cs[..n];
    }
  }

  /** A survivor of the loop survived the earlier passes and lies within the
      bounds of the last one. */
  lemma LastPassKeeps(rows: seq<Row>, w: nat, cs: seq<nat>, quantile: (seq<real>, real) -> real, r: Row)
    requires Rect(rows, w)
    requires forall k :: 0 <= k < |cs| ==> cs[k] < w
    requires cs != [] && r in RemoveOutliersAll(rows, w, cs, quantile)
    ensures var prev := RemoveOutliersAll(rows, w, cs[..|cs| - 1], quantile);
      r in prev && Keeps(r, cs[|cs| - 1], OutlierBounds(prev, cs[|cs| - 1], quantile))
  {
  }

  /** A row of the input survives one pass exactly when it lies within the bounds. */
  lemma RemoveOutliersExactly(rows: seq<Row>, c: nat, quantile: (seq<real>, real) -> real, r: Row)
    requires forall i :: 0 <= i < |rows| ==> c < |rows[i]|
    ensures r in RemoveOutliers(rows, c, quantile) <==> r in rows && Keeps(r, c, OutlierBounds(rows, c, quantile))
  {
  }

  /** A column with no numeric value left gives NaN bounds, and the filter then
      removes every row rather than skipping the column. */
  lemma EmptyColumnRemovesAll(rows: seq<Row>, c: nat, quantile: (seq<real>, real) -> real)
    requires forall i :: 0 <= i < |rows| ==> c < |rows[i]|
    requires NumValues(ColumnCells(rows, c)) == []
    ensures RemoveOutliers(rows, c, quantile) == []
  {
    NanBoundsKeepNothing(rows, c);
  }

  lemma {:induction false} NanBoundsKeepNothing(rows: seq<Row>, c: nat)
    ensures KeepWithin(rows, c, None) == []
    decreases |rows|
  {
    if rows != [] {
      NanBoundsKeepNothing(rows[1..], c);
    }
  }

  // ---------------------------------------------------------------------------
  // Stage 5: strip whitespace in object columns

  /** `.str.strip()` on one cell: strings are stripped, a non-string object becomes NaN. */
  function TrimCell(cell: Option<Cell>): (out: Option<Cell>)
    ensures cell.Some? && cell.value.Str? ==> out == Some(Str(Text.Strip(cell.value.s)))
    ensures !(cell.Some? && cell.value.Str?) ==> out.None?
  {
    match cell
    case Some(Str(s)) => Some(Str(Text.Strip(s)))
    case Some(_) => None
    case None => None
  }

  /** The `AttributeError` pandas raises when `.str` is used on a column whose
      values are not strings. */
  const StrAccessorMessage: string := "Can only use .str accessor with string values!"

  /** Two values pandas' type inference puts in the same family. */
  predicate SameFamily(a: Cell, b: Cell) {
    (a.Num? && b.Num?) || (a.Str? && b.Str?) || (a.Stamp? && b.Stamp?) || (a.Flag? && b.Flag?)
  }

  /** pandas refuses `.str` on a column whose non-null values are all of one
      non-string family (only booleans, only numbers, only timestamps). An
      all-null column, a column holding strings, and a mix of families are
      accepted. */
  predicate StrAccessorRejects(cells: seq<Option<Cell>>): (b: bool)
    ensures b ==> exists i :: 0 <= i < |cells| && cells[i].Some?
    ensures b ==> forall j :: 0 <= j < |cells| && cells[j].Some? ==> !cells[j].value.Str?
  {
    exists i :: 0 <= i < |cells| && cells[i].Some? && !cells[i].value.Str? &&
      forall j :: 0 <= j < |cells| && cells[j].Some? ==> SameFamily(cells[j].value, cells[i].value)
  }

  /** A column holding a string is never refused. */
  lemma StringsAccepted(cells: seq<Option<Cell>>, i: nat)
    requires i < |cells| && cells[i].Some? && cells[i].value.Str?
    ensures !StrAccessorRejects(cells)
  {
    forall k | 0 <= k < |cells| && cells[k].Some? && !cells[k].value.Str?
      ensures !forall j :: 0 <= j < |cells| && cells[j].Some? ==> SameFamily(cells[j].value, cells[k].value)
    {
      assert !SameFamily(cells[i].value, cells[k].value);
    }
  }

  /** The trim loop raises when some object column is refused by `.str`. */
  predicate TrimRaises(rows: seq<Row>, cols: seq<Column>)
    requires Rect(rows, |cols|)
  {
    exists c :: 0 <= c < |cols| && cols[c].kind == Text && StrAccessorRejects(ColumnCells(rows, c))
  }

  /** Stage 5 on the whole table: object columns trimmed, the others untouched. */
  function TrimAll(rows: seq<Row>, cols: seq<Column>): (out: seq<Row>)
    requires Rect(rows, |cols|)
    ensures |out| == |rows| && Rect(out, |cols|)
  {
    seq(|rows|, i requires 0 <= i < |rows| =>
      seq(|cols|, c requires 0 <= c < |cols| =>
        if cols[c].kind == Text then TrimCell(rows[i][c]) else rows[i][c]))
  }

  /** After the trim each string of an object column is its `strip()`, so none
      starts or ends with whitespace; nulls and non-strings there are null;
      the cells of other columns are unchanged. */
  lemma TrimmedCells(rows: seq<Row>, cols: seq<Column>, i: nat, c: nat)
    requires Rect(rows, |cols|) && i < |rows| && c < |cols|
    ensures var cell := TrimAll(rows, cols)[i][c];
      if cols[c].kind == Text then
        && (rows[i][c].Some? && rows[i][c].value.Str? ==> cell == Some(Str(Text.Strip(rows[i][c].value.s))))
        && (!(rows[i][c].Some? && rows[i][c].value.Str?) ==> cell.None?)
        && (cell.Some? ==>
              cell.value.Str? && (cell.value.s == [] ||
                (!Text.IsSpace(cell.value.s[0]) && !Text.IsSpace(cell.value.s[|cell.value.s| - 1]))))
      else cell == rows[i][c]
  {
  }

  /** Trimming a trimmed table changes nothing. */
  lemma TrimAllIdempotent(rows: seq<Row>, cols: seq<Column>)
    requires Rect(rows, |cols|)
    ensures TrimAll(TrimAll(rows, cols), cols) == TrimAll(rows, cols)
  {
    var once := TrimAll(rows, cols);
    var twice := TrimAll(once, cols);
    forall i | 0 <= i < |rows| ensures twice[i] == once[i] {
      forall c | 0 <= c < |cols| ensures twice[i][c] == once[i][c] {
        if cols[c].kind == Text && rows[i][c].Some? && rows[i][c].value.Str? {
          Text.StripIdempotent(rows[i][c].value.s);
        }
      }
    }
  }

  // ---------------------------------------------------------------------------
  // Stage 6: provenance columns

  const ProcessedAtColumn: string := "_processed_at"
  const SourceFileColumn: string := "_source_file"
  const SourceTag: string := "uploaded"

  /** `df[name] = v` with a scalar string: overwrites every column called `name`,
      or appends one when there is none; the column then holds objects. */
  function AssignColumn(t: Table, name: string, v: Cell): (r: Table)
    ensures |r.rows| == |t.rows|
    ensures name in Names(r.columns)
    ensures |r.columns| == if name in Names(t.columns) then |t.columns| else |t.columns| + 1
    ensures forall k :: 0 <= k < |r.columns| && r.columns[k].name == name ==>
      r.columns[k] == Column(name, Text, "object") &&
      forall i :: 0 <= i < |r.rows| ==> r.rows[i][k] == Some(v)
    ensures forall k :: 0 <= k < |t.columns| && t.columns[k].name != name ==>
      r.columns[k] == t.columns[k] &&
      forall i :: 0 <= i < |r.rows| ==> r.rows[i][k] == t.rows[i][k]
    ensures forall k :: |t.columns| <= k < |r.columns| ==> r.columns[k].name == name
  {
    var cols := t.columns;
    var col := Column(name, Text, "object");
    if name in Names(cols) then
      var k :| 0 <= k < |cols| && Names(cols)[k] == name;
      var out := Frame(
        seq(|cols|, k requires 0 <= k < |cols| => if cols[k].name == name then col else cols[k]),
        seq(|t.rows|, i requires 0 <= i < |t.rows| =>
          seq(|cols|, k requires 0 <= k < |cols| => if cols[k].name == name then Some(v) else t.rows[i][k])));
      assert Names(out.columns)[k] == name;
      out
    else
      var out := Frame(cols + [col], seq(|t.rows|, i requires 0 <= i < |t.rows| => t.rows[i] + [Some(v)]));
      assert Names(out.columns)[|cols|] == name;
      out
  }

  /** Stage 6: the capture time and the fixed source tag. */
  function AddProvenance(t: Table, processedAt: string): Table {
    AssignColumn(AssignColumn(t, ProcessedAtColumn, Str(processedAt)), SourceFileColumn, Str(SourceTag))
  }

  /** Every output row carries the capture time and the tag "uploaded" under the
      two provenance names, every other column is kept with its cells, and on a
      frame without those names the two columns are appended, in that order. */
  lemma ProvenanceColumns(t: Table, processedAt: string)
    ensures var r := AddProvenance(t, processedAt);
      && |r.rows| == |t.rows|
      && ProcessedAtColumn in Names(r.columns) && SourceFileColumn in Names(r.columns)
      && (forall k :: 0 <= k < |r.columns| && r.columns[k].name == ProcessedAtColumn ==>
            forall i :: 0 <= i < |r.rows| ==> r.rows[i][k] == Some(Str(processedAt)))
      && (forall k :: 0 <= k < |r.columns| && r.columns[k].name == SourceFileColumn ==>
            forall i :: 0 <= i < |r.rows| ==> r.rows[i][k] == Some(Str(SourceTag)))
      && (forall k :: (0 <= k < |t.columns| && t.columns[k].name != ProcessedAtColumn &&
                       t.columns[k].name != SourceFileColumn) ==>
            r.columns[k] == t.columns[k] && forall i :: 0 <= i < |r.rows| ==> r.rows[i][k] == t.rows[i][k])
  {
    var a := AssignColumn(t, ProcessedAtColumn, Str(processedAt));
    var r := AssignColumn(a, SourceFileColumn, Str(SourceTag));
    assert ProcessedAtColumn != SourceFileColumn;
    assert |a.columns| <= |r.columns|;
    var k0 :| 0 <= k0 < |a.columns| && Names(a.columns)[k0] == ProcessedAtColumn;
    assert r.columns[k0] == a.columns[k0];
  }

  /** Every column called `name` is an object column holding `v` in every row. */
  ghost predicate Holds(t: Table, name: string, v: Cell) {
    && name in Names(t.columns)
    && forall k :: 0 <= k < |t.columns| && t.columns[k].name == name ==>
         t.columns[k] == Column(name, Text, "object") && forall i :: 0 <= i < |t.rows| ==> t.rows[i][k] == Some(v)
  }

  /** Assigning a value a frame already holds under that name changes nothing. */
  lemma AssignAgain(t: Table, name: string, v: Cell)
    requires Holds(t, name, v)
    ensures AssignColumn(t, name, v) == t
  {
    var r := AssignColumn(t, name, v);
    assert r.columns == t.columns;
    forall i | 0 <= i < |t.rows| ensures r.rows[i] == t.rows[i] {
      assert |r.rows[i]| == |t.rows[i]|;
    }
  }

  /** Assigning one name keeps what another name holds. */
  lemma AssignKeepsOther(t: Table, name: string, v: Cell, other: string, w: Cell)
    requires name != other && Holds(t, other, w)
    ensures Holds(AssignColumn(t, name, v), other, w)
  {
    var r := AssignColumn(t, name, v);
    var k0 :| 0 <= k0 < |t.columns| && Names(t.columns)[k0] == other;
    assert Names(r.columns)[k0] == other;
  }

  /** Stage 6 with the same capture time is idempotent. */
  lemma AddProvenanceIdempotent(t: Table, processedAt: string)
    ensures AddProvenance(AddProvenance(t, processedAt), processedAt) == AddProvenance(t, processedAt)
  {
    var a := AssignColumn(t, ProcessedAtColumn, Str(processedAt));
    var r := AssignColumn(a, SourceFileColumn, Str(SourceTag));
    assert ProcessedAtColumn != SourceFileColumn;
    AssignKeepsOther(a, SourceFileColumn, Str(SourceTag), ProcessedAtColumn, Str(processedAt));
    AssignAgain(r, ProcessedAtColumn, Str(processedAt));
    AssignAgain(r, SourceFileColumn, Str(SourceTag));
  }

  /** On a frame without the provenance names, the output is the input with the
      two columns appended, in that order. */
  lemma ProvenanceAppended(t: Table, processedAt: string)
    requires ProcessedAtColumn !in Names(t.columns) && SourceFileColumn !in Names(t.columns)
    ensures var r := AddProvenance(t, processedAt);
      && r.columns == t.columns + [Column(ProcessedAtColumn, Text, "object"), Column(SourceFileColumn, Text, "object")]
      && forall i :: 0 <= i < |t.rows| ==> r.rows[i] == t.rows[i] + [Some(Str(processedAt)), Some(Str(SourceTag))]
  {
    var a := AssignColumn(t, ProcessedAtColumn, Str(processedAt));
    var r := AssignColumn(a, SourceFileColumn, Str(SourceTag));
    var n := |t.columns|;
    assert ProcessedAtColumn != SourceFileColumn;
    assert a.columns[n].name == ProcessedAtColumn by {
      var k :| 0 <= k < |a.columns| && Names(a.columns)[k] == ProcessedAtColumn;
      assert k == n;
    }
    forall k | 0 <= k < n ensures a.columns[k].name != SourceFileColumn {
      assert Names(t.columns)[k] != SourceFileColumn;
    }
    assert SourceFileColumn !in Names(a.columns);
    assert r.columns[n + 1].name == SourceFileColumn by {
      var k :| 0 <= k < |r.columns| && Names(r.columns)[k] == SourceFileColumn;
      assert k == n + 1;
    }
    forall i | 0 <= i < |t.rows|
      ensures r.rows[i] == t.rows[i] + [Some(Str(processedAt)), Some(Str(SourceTag))]
    {
      forall k | 0 <= k < n ensures r.rows[i][k] == t.rows[i][k] {
        assert Names(t.columns)[k] != ProcessedAtColumn && Names(t.columns)[k] != SourceFileColumn;
      }
    }
    forall k | 0 <= k < n ensures r.columns[k] == t.columns[k] {
      assert Names(t.columns)[k] != ProcessedAtColumn && Names(t.columns)[k] != SourceFileColumn;
    }
  }

  // ---------------------------------------------------------------------------
  // The whole transform

  /** The rows after stages 1 to 4: no more than the input has. */
  function Kept(df: Table, median: seq<real> -> real, quantile: (seq<real>, real) -> real): (rows: seq<Row>)
    ensures Rect(rows, |df.columns|)
    ensures |rows| <= |df.rows|
  {
    var w := |df.columns|;
    var nonEmpty := DropEmptyRows(df.rows);
    RectOfMembers(nonEmpty, df.rows, w);
    var unique := DropDuplicates(nonEmpty);
    RectOfMembers(unique, nonEmpty, w);
    var filled := FillAll(unique, df.columns, median);
    var kept := RemoveOutliersAll(filled, w, NumericColumns(df.columns), quantile);
    SubseqLength(nonEmpty, df.rows);
    SubseqLength(unique, nonEmpty);
    SubseqLength(kept, filled);
    kept
  }

  /** What `transform_data` returns or raises: the six stages in order, where
      the trim raises when `.str` refuses one of the object columns. */
  function Transformed(df: Table, processedAt: string, median: seq<real> -> real,
                       quantile: (seq<real>, real) -> real): (r: Result<Table, string>)
    ensures r.Err? <==> TrimRaises(Kept(df, median, quantile), df.columns)
    ensures r.Err? ==> r.error == StrAccessorMessage
  {
    var kept := Kept(df, median, quantile);
    if TrimRaises(kept, df.columns) then Err(StrAccessorMessage)
    else Ok(AddProvenance(Frame(df.columns, TrimAll(kept, df.columns)), processedAt))
  }

  /** A cleaned frame has no more rows than the input, carries both
      provenance columns, and, when the input has neither name, its columns
      are the input's followed by the two. */
  lemma TransformedShape(df: Table, processedAt: string, median: seq<real> -> real,
                         quantile: (seq<real>, real) -> real)
    ensures var r := Transformed(df, processedAt, median, quantile);
      r.Ok? ==>
        && |r.value.rows| <= |df.rows|
        && ProcessedAtColumn in Names(r.value.columns) && SourceFileColumn in Names(r.value.columns)
        && (ProcessedAtColumn !in Names(df.columns) && SourceFileColumn !in Names(df.columns) ==>
              r.value.columns == df.columns + [Column(ProcessedAtColumn, Text, "object"), Column(SourceFileColumn, Text, "object")])
  {
    var kept := Kept(df, median, quantile);
    if !TrimRaises(kept, df.columns) {
      var mid: Table := Frame(df.columns, TrimAll(kept, df.columns));
      ProvenanceColumns(mid, processedAt);
      if ProcessedAtColumn !in Names(df.columns) && SourceFileColumn !in Names(df.columns) {
        ProvenanceAppended(mid, processedAt);
      }
    }
  }

  /** The fill stage as the handler runs it: a loop over the columns, each
      column's nulls filled according to its kind. */
  method FillColumns(rows0: seq<Row>, cols: seq<Column>, median: seq<real> -> real) returns (rows: seq<Row>)
    requires Rect(rows0, |cols|)
    ensures rows == FillAll(rows0, cols, median)
  {
    var w := |cols|;
    rows := rows0;
    var c := 0;
    while c < w
      invariant 0 <= c <= w
      invariant |rows| == |rows0| && Rect(rows, w)
      invariant forall i, k :: 0 <= i < |rows| && 0 <= k < w ==>
        rows[i][k] == if k < c then FillCells(ColumnCells(rows0, k), cols[k].kind, median)[i] else rows0[i][k]
    {
      assert ColumnCells(rows, c) == ColumnCells(rows0, c);
      rows := SetColumn(rows, c, FillCells(ColumnCells(rows, c), cols[c].kind, median));
      c := c + 1;
    }
    var f := FillAll(rows0, cols, median);
    forall i | 0 <= i < |rows| ensures rows[i] == f[i] {
      assert forall k :: 0 <= k < w ==> rows[i][k] == f[i][k];
    }
  }

  /** The loop over the first `j + 1` columns is one more pass after the loop
      over the first `j`. */
  lemma OneMorePass(rows: seq<Row>, w: nat, cs: seq<nat>, quantile: (seq<real>, real) -> real, j: nat)
    requires Rect(rows, w)
    requires forall k :: 0 <= k < |cs| ==> cs[k] < w
    requires j < |cs|
    ensures var prev := RemoveOutliersAll(rows, w, cs[..j], quantile);
      && Rect(prev, w)
      && RemoveOutliersAll(rows, w, cs[..j + 1], quantile) == RemoveOutliers(prev, cs[j], quantile)
  {
    assert cs[..j + 1][..j] == cs[..j];
  }

  /** The outlier stage as the handler runs it: a loop over the numeric columns
      in column order, each one filtering the frame the previous ones left. */
  method RemoveOutlierRows(rows0: seq<Row>, cols: seq<Column>, quantile: (seq<real>, real) -> real)
    returns (rows: seq<Row>)
    requires Rect(rows0, |cols|)
    ensures rows == RemoveOutliersAll(rows0, |cols|, NumericColumns(cols), quantile)
  {
    var numeric := NumericColumns(cols);
    rows := rows0;
    var j := 0;
    while j < |numeric|
      invariant 0 <= j <= |numeric|
      invariant rows == RemoveOutliersAll(rows0, |cols|, numeric[..j], quantile)
    {
      OneMorePass(rows0, |cols|, numeric, quantile, j);
      rows := RemoveOutliers(rows, numeric[j], quantile);
      j := j + 1;
    }
    assert numeric[..j] == numeric;
  }

  /** The trim stage as the handler runs it: a loop over the object columns,
      raising at the first one `.str` refuses. */
  method TrimColumns(rows0: seq<Row>, cols: seq<Column>) returns (r: Result<seq<Row>, string>)
    requires Rect(rows0, |cols|)
    ensures r == if TrimRaises(rows0, cols) then Err(StrAccessorMessage) else Ok(TrimAll(rows0, cols))
  {
    var w := |cols|;
    var texts := ColumnsOfKind(cols, Text, w);
    var rows := rows0;
    var j := 0;
    while j < |texts|
      invariant 0 <= j <= |texts|
      invariant |rows| == |rows0| && Rect(rows, w)
      invariant forall i, k :: 0 <= i < |rows| && 0 <= k < w ==>
        rows[i][k] == if k in texts[..j] then TrimCell(rows0[i][k]) else rows0[i][k]
      invariant forall m :: 0 <= m < j ==> !StrAccessorRejects(ColumnCells(rows0, texts[m]))
    {
      var t := texts[j];
      assert t !in texts[..j];
      assert ColumnCells(rows, t) == ColumnCells(rows0, t);
      if StrAccessorRejects(ColumnCells(rows, t)) {
        assert cols[t].kind == Text && StrAccessorRejects(ColumnCells(rows0, t));
        assert TrimRaises(rows0, cols);
        return Err(StrAccessorMessage);
      }
      assert texts[..j + 1] == texts[..j] + [t];
      rows := SetColumn(rows, t, seq(|rows|, i requires 0 <= i < |rows| => TrimCell(rows[i][t])));
      j := j + 1;
    }
    assert texts[..j] == texts;
    forall k | 0 <= k < w ensures k in texts <==> cols[k].kind == Text {
      if k in texts {
        var m :| 0 <= m < |texts| && texts[m] == k;
      }
    }
    forall c | 0 <= c < w && cols[c].kind == Text ensures !StrAccessorRejects(ColumnCells(rows0, c)) {
      var m :| 0 <= m < |texts| && texts[m] == c;
    }
    assert !TrimRaises(rows0, cols);
    var f := TrimAll(rows0, cols);
    forall i | 0 <= i < |rows| ensures rows[i] == f[i] {
      assert forall k :: 0 <= k < w ==> rows[i][k] == f[i][k];
    }
    assert rows == f;
    r := Ok(rows);
  }

  /** `transform_data(df)`: the stages in the handler's order, the working frame
      reassigned after each. */
  method TransformData(df: Table, processedAt: string, median: seq<real> -> real,
                       quantile: (seq<real>, real) -> real) returns (out: Result<Table, string>)
    ensures out == Transformed(df, processedAt, median, quantile)
  {
    var cols := df.columns;
    var rows := DropEmptyRows(df.rows);
    RectOfMembers(rows, df.rows, |cols|);
    var unique := DropDuplicates(rows);
    RectOfMembers(unique, rows, |cols|);
    rows := FillColumns(unique, cols, median);
    rows := RemoveOutlierRows(rows, cols, quantile);
    assert rows == Kept(df, median, quantile);
    var trimmed := TrimColumns(rows, cols);
    if trimmed.Err? {
      return Err(trimmed.error);
    }
    out := Ok(AddProvenance(Frame(cols, trimmed.value), processedAt));
  }
}
