/** The grid vocabulary both exporters share: placed cells and merge regions
    in numeric coordinates (0-based columns, 1-based rows; `ColumnLetter`
    turns a column into letters separately), and the three loops the two
    exporters carry in identical copies -- one table's label run, the
    column-name row and the data rows -- each proved against a function
    that specifies it. */
module Layout {
  import opened Wrappers
  import opened DataStore

  /** What a cell holds: header text (an inline string) or a data value. */
  datatype Content = Text(text: string) | Value(value: CellValue)

  /** A cell written at (col, row) with a style id. */
  datatype PlacedCell = PlacedCell(col: nat, row: nat, content: Content, style: nat)

  /** A merge region from (firstCol, firstRow) to (lastCol, lastRow). */
  datatype Merge = Merge(firstCol: nat, firstRow: nat, lastCol: nat, lastRow: nat)

  /** The data type a data cell is written with. */
  datatype CellDataType = Number | Boolean | Date | String

  /** The type test of `CreateTextCell(object)`: the five .NET numeric types
      are numbers, bool a boolean, DateTime a date, everything else (a null,
      replaced by the empty string before the call, and DBNull among them)
      a string. */
  function TypeTag(v: CellValue): (t: CellDataType)
    ensures t == Number <==> (v.Int16Value? || v.Int32Value? || v.Int64Value? || v.DoubleValue? || v.DecimalValue?)
    ensures t == Boolean <==> v.BooleanValue?
    ensures t == Date <==> v.DateTimeValue?
  {
    match v
    case Int16Value(_) => Number
    case Int32Value(_) => Number
    case Int64Value(_) => Number
    case DoubleValue(_) => Number
    case DecimalValue(_) => Number
    case BooleanValue(_) => Boolean
    case DateTimeValue(_) => Date
    case _ => String
  }

  /** string.IsNullOrEmpty. */
  predicate IsNullOrEmpty(s: Option<string>) {
    s.None? || s.value == []
  }

  /** The name a pass from the `NewHeader` label works with on a visit: the
      data set's name on the first, null after the jump back (both
      exporters set it to null before `goto NewHeader`). */
  function NameAt(dataSetName: Option<string>, visit: nat): Option<string> {
    if visit == 0 then dataSetName else None
  }

  /** List.IndexOf: the first position holding x, or -1. */
  function IndexOf(xs: seq<string>, x: string): (i: int)
    ensures -1 <= i < |xs|
    ensures i >= 0 ==> xs[i] == x && forall j :: 0 <= j < i ==> xs[j] != x
    ensures i == -1 ==> forall j :: 0 <= j < |xs| ==> xs[j] != x
  {
    if xs == [] then -1
    else if xs[0] == x then 0
    else var i := IndexOf(xs[1..], x); if i == -1 then -1 else i + 1
  }

  predicate Distinct(xs: seq<string>) {
    forall i, j :: 0 <= i < j < |xs| ==> xs[i] != xs[j]
  }

  /** The columns one table's label run consumes: one per column name, one
      more when the last name repeats an earlier one (the IndexOf test then
      moves past the last label), and one for a table without columns. */
  function Span(columns: seq<string>): (n: nat)
    ensures n >= 1
  {
    if columns == [] then 1
    else |columns| + (if IndexOf(columns, columns[|columns| - 1]) != |columns| - 1 then 1 else 0)
  }

  /** A table with columns whose names are distinct spans exactly its columns. */
  lemma SpanOfDistinct(columns: seq<string>)
    requires columns != [] && Distinct(columns)
    ensures Span(columns) == |columns|
  {
  }

  /** The label cells of one run: the i-th column of the table gets a label
      at the i-th column from the start. */
  function LabelCells(count: nat, text: string, start: nat, rowIndex: nat, style: nat): (cells: seq<PlacedCell>)
  {
    seq(count, j requires 0 <= j < count => PlacedCell(start + j, rowIndex, Text(text), style))
  }

  /** One table's label run (the inner loop of a header pass): the first
      column is taken from the cursor, each label is written at the current
      last column, and the last column moves on unless IndexOf says the
      label's name is the last one. */
  method LabelRun(columns: seq<string>, text: string, cellIndex: nat, rowIndex: nat, style: nat)
    returns (cells: seq<PlacedCell>, clFirst: nat, clLast: nat, nextCellIndex: nat)
    ensures clFirst == cellIndex
    ensures cells == LabelCells(|columns|, text, cellIndex, rowIndex, style)
    ensures clLast == cellIndex + Span(columns) - 1 && nextCellIndex == cellIndex + Span(columns)
  {
    var c := cellIndex;
    clFirst := c;
    c := c + 1;
    clLast := clFirst;
    cells := [];
    for j := 0 to |columns|
      invariant c == clLast + 1
      invariant clLast == clFirst + (if j < |columns| then j else Span(columns) - 1)
      invariant cells == LabelCells(j, text, cellIndex, rowIndex, style)
    {
      cells := cells + [PlacedCell(clLast, rowIndex, Text(text), style)];
      if IndexOf(columns, columns[j]) != |columns| - 1 {
        clLast := c;
        c := c + 1;
      }
    }
    nextCellIndex := c;
  }

  // ---------------------------------------------------------------------
  // One header pass over all tables

  /** The columns consumed by the label runs of all the tables. */
  function SpanTotal(h: seq<HeaderEntry>): nat {
    if h == [] then 0 else SpanTotal(h[..|h| - 1]) + Span(h[|h| - 1].columns)
  }

  /** The number of column names of all the tables. */
  function ColumnCount(h: seq<HeaderEntry>): nat {
    if h == [] then 0 else ColumnCount(h[..|h| - 1]) + |h[|h| - 1].columns|
  }

  /** The label cells of a pass: each table's run starts where the previous
      one ended; a table is labelled with `caption`, or with its own name when
      `caption` is null. */
  function PassCells(h: seq<HeaderEntry>, caption: Option<string>, start: nat, rowIndex: nat, style: nat): (cells: seq<PlacedCell>)
    ensures |cells| == ColumnCount(h)
  {
    if h == [] then []
    else
      var p, t := h[..|h| - 1], h[|h| - 1];
      PassCells(p, caption, start, rowIndex, style) + LabelCells(|t.columns|, caption.GetOr(t.name), start + SpanTotal(p), rowIndex, style)
  }

  /** The single-row merges of a pass, one per table over its run. */
  function TableMerges(h: seq<HeaderEntry>, start: nat, rowIndex: nat): (merges: seq<Merge>)
    ensures |merges| == |h|
  {
    if h == [] then []
    else
      var p, t := h[..|h| - 1], h[|h| - 1];
      TableMerges(p, start, rowIndex) + [Merge(start + SpanTotal(p), rowIndex, start + SpanTotal(p) + Span(t.columns) - 1, rowIndex)]
  }

  /** The first and last column of each table's run, in order (the indexer lists). */
  function RunBounds(h: seq<HeaderEntry>, start: nat): (bounds: seq<nat>)
    ensures |bounds| == 2 * |h|
  {
    if h == [] then []
    else
      var p, t := h[..|h| - 1], h[|h| - 1];
      RunBounds(p, start) + [start + SpanTotal(p), start + SpanTotal(p) + Span(t.columns) - 1]
  }

  /** The column-name row: all the tables' column names in one run from
      `start`, one column per name. */
  function NameRow(h: seq<HeaderEntry>, start: nat, rowIndex: nat, style: nat): (cells: seq<PlacedCell>)
    ensures |cells| == ColumnCount(h)
  {
    if h == [] then []
    else
      var p, t := h[..|h| - 1], h[|h| - 1];
      NameRow(p, start, rowIndex, style)
        + seq(|t.columns|, j requires 0 <= j < |t.columns| => PlacedCell(start + ColumnCount(p) + j, rowIndex, Text(t.columns[j]), style))
  }

  /** Writes the column-name row from the cursor on; returns the cells and
      the advanced cursor. */
  method NameRowCells(h: seq<HeaderEntry>, cellIndex: nat, rowIndex: nat, style: nat)
    returns (cells: seq<PlacedCell>, nextCellIndex: nat)
    ensures cells == NameRow(h, cellIndex, rowIndex, style)
    ensures nextCellIndex == cellIndex + ColumnCount(h)
  {
    var c := cellIndex;
    cells := [];
    for k := 0 to |h|
      invariant c == cellIndex + ColumnCount(h[..k])
      invariant cells == NameRow(h[..k], cellIndex, rowIndex, style)
    {
      var headers := h[k].columns;
      ghost var before := cells;
      for j := 0 to |headers|
        invariant c == cellIndex + ColumnCount(h[..k]) + j
        invariant |cells| == |before| + j
        invariant cells[..|before|] == before
        invariant forall i :: 0 <= i < j ==> cells[|before| + i] == PlacedCell(cellIndex + ColumnCount(h[..k]) + i, rowIndex, Text(headers[i]), style)
      {
        cells := cells + [PlacedCell(c, rowIndex, Text(headers[j]), style)];
        c := c + 1;
      }
      assert h[..k + 1][..k] == h[..k];
      assert cells == NameRow(h[..k + 1], cellIndex, rowIndex, style);
    }
    assert h[..|h|] == h;
    nextCellIndex := c;
  }

  // ---------------------------------------------------------------------
  // Facts about a pass

  lemma PrefixStep(h: seq<HeaderEntry>, k: nat)
    requires k < |h|
    ensures h[..k + 1][..k] == h[..k] && h[..k + 1][k] == h[k]
    ensures SpanTotal(h[..k + 1]) == SpanTotal(h[..k]) + Span(h[k].columns)
    ensures ColumnCount(h[..k + 1]) == ColumnCount(h[..k]) + |h[k].columns|
  {
    assert h[..k + 1][..k] == h[..k];
  }

  /** One more table extends a pass by that table's run. */
  lemma PassCellsStep(h: seq<HeaderEntry>, caption: Option<string>, start: nat, rowIndex: nat, style: nat, k: nat)
    requires k < |h|
    ensures PassCells(h[..k + 1], caption, start, rowIndex, style)
            == PassCells(h[..k], caption, start, rowIndex, style)
               + LabelCells(|h[k].columns|, caption.GetOr(h[k].name), start + SpanTotal(h[..k]), rowIndex, style)
  {
    var q := h[..k + 1];
    assert q[..|q| - 1] == h[..k] && q[|q| - 1] == h[k];
  }

  /** One more table adds the merge over its run. */
  lemma TableMergesStep(h: seq<HeaderEntry>, start: nat, rowIndex: nat, k: nat)
    requires k < |h|
    ensures TableMerges(h[..k + 1], start, rowIndex)
            == TableMerges(h[..k], start, rowIndex)
               + [Merge(start + SpanTotal(h[..k]), rowIndex, start + SpanTotal(h[..k]) + Span(h[k].columns) - 1, rowIndex)]
  {
    var q := h[..k + 1];
    assert q[..|q| - 1] == h[..k] && q[|q| - 1] == h[k];
  }

  /** One more table adds the first and last column of its run. */
  lemma RunBoundsStep(h: seq<HeaderEntry>, start: nat, k: nat)
    requires k < |h|
    ensures RunBounds(h[..k + 1], start)
            == RunBounds(h[..k], start) + [start + SpanTotal(h[..k]), start + SpanTotal(h[..k]) + Span(h[k].columns) - 1]
  {
    var q := h[..k + 1];
    assert q[..|q| - 1] == h[..k] && q[|q| - 1] == h[k];
  }

  /** The body of a header pass's loop for table k: its label run appended
      to the cells, its merge when `merging`, and the first and last column
      of its run appended to the indexer list. */
  method TableLabels(h: seq<HeaderEntry>, k: nat, caption: Option<string>, style: nat, merging: bool, cellIndex: nat, rowIndex: nat,
                     cells: seq<PlacedCell>, merges: seq<Merge>, indexer: seq<nat>, nextCellIndex: nat)
    returns (cells': seq<PlacedCell>, merges': seq<Merge>, indexer': seq<nat>, clFirst: nat, clLast: nat, nextCellIndex': nat)
    requires k < |h|
    requires cells == PassCells(h[..k], caption, cellIndex, rowIndex, style)
    requires merges == if merging then TableMerges(h[..k], cellIndex, rowIndex) else []
    requires indexer == RunBounds(h[..k], cellIndex)
    requires nextCellIndex == cellIndex + SpanTotal(h[..k])
    ensures cells' == PassCells(h[..k + 1], caption, cellIndex, rowIndex, style)
    ensures merges' == if merging then TableMerges(h[..k + 1], cellIndex, rowIndex) else []
    ensures indexer' == RunBounds(h[..k + 1], cellIndex) && indexer' == indexer + [clFirst, clLast]
    ensures nextCellIndex' == cellIndex + SpanTotal(h[..k + 1])
  {
    var run, next;
    run, clFirst, clLast, next := LabelRun(h[k].columns, caption.GetOr(h[k].name), nextCellIndex, rowIndex, style);
    ghost var bound := cellIndex + SpanTotal(h[..k]);
    assert clFirst == bound && clLast == bound + Span(h[k].columns) - 1;
    assert run == LabelCells(|h[k].columns|, caption.GetOr(h[k].name), bound, rowIndex, style);
    PassCellsStep(h, caption, cellIndex, rowIndex, style, k);
    cells' := cells + run;
    merges' := merges;
    if merging {
      TableMergesStep(h, cellIndex, rowIndex, k);
      assert Merge(clFirst, rowIndex, clLast, rowIndex) == Merge(bound, rowIndex, bound + Span(h[k].columns) - 1, rowIndex);
      merges' := merges + [Merge(clFirst, rowIndex, clLast, rowIndex)];
    }
    RunBoundsStep(h, cellIndex, k);
    indexer' := indexer + [clFirst, clLast];
    PrefixStep(h, k);
    nextCellIndex' := next;
  }

  /** Column j of table k sits ColumnCount(h[..k]) + j cells into a pass; its
      label is written SpanTotal(h[..k]) + j columns from the start. */
  lemma {:induction false} PassCellsAt(h: seq<HeaderEntry>, caption: Option<string>, start: nat, rowIndex: nat, style: nat, k: nat, j: nat)
    requires k < |h| && j < |h[k].columns|
    ensures ColumnCount(h[..k]) + j < ColumnCount(h)
    ensures PassCells(h, caption, start, rowIndex, style)[ColumnCount(h[..k]) + j]
            == PlacedCell(start + SpanTotal(h[..k]) + j, rowIndex, Text(caption.GetOr(h[k].name)), style)
    decreases |h|
  {
    var p := h[..|h| - 1];
    if k == |h| - 1 {
      assert h[..k] == p;
    } else {
      assert p[..k] == h[..k] && p[k] == h[k];
      PassCellsAt(p, caption, start, rowIndex, style, k, j);
    }
  }

  /** The same positions in the column-name row hold the column names, one
      column per name. */
  lemma {:induction false} NameRowAt(h: seq<HeaderEntry>, start: nat, rowIndex: nat, style: nat, k: nat, j: nat)
    requires k < |h| && j < |h[k].columns|
    ensures ColumnCount(h[..k]) + j < ColumnCount(h)
    ensures NameRow(h, start, rowIndex, style)[ColumnCount(h[..k]) + j]
            == PlacedCell(start + ColumnCount(h[..k]) + j, rowIndex, Text(h[k].columns[j]), style)
    decreases |h|
  {
    var p := h[..|h| - 1];
    if k == |h| - 1 {
      assert h[..k] == p;
    } else {
      assert p[..k] == h[..k] && p[k] == h[k];
      NameRowAt(p, start, rowIndex, style, k, j);
    }
  }

  /** The label cell of column j of table k in a pass. */
  function LabelCell(h: seq<HeaderEntry>, caption: Option<string>, start: nat, rowIndex: nat, style: nat, k: nat, j: nat): PlacedCell
    requires k < |h|
  {
    PlacedCell(start + SpanTotal(h[..k]) + j, rowIndex, Text(caption.GetOr(h[k].name)), style)
  }

  /** The name cell of column j of table k in the column-name row. */
  function NameCell(h: seq<HeaderEntry>, start: nat, rowIndex: nat, style: nat, k: nat, j: nat): PlacedCell
    requires k < |h| && j < |h[k].columns|
  {
    PlacedCell(start + ColumnCount(h[..k]) + j, rowIndex, Text(h[k].columns[j]), style)
  }

  /** Every (table, column) of a pass has its label cell in the pass. */
  lemma PassCellsHas(h: seq<HeaderEntry>, caption: Option<string>, start: nat, rowIndex: nat, style: nat)
    ensures forall k, j :: 0 <= k < |h| && 0 <= j < |h[k].columns| ==>
              LabelCell(h, caption, start, rowIndex, style, k, j) in PassCells(h, caption, start, rowIndex, style)
  {
    forall k, j | 0 <= k < |h| && 0 <= j < |h[k].columns|
      ensures LabelCell(h, caption, start, rowIndex, style, k, j) in PassCells(h, caption, start, rowIndex, style)
    {
      PassCellsAt(h, caption, start, rowIndex, style, k, j);
    }
  }

  /** Every (table, column) has its name cell in the column-name row. */
  lemma NameRowHas(h: seq<HeaderEntry>, start: nat, rowIndex: nat, style: nat)
    ensures forall k, j :: 0 <= k < |h| && 0 <= j < |h[k].columns| ==>
              NameCell(h, start, rowIndex, style, k, j) in NameRow(h, start, rowIndex, style)
  {
    forall k, j | 0 <= k < |h| && 0 <= j < |h[k].columns|
      ensures NameCell(h, start, rowIndex, style, k, j) in NameRow(h, start, rowIndex, style)
    {
      NameRowAt(h, start, rowIndex, style, k, j);
    }
  }

  /** Every position of a pass belongs to exactly one (table, column). */
  lemma {:induction false} PassPosition(h: seq<HeaderEntry>, i: nat)
    requires i < ColumnCount(h)
    ensures exists k :: 0 <= k < |h| && ColumnCount(h[..k]) <= i < ColumnCount(h[..k]) + |h[k].columns|
    decreases |h|
  {
    var p, t := h[..|h| - 1], h[|h| - 1];
    if i < ColumnCount(p) {
      PassPosition(p, i);
      var k :| 0 <= k < |p| && ColumnCount(p[..k]) <= i < ColumnCount(p[..k]) + |p[k].columns|;
      assert p[..k] == h[..k] && p[k] == h[k];
    } else {
      assert h[..|h| - 1] == p;
    }
  }

  /** The per-table merges of a pass tile the pass: merge k covers table k's
      run, on the pass's row. */
  lemma {:induction false} TableMergesAt(h: seq<HeaderEntry>, start: nat, rowIndex: nat, k: nat)
    requires k < |h|
    ensures TableMerges(h, start, rowIndex)[k]
            == Merge(start + SpanTotal(h[..k]), rowIndex, start + SpanTotal(h[..k + 1]) - 1, rowIndex)
    decreases |h|
  {
    PrefixStep(h, k);
    var p := h[..|h| - 1];
    if k == |h| - 1 {
      assert h[..k] == p;
    } else {
      assert p[..k] == h[..k] && p[k] == h[k] && p[..k + 1] == h[..k + 1];
      TableMergesAt(p, start, rowIndex, k);
    }
  }

  /** The indexer list starts with the first column of the first run and
      ends with the last column of the last run. */
  lemma RunBoundsEnds(h: seq<HeaderEntry>, start: nat)
    requires h != []
    ensures RunBounds(h, start)[0] == start
    ensures RunBounds(h, start)[2 * |h| - 1] == start + SpanTotal(h) - 1
  {
    RunBoundsFirst(h, start);
  }

  lemma {:induction false} RunBoundsFirst(h: seq<HeaderEntry>, start: nat)
    requires h != []
    ensures RunBounds(h, start)[0] == start
    decreases |h|
  {
    var p := h[..|h| - 1];
    if p != [] {
      RunBoundsFirst(p, start);
    }
  }

  /** Every cell of a pass is on the pass's row, with the pass's style. */
  lemma {:induction false} PassCellsShape(h: seq<HeaderEntry>, caption: Option<string>, start: nat, rowIndex: nat, style: nat)
    ensures forall c :: c in PassCells(h, caption, start, rowIndex, style) ==> c.row == rowIndex && c.style == style && c.content.Text?
    decreases |h|
  {
    if h != [] {
      PassCellsShape(h[..|h| - 1], caption, start, rowIndex, style);
    }
  }

  /** Every cell of the column-name row is on that row, with its style. */
  lemma {:induction false} NameRowShape(h: seq<HeaderEntry>, start: nat, rowIndex: nat, style: nat)
    ensures forall c :: c in NameRow(h, start, rowIndex, style) ==> c.row == rowIndex && c.style == style && c.content.Text?
    decreases |h|
  {
    if h != [] {
      NameRowShape(h[..|h| - 1], start, rowIndex, style);
    }
  }

  /** A header is well formed when every table has at least one column and
      its column names are distinct. */
  predicate WellFormed(h: seq<HeaderEntry>) {
    forall k :: 0 <= k < |h| ==> h[k].columns != [] && Distinct(h[k].columns)
  }

  /** For a well-formed header the label runs take exactly one column per
      name, so labels stand directly above the names. */
  lemma {:induction false} SpanTotalWellFormed(h: seq<HeaderEntry>)
    requires WellFormed(h)
    ensures SpanTotal(h) == ColumnCount(h)
    decreases |h|
  {
    if h != [] {
      var p := h[..|h| - 1];
      assert WellFormed(p) by {
        forall k | 0 <= k < |p| ensures p[k].columns != [] && Distinct(p[k].columns) {
          assert p[k] == h[k];
        }
      }
      SpanTotalWellFormed(p);
      SpanOfDistinct(h[|h| - 1].columns);
    }
  }

  /** In a well-formed header the label of every column of every table is
      in the same column as that column's name. */
  lemma LabelsAboveNames(h: seq<HeaderEntry>, caption: Option<string>, start: nat, r1: nat, r2: nat, s1: nat, s2: nat, k: nat, j: nat)
    requires WellFormed(h) && k < |h| && j < |h[k].columns|
    ensures ColumnCount(h[..k]) + j < ColumnCount(h)
    ensures PassCells(h, caption, start, r1, s1)[ColumnCount(h[..k]) + j].col
            == NameRow(h, start, r2, s2)[ColumnCount(h[..k]) + j].col
  {
    PassCellsAt(h, caption, start, r1, s1, k, j);
    NameRowAt(h, start, r2, s2, k, j);
    assert WellFormed(h[..k]) by {
      forall i | 0 <= i < k ensures h[..k][i].columns != [] && Distinct(h[..k][i].columns) {
        assert h[..k][i] == h[i];
      }
    }
    SpanTotalWellFormed(h[..k]);
  }

  /** The cells and merges of a header and the cursors it leaves. */
  datatype HeaderOutcome = HeaderOutcome(cells: seq<PlacedCell>, merges: seq<Merge>, rowIndex: nat, cellIndex: nat)

  // ---------------------------------------------------------------------
  // The data rows

  /** The data cells of one table: row i of the table goes on the i-th row
      below `rowIndex`, its values from column `start` on. */
  function TableRows(rows: seq<seq<CellValue>>, rowIndex: nat, start: nat, style: nat): (cells: seq<PlacedCell>)
  {
    if rows == [] then []
    else
      var p, last := rows[..|rows| - 1], rows[|rows| - 1];
      TableRows(p, rowIndex, start, style) + RowOf(last, rowIndex + |rows|, start, style)
  }

  /** The data cells of one row: value j in column start + j. */
  function RowOf(values: seq<CellValue>, rowIndex: nat, start: nat, style: nat): (cells: seq<PlacedCell>)
    ensures |cells| == |values|
  {
    seq(|values|, j requires 0 <= j < |values| => PlacedCell(start + j, rowIndex, Value(values[j]), style))
  }

  /** The outcome of the data rows: whether they completed, the cells written
      and the cursors left behind, and the start column for the next table. */
  datatype DataOutcome = DataOutcome(ok: bool, cells: seq<PlacedCell>, rowIndex: nat, cellIndex: nat, next: nat)

  /** `AddRows` as a function: every table restarts at the row cursor it was
      given; a table starts at the column where the previous one started plus
      the width of that table's first row; a table without rows fails (its
      first row is null and counting it throws). */
  function DataPass(entries: seq<RowEntry>, rowIndex: nat, initialCellIndex: nat, cellIndex: nat, style: nat): DataOutcome
  {
    if entries == [] then DataOutcome(true, [], rowIndex, cellIndex, initialCellIndex)
    else
      var d := DataPass(entries[..|entries| - 1], rowIndex, initialCellIndex, cellIndex, style);
      var rows := entries[|entries| - 1].rows;
      if !d.ok then d
      else if rows == [] then DataOutcome(false, d.cells, rowIndex, d.cellIndex, d.next)
      else DataOutcome(true, d.cells + TableRows(rows, rowIndex, d.next, style),
                       rowIndex + |rows|, d.next + |rows[|rows| - 1]|, d.next + |rows[0]|)
  }

  /** The innermost loop of `AddRows`: one row's values appended from
      column `start` on. */
  method AppendRow(cells: seq<PlacedCell>, rowData: seq<CellValue>, rowIndex: nat, start: nat, style: nat)
    returns (cells': seq<PlacedCell>, nextCellIndex: nat)
    ensures cells' == cells + RowOf(rowData, rowIndex, start, style)
    ensures nextCellIndex == start + |rowData|
  {
    cells' := cells;
    nextCellIndex := start;
    for j := 0 to |rowData|
      invariant nextCellIndex == start + j
      invariant cells' == cells + RowOf(rowData[..j], rowIndex, start, style)
    {
      assert RowOf(rowData[..j + 1], rowIndex, start, style) == RowOf(rowData[..j], rowIndex, start, style) + [PlacedCell(nextCellIndex, rowIndex, Value(rowData[j]), style)];
      cells' := cells' + [PlacedCell(nextCellIndex, rowIndex, Value(rowData[j]), style)];
      nextCellIndex := nextCellIndex + 1;
    }
    assert rowData[..|rowData|] == rowData;
  }

  /** The middle loop of `AddRows`: one table's rows, each on the next row
      down and each from the table's start column. */
  method AppendTable(cells: seq<PlacedCell>, rows: seq<seq<CellValue>>, rowIndex: nat, start: nat, cellIndex: nat, style: nat)
    returns (cells': seq<PlacedCell>, newRowIndex: nat, newCellIndex: nat)
    ensures cells' == cells + TableRows(rows, rowIndex, start, style)
    ensures newRowIndex == rowIndex + |rows|
    ensures newCellIndex == if rows == [] then cellIndex else start + |rows[|rows| - 1]|
  {
    cells' := cells;
    newRowIndex, newCellIndex := rowIndex, cellIndex;
    for i := 0 to |rows|
      invariant newRowIndex == rowIndex + i
      invariant cells' == cells + TableRows(rows[..i], rowIndex, start, style)
      invariant newCellIndex == if i == 0 then cellIndex else start + |rows[i - 1]|
    {
      var rowData := rows[i];
      newCellIndex := start;
      newRowIndex := newRowIndex + 1;
      assert rows[..i + 1][..i] == rows[..i];
      cells', newCellIndex := AppendRow(cells', rowData, newRowIndex, newCellIndex, style);
    }
    assert rows[..|rows|] == rows;
  }

  /** Writes the data rows of all tables under the header; returns whether
      it completed, the cells, and the row and column cursors. */
  method AddRows(rowDataList: seq<RowEntry>, rowIndex: nat, cellIndex: nat, initialCellIndex: nat, style: nat)
    returns (ok: bool, cells: seq<PlacedCell>, newRowIndex: nat, newCellIndex: nat)
    ensures var d := DataPass(rowDataList, rowIndex, initialCellIndex, cellIndex, style);
            ok == d.ok && cells == d.cells && newRowIndex == d.rowIndex && newCellIndex == d.cellIndex
  {
    var prevRowIndex: nat := rowIndex;
    var prevCellIndex: nat := initialCellIndex;
    newRowIndex, newCellIndex := rowIndex, cellIndex;
    cells := [];
    for k := 0 to |rowDataList|
      invariant DataPass(rowDataList[..k], rowIndex, initialCellIndex, cellIndex, style)
                == DataOutcome(true, cells, newRowIndex, newCellIndex, prevCellIndex)
    {
      assert rowDataList[..k + 1][..k] == rowDataList[..k];
      var rows := rowDataList[k].rows;
      cells, newRowIndex, newCellIndex := AppendTable(cells, rows, prevRowIndex, prevCellIndex, newCellIndex, style);
      if rows == [] {
        // counting the cells of the first row of an empty list throws
        DataPassStops(rowDataList, rowIndex, initialCellIndex, cellIndex, style, k + 1);
        return false, cells, newRowIndex, newCellIndex;
      }
      prevCellIndex := prevCellIndex + |rows[0]|;
    }
    assert rowDataList[..|rowDataList|] == rowDataList;
    return true, cells, newRowIndex, newCellIndex;
  }

  // ---------------------------------------------------------------------
  // Facts about the data rows

  /** Once a table fails, the later tables change nothing. */
  lemma {:induction false} DataPassStops(entries: seq<RowEntry>, rowIndex: nat, initialCellIndex: nat, cellIndex: nat, style: nat, n: nat)
    requires n <= |entries|
    requires !DataPass(entries[..n], rowIndex, initialCellIndex, cellIndex, style).ok
    ensures DataPass(entries, rowIndex, initialCellIndex, cellIndex, style) == DataPass(entries[..n], rowIndex, initialCellIndex, cellIndex, style)
    decreases |entries|
  {
    if n < |entries| {
      var p := entries[..|entries| - 1];
      assert p[..n] == entries[..n];
      DataPassStops(p, rowIndex, initialCellIndex, cellIndex, style, n);
    } else {
      assert entries[..n] == entries;
    }
  }

  /** The sum of the first-row widths of the tables. */
  function FirstWidths(entries: seq<RowEntry>): nat {
    if entries == [] then 0
    else
      var rows := entries[|entries| - 1].rows;
      FirstWidths(entries[..|entries| - 1]) + (if rows == [] then 0 else |rows[0]|)
  }

  /** Every table has at least one row. */
  predicate AllHaveRows(entries: seq<RowEntry>) {
    forall k :: 0 <= k < |entries| ==> entries[k].rows != []
  }

  /** The data rows complete exactly when every table has a row; the next
      table would then start at the initial column plus the first-row widths. */
  lemma {:induction false} DataPassOk(entries: seq<RowEntry>, rowIndex: nat, initialCellIndex: nat, cellIndex: nat, style: nat)
    ensures var d := DataPass(entries, rowIndex, initialCellIndex, cellIndex, style);
            && (d.ok <==> AllHaveRows(entries))
            && (d.ok ==> d.next == initialCellIndex + FirstWidths(entries))
    decreases |entries|
  {
    if entries != [] {
      var p := entries[..|entries| - 1];
      DataPassOk(p, rowIndex, initialCellIndex, cellIndex, style);
      assert forall k :: 0 <= k < |p| ==> p[k] == entries[k];
    }
  }

  /** Cell m of row i of a table's data block holds value m of that row, on
      row rowIndex + 1 + i, in column start + m. */
  lemma {:induction false} TableRowsHas(rows: seq<seq<CellValue>>, rowIndex: nat, start: nat, style: nat, i: nat, m: nat)
    requires i < |rows| && m < |rows[i]|
    ensures PlacedCell(start + m, rowIndex + 1 + i, Value(rows[i][m]), style) in TableRows(rows, rowIndex, start, style)
    decreases |rows|
  {
    var p := rows[..|rows| - 1];
    if i == |rows| - 1 {
      var tail := RowOf(rows[i], rowIndex + |rows|, start, style);
      assert tail[m] == PlacedCell(start + m, rowIndex + 1 + i, Value(rows[i][m]), style);
      assert TableRows(rows, rowIndex, start, style) == TableRows(p, rowIndex, start, style) + tail;
    } else {
      assert p[i] == rows[i];
      TableRowsHas(p, rowIndex, start, style, i, m);
    }
  }

  /** Every cell of a table's data block is value m of some row i, placed as
      above. */
  lemma {:induction false} TableRowsOnly(rows: seq<seq<CellValue>>, rowIndex: nat, start: nat, style: nat, c: PlacedCell)
    requires c in TableRows(rows, rowIndex, start, style)
    ensures exists i, m :: 0 <= i < |rows| && 0 <= m < |rows[i]| && c == PlacedCell(start + m, rowIndex + 1 + i, Value(rows[i][m]), style)
    decreases |rows|
  {
    var p := rows[..|rows| - 1];
    var i := |rows| - 1;
    if c in TableRows(p, rowIndex, start, style) {
      TableRowsOnly(p, rowIndex, start, style, c);
      var i', m :| 0 <= i' < |p| && 0 <= m < |p[i']| && c == PlacedCell(start + m, rowIndex + 1 + i', Value(p[i'][m]), style);
      assert p[i'] == rows[i'];
    } else {
      var tail := RowOf(rows[i], rowIndex + |rows|, start, style);
      assert TableRows(rows, rowIndex, start, style) == TableRows(p, rowIndex, start, style) + tail;
      var m :| 0 <= m < |tail| && tail[m] == c;
    }
  }

  /** The value at (k, i, m) is written in row rowIndex + 1 + i and column
      initialCellIndex + FirstWidths(entries[..k]) + m. */
  predicate PlacedAt(entries: seq<RowEntry>, rowIndex: nat, initialCellIndex: nat, style: nat, c: PlacedCell, k: int, i: int, m: int) {
    && 0 <= k < |entries| && 0 <= i < |entries[k].rows| && 0 <= m < |entries[k].rows[i]|
    && c == PlacedCell(initialCellIndex + FirstWidths(entries[..k]) + m, rowIndex + 1 + i, Value(entries[k].rows[i][m]), style)
  }

  lemma PlacedAtPrefix(entries: seq<RowEntry>, rowIndex: nat, initialCellIndex: nat, style: nat, c: PlacedCell, k: int, i: int, m: int)
    requires entries != [] && 0 <= k < |entries| - 1
    ensures PlacedAt(entries[..|entries| - 1], rowIndex, initialCellIndex, style, c, k, i, m)
            <==> PlacedAt(entries, rowIndex, initialCellIndex, style, c, k, i, m)
  {
    var p := entries[..|entries| - 1];
    assert p[k] == entries[k] && p[..k] == entries[..k];
  }

  /** Every value of every table is written, at its place, when the rows
      complete. */
  lemma {:induction false} DataPassHas(entries: seq<RowEntry>, rowIndex: nat, initialCellIndex: nat, cellIndex: nat, style: nat, c: PlacedCell, k: nat, i: nat, m: nat)
    requires DataPass(entries, rowIndex, initialCellIndex, cellIndex, style).ok
    requires PlacedAt(entries, rowIndex, initialCellIndex, style, c, k, i, m)
    ensures c in DataPass(entries, rowIndex, initialCellIndex, cellIndex, style).cells
    decreases |entries|
  {
    var p, t := entries[..|entries| - 1], entries[|entries| - 1];
    if k < |entries| - 1 {
      PlacedAtPrefix(entries, rowIndex, initialCellIndex, style, c, k, i, m);
      DataPassHas(p, rowIndex, initialCellIndex, cellIndex, style, c, k, i, m);
    } else {
      DataPassOk(p, rowIndex, initialCellIndex, cellIndex, style);
      assert entries[..k] == p;
      TableRowsHas(t.rows, rowIndex, initialCellIndex + FirstWidths(p), style, i, m);
    }
  }

  /** Nothing else is written: every data cell is some value of some table,
      at its place, with the given style. */
  lemma {:induction false} DataPassOnly(entries: seq<RowEntry>, rowIndex: nat, initialCellIndex: nat, cellIndex: nat, style: nat, c: PlacedCell)
    requires DataPass(entries, rowIndex, initialCellIndex, cellIndex, style).ok
    requires c in DataPass(entries, rowIndex, initialCellIndex, cellIndex, style).cells
    ensures exists k, i, m :: PlacedAt(entries, rowIndex, initialCellIndex, style, c, k, i, m)
    decreases |entries|
  {
    var p, t := entries[..|entries| - 1], entries[|entries| - 1];
    var d := DataPass(p, rowIndex, initialCellIndex, cellIndex, style);
    if c in d.cells {
      DataPassOnly(p, rowIndex, initialCellIndex, cellIndex, style, c);
      var k, i, m :| PlacedAt(p, rowIndex, initialCellIndex, style, c, k, i, m);
      PlacedAtPrefix(entries, rowIndex, initialCellIndex, style, c, k, i, m);
    } else {
      DataPassOk(p, rowIndex, initialCellIndex, cellIndex, style);
      var start := initialCellIndex + FirstWidths(p);
      TableRowsOnly(t.rows, rowIndex, start, style, c);
      var i, m :| 0 <= i < |t.rows| && 0 <= m < |t.rows[i]| && c == PlacedCell(start + m, rowIndex + 1 + i, Value(t.rows[i][m]), style);
      assert entries[..|entries| - 1] == p;
      assert PlacedAt(entries, rowIndex, initialCellIndex, style, c, |entries| - 1, i, m);
    }
  }

  /** The rows of table k all have as many values as the table has columns. */
  predicate Rectangular(h: seq<HeaderEntry>, entries: seq<RowEntry>) {
    && |h| == |entries|
    && forall k, i :: 0 <= k < |entries| && 0 <= i < |entries[k].rows| ==> |entries[k].rows[i]| == |h[k].columns|
  }

  /** With rectangular tables that all have rows, table k's data starts in
      the column of table k's first column name, so every value stands under
      its column's name. */
  lemma {:induction false} DataUnderNames(h: seq<HeaderEntry>, entries: seq<RowEntry>, k: nat)
    requires Rectangular(h, entries) && AllHaveRows(entries) && k <= |entries|
    ensures FirstWidths(entries[..k]) == ColumnCount(h[..k])
    decreases k
  {
    if k > 0 {
      DataUnderNames(h, entries, k - 1);
      assert entries[..k][..k - 1] == entries[..k - 1];
      assert h[..k][..k - 1] == h[..k - 1];
      assert entries[..k][k - 1] == entries[k - 1] && h[..k][k - 1] == h[k - 1];
    }
  }

  /** With rectangular tables, completed data rows leave the column cursor
      just past the last table's last column and the row cursor on the last
      table's last row. */
  lemma DataPassEnd(h: seq<HeaderEntry>, entries: seq<RowEntry>, rowIndex: nat, initialCellIndex: nat, cellIndex: nat, style: nat)
    requires Rectangular(h, entries)
    requires DataPass(entries, rowIndex, initialCellIndex, cellIndex, style).ok
    ensures var d := DataPass(entries, rowIndex, initialCellIndex, cellIndex, style);
            && d.cellIndex == (if entries == [] then cellIndex else initialCellIndex + ColumnCount(h))
            && d.rowIndex == (if entries == [] then rowIndex else rowIndex + |entries[|entries| - 1].rows|)
  {
    if entries != [] {
      var n := |entries| - 1;
      var p := entries[..n];
      DataPassOk(entries, rowIndex, initialCellIndex, cellIndex, style);
      DataPassOk(p, rowIndex, initialCellIndex, cellIndex, style);
      DataUnderNames(h, entries, n);
      assert h[..n + 1] == h && entries[..n] == p;
      PrefixStep(h, n);
    }
  }

  // ---------------------------------------------------------------------
  // Data sets the exporters lay out in full

  /** A data set the layout handles without failing: a data set with
      distinct table names, rectangular tables that each have a row, and
      tables whenever it is named. */
  predicate Regular(data: Option<DataSet>) {
    && data.Some?
    && NamesDistinct(data.value.tables)
    && Rectangular(HeaderEntries(data.value.tables), RowEntries(data.value.tables))
    && AllHaveRows(RowEntries(data.value.tables))
    && (!IsNullOrEmpty(data.value.dataSetName) ==> data.value.tables != [])
  }

  /** The number of columns of a data set. */
  function Width(data: Option<DataSet>): nat {
    if data.None? then 0 else ColumnCount(HeaderEntries(data.value.tables))
  }

  /** The columns of the data sets together. */
  function TotalWidth(dataSets: seq<Option<DataSet>>): nat {
    if dataSets == [] then 0 else TotalWidth(dataSets[..|dataSets| - 1]) + Width(dataSets[|dataSets| - 1])
  }
}
