/** `DynamicDataIntoExcel`: lays several data sets out on one sheet.  The
    cursors are passed by reference between the steps; every header cell gets
    the fixed Alignment style, every data cell the default style, and a named
    data set always gets a merge across all its tables, even a single one.
    Exceptions are not caught: a failure ends the whole export. */
module DynamicExport {
  import opened Wrappers
  import opened DataStore
  import opened Styles
  import opened Layout

  /** The style of every header cell (Alignment). */
  const HeaderStyle: nat := Alignment.Id()

  /** The style of every data cell (the default of `CreateTextCell(object)`). */
  const DataStyle: nat := Default.Id()

  /** `ApplyHeader` as a function.  The first pass starts at `cellIndex`,
      later rows at `initialCellIndex`.  A non-empty name labels every
      column, gets one merge from the first run's first column to the last
      run's last column and is followed by a pass labelled with the table
      names; a null or empty name labels with the name itself or, for null,
      with the table names, and merges each table's run.  The column names
      follow on the next row.  With a non-empty name and no tables, taking
      the first of the empty indexer list throws. */
  function DynamicHeader(h: seq<HeaderEntry>, dataSetName: Option<string>, rowIndex: nat, cellIndex: nat, initialCellIndex: nat): Result<HeaderOutcome, Exception>
  {
    if IsNullOrEmpty(dataSetName) then
      Success(HeaderOutcome(
        PassCells(h, dataSetName, cellIndex, rowIndex, HeaderStyle) + NameRow(h, initialCellIndex, rowIndex + 1, HeaderStyle),
        TableMerges(h, cellIndex, rowIndex),
        rowIndex + 1, initialCellIndex + ColumnCount(h)))
    else if h == [] then Failure(EmptySequence)
    else
      Success(HeaderOutcome(
        PassCells(h, dataSetName, cellIndex, rowIndex, HeaderStyle)
          + PassCells(h, None, initialCellIndex, rowIndex + 1, HeaderStyle)
          + NameRow(h, initialCellIndex, rowIndex + 2, HeaderStyle),
        [Merge(cellIndex, rowIndex, cellIndex + SpanTotal(h) - 1, rowIndex)] + TableMerges(h, initialCellIndex, rowIndex + 1),
        rowIndex + 2, initialCellIndex + ColumnCount(h)))
  }

  /** One pass over the tables (the `foreach` after the label `NewHeader`):
      a label run per table, a merge per run when the caption is null or
      empty, and the first and last column of every run for the indexer. */
  method HeaderPass(h: seq<HeaderEntry>, caption: Option<string>, rowIndex: nat, cellIndex: nat)
    returns (cells: seq<PlacedCell>, merges: seq<Merge>, indexer: seq<nat>, nextCellIndex: nat)
    ensures cells == PassCells(h, caption, cellIndex, rowIndex, HeaderStyle)
    ensures merges == if IsNullOrEmpty(caption) then TableMerges(h, cellIndex, rowIndex) else []
    ensures indexer == RunBounds(h, cellIndex)
    ensures nextCellIndex == cellIndex + SpanTotal(h)
  {
    cells, merges, indexer := [], [], [];
    nextCellIndex := cellIndex;
    for k := 0 to |h|
      invariant cells == PassCells(h[..k], caption, cellIndex, rowIndex, HeaderStyle)
      invariant merges == if IsNullOrEmpty(caption) then TableMerges(h[..k], cellIndex, rowIndex) else []
      invariant indexer == RunBounds(h[..k], cellIndex)
      invariant nextCellIndex == cellIndex + SpanTotal(h[..k])
    {
      var clFirst, clLast;
      cells, merges, indexer, clFirst, clLast, nextCellIndex :=
        TableLabels(h, k, caption, HeaderStyle, IsNullOrEmpty(caption), cellIndex, rowIndex, cells, merges, indexer, nextCellIndex);
    }
    assert h[..|h|] == h;
  }

  /** The state at the label `NewHeader` on visit 0 (entry) and visit 1
      (after the jump back that follows a non-empty name): the cells and
      merges so far and the row and column cursors. */
  ghost function DynamicAt(h: seq<HeaderEntry>, dataSetName: Option<string>, rowIndex: nat, cellIndex: nat, initialCellIndex: nat, visit: nat): HeaderOutcome
    requires visit != 0 ==> h != []
  {
    if visit == 0 then HeaderOutcome([], [], rowIndex, cellIndex)
    else HeaderOutcome(PassCells(h, dataSetName, cellIndex, rowIndex, HeaderStyle),
                       [Merge(cellIndex, rowIndex, cellIndex + SpanTotal(h) - 1, rowIndex)], rowIndex + 1, initialCellIndex)
  }

  /** A pass whose name is null or empty ends the passes: with the name row
      after it, the outcome is the one `DynamicHeader` describes. */
  lemma DynamicPassEnds(h: seq<HeaderEntry>, dataSetName: Option<string>, rowIndex: nat, cellIndex: nat, initialCellIndex: nat, visit: nat,
                        cells: seq<PlacedCell>, merges: seq<Merge>, row: nat)
    requires visit <= 1
    requires visit == 1 ==> !IsNullOrEmpty(dataSetName) && h != []
    requires IsNullOrEmpty(NameAt(dataSetName, visit))
    requires var s := DynamicAt(h, dataSetName, rowIndex, cellIndex, initialCellIndex, visit);
             && cells == s.cells + PassCells(h, NameAt(dataSetName, visit), s.cellIndex, s.rowIndex, HeaderStyle)
             && merges == s.merges + TableMerges(h, s.cellIndex, s.rowIndex)
             && row == s.rowIndex
    ensures DynamicHeader(h, dataSetName, rowIndex, cellIndex, initialCellIndex)
            == Success(HeaderOutcome(cells + NameRow(h, initialCellIndex, row + 1, HeaderStyle), merges, row + 1, initialCellIndex + ColumnCount(h)))
  {
    if visit == 0 {
      assert cells == PassCells(h, dataSetName, cellIndex, rowIndex, HeaderStyle);
      assert merges == TableMerges(h, cellIndex, rowIndex);
    }
  }

  /** A pass with a non-empty name jumps back: with no tables the indexer
      list is empty and `DynamicHeader` fails; otherwise the merge from its
      first to its last entry spans the whole pass, and the state is the one
      of the second visit. */
  lemma DynamicPassJumps(h: seq<HeaderEntry>, dataSetName: Option<string>, rowIndex: nat, cellIndex: nat, initialCellIndex: nat,
                         cells: seq<PlacedCell>, merges: seq<Merge>, indexer: seq<nat>)
    requires !IsNullOrEmpty(dataSetName)
    requires cells == PassCells(h, dataSetName, cellIndex, rowIndex, HeaderStyle) && merges == [] && indexer == RunBounds(h, cellIndex)
    ensures h == [] <==> indexer == []
    ensures h == [] ==> DynamicHeader(h, dataSetName, rowIndex, cellIndex, initialCellIndex) == Failure(EmptySequence)
    ensures h != [] ==> HeaderOutcome(cells, merges + [Merge(indexer[0], rowIndex, indexer[|indexer| - 1], rowIndex)], rowIndex + 1, initialCellIndex)
                        == DynamicAt(h, dataSetName, rowIndex, cellIndex, initialCellIndex, 1)
  {
    if h != [] {
      RunBoundsEnds(h, cellIndex);
    }
  }

  /** The end of `ApplyHeader` once a pass did not jump back: one row down,
      back at the initial column, the column-name row. */
  method NameRowAfterPasses(h: seq<HeaderEntry>, dataSetName: Option<string>, rowIndex: nat, cellIndex: nat, initialCellIndex: nat, ghost visit: nat,
                            cells: seq<PlacedCell>, merges: seq<Merge>, row: nat)
    returns (r: Result<HeaderOutcome, Exception>)
    requires visit <= 1
    requires visit == 1 ==> !IsNullOrEmpty(dataSetName) && h != []
    requires IsNullOrEmpty(NameAt(dataSetName, visit))
    requires var s := DynamicAt(h, dataSetName, rowIndex, cellIndex, initialCellIndex, visit);
             && cells == s.cells + PassCells(h, NameAt(dataSetName, visit), s.cellIndex, s.rowIndex, HeaderStyle)
             && merges == s.merges + TableMerges(h, s.cellIndex, s.rowIndex)
             && row == s.rowIndex
    ensures r == DynamicHeader(h, dataSetName, rowIndex, cellIndex, initialCellIndex)
  {
    DynamicPassEnds(h, dataSetName, rowIndex, cellIndex, initialCellIndex, visit, cells, merges, row);
    var next := row + 1;
    var names, nextCell := NameRowCells(h, initialCellIndex, next, HeaderStyle);
    return Success(HeaderOutcome(cells + names, merges, next, nextCell));
  }

  /** `ApplyHeader`: the passes of the `goto NewHeader` loop, then the
      column-name row. */
  method ApplyHeader(h: seq<HeaderEntry>, dataSetName: Option<string>, rowIndex: nat, cellIndex: nat, initialCellIndex: nat)
    returns (r: Result<HeaderOutcome, Exception>)
    ensures r == DynamicHeader(h, dataSetName, rowIndex, cellIndex, initialCellIndex)
  {
    var name := dataSetName;
    var row := rowIndex;
    var c := cellIndex;
    var cells: seq<PlacedCell> := [];
    var merges: seq<Merge> := [];
    var indexer: seq<nat> := [];
    ghost var visit := 0;
    while true
      invariant visit <= 1 && name == NameAt(dataSetName, visit)
      invariant visit == 1 ==> !IsNullOrEmpty(dataSetName) && h != []
      invariant HeaderOutcome(cells, merges, row, c) == DynamicAt(h, dataSetName, rowIndex, cellIndex, initialCellIndex, visit)
      invariant visit == 0 ==> indexer == []
      decreases 1 - visit
    {
      var passCells, passMerges, bounds, next := HeaderPass(h, name, row, c);
      cells, merges, c := cells + passCells, merges + passMerges, next;
      indexer := indexer + bounds;
      if IsNullOrEmpty(name) {
        // no jump back to `NewHeader`: the column names follow
        r := NameRowAfterPasses(h, dataSetName, rowIndex, cellIndex, initialCellIndex, visit, cells, merges, row);
        return;
      }
      DynamicPassJumps(h, dataSetName, rowIndex, cellIndex, initialCellIndex, cells, merges, indexer);
      name := None;
      if indexer == [] {
        // First() on the empty indexer list
        return Failure(EmptySequence);
      }
      merges := merges + [Merge(indexer[0], row, indexer[|indexer| - 1], row)];
      row := row + 1;
      c := initialCellIndex;
      visit := 1;
    }
  }

  // ---------------------------------------------------------------------
  // One data set, and the workbook

  /** The cells and merges of one data set and the cursors it leaves. */
  datatype SheetOutcome = SheetOutcome(cells: seq<PlacedCell>, merges: seq<Merge>, rowIndex: nat, cellIndex: nat, initialCellIndex: nat)

  /** `CreateSheetData` as a function: the projection of the data set (a
      duplicate table name throws), its name (a null data set throws), the
      header from row 1 and the column cursor on, then the data rows (a table
      without rows throws). */
  function DynamicSheet(data: Option<DataSet>, cellIndex: nat): Result<SheetOutcome, Exception>
  {
    if data.None? then Failure(NullReference)
    else
      var tables := data.value.tables;
      if DuplicateAt(tables) < |tables| then Failure(DuplicateKey(tables[DuplicateAt(tables)].tableName))
      else
        match DynamicHeader(HeaderEntries(tables), data.value.dataSetName, 1, cellIndex, cellIndex)
        case Failure(e) => Failure(e)
        case Success(header) =>
          var d := DataPass(RowEntries(tables), header.rowIndex, cellIndex, header.cellIndex, DataStyle);
          if !d.ok then Failure(ArgumentNull)
          else Success(SheetOutcome(header.cells + d.cells, header.merges, d.rowIndex, d.cellIndex, cellIndex))
  }

  /** `CreateSheetData`: resets the row cursor to 1, starts the data set at
      the column cursor, writes its header and its rows. */
  method CreateSheetData(data: Option<DataSet>, cellIndex: nat) returns (r: Result<SheetOutcome, Exception>)
    ensures r == DynamicSheet(data, cellIndex)
  {
    var rowIndex: nat := 0;
    rowIndex := rowIndex + 1;
    var initialCellIndex := cellIndex;
    var headerNameList := GetHeaderNameList(data);
    if headerNameList.Failure? {
      return Failure(headerNameList.error);
    }
    var rowDataList := ConvertToRowDataList(data);
    if rowDataList.Failure? {
      // the same keys were accepted by GetHeaderNameList
      assert false;
    }
    if data.None? {
      // reading the name of a null data set
      return Failure(NullReference);
    }
    var header := ApplyHeader(headerNameList.value, data.value.dataSetName, rowIndex, cellIndex, initialCellIndex);
    if header.Failure? {
      return Failure(header.error);
    }
    var ok, cells, newRowIndex, newCellIndex := AddRows(rowDataList.value, header.value.rowIndex, header.value.cellIndex, initialCellIndex, DataStyle);
    if !ok {
      // Count() of the null first row of an empty table
      return Failure(ArgumentNull);
    }
    return Success(SheetOutcome(header.value.cells + cells, header.value.merges, newRowIndex, newCellIndex, initialCellIndex));
  }

  /** The cells and merges of a whole sheet and the final column cursor. */
  datatype Sheet = Sheet(cells: seq<PlacedCell>, merges: seq<Merge>, cellIndex: nat)

  /** `CreateSpreadsheetWorkbook` as a function: the data sets in order,
      each starting at the column cursor the previous one left; the first
      failure ends the export. */
  function DynamicWorkbook(dataSets: seq<Option<DataSet>>): Result<Sheet, Exception>
  {
    if dataSets == [] then Success(Sheet([], [], 0))
    else
      match DynamicWorkbook(dataSets[..|dataSets| - 1])
      case Failure(e) => Failure(e)
      case Success(w) =>
        match DynamicSheet(dataSets[|dataSets| - 1], w.cellIndex)
        case Failure(e) => Failure(e)
        case Success(s) => Success(Sheet(w.cells + s.cells, w.merges + s.merges, s.cellIndex))
  }

  /** Once a data set fails, the later ones change nothing. */
  lemma {:induction false} DynamicWorkbookStops(dataSets: seq<Option<DataSet>>, n: nat)
    requires n <= |dataSets| && DynamicWorkbook(dataSets[..n]).Failure?
    ensures DynamicWorkbook(dataSets) == DynamicWorkbook(dataSets[..n])
    decreases |dataSets|
  {
    if n < |dataSets| {
      var p := dataSets[..|dataSets| - 1];
      assert p[..n] == dataSets[..n];
      DynamicWorkbookStops(p, n);
    } else {
      assert dataSets[..n] == dataSets;
    }
  }

  /** `CreateSpreadsheetWorkbook(IList<DataSet>)`: all cursors start at 0 (the
      first row element is row 1) and every data set goes through
      `CreateSheetData`. */
  method CreateSpreadsheetWorkbook(dataSets: seq<Option<DataSet>>) returns (r: Result<Sheet, Exception>)
    ensures r == DynamicWorkbook(dataSets)
  {
    var cellIndex: nat := 0;
    var cells: seq<PlacedCell> := [];
    var merges: seq<Merge> := [];
    for k := 0 to |dataSets|
      invariant DynamicWorkbook(dataSets[..k]) == Success(Sheet(cells, merges, cellIndex))
    {
      assert dataSets[..k + 1][..k] == dataSets[..k];
      var sheet := CreateSheetData(dataSets[k], cellIndex);
      if sheet.Failure? {
        DynamicWorkbookStops(dataSets, k + 1);
        return Failure(sheet.error);
      }
      cells, merges := cells + sheet.value.cells, merges + sheet.value.merges;
      cellIndex := sheet.value.cellIndex;
    }
    assert dataSets[..|dataSets|] == dataSets;
    return Success(Sheet(cells, merges, cellIndex));
  }

  /** `CreateSpreadsheetWorkbook(DataSet)`: the same for a single data set. */
  method CreateSpreadsheetWorkbookOfDataSet(data: Option<DataSet>) returns (r: Result<Sheet, Exception>)
    ensures r == DynamicWorkbook([data])
  {
    var cellIndex: nat := 0;
    var sheet := CreateSheetData(data, cellIndex);
    ghost var dataSets := [data];
    assert dataSets[..|dataSets| - 1] == [] && dataSets[|dataSets| - 1] == data;
    if sheet.Failure? {
      return Failure(sheet.error);
    }
    assert DynamicWorkbook(dataSets[..0]) == Success(Sheet([], [], 0));
    assert [] + sheet.value.cells == sheet.value.cells && [] + sheet.value.merges == sheet.value.merges;
    return Success(Sheet(sheet.value.cells, sheet.value.merges, sheet.value.cellIndex));
  }

  // ---------------------------------------------------------------------
  // What the layout promises

  /** The header fails exactly for a non-empty name with no tables. */
  lemma DynamicHeaderFails(h: seq<HeaderEntry>, dataSetName: Option<string>, rowIndex: nat, cellIndex: nat, initialCellIndex: nat)
    ensures DynamicHeader(h, dataSetName, rowIndex, cellIndex, initialCellIndex).Failure?
            <==> !IsNullOrEmpty(dataSetName) && h == []
  {
  }

  /** A named data set gets three header rows: every column labelled with the
      name on the first row, the table names on the second row and the
      column names on the third, all with style 5. */
  lemma DynamicNamedHeaderCells(h: seq<HeaderEntry>, dataSetName: Option<string>, rowIndex: nat, cellIndex: nat, initialCellIndex: nat)
    requires !IsNullOrEmpty(dataSetName) && h != []
    ensures DynamicHeader(h, dataSetName, rowIndex, cellIndex, initialCellIndex).Success?
    ensures var o := DynamicHeader(h, dataSetName, rowIndex, cellIndex, initialCellIndex).value;
            && (forall k, j :: 0 <= k < |h| && 0 <= j < |h[k].columns| ==>
                  && LabelCell(h, dataSetName, cellIndex, rowIndex, HeaderStyle, k, j) in o.cells
                  && LabelCell(h, None, initialCellIndex, rowIndex + 1, HeaderStyle, k, j) in o.cells
                  && NameCell(h, initialCellIndex, rowIndex + 2, HeaderStyle, k, j) in o.cells)
            && (forall c :: c in o.cells ==> c.style == HeaderStyle && rowIndex <= c.row <= rowIndex + 2)
            && o.rowIndex == rowIndex + 2 && o.cellIndex == initialCellIndex + ColumnCount(h)
  {
    var first := PassCells(h, dataSetName, cellIndex, rowIndex, HeaderStyle);
    var second := PassCells(h, None, initialCellIndex, rowIndex + 1, HeaderStyle);
    var names := NameRow(h, initialCellIndex, rowIndex + 2, HeaderStyle);
    var cells := first + second + names;
    assert DynamicHeader(h, dataSetName, rowIndex, cellIndex, initialCellIndex).value.cells == cells;
    PassCellsHas(h, dataSetName, cellIndex, rowIndex, HeaderStyle);
    PassCellsHas(h, None, initialCellIndex, rowIndex + 1, HeaderStyle);
    NameRowHas(h, initialCellIndex, rowIndex + 2, HeaderStyle);
    PassCellsShape(h, dataSetName, cellIndex, rowIndex, HeaderStyle);
    PassCellsShape(h, None, initialCellIndex, rowIndex + 1, HeaderStyle);
    NameRowShape(h, initialCellIndex, rowIndex + 2, HeaderStyle);
  }

  /** The merges of a named data set: one merge across all the runs on the
      first header row, even for a single table, then one per table on the
      second. */
  lemma DynamicNamedHeaderMerges(h: seq<HeaderEntry>, dataSetName: Option<string>, rowIndex: nat, cellIndex: nat, initialCellIndex: nat)
    requires !IsNullOrEmpty(dataSetName) && h != []
    ensures DynamicHeader(h, dataSetName, rowIndex, cellIndex, initialCellIndex).Success?
    ensures var o := DynamicHeader(h, dataSetName, rowIndex, cellIndex, initialCellIndex).value;
            && |o.merges| == |h| + 1
            && o.merges[0] == Merge(cellIndex, rowIndex, cellIndex + SpanTotal(h) - 1, rowIndex)
            && (forall k :: 0 <= k < |h| ==>
                  o.merges[k + 1] == Merge(initialCellIndex + SpanTotal(h[..k]), rowIndex + 1, initialCellIndex + SpanTotal(h[..k + 1]) - 1, rowIndex + 1))
  {
    var merges := TableMerges(h, initialCellIndex, rowIndex + 1);
    forall k | 0 <= k < |h|
      ensures merges[k] == Merge(initialCellIndex + SpanTotal(h[..k]), rowIndex + 1, initialCellIndex + SpanTotal(h[..k + 1]) - 1, rowIndex + 1)
    {
      TableMergesAt(h, initialCellIndex, rowIndex + 1, k);
    }
  }

  /** A null or empty name gives two header rows: the label row, labelled
      with the table names for a null name but with the empty name itself
      (blank labels) for an empty one, then the column names, all with
      style 5. */
  lemma DynamicUnnamedHeaderCells(h: seq<HeaderEntry>, dataSetName: Option<string>, rowIndex: nat, cellIndex: nat, initialCellIndex: nat)
    requires IsNullOrEmpty(dataSetName)
    ensures DynamicHeader(h, dataSetName, rowIndex, cellIndex, initialCellIndex).Success?
    ensures var o := DynamicHeader(h, dataSetName, rowIndex, cellIndex, initialCellIndex).value;
            && (forall k, j :: 0 <= k < |h| && 0 <= j < |h[k].columns| ==>
                  && LabelCell(h, dataSetName, cellIndex, rowIndex, HeaderStyle, k, j) in o.cells
                  && NameCell(h, initialCellIndex, rowIndex + 1, HeaderStyle, k, j) in o.cells)
            && (forall c :: c in o.cells ==> c.style == HeaderStyle && rowIndex <= c.row <= rowIndex + 1)
            && o.rowIndex == rowIndex + 1 && o.cellIndex == initialCellIndex + ColumnCount(h)
  {
    var first := PassCells(h, dataSetName, cellIndex, rowIndex, HeaderStyle);
    var names := NameRow(h, initialCellIndex, rowIndex + 1, HeaderStyle);
    var cells := first + names;
    assert DynamicHeader(h, dataSetName, rowIndex, cellIndex, initialCellIndex).value.cells == cells;
    PassCellsHas(h, dataSetName, cellIndex, rowIndex, HeaderStyle);
    NameRowHas(h, initialCellIndex, rowIndex + 1, HeaderStyle);
    PassCellsShape(h, dataSetName, cellIndex, rowIndex, HeaderStyle);
    NameRowShape(h, initialCellIndex, rowIndex + 1, HeaderStyle);
  }

  /** The merges of an unnamed data set: one per table on the label row. */
  lemma DynamicUnnamedHeaderMerges(h: seq<HeaderEntry>, dataSetName: Option<string>, rowIndex: nat, cellIndex: nat, initialCellIndex: nat)
    requires IsNullOrEmpty(dataSetName)
    ensures DynamicHeader(h, dataSetName, rowIndex, cellIndex, initialCellIndex).Success?
    ensures var o := DynamicHeader(h, dataSetName, rowIndex, cellIndex, initialCellIndex).value;
            && |o.merges| == |h|
            && (forall k :: 0 <= k < |h| ==>
                  o.merges[k] == Merge(cellIndex + SpanTotal(h[..k]), rowIndex, cellIndex + SpanTotal(h[..k + 1]) - 1, rowIndex))
  {
    forall k | 0 <= k < |h|
      ensures TableMerges(h, cellIndex, rowIndex)[k] == Merge(cellIndex + SpanTotal(h[..k]), rowIndex, cellIndex + SpanTotal(h[..k + 1]) - 1, rowIndex)
    {
      TableMergesAt(h, cellIndex, rowIndex, k);
    }
  }

  /** In a completed data set every header cell (text) is on rows 1 to 3
      with style 5 and every data cell (a value) has style 0: no cell
      consults the style rules. */
  lemma DynamicSheetStyles(data: Option<DataSet>, cellIndex: nat)
    requires DynamicSheet(data, cellIndex).Success?
    ensures forall c :: c in DynamicSheet(data, cellIndex).value.cells ==>
              && (c.content.Text? ==> c.style == HeaderStyle && 1 <= c.row <= 3)
              && (c.content.Value? ==> c.style == DataStyle)
  {
    var tables := data.value.tables;
    var h, e, name := HeaderEntries(tables), RowEntries(tables), data.value.dataSetName;
    var o := DynamicHeader(h, name, 1, cellIndex, cellIndex).value;
    var d := DataPass(e, o.rowIndex, cellIndex, o.cellIndex, DataStyle);
    if IsNullOrEmpty(name) {
      DynamicUnnamedHeaderCells(h, name, 1, cellIndex, cellIndex);
    } else {
      DynamicNamedHeaderCells(h, name, 1, cellIndex, cellIndex);
    }
    forall c | c in o.cells
      ensures c.content.Text?
    {
      PassCellsShape(h, name, cellIndex, 1, HeaderStyle);
      PassCellsShape(h, None, cellIndex, 2, HeaderStyle);
      NameRowShape(h, cellIndex, 2, HeaderStyle);
      NameRowShape(h, cellIndex, 3, HeaderStyle);
    }
    forall c | c in d.cells
      ensures c.content.Value? && c.style == DataStyle
    {
      DataPassOnly(e, o.rowIndex, cellIndex, o.cellIndex, DataStyle, c);
    }
  }

  /** A regular data set completes and moves the column cursor on by exactly
      its number of columns. */
  lemma DynamicSheetWidth(data: Option<DataSet>, cellIndex: nat)
    requires Regular(data)
    ensures DynamicSheet(data, cellIndex).Success?
    ensures DynamicSheet(data, cellIndex).value.cellIndex == cellIndex + Width(data)
  {
    var tables := data.value.tables;
    var h, e := HeaderEntries(tables), RowEntries(tables);
    var o := DynamicHeader(h, data.value.dataSetName, 1, cellIndex, cellIndex).value;
    DataPassOk(e, o.rowIndex, cellIndex, o.cellIndex, DataStyle);
    DataPassEnd(h, e, o.rowIndex, cellIndex, o.cellIndex, DataStyle);
  }

  /** Data sets are laid out side by side, not stacked: each starts on row 1
      at the column where the previous one ended, so after regular data sets
      the column cursor is the sum of their widths. */
  lemma {:induction false} DynamicSideBySide(dataSets: seq<Option<DataSet>>)
    requires forall k :: 0 <= k < |dataSets| ==> Regular(dataSets[k])
    ensures DynamicWorkbook(dataSets).Success?
    ensures DynamicWorkbook(dataSets).value.cellIndex == TotalWidth(dataSets)
    decreases |dataSets|
  {
    if dataSets != [] {
      var p := dataSets[..|dataSets| - 1];
      assert forall k :: 0 <= k < |p| ==> p[k] == dataSets[k];
      DynamicSideBySide(p);
      DynamicSheetWidth(dataSets[|dataSets| - 1], TotalWidth(p));
    }
  }
}
