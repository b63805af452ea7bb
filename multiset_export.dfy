/** `MultiSetExcelExport`: lays several data sets out on one sheet with
    cursors kept in static fields, which persist from one export to the next
    (the column cursor is never reset).  Header cells take one style resolved
    from the style rules per data set, data cells the Border style; a data
    set with a single table is relabelled with its table name and gets one
    merge over its whole label block.  Any exception makes the export answer
    false. */
module MultiSetExport {
  import opened Wrappers
  import opened DataStore
  import opened Styles
  import opened Layout

  /** The style of every data cell (the default of `CreateTextCell(object)`). */
  const RowStyle: nat := Border.Id()

  /** The name the first pass works with: a data set with a single table and
      a non-null name is relabelled with that table's name. */
  function Retarget(h: seq<HeaderEntry>, dataSetName: Option<string>): (target: Option<string>)
    ensures target.Some? <==> dataSetName.Some?
    ensures |h| == 1 && dataSetName.Some? ==> target == Some(h[0].name)
    ensures |h| != 1 ==> target == dataSetName
  {
    if |h| == 1 && dataSetName.Some? then Some(h[0].name) else dataSetName
  }

  /** The header style once resolved: the one already resolved, or the
      lookup of the target's Header rule. */
  function Resolved(cellStyle: Option<nat>, setStyles: Option<seq<SetStyle>>, target: Option<string>): nat {
    if cellStyle.Some? then cellStyle.value else GetCellStyle(setStyles, target, Header)
  }

  /** Column positions paired with the row they were taken on (the
      `fullIndexer` list). */
  function AtRow(cols: seq<nat>, rowIndex: nat): (refs: seq<(nat, nat)>)
    ensures |refs| == |cols|
  {
    if cols == [] then [] else AtRow(cols[..|cols| - 1], rowIndex) + [(cols[|cols| - 1], rowIndex)]
  }

  /** The positions of an entry of `AtRow`. */
  lemma {:induction false} AtRowAt(cols: seq<nat>, rowIndex: nat, i: nat)
    requires i < |cols|
    ensures AtRow(cols, rowIndex)[i] == (cols[i], rowIndex)
    decreases |cols|
  {
    if i < |cols| - 1 {
      AtRowAt(cols[..|cols| - 1], rowIndex, i);
    }
  }

  /** Two more positions add two entries on the same row. */
  lemma AtRowPair(cols: seq<nat>, first: nat, last: nat, rowIndex: nat)
    ensures AtRow(cols + [first, last], rowIndex) == AtRow(cols, rowIndex) + [(first, rowIndex), (last, rowIndex)]
  {
    assert (cols + [first, last])[..|cols| + 1] == cols + [first];
    assert (cols + [first])[..|cols|] == cols;
  }

  lemma {:induction false} AtRowAppend(cols: seq<nat>, more: seq<nat>, rowIndex: nat)
    ensures AtRow(cols + more, rowIndex) == AtRow(cols, rowIndex) + AtRow(more, rowIndex)
    decreases |more|
  {
    if more != [] {
      assert (cols + more)[..|cols + more| - 1] == cols + more[..|more| - 1];
      AtRowAppend(cols, more[..|more| - 1], rowIndex);
    } else {
      assert cols + more == cols;
    }
  }

  /** One pass over the tables (the `foreach` after the label `NewHeader`):
      the relabelling of a single table, the style resolved at the first
      table if not yet resolved, a label run per table, a merge per run when
      the name is null or empty and there are several tables, and the bounds
      of every run for the two indexer lists. */
  method HeaderPass(h: seq<HeaderEntry>, dataSetName: Option<string>, cellStyle: Option<nat>,
                    setStyles: Option<seq<SetStyle>>, rowIndex: nat, cellIndex: nat)
    returns (name: Option<string>, style: Option<nat>, cells: seq<PlacedCell>, merges: seq<Merge>,
             indexerPrefix: seq<nat>, fullIndexer: seq<(nat, nat)>, nextCellIndex: nat)
    ensures name == Retarget(h, dataSetName)
    ensures style == if h == [] then cellStyle else Some(Resolved(cellStyle, setStyles, Retarget(h, dataSetName)))
    ensures cells == PassCells(h, Retarget(h, dataSetName), cellIndex, rowIndex, Resolved(cellStyle, setStyles, Retarget(h, dataSetName)))
    ensures merges == if IsNullOrEmpty(Retarget(h, dataSetName)) && |h| != 1 then TableMerges(h, cellIndex, rowIndex) else []
    ensures indexerPrefix == RunBounds(h, cellIndex)
    ensures fullIndexer == AtRow(RunBounds(h, cellIndex), rowIndex)
    ensures nextCellIndex == cellIndex + SpanTotal(h)
  {
    ghost var caption := Retarget(h, dataSetName);
    ghost var resolved := Resolved(cellStyle, setStyles, caption);
    name, style := dataSetName, cellStyle;
    cells, merges, indexerPrefix, fullIndexer := [], [], [], [];
    nextCellIndex := cellIndex;
    for k := 0 to |h|
      invariant k == 0 ==> name == dataSetName && style == cellStyle
      invariant k > 0 ==> name == caption && style == Some(resolved)
      invariant cells == PassCells(h[..k], caption, cellIndex, rowIndex, resolved)
      invariant merges == if IsNullOrEmpty(caption) && |h| != 1 then TableMerges(h[..k], cellIndex, rowIndex) else []
      invariant indexerPrefix == RunBounds(h[..k], cellIndex)
      invariant fullIndexer == AtRow(indexerPrefix, rowIndex)
      invariant nextCellIndex == cellIndex + SpanTotal(h[..k])
    {
      var master := h[k].name;
      if |h| == 1 && name.Some? {
        name := Some(master);
      }
      assert name == caption;
      if style.None? {
        style := Some(GetCellStyle(setStyles, name, Header));
      }
      assert style == Some(resolved);
      var clFirst, clLast;
      ghost var before := indexerPrefix;
      cells, merges, indexerPrefix, clFirst, clLast, nextCellIndex :=
        TableLabels(h, k, name, style.value, IsNullOrEmpty(name) && |h| != 1, cellIndex, rowIndex, cells, merges, indexerPrefix, nextCellIndex);
      AtRowPair(before, clFirst, clLast, rowIndex);
      fullIndexer := fullIndexer + [(clFirst, rowIndex), (clLast, rowIndex)];
    }
    assert h[..|h|] == h;
  }

  /** What the passes of a header leave: the label cells, the merges, the
      full indexer list, the resolved style (none when there was no table)
      and the cursors. */
  datatype Passes = Passes(cells: seq<PlacedCell>, merges: seq<Merge>, fullIndexer: seq<(nat, nat)>,
                           cellStyle: Option<nat>, rowIndex: nat, cellIndex: nat)

  /** A successful result is fixed by the fields of its passes. */
  lemma SuccessOfFields(ps: Result<Passes, Exception>, p: Passes)
    requires ps.Success? && ps.value.cells == p.cells && ps.value.merges == p.merges && ps.value.fullIndexer == p.fullIndexer
    requires ps.value.cellStyle == p.cellStyle && ps.value.rowIndex == p.rowIndex && ps.value.cellIndex == p.cellIndex
    ensures ps == Success(p)
  {
  }

  /** The passes as a function: one pass for a null or empty (retargeted)
      name, two for a non-empty one, which throws when there are no tables. */
  function PassesOf(h: seq<HeaderEntry>, dataSetName: Option<string>, setStyles: Option<seq<SetStyle>>,
                    rowIndex: nat, cellIndex: nat, initialCellIndex: nat): Result<Passes, Exception>
  {
    var caption := Retarget(h, dataSetName);
    var style := GetCellStyle(setStyles, caption, Header);
    var first := PassCells(h, caption, cellIndex, rowIndex, style);
    if IsNullOrEmpty(caption) then
      Success(Passes(first, if |h| != 1 then TableMerges(h, cellIndex, rowIndex) else [],
                     AtRow(RunBounds(h, cellIndex), rowIndex), if h == [] then None else Some(style),
                     rowIndex, cellIndex + SpanTotal(h)))
    else if h == [] then Failure(EmptySequence)
    else
      Success(Passes(first + PassCells(h, None, initialCellIndex, rowIndex + 1, style),
                     if |h| != 1 then [Merge(cellIndex, rowIndex, cellIndex + SpanTotal(h) - 1, rowIndex)] + TableMerges(h, initialCellIndex, rowIndex + 1) else [],
                     AtRow(RunBounds(h, cellIndex), rowIndex) + AtRow(RunBounds(h, initialCellIndex), rowIndex + 1),
                     Some(style), rowIndex + 1, initialCellIndex + SpanTotal(h)))
  }

  /** A null or empty (retargeted) name: the passes are the first pass. */
  lemma OnePass(h: seq<HeaderEntry>, dataSetName: Option<string>, setStyles: Option<seq<SetStyle>>,
                rowIndex: nat, cellIndex: nat, initialCellIndex: nat)
    requires IsNullOrEmpty(Retarget(h, dataSetName))
    ensures var caption := Retarget(h, dataSetName);
            var style := GetCellStyle(setStyles, caption, Header);
            var ps := PassesOf(h, dataSetName, setStyles, rowIndex, cellIndex, initialCellIndex);
            && ps.Success?
            && ps.value.cells == PassCells(h, caption, cellIndex, rowIndex, style)
            && ps.value.merges == (if |h| != 1 then TableMerges(h, cellIndex, rowIndex) else [])
            && ps.value.fullIndexer == AtRow(RunBounds(h, cellIndex), rowIndex)
            && ps.value.cellStyle == (if h == [] then None else Some(style))
            && ps.value.rowIndex == rowIndex && ps.value.cellIndex == cellIndex + SpanTotal(h)
  {
  }

  /** A non-empty (retargeted) name with tables: the passes are the first
      pass, the merge across the runs and the second pass. */
  lemma TwoPasses(h: seq<HeaderEntry>, dataSetName: Option<string>, setStyles: Option<seq<SetStyle>>,
                  rowIndex: nat, cellIndex: nat, initialCellIndex: nat)
    requires !IsNullOrEmpty(Retarget(h, dataSetName)) && h != []
    ensures var caption := Retarget(h, dataSetName);
            var style := GetCellStyle(setStyles, caption, Header);
            var ps := PassesOf(h, dataSetName, setStyles, rowIndex, cellIndex, initialCellIndex);
            && ps.Success?
            && ps.value.cells == PassCells(h, caption, cellIndex, rowIndex, style) + PassCells(h, None, initialCellIndex, rowIndex + 1, style)
            && ps.value.merges == (if |h| != 1 then [Merge(cellIndex, rowIndex, cellIndex + SpanTotal(h) - 1, rowIndex)] + TableMerges(h, initialCellIndex, rowIndex + 1) else [])
            && ps.value.fullIndexer == AtRow(RunBounds(h, cellIndex), rowIndex) + AtRow(RunBounds(h, initialCellIndex), rowIndex + 1)
            && ps.value.cellStyle == Some(style)
            && ps.value.rowIndex == rowIndex + 1 && ps.value.cellIndex == initialCellIndex + SpanTotal(h)
  {
  }

  /** The state at the label `NewHeader` on a visit: nothing written on the
      first; on the second, after a non-empty name, the first pass and the
      merge across its runs (unless there is a single table), the row cursor
      one down and the column cursor back at the initial column. */
  function AtNewHeader(h: seq<HeaderEntry>, dataSetName: Option<string>, setStyles: Option<seq<SetStyle>>,
                       rowIndex: nat, cellIndex: nat, initialCellIndex: nat, visit: nat): Passes
  {
    if visit == 0 then Passes([], [], [], None, rowIndex, cellIndex)
    else
      var caption := Retarget(h, dataSetName);
      var style := GetCellStyle(setStyles, caption, Header);
      Passes(PassCells(h, caption, cellIndex, rowIndex, style),
             if |h| != 1 && h != [] then [Merge(cellIndex, rowIndex, cellIndex + SpanTotal(h) - 1, rowIndex)] else [],
             AtRow(RunBounds(h, cellIndex), rowIndex), Some(style), rowIndex + 1, initialCellIndex)
  }

  /** A pass from the state at `NewHeader` whose name is null or empty ends
      the passes, with the state `PassesOf` describes. */
  lemma PassEnds(h: seq<HeaderEntry>, dataSetName: Option<string>, setStyles: Option<seq<SetStyle>>,
                 rowIndex: nat, cellIndex: nat, initialCellIndex: nat, visit: nat, p: Passes)
    requires visit <= 1
    requires visit == 1 ==> !IsNullOrEmpty(Retarget(h, dataSetName)) && h != []
    requires IsNullOrEmpty(Retarget(h, NameAt(dataSetName, visit)))
    requires var s := AtNewHeader(h, dataSetName, setStyles, rowIndex, cellIndex, initialCellIndex, visit);
             var caption := Retarget(h, NameAt(dataSetName, visit));
             var resolved := Resolved(s.cellStyle, setStyles, caption);
             && p.cells == s.cells + PassCells(h, caption, s.cellIndex, s.rowIndex, resolved)
             && p.merges == s.merges + (if IsNullOrEmpty(caption) && |h| != 1 then TableMerges(h, s.cellIndex, s.rowIndex) else [])
             && p.fullIndexer == s.fullIndexer + AtRow(RunBounds(h, s.cellIndex), s.rowIndex)
             && p.cellStyle == (if h == [] then s.cellStyle else Some(resolved))
             && p.rowIndex == s.rowIndex && p.cellIndex == s.cellIndex + SpanTotal(h)
    ensures PassesOf(h, dataSetName, setStyles, rowIndex, cellIndex, initialCellIndex) == Success(p)
  {
    var ps := PassesOf(h, dataSetName, setStyles, rowIndex, cellIndex, initialCellIndex);
    if visit == 0 {
      FirstPassEnds(h, dataSetName, setStyles, rowIndex, cellIndex, initialCellIndex);
      SuccessOfFields(ps, p);
    } else {
      TwoPasses(h, dataSetName, setStyles, rowIndex, cellIndex, initialCellIndex);
      SuccessOfFields(ps, p);
    }
  }

  lemma FirstPassEnds(h: seq<HeaderEntry>, dataSetName: Option<string>, setStyles: Option<seq<SetStyle>>,
                      rowIndex: nat, cellIndex: nat, initialCellIndex: nat)
    requires IsNullOrEmpty(Retarget(h, dataSetName))
    ensures var s := AtNewHeader(h, dataSetName, setStyles, rowIndex, cellIndex, initialCellIndex, 0);
            var caption := Retarget(h, dataSetName);
            var resolved := Resolved(s.cellStyle, setStyles, caption);
            var ps := PassesOf(h, dataSetName, setStyles, rowIndex, cellIndex, initialCellIndex);
            && ps.Success?
            && ps.value.cells == s.cells + PassCells(h, caption, s.cellIndex, s.rowIndex, resolved)
            && ps.value.merges == s.merges + (if IsNullOrEmpty(caption) && |h| != 1 then TableMerges(h, s.cellIndex, s.rowIndex) else [])
            && ps.value.fullIndexer == s.fullIndexer + AtRow(RunBounds(h, s.cellIndex), s.rowIndex)
            && ps.value.cellStyle == (if h == [] then s.cellStyle else Some(resolved))
            && ps.value.rowIndex == s.rowIndex && ps.value.cellIndex == s.cellIndex + SpanTotal(h)
  {
    FirstPassState(h, dataSetName, setStyles, rowIndex, cellIndex, initialCellIndex);
    FirstPassSequences(h, dataSetName, setStyles, rowIndex, cellIndex, initialCellIndex);
  }

  /** The sequences of a single pass, each written as the empty sequences
      of the first visit followed by what the pass adds: the `[] +` is kept
      so that the terms match those of `AtNewHeader` at visit 0 in
      `FirstPassEnds`, which does not go through without them. */
  lemma FirstPassSequences(h: seq<HeaderEntry>, dataSetName: Option<string>, setStyles: Option<seq<SetStyle>>,
                           rowIndex: nat, cellIndex: nat, initialCellIndex: nat)
    requires IsNullOrEmpty(Retarget(h, dataSetName))
    ensures var caption := Retarget(h, dataSetName);
            var resolved := Resolved(None, setStyles, caption);
            var ps := PassesOf(h, dataSetName, setStyles, rowIndex, cellIndex, initialCellIndex);
            && ps.Success?
            && ps.value.cells == [] + PassCells(h, caption, cellIndex, rowIndex, resolved)
            && ps.value.merges == [] + (if IsNullOrEmpty(caption) && |h| != 1 then TableMerges(h, cellIndex, rowIndex) else [])
            && ps.value.fullIndexer == [] + AtRow(RunBounds(h, cellIndex), rowIndex)
  {
    OnePass(h, dataSetName, setStyles, rowIndex, cellIndex, initialCellIndex);
  }

  lemma FirstPassState(h: seq<HeaderEntry>, dataSetName: Option<string>, setStyles: Option<seq<SetStyle>>,
                       rowIndex: nat, cellIndex: nat, initialCellIndex: nat)
    requires IsNullOrEmpty(Retarget(h, dataSetName))
    ensures AtNewHeader(h, dataSetName, setStyles, rowIndex, cellIndex, initialCellIndex, 0) == Passes([], [], [], None, rowIndex, cellIndex)
    ensures var ps := PassesOf(h, dataSetName, setStyles, rowIndex, cellIndex, initialCellIndex);
            && ps.Success?
            && ps.value.cellStyle == (if h == [] then None else Some(Resolved(None, setStyles, Retarget(h, dataSetName))))
            && ps.value.rowIndex == rowIndex && ps.value.cellIndex == cellIndex + SpanTotal(h)
  {
  }

  /** A first pass with a non-empty name jumps back to `NewHeader`: it throws
      when there are no tables, and otherwise reaches the second visit. */
  lemma PassJumps(h: seq<HeaderEntry>, dataSetName: Option<string>, setStyles: Option<seq<SetStyle>>,
                  rowIndex: nat, cellIndex: nat, initialCellIndex: nat, p: Passes, indexer: seq<nat>)
    requires !IsNullOrEmpty(Retarget(h, dataSetName))
    requires var caption := Retarget(h, dataSetName);
             var resolved := GetCellStyle(setStyles, caption, Header);
             && p.cells == PassCells(h, caption, cellIndex, rowIndex, resolved)
             && p.merges == [] && p.fullIndexer == AtRow(RunBounds(h, cellIndex), rowIndex)
             && p.cellStyle == (if h == [] then None else Some(resolved))
             && indexer == RunBounds(h, cellIndex)
    ensures h == [] <==> indexer == []
    ensures h == [] ==> PassesOf(h, dataSetName, setStyles, rowIndex, cellIndex, initialCellIndex) == Failure(EmptySequence)
    ensures h != [] ==>
            var merges := p.merges + if |h| != 1 then [Merge(indexer[0], rowIndex, indexer[|indexer| - 1], rowIndex)] else [];
            Passes(p.cells, merges, p.fullIndexer, p.cellStyle, rowIndex + 1, initialCellIndex)
            == AtNewHeader(h, dataSetName, setStyles, rowIndex, cellIndex, initialCellIndex, 1)
  {
    if h != [] {
      RunBoundsEnds(h, cellIndex);
    }
  }

  /** The column-name row after the passes, one row below them, written
      only when a style was resolved. */
  function NamesAfter(h: seq<HeaderEntry>, initialCellIndex: nat, p: Passes): (names: seq<PlacedCell>)
    ensures |names| == if p.cellStyle.Some? then ColumnCount(h) else 0
  {
    if p.cellStyle.Some? then NameRow(h, initialCellIndex, p.rowIndex + 1, p.cellStyle.value) else []
  }

  /** The merge of a single table, from the first to the last entry of the
      full indexer list. */
  function SingleTableMerge(h: seq<HeaderEntry>, p: Passes): seq<Merge> {
    var last := |p.fullIndexer| - 1;
    if |h| == 1 && p.fullIndexer != []
    then [Merge(p.fullIndexer[0].0, p.fullIndexer[0].1, p.fullIndexer[last].0, p.fullIndexer[last].1)]
    else []
  }

  /** What `ApplyHeader` adds after the passes: the single-table merge and
      the column-name row; the column cursor ends past the names. */
  function AfterPasses(h: seq<HeaderEntry>, initialCellIndex: nat, p: Passes): HeaderOutcome {
    var names := NamesAfter(h, initialCellIndex, p);
    HeaderOutcome(p.cells + names, p.merges + SingleTableMerge(h, p), p.rowIndex + 1, initialCellIndex + |names|)
  }

  /** `ApplyHeader` as a function: the passes, then the single-table merge
      and the column-name row; a throwing pass throws the same exception. */
  function MultiSetHeader(h: seq<HeaderEntry>, dataSetName: Option<string>, setStyles: Option<seq<SetStyle>>,
                          rowIndex: nat, cellIndex: nat, initialCellIndex: nat): Result<HeaderOutcome, Exception>
  {
    match PassesOf(h, dataSetName, setStyles, rowIndex, cellIndex, initialCellIndex)
    case Failure(e) => Failure(e)
    case Success(p) => Success(AfterPasses(h, initialCellIndex, p))
  }

  /** The cells and merges written for the data sets exported so far. */
  datatype Written = Written(cells: seq<PlacedCell>, merges: seq<Merge>)

  /** The three static cursors. */
  datatype Cursors = Cursors(rowIndex: nat, cellIndex: nat, initialCellIndex: nat)

  /** What an export step produced, and the cursors it left behind (also
      after a failure, since the fields are static). */
  datatype Run = Run(result: Result<Written, Exception>, cursors: Cursors)

  /** `CreateSheetData` as a function: the row cursor restarts at 1, the
      data set starts at the column cursor, then the projection (a duplicate
      table name throws), its name (a null data set throws), the header and
      the data rows (a table without rows throws). */
  function MultiSetSheet(data: Option<DataSet>, setStyles: Option<seq<SetStyle>>, cellIndex: nat): Run
  {
    var entered := Cursors(1, cellIndex, cellIndex);
    if data.None? then Run(Failure(NullReference), entered)
    else
      var tables := data.value.tables;
      if DuplicateAt(tables) < |tables| then Run(Failure(DuplicateKey(tables[DuplicateAt(tables)].tableName)), entered)
      else
        match MultiSetHeader(HeaderEntries(tables), data.value.dataSetName, setStyles, 1, cellIndex, cellIndex)
        case Failure(e) => Run(Failure(e), entered)
        case Success(header) =>
          var d := DataPass(RowEntries(tables), header.rowIndex, cellIndex, header.cellIndex, RowStyle);
          Run(if d.ok then Success(Written(header.cells + d.cells, header.merges)) else Failure(ArgumentNull),
              Cursors(d.rowIndex, d.cellIndex, cellIndex))
  }

  /** A data set whose header was laid out and whose rows were written:
      the sheet's run is the header followed by the rows. */
  lemma SheetLaidOut(data: DataSet, setStyles: Option<seq<SetStyle>>, cellIndex: nat, header: HeaderOutcome,
                     ok: bool, cells: seq<PlacedCell>, rowIndex: nat, nextCellIndex: nat)
    requires DuplicateAt(data.tables) == |data.tables|
    requires MultiSetHeader(HeaderEntries(data.tables), data.dataSetName, setStyles, 1, cellIndex, cellIndex) == Success(header)
    requires var d := DataPass(RowEntries(data.tables), header.rowIndex, cellIndex, header.cellIndex, RowStyle);
             ok == d.ok && cells == d.cells && rowIndex == d.rowIndex && nextCellIndex == d.cellIndex
    ensures MultiSetSheet(Some(data), setStyles, cellIndex)
            == Run(if ok then Success(Written(header.cells + cells, header.merges)) else Failure(ArgumentNull),
                   Cursors(rowIndex, nextCellIndex, cellIndex))
  {
  }

  /** `CreateNewSheet` as a function: the data sets in order, each from the
      column cursor the previous one left; the first failure ends the loop. */
  function MultiSetWorkbook(dataSets: seq<Option<DataSet>>, setStyles: Option<seq<SetStyle>>, start: Cursors): Run
  {
    if dataSets == [] then Run(Success(Written([], [])), start)
    else
      var w := MultiSetWorkbook(dataSets[..|dataSets| - 1], setStyles, start);
      if w.result.Failure? then w
      else
        var s := MultiSetSheet(dataSets[|dataSets| - 1], setStyles, w.cursors.cellIndex);
        Run(if s.result.Failure? then Failure(s.result.error)
            else Success(Written(w.result.value.cells + s.result.value.cells, w.result.value.merges + s.result.value.merges)),
            s.cursors)
  }

  /** One more data set after a run that has not failed: its sheet, laid
      out from the column cursor the run left. */
  lemma WorkbookStep(dataSets: seq<Option<DataSet>>, setStyles: Option<seq<SetStyle>>, start: Cursors, k: nat, cells: seq<PlacedCell>, merges: seq<Merge>, at: Cursors)
    requires k < |dataSets|
    requires MultiSetWorkbook(dataSets[..k], setStyles, start) == Run(Success(Written(cells, merges)), at)
    ensures var s := MultiSetSheet(dataSets[k], setStyles, at.cellIndex);
            MultiSetWorkbook(dataSets[..k + 1], setStyles, start)
            == Run(if s.result.Failure? then Failure(s.result.error)
                   else Success(Written(cells + s.result.value.cells, merges + s.result.value.merges)), s.cursors)
  {
    assert dataSets[..k + 1][..k] == dataSets[..k];
  }

  /** Once a data set fails, the later ones change nothing. */
  lemma {:induction false} MultiSetWorkbookStops(dataSets: seq<Option<DataSet>>, setStyles: Option<seq<SetStyle>>, start: Cursors, n: nat)
    requires n <= |dataSets| && MultiSetWorkbook(dataSets[..n], setStyles, start).result.Failure?
    ensures MultiSetWorkbook(dataSets, setStyles, start) == MultiSetWorkbook(dataSets[..n], setStyles, start)
    decreases |dataSets|
  {
    if n < |dataSets| {
      var p := dataSets[..|dataSets| - 1];
      assert p[..n] == dataSets[..n];
      MultiSetWorkbookStops(p, setStyles, start, n);
    } else {
      assert dataSets[..n] == dataSets;
    }
  }

  // ---------------------------------------------------------------------
  // What the layout promises

  /** The header after one pass over some tables, field by field: the label
      row, then the column names one row down. */
  lemma HeaderOfOnePass(h: seq<HeaderEntry>, dataSetName: Option<string>, setStyles: Option<seq<SetStyle>>,
                        rowIndex: nat, cellIndex: nat, initialCellIndex: nat)
    requires IsNullOrEmpty(Retarget(h, dataSetName)) && h != []
    ensures var style := GetCellStyle(setStyles, Retarget(h, dataSetName), Header);
            var r := MultiSetHeader(h, dataSetName, setStyles, rowIndex, cellIndex, initialCellIndex);
            && r.Success?
            && r.value.cells == PassCells(h, Retarget(h, dataSetName), cellIndex, rowIndex, style) + NameRow(h, initialCellIndex, rowIndex + 1, style)
            && r.value.rowIndex == rowIndex + 1 && r.value.cellIndex == initialCellIndex + ColumnCount(h)
  {
    var style := GetCellStyle(setStyles, Retarget(h, dataSetName), Header);
    var labels := PassCells(h, Retarget(h, dataSetName), cellIndex, rowIndex, style);
    var ps := PassesOf(h, dataSetName, setStyles, rowIndex, cellIndex, initialCellIndex);
    assert ps.Success? && ps.value.cells == labels && ps.value.cellStyle == Some(style) && ps.value.rowIndex == rowIndex by {
      OnePass(h, dataSetName, setStyles, rowIndex, cellIndex, initialCellIndex);
    }
    var p := ps.value;
    assert MultiSetHeader(h, dataSetName, setStyles, rowIndex, cellIndex, initialCellIndex) == Success(AfterPasses(h, initialCellIndex, p)) by {
      HeaderIsAfterPasses(h, dataSetName, setStyles, rowIndex, cellIndex, initialCellIndex, p);
    }
    assert AfterPasses(h, initialCellIndex, p).cells == labels + NameRow(h, initialCellIndex, rowIndex + 1, style)
           && AfterPasses(h, initialCellIndex, p).rowIndex == rowIndex + 1
           && AfterPasses(h, initialCellIndex, p).cellIndex == initialCellIndex + ColumnCount(h) by {
      AfterStyledPasses(h, initialCellIndex, p);
    }
  }

  /** A header whose passes succeed is what follows them. */
  lemma HeaderIsAfterPasses(h: seq<HeaderEntry>, dataSetName: Option<string>, setStyles: Option<seq<SetStyle>>,
                            rowIndex: nat, cellIndex: nat, initialCellIndex: nat, p: Passes)
    requires PassesOf(h, dataSetName, setStyles, rowIndex, cellIndex, initialCellIndex) == Success(p)
    ensures MultiSetHeader(h, dataSetName, setStyles, rowIndex, cellIndex, initialCellIndex) == Success(AfterPasses(h, initialCellIndex, p))
  {
  }

  /** Once a style was resolved, the column names follow the passes one row
      below their last row, and the column cursor ends past them. */
  lemma AfterStyledPasses(h: seq<HeaderEntry>, initialCellIndex: nat, p: Passes)
    requires p.cellStyle.Some?
    ensures var o := AfterPasses(h, initialCellIndex, p);
            && o.cells == p.cells + NameRow(h, initialCellIndex, p.rowIndex + 1, p.cellStyle.value)
            && o.rowIndex == p.rowIndex + 1 && o.cellIndex == initialCellIndex + ColumnCount(h)
  {
    assert NamesAfter(h, initialCellIndex, p) == NameRow(h, initialCellIndex, p.rowIndex + 1, p.cellStyle.value);
  }

  /** With no tables and a null or empty name nothing is written: no style is
      resolved, so there is no column-name row either. */
  lemma HeaderOfNoTables(dataSetName: Option<string>, setStyles: Option<seq<SetStyle>>, rowIndex: nat, cellIndex: nat, initialCellIndex: nat)
    requires IsNullOrEmpty(dataSetName)
    ensures MultiSetHeader([], dataSetName, setStyles, rowIndex, cellIndex, initialCellIndex)
            == Success(HeaderOutcome([], [], rowIndex + 1, initialCellIndex))
  {
    OnePass([], dataSetName, setStyles, rowIndex, cellIndex, initialCellIndex);
  }

  /** The merges after one pass, for other than exactly one table: one per
      table on the label row. */
  lemma MergesOfOnePass(h: seq<HeaderEntry>, dataSetName: Option<string>, setStyles: Option<seq<SetStyle>>,
                        rowIndex: nat, cellIndex: nat, initialCellIndex: nat)
    requires IsNullOrEmpty(Retarget(h, dataSetName)) && |h| != 1
    ensures var r := MultiSetHeader(h, dataSetName, setStyles, rowIndex, cellIndex, initialCellIndex);
            r.Success? && r.value.merges == TableMerges(h, cellIndex, rowIndex)
  {
    OnePass(h, dataSetName, setStyles, rowIndex, cellIndex, initialCellIndex);
  }

  /** The header after two passes, field by field. */
  lemma HeaderOfTwoPasses(h: seq<HeaderEntry>, dataSetName: Option<string>, setStyles: Option<seq<SetStyle>>,
                          rowIndex: nat, cellIndex: nat, initialCellIndex: nat)
    requires !IsNullOrEmpty(Retarget(h, dataSetName)) && h != []
    ensures var caption := Retarget(h, dataSetName);
            var style := GetCellStyle(setStyles, caption, Header);
            var r := MultiSetHeader(h, dataSetName, setStyles, rowIndex, cellIndex, initialCellIndex);
            && r.Success?
            && r.value.cells == PassCells(h, caption, cellIndex, rowIndex, style) + PassCells(h, None, initialCellIndex, rowIndex + 1, style)
                                + NameRow(h, initialCellIndex, rowIndex + 2, style)
            && (|h| != 1 ==> r.value.merges == [Merge(cellIndex, rowIndex, cellIndex + SpanTotal(h) - 1, rowIndex)] + TableMerges(h, initialCellIndex, rowIndex + 1))
            && r.value.rowIndex == rowIndex + 2 && r.value.cellIndex == initialCellIndex + ColumnCount(h)
  {
    TwoPasses(h, dataSetName, setStyles, rowIndex, cellIndex, initialCellIndex);
    var ps := PassesOf(h, dataSetName, setStyles, rowIndex, cellIndex, initialCellIndex).value;
    assert MultiSetHeader(h, dataSetName, setStyles, rowIndex, cellIndex, initialCellIndex) == Success(AfterPasses(h, initialCellIndex, ps));
  }

  /** The header fails exactly for a non-empty name with no tables. */
  lemma MultiSetHeaderFails(h: seq<HeaderEntry>, dataSetName: Option<string>, setStyles: Option<seq<SetStyle>>,
                            rowIndex: nat, cellIndex: nat, initialCellIndex: nat)
    ensures MultiSetHeader(h, dataSetName, setStyles, rowIndex, cellIndex, initialCellIndex).Failure?
            <==> !IsNullOrEmpty(dataSetName) && h == []
  {
  }

  /** A non-empty (retargeted) name with tables gets three header rows: the
      name over every column on the first row, the table names on the second
      and the column names on the third, all in the style of the name's
      Header rule. */
  lemma MultiSetNamedHeaderCells(h: seq<HeaderEntry>, dataSetName: Option<string>, setStyles: Option<seq<SetStyle>>,
                                 rowIndex: nat, cellIndex: nat, initialCellIndex: nat)
    requires !IsNullOrEmpty(Retarget(h, dataSetName)) && h != []
    ensures MultiSetHeader(h, dataSetName, setStyles, rowIndex, cellIndex, initialCellIndex).Success?
    ensures var caption := Retarget(h, dataSetName);
            var style := GetCellStyle(setStyles, caption, Header);
            var o := MultiSetHeader(h, dataSetName, setStyles, rowIndex, cellIndex, initialCellIndex).value;
            && (forall k, j :: 0 <= k < |h| && 0 <= j < |h[k].columns| ==>
                  && LabelCell(h, caption, cellIndex, rowIndex, style, k, j) in o.cells
                  && LabelCell(h, None, initialCellIndex, rowIndex + 1, style, k, j) in o.cells
                  && NameCell(h, initialCellIndex, rowIndex + 2, style, k, j) in o.cells)
            && (forall c :: c in o.cells ==> c.style == style && rowIndex <= c.row <= rowIndex + 2)
            && o.rowIndex == rowIndex + 2 && o.cellIndex == initialCellIndex + ColumnCount(h)
  {
    var caption := Retarget(h, dataSetName);
    var style := GetCellStyle(setStyles, caption, Header);
    HeaderOfTwoPasses(h, dataSetName, setStyles, rowIndex, cellIndex, initialCellIndex);
    PassCellsHas(h, caption, cellIndex, rowIndex, style);
    PassCellsHas(h, None, initialCellIndex, rowIndex + 1, style);
    NameRowHas(h, initialCellIndex, rowIndex + 2, style);
    PassCellsShape(h, caption, cellIndex, rowIndex, style);
    PassCellsShape(h, None, initialCellIndex, rowIndex + 1, style);
    NameRowShape(h, initialCellIndex, rowIndex + 2, style);
  }

  /** The merges of a named data set of several tables: one merge across all
      the runs on the first header row, then one per table on the second. */
  lemma MultiSetNamedHeaderMerges(h: seq<HeaderEntry>, dataSetName: Option<string>, setStyles: Option<seq<SetStyle>>,
                                  rowIndex: nat, cellIndex: nat, initialCellIndex: nat)
    requires !IsNullOrEmpty(dataSetName) && |h| >= 2
    ensures MultiSetHeader(h, dataSetName, setStyles, rowIndex, cellIndex, initialCellIndex).Success?
    ensures var o := MultiSetHeader(h, dataSetName, setStyles, rowIndex, cellIndex, initialCellIndex).value;
            && |o.merges| == |h| + 1
            && o.merges[0] == Merge(cellIndex, rowIndex, cellIndex + SpanTotal(h) - 1, rowIndex)
            && (forall k :: 0 <= k < |h| ==>
                  o.merges[k + 1] == Merge(initialCellIndex + SpanTotal(h[..k]), rowIndex + 1, initialCellIndex + SpanTotal(h[..k + 1]) - 1, rowIndex + 1))
  {
    HeaderOfTwoPasses(h, dataSetName, setStyles, rowIndex, cellIndex, initialCellIndex);
    var merges := TableMerges(h, initialCellIndex, rowIndex + 1);
    forall k | 0 <= k < |h|
      ensures merges[k] == Merge(initialCellIndex + SpanTotal(h[..k]), rowIndex + 1, initialCellIndex + SpanTotal(h[..k + 1]) - 1, rowIndex + 1)
    {
      TableMergesAt(h, initialCellIndex, rowIndex + 1, k);
    }
  }

  /** A null or empty (retargeted) name gives two header rows: the label row
      (table names for a null name, blanks for an empty one) and the column
      names, all in the style of the name's Header rule. */
  lemma MultiSetUnnamedHeaderCells(h: seq<HeaderEntry>, dataSetName: Option<string>, setStyles: Option<seq<SetStyle>>,
                                   rowIndex: nat, cellIndex: nat, initialCellIndex: nat)
    requires IsNullOrEmpty(Retarget(h, dataSetName))
    ensures MultiSetHeader(h, dataSetName, setStyles, rowIndex, cellIndex, initialCellIndex).Success?
    ensures var caption := Retarget(h, dataSetName);
            var style := GetCellStyle(setStyles, caption, Header);
            var o := MultiSetHeader(h, dataSetName, setStyles, rowIndex, cellIndex, initialCellIndex).value;
            && (forall k, j :: 0 <= k < |h| && 0 <= j < |h[k].columns| ==>
                  && LabelCell(h, caption, cellIndex, rowIndex, style, k, j) in o.cells
                  && NameCell(h, initialCellIndex, rowIndex + 1, style, k, j) in o.cells)
            && (forall c :: c in o.cells ==> c.style == style && rowIndex <= c.row <= rowIndex + 1)
            && o.rowIndex == rowIndex + 1 && o.cellIndex == initialCellIndex + ColumnCount(h)
  {
    var caption := Retarget(h, dataSetName);
    var style := GetCellStyle(setStyles, caption, Header);
    if h == [] {
      HeaderOfNoTables(dataSetName, setStyles, rowIndex, cellIndex, initialCellIndex);
    } else {
      HeaderOfOnePass(h, dataSetName, setStyles, rowIndex, cellIndex, initialCellIndex);
      PassCellsHas(h, caption, cellIndex, rowIndex, style);
      NameRowHas(h, initialCellIndex, rowIndex + 1, style);
      PassCellsShape(h, caption, cellIndex, rowIndex, style);
      NameRowShape(h, initialCellIndex, rowIndex + 1, style);
    }
  }

  /** The merges of an unnamed data set that has not exactly one table: one
      per table on the label row. */
  lemma MultiSetUnnamedHeaderMerges(h: seq<HeaderEntry>, dataSetName: Option<string>, setStyles: Option<seq<SetStyle>>,
                                    rowIndex: nat, cellIndex: nat, initialCellIndex: nat)
    requires IsNullOrEmpty(dataSetName) && |h| != 1
    ensures MultiSetHeader(h, dataSetName, setStyles, rowIndex, cellIndex, initialCellIndex).Success?
    ensures var o := MultiSetHeader(h, dataSetName, setStyles, rowIndex, cellIndex, initialCellIndex).value;
            && |o.merges| == |h|
            && (forall k :: 0 <= k < |h| ==>
                  o.merges[k] == Merge(cellIndex + SpanTotal(h[..k]), rowIndex, cellIndex + SpanTotal(h[..k + 1]) - 1, rowIndex))
  {
    MergesOfOnePass(h, dataSetName, setStyles, rowIndex, cellIndex, initialCellIndex);
    forall k | 0 <= k < |h|
      ensures TableMerges(h, cellIndex, rowIndex)[k] == Merge(cellIndex + SpanTotal(h[..k]), rowIndex, cellIndex + SpanTotal(h[..k + 1]) - 1, rowIndex)
    {
      TableMergesAt(h, cellIndex, rowIndex, k);
    }
  }

  /** A single table gets exactly one merge, from the first to the last
      column position recorded: across both label rows when it is labelled
      with its own name, across the one label row otherwise. */
  lemma MultiSetSingleTableHeader(h: seq<HeaderEntry>, dataSetName: Option<string>, setStyles: Option<seq<SetStyle>>,
                                  rowIndex: nat, cellIndex: nat, initialCellIndex: nat)
    requires |h| == 1
    ensures MultiSetHeader(h, dataSetName, setStyles, rowIndex, cellIndex, initialCellIndex).Success?
    ensures MultiSetHeader(h, dataSetName, setStyles, rowIndex, cellIndex, initialCellIndex).value.merges
            == [if !IsNullOrEmpty(Retarget(h, dataSetName))
                then Merge(cellIndex, rowIndex, initialCellIndex + SpanTotal(h) - 1, rowIndex + 1)
                else Merge(cellIndex, rowIndex, cellIndex + SpanTotal(h) - 1, rowIndex)]
  {
    var ps := PassesOf(h, dataSetName, setStyles, rowIndex, cellIndex, initialCellIndex);
    if IsNullOrEmpty(Retarget(h, dataSetName)) {
      OnePass(h, dataSetName, setStyles, rowIndex, cellIndex, initialCellIndex);
      SingleTableOneRun(h, ps.value, rowIndex, cellIndex, initialCellIndex);
    } else {
      TwoPasses(h, dataSetName, setStyles, rowIndex, cellIndex, initialCellIndex);
      SingleTableTwoRuns(h, ps.value, rowIndex, cellIndex, initialCellIndex);
    }
    assert MultiSetHeader(h, dataSetName, setStyles, rowIndex, cellIndex, initialCellIndex) == Success(AfterPasses(h, initialCellIndex, ps.value));
  }

  /** With one pass, the single-table merge spans the table's one run. */
  lemma SingleTableOneRun(h: seq<HeaderEntry>, p: Passes, rowIndex: nat, cellIndex: nat, initialCellIndex: nat)
    requires |h| == 1 && p.merges == [] && p.fullIndexer == AtRow(RunBounds(h, cellIndex), rowIndex)
    ensures AfterPasses(h, initialCellIndex, p).merges == [Merge(cellIndex, rowIndex, cellIndex + SpanTotal(h) - 1, rowIndex)]
  {
    RunBoundsEnds(h, cellIndex);
    AtRowAt(RunBounds(h, cellIndex), rowIndex, 0);
    AtRowAt(RunBounds(h, cellIndex), rowIndex, 1);
    assert p.fullIndexer[0] == (cellIndex, rowIndex) && p.fullIndexer[1] == (cellIndex + SpanTotal(h) - 1, rowIndex);
  }

  /** With two passes, the single-table merge joins the first run's first
      column to the second run's last column, one row down. */
  lemma SingleTableTwoRuns(h: seq<HeaderEntry>, p: Passes, rowIndex: nat, cellIndex: nat, initialCellIndex: nat)
    requires |h| == 1 && p.merges == []
    requires p.fullIndexer == AtRow(RunBounds(h, cellIndex), rowIndex) + AtRow(RunBounds(h, initialCellIndex), rowIndex + 1)
    ensures AfterPasses(h, initialCellIndex, p).merges == [Merge(cellIndex, rowIndex, initialCellIndex + SpanTotal(h) - 1, rowIndex + 1)]
  {
    var first, second := AtRow(RunBounds(h, cellIndex), rowIndex), AtRow(RunBounds(h, initialCellIndex), rowIndex + 1);
    RunBoundsEnds(h, cellIndex);
    RunBoundsEnds(h, initialCellIndex);
    AtRowAt(RunBounds(h, cellIndex), rowIndex, 0);
    AtRowAt(RunBounds(h, initialCellIndex), rowIndex + 1, 1);
    assert first[0] == (cellIndex, rowIndex) && second[1] == (initialCellIndex + SpanTotal(h) - 1, rowIndex + 1);
    assert p.fullIndexer[0] == first[0] && p.fullIndexer[3] == second[1];
  }

  /** In a completed data set every header cell (text) is on rows 1 to 3 in
      the style of the (retargeted) name's Header rule, and every data cell
      (a value) has the style of the Border rule. */
  lemma MultiSetSheetStyles(data: Option<DataSet>, setStyles: Option<seq<SetStyle>>, cellIndex: nat)
    requires MultiSetSheet(data, setStyles, cellIndex).result.Success?
    ensures var tables := data.value.tables;
            var style := GetCellStyle(setStyles, Retarget(HeaderEntries(tables), data.value.dataSetName), Header);
            forall c :: c in MultiSetSheet(data, setStyles, cellIndex).result.value.cells ==>
              && (c.content.Text? ==> c.style == style && 1 <= c.row <= 3)
              && (c.content.Value? ==> c.style == RowStyle)
  {
    var tables := data.value.tables;
    var h, e, name := HeaderEntries(tables), RowEntries(tables), data.value.dataSetName;
    var caption := Retarget(h, name);
    var style := GetCellStyle(setStyles, caption, Header);
    var o := MultiSetHeader(h, name, setStyles, 1, cellIndex, cellIndex).value;
    var d := DataPass(e, o.rowIndex, cellIndex, o.cellIndex, RowStyle);
    if IsNullOrEmpty(caption) {
      MultiSetUnnamedHeaderCells(h, name, setStyles, 1, cellIndex, cellIndex);
      PassCellsShape(h, caption, cellIndex, 1, style);
      NameRowShape(h, cellIndex, 2, style);
    } else {
      MultiSetNamedHeaderCells(h, name, setStyles, 1, cellIndex, cellIndex);
      PassCellsShape(h, caption, cellIndex, 1, style);
      PassCellsShape(h, None, cellIndex, 2, style);
      NameRowShape(h, cellIndex, 3, style);
    }
    forall c | c in d.cells
      ensures c.content.Value? && c.style == RowStyle
    {
      DataPassOnly(e, o.rowIndex, cellIndex, o.cellIndex, RowStyle, c);
    }
  }

  /** A table without rows makes the whole data set fail with the null
      argument exception, once its header was laid out. */
  lemma MultiSetZeroRowsFails(data: DataSet, setStyles: Option<seq<SetStyle>>, cellIndex: nat, k: nat)
    requires NamesDistinct(data.tables)
    requires !IsNullOrEmpty(data.dataSetName) ==> data.tables != []
    requires k < |data.tables| && data.tables[k].rows == []
    ensures MultiSetSheet(Some(data), setStyles, cellIndex).result == Failure(ArgumentNull)
  {
    var h, e := HeaderEntries(data.tables), RowEntries(data.tables);
    MultiSetHeaderFails(h, data.dataSetName, setStyles, 1, cellIndex, cellIndex);
    var o := MultiSetHeader(h, data.dataSetName, setStyles, 1, cellIndex, cellIndex).value;
    DataPassOk(e, o.rowIndex, cellIndex, o.cellIndex, RowStyle);
    assert e[k].rows == [];
  }

  /** A regular data set completes and moves the column cursor on by exactly
      its number of columns. */
  lemma MultiSetSheetWidth(data: Option<DataSet>, setStyles: Option<seq<SetStyle>>, cellIndex: nat)
    requires Regular(data)
    ensures MultiSetSheet(data, setStyles, cellIndex).result.Success?
    ensures MultiSetSheet(data, setStyles, cellIndex).cursors.cellIndex == cellIndex + Width(data)
  {
    var tables := data.value.tables;
    var h, e := HeaderEntries(tables), RowEntries(tables);
    MultiSetHeaderFails(h, data.value.dataSetName, setStyles, 1, cellIndex, cellIndex);
    var o := MultiSetHeader(h, data.value.dataSetName, setStyles, 1, cellIndex, cellIndex).value;
    if IsNullOrEmpty(Retarget(h, data.value.dataSetName)) {
      MultiSetUnnamedHeaderCells(h, data.value.dataSetName, setStyles, 1, cellIndex, cellIndex);
    } else {
      MultiSetNamedHeaderCells(h, data.value.dataSetName, setStyles, 1, cellIndex, cellIndex);
    }
    DataPassOk(e, o.rowIndex, cellIndex, o.cellIndex, RowStyle);
    DataPassEnd(h, e, o.rowIndex, cellIndex, o.cellIndex, RowStyle);
  }

  /** Data sets are laid out side by side: each starts on row 1 at the column
      where the previous one ended, so after regular data sets the column
      cursor has moved on by the sum of their widths. */
  lemma {:induction false} MultiSetSideBySide(dataSets: seq<Option<DataSet>>, setStyles: Option<seq<SetStyle>>, start: Cursors)
    requires forall k :: 0 <= k < |dataSets| ==> Regular(dataSets[k])
    ensures MultiSetWorkbook(dataSets, setStyles, start).result.Success?
    ensures MultiSetWorkbook(dataSets, setStyles, start).cursors.cellIndex == start.cellIndex + TotalWidth(dataSets)
    decreases |dataSets|
  {
    if dataSets != [] {
      var p := dataSets[..|dataSets| - 1];
      assert forall k :: 0 <= k < |p| ==> p[k] == dataSets[k];
      MultiSetSideBySide(p, setStyles, start);
      var w := MultiSetWorkbook(p, setStyles, start);
      var last := dataSets[|dataSets| - 1];
      MultiSetSheetWidth(last, setStyles, w.cursors.cellIndex);
      var sheet := MultiSetSheet(last, setStyles, w.cursors.cellIndex);
      assert MultiSetWorkbook(dataSets, setStyles, start).cursors == sheet.cursors;
      assert TotalWidth(dataSets) == TotalWidth(p) + Width(last);
    }
  }

  /** The column cursor is never reset between exports: a second export
      starts where the first ended, to the right of everything it wrote. */
  lemma MultiSetExportsAccumulate(first: seq<Option<DataSet>>, second: seq<Option<DataSet>>, setStyles: Option<seq<SetStyle>>, start: Cursors)
    requires forall k :: 0 <= k < |first| ==> Regular(first[k])
    requires forall k :: 0 <= k < |second| ==> Regular(second[k])
    ensures var after := MultiSetWorkbook(first, setStyles, start).cursors;
            MultiSetWorkbook(second, setStyles, after).cursors.cellIndex == start.cellIndex + TotalWidth(first) + TotalWidth(second)
  {
    MultiSetSideBySide(first, setStyles, start);
    MultiSetSideBySide(second, setStyles, MultiSetWorkbook(first, setStyles, start).cursors);
  }

  /** The exporter's static state: the three cursors and the style rules (the
      caller's list itself, so rules added to it later are seen). */
  class MultiSetExcelExport {
    var rowIndex: nat
    var cellIndex: nat
    var initialCellIndex: nat
    var setStyles: StyleList?

    /** The static initial state: cursors at 0, an empty rule list. */
    constructor ()
      ensures rowIndex == 0 && cellIndex == 0 && initialCellIndex == 0
      ensures setStyles != null && fresh(setStyles) && setStyles.items == []
    {
      rowIndex, cellIndex, initialCellIndex := 0, 0, 0;
      setStyles := new StyleList();
    }

    /** The rules as the resolver sees them (none for a null list). */
    function Rules(): Option<seq<SetStyle>>
      reads this`setStyles, setStyles
    {
      if setStyles == null then None else Some(setStyles.items)
    }

    /** The cursors. */
    function Position(): Cursors
      reads this
    {
      Cursors(rowIndex, cellIndex, initialCellIndex)
    }

    /** The passes of the `goto NewHeader` loop: a first pass, and after a
        non-empty name the merge across the runs, the row cursor moved down,
        the column cursor back at the initial column and a second pass. */
    method HeaderPasses(h: seq<HeaderEntry>, dataSetName: Option<string>) returns (r: Result<Passes, Exception>)
      modifies this`rowIndex, this`cellIndex
      ensures r == PassesOf(h, dataSetName, Rules(), old(rowIndex), old(cellIndex), initialCellIndex)
      ensures r.Success? ==> rowIndex == r.value.rowIndex && cellIndex == r.value.cellIndex
      ensures r.Failure? ==> rowIndex == old(rowIndex) && cellIndex == old(cellIndex)
    {
      ghost var r0, c0 := rowIndex, cellIndex;
      var rules := Rules();
      var name := dataSetName;
      var cellStyle: Option<nat> := None;
      var cells: seq<PlacedCell> := [];
      var merges: seq<Merge> := [];
      var fullIndexer: seq<(nat, nat)> := [];
      ghost var visit := 0;
      while true
        invariant Rules() == rules
        invariant visit <= 1 && name == NameAt(dataSetName, visit)
        invariant visit == 1 ==> !IsNullOrEmpty(Retarget(h, dataSetName)) && h != []
        invariant Passes(cells, merges, fullIndexer, cellStyle, rowIndex, cellIndex) == AtNewHeader(h, dataSetName, rules, r0, c0, initialCellIndex, visit)
        decreases 1 - visit
      {
        var outcome;
        outcome, cellStyle, cells, merges, fullIndexer := NewHeader(h, dataSetName, rules, r0, c0, visit, name, cellStyle, cells, merges, fullIndexer);
        if outcome.Some? {
          return outcome.value;
        }
        name := None;
        visit := 1;
      }
    }

    /** One visit of the `NewHeader` label: a pass over the tables, then the
        end of the passes, the throw of `First()` on an empty indexer list,
        or the jump back with the merge across the pass, one row down at the
        initial column.  The indexer list is read only at that jump, so it is
        kept per visit. */
    method NewHeader(h: seq<HeaderEntry>, dataSetName: Option<string>, rules: Option<seq<SetStyle>>,
                     ghost r0: nat, ghost c0: nat, ghost visit: nat, name: Option<string>,
                     cellStyle: Option<nat>, cells: seq<PlacedCell>, merges: seq<Merge>, fullIndexer: seq<(nat, nat)>)
      returns (outcome: Option<Result<Passes, Exception>>, style: Option<nat>,
               cells': seq<PlacedCell>, merges': seq<Merge>, fullIndexer': seq<(nat, nat)>)
      modifies this`rowIndex, this`cellIndex
      requires visit <= 1 && name == NameAt(dataSetName, visit)
      requires visit == 1 ==> !IsNullOrEmpty(Retarget(h, dataSetName)) && h != []
      requires Passes(cells, merges, fullIndexer, cellStyle, rowIndex, cellIndex) == AtNewHeader(h, dataSetName, rules, r0, c0, initialCellIndex, visit)
      ensures outcome.Some? ==> outcome.value == PassesOf(h, dataSetName, rules, r0, c0, initialCellIndex)
      ensures outcome.Some? && outcome.value.Success? ==> rowIndex == outcome.value.value.rowIndex && cellIndex == outcome.value.value.cellIndex
      ensures outcome.Some? && outcome.value.Failure? ==> rowIndex == r0 && cellIndex == c0
      ensures outcome.None? ==> visit == 0 && !IsNullOrEmpty(Retarget(h, dataSetName)) && h != []
      ensures outcome.None? ==> Passes(cells', merges', fullIndexer', style, rowIndex, cellIndex) == AtNewHeader(h, dataSetName, rules, r0, c0, initialCellIndex, 1)
    {
      var caption, passCells, passMerges, indexerPrefix, fullBounds, next;
      caption, style, passCells, passMerges, indexerPrefix, fullBounds, next := HeaderPass(h, name, cellStyle, rules, rowIndex, cellIndex);
      cells', merges', cellIndex := cells + passCells, merges + passMerges, next;
      fullIndexer' := fullIndexer + fullBounds;
      if IsNullOrEmpty(caption) {
        // no jump back to `NewHeader`: the passes are over
        outcome := Some(Success(Passes(cells', merges', fullIndexer', style, rowIndex, cellIndex)));
        PassEnds(h, dataSetName, rules, r0, c0, initialCellIndex, visit, outcome.value.value);
        return;
      }
      PassJumps(h, dataSetName, rules, r0, c0, initialCellIndex, Passes(cells', merges', fullIndexer', style, rowIndex, cellIndex), indexerPrefix);
      if |h| != 1 {
        if indexerPrefix == [] {
          // First() on the empty indexer list
          return Some(Failure(EmptySequence)), style, cells', merges', fullIndexer';
        }
        merges' := merges' + [Merge(indexerPrefix[0], rowIndex, indexerPrefix[|indexerPrefix| - 1], rowIndex)];
      }
      rowIndex := rowIndex + 1;
      cellIndex := initialCellIndex;
      outcome := None;
    }

    /** `ApplyHeader`: the passes, then the single-table merge and the
        column-name row.  It moves the row and column cursors, unless it
        throws. */
    method ApplyHeader(h: seq<HeaderEntry>, dataSetName: Option<string>) returns (r: Result<HeaderOutcome, Exception>)
      modifies this
      ensures setStyles == old(setStyles) && initialCellIndex == old(initialCellIndex)
      ensures r == MultiSetHeader(h, dataSetName, Rules(), old(rowIndex), old(cellIndex), initialCellIndex)
      ensures r.Success? ==> rowIndex == r.value.rowIndex && cellIndex == r.value.cellIndex
      ensures r.Failure? ==> rowIndex == old(rowIndex) && cellIndex == old(cellIndex)
    {
      var passes := HeaderPasses(h, dataSetName);
      if passes.Failure? {
        return Failure(passes.error);
      }
      var outcome := HeaderTail(h, passes.value);
      return Success(outcome);
    }

    /** The end of `ApplyHeader`, after the passes: a single table gets one
        merge from the first to the last entry of the full indexer; then the
        row cursor moves down, the column cursor goes back to the initial
        column and the column names are written with the resolved style. */
    method HeaderTail(h: seq<HeaderEntry>, p: Passes) returns (outcome: HeaderOutcome)
      requires rowIndex == p.rowIndex
      requires |h| == 1 ==> p.fullIndexer != []
      modifies this
      ensures setStyles == old(setStyles) && initialCellIndex == old(initialCellIndex)
      ensures outcome == AfterPasses(h, initialCellIndex, p)
      ensures rowIndex == outcome.rowIndex && cellIndex == outcome.cellIndex
    {
      var merges := p.merges;
      if |h| == 1 {
        var firstRef, lastRef := p.fullIndexer[0], p.fullIndexer[|p.fullIndexer| - 1];
        merges := merges + [Merge(firstRef.0, firstRef.1, lastRef.0, lastRef.1)];
      }
      rowIndex := rowIndex + 1;
      cellIndex := initialCellIndex;
      var names: seq<PlacedCell> := [];
      var next := cellIndex;
      if p.cellStyle.Some? {
        names, next := NameRowCells(h, cellIndex, rowIndex, p.cellStyle.value);
      }
      cellIndex := next;
      outcome := HeaderOutcome(p.cells + names, merges, rowIndex, cellIndex);
    }

    /** `AddRows`: the data rows below the header with the Border style; the
        cursors keep the values they had when a table without rows throws. */
    method AddRows(rowDataList: seq<RowEntry>) returns (ok: bool, cells: seq<PlacedCell>)
      modifies this
      ensures setStyles == old(setStyles) && initialCellIndex == old(initialCellIndex)
      ensures var d := DataPass(rowDataList, old(rowIndex), initialCellIndex, old(cellIndex), RowStyle);
              ok == d.ok && cells == d.cells && rowIndex == d.rowIndex && cellIndex == d.cellIndex
    {
      var newRowIndex, newCellIndex;
      ok, cells, newRowIndex, newCellIndex := Layout.AddRows(rowDataList, rowIndex, cellIndex, initialCellIndex, RowStyle);
      rowIndex, cellIndex := newRowIndex, newCellIndex;
    }

    /** `CreateSheetData`: row cursor to 1, the data set's first column taken
        from the column cursor, then its header and its rows. */
    method CreateSheetData(data: Option<DataSet>) returns (r: Result<Written, Exception>)
      modifies this
      ensures setStyles == old(setStyles)
      ensures var run := MultiSetSheet(data, Rules(), old(cellIndex));
              r == run.result && Position() == run.cursors
    {
      ghost var rules := Rules();
      rowIndex := 0;
      rowIndex := rowIndex + 1;
      initialCellIndex := cellIndex;
      var headerNameList := GetHeaderNameList(data);
      if headerNameList.Failure? {
        return Failure(headerNameList.error);
      }
      var rowDataList := ConvertToRowDataList(data);
      if rowDataList.Failure? {
        // the same keys were accepted by GetHeaderNameList
        assert false;
      }
      if data.None? {
        // reading the name of a null data set
        return Failure(NullReference);
      }
      ghost var tables := data.value.tables;
      assert headerNameList.value == HeaderEntries(tables) && rowDataList.value == RowEntries(tables);
      var header := ApplyHeader(headerNameList.value, data.value.dataSetName);
      assert setStyles == old(setStyles) && Rules() == rules;
      if header.Failure? {
        return Failure(header.error);
      }
      var ok, cells := AddRows(rowDataList.value);
      assert setStyles == old(setStyles) && Rules() == rules;
      SheetLaidOut(data.value, rules, initialCellIndex, header.value, ok, cells, rowIndex, cellIndex);
      if !ok {
        // Count() of the null first row of an empty table
        return Failure(ArgumentNull);
      }
      return Success(Written(header.value.cells + cells, header.value.merges));
    }

    /** `CreateNewSheet`: every data set through `CreateSheetData`, on one
        sheet. */
    method CreateNewSheet(dataSets: seq<Option<DataSet>>) returns (r: Result<Written, Exception>)
      modifies this
      ensures setStyles == old(setStyles)
      ensures var run := MultiSetWorkbook(dataSets, Rules(), old(Position()));
              r == run.result && Position() == run.cursors
    {
      ghost var start := Position();
      var cells: seq<PlacedCell> := [];
      var merges: seq<Merge> := [];
      for k := 0 to |dataSets|
        invariant setStyles == old(setStyles)
        invariant MultiSetWorkbook(dataSets[..k], Rules(), start) == Run(Success(Written(cells, merges)), Position())
      {
        WorkbookStep(dataSets, Rules(), start, k, cells, merges, Position());
        var sheet := CreateSheetData(dataSets[k]);
        if sheet.Failure? {
          MultiSetWorkbookStops(dataSets, Rules(), start, k + 1);
          return Failure(sheet.error);
        }
        cells, merges := cells + sheet.value.cells, merges + sheet.value.merges;
      }
      assert dataSets[..|dataSets|] == dataSets;
      return Success(Written(cells, merges));
    }

    /** `CreateExcelDocument(path, sheet, dataSets)`: true with the sheet's
        cells and merges when every data set was laid out, false when any
        step threw; the cursors keep what the export left either way. */
    method CreateExcelDocument(dataSets: seq<Option<DataSet>>) returns (ok: bool, written: Written)
      modifies this
      ensures setStyles == old(setStyles)
      ensures var run := MultiSetWorkbook(dataSets, Rules(), old(Position()));
              && ok == run.result.Success?
              && written == (if ok then run.result.value else Written([], []))
              && Position() == run.cursors
    {
      var r := CreateNewSheet(dataSets);
      if r.Failure? {
        return false, Written([], []);
      }
      return true, r.value;
    }

    /** `CreateExcelDocument(model)`: installs the model's rule list, then
        exports its data sets. */
    method CreateExcelDocumentWithStyles(styles: StyleList?, dataSets: seq<Option<DataSet>>) returns (ok: bool, written: Written)
      modifies this
      ensures setStyles == styles
      ensures var run := MultiSetWorkbook(dataSets, Rules(), old(Position()));
              && ok == run.result.Success?
              && written == (if ok then run.result.value else Written([], []))
              && Position() == run.cursors
    {
      setStyles := styles;
      ok, written := CreateExcelDocument(dataSets);
    }
  }
}
