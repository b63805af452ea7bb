# ExcelExport grid layout, modelled in Dafny

ExcelExport writes one or more `DataSet`s onto a single spreadsheet sheet.
This project models its grid layout engine: how a data set becomes placed
cells, header merge regions and style ids. Both variants of the engine are
modelled:

- `MultiSetExcelExport` (module `MultiSetExport`). It keeps its three cursors
  (`rowIndex`, `cellIndex`, `initialCellIndex`) and its style rules in static
  fields, here the fields of the class `MultiSetExport.MultiSetExcelExport`.
  - It resolves one header style per data set from the style rules.
  - It relabels a data set with a single table by that table's name, and gives
    it one merge over its whole label block.
  - It never resets the column cursor between exports.
  - Any exception makes the export answer `false`.
- `DynamicDataIntoExcel` (module `DynamicExport`). It passes its cursors by
  reference.
  - It gives every header cell style 5 (Alignment) and every data cell style 0.
  - A named data set always gets a merge across all its tables, even when
    there is only one.
  - Its exceptions escape to the caller.

Shared pieces:

- `Layout`:
  - the grid vocabulary: a placed cell is (column, row, content, style); a
    merge is (first column, first row, last column, last row);
  - the loops the two exporters carry in identical copies: one table's label
    run, the column-name row and the data rows (`AddRows`);
  - the `CreateTextCell(object)` type tag.

  Columns are the 0-based numeric cursor values. `ColumnLetter` turns a
  column into letters separately.
- `Styles`: the style ids (`Enum.cs`), the rule record (`SetStyle.cs`), the
  registry `Add` extension over a caller-owned list, and the resolver
  `GetCellStyle`.
- `DataStore`:
  - the projection of a data set into the ordered (table name → column names)
    and (table name → rows) lists of `MyDataStoreHelper`;
  - a repeated table name is modelled as the `Dictionary.Add` exception.
- `ColumnAddress`:
  - the column letter encoder `ColumnLetter`, identical in both exporters,
    including .NET's `Trim` white-space set;
  - the conventional bijective base-26 naming it is measured against.

The loops of the source are Dafny methods. Each is proved equal to a function
of its inputs (`DynamicHeader`, `MultiSetHeader`, `DataPass`,
`DynamicWorkbook`, `MultiSetWorkbook` and others). The layout properties are
lemmas about those functions:

- the header rows and their merges;
- the single-table merge;
- that every value stands under its column name;
- style use;
- that data sets are placed side by side;
- the failure cases.

The `goto NewHeader` repetition is a `while` loop with a ghost visit counter.
It runs at most twice.
In the multi-set exporter each iteration calls `NewHeader`: one visit of that label.

## Model

| member | source | states |
|---|---|---|
| Styles.Added | ExcelDataMerge/ExtensionMethods/ICollectionExtension.cs:20-33 | the list after `Add` keeps the old list as a prefix, grows by at most one, and afterwards holds a rule with the given (name, column index) |
| Styles.StyleList.constructor | ExcelDataMerge/MultiSetExcelExport.cs:42 | a new rule list is empty |
| Styles.StyleList.Add | ExcelDataMerge/ExtensionMethods/ICollectionExtension.cs:20-33 | updates the caller's list in place to exactly `Added` of the old list |
| Styles.SameRuleIsKeyEquality | ExcelDataMerge/ExtensionMethods/ICollectionExtension.cs:22 | the duplicate test (indices equal when both present, else both absent) is equality of the (name, column index) key |
| Styles.AddedCases | ExcelDataMerge/ExtensionMethods/ICollectionExtension.cs:22-30 | a present key leaves the list unchanged; a new key appends exactly one rule carrying the given name, styles and index |
| Styles.AddedKeepsKeysUnique | ExcelDataMerge/ExtensionMethods/ICollectionExtension.cs:22-31 | `Add` preserves the invariant that no two rules share (name, column index) |
| Styles.FirstRegistrationWins | ExcelDataMerge/ExtensionMethods/ICollectionExtension.cs:22-31 | a second `Add` of a present key, whatever its styles, changes nothing |
| Styles.IndexedAndUnindexedDistinct | ExcelDataMerge/ExtensionMethods/ICollectionExtension.cs:22 | ("X", none) after ("X", 3) is appended as a new rule |
| Styles.FirstNamed | ExcelDataMerge/MultiSetExcelExport.cs:477 | the position of the first rule with the target name, with no earlier rule of that name, or the list length when there is none |
| Styles.GetCellStyleFirstMatch | ExcelDataMerge/MultiSetExcelExport.cs:473-500 | the resolver returns the role's style of the first rule named like the target; with no match or no list, 9 for Header and 6 for Row |
| Styles.RoleStyle | ExcelDataMerge/MultiSetExcelExport.cs:480-487 | the Header role takes the rule's header style, the Row role its row style |
| Styles.GetCellStyle | ExcelDataMerge/MultiSetExcelExport.cs:473-499 | with no list the answer is 9 for Header and 6 for Row; otherwise it is that default or the role style of some rule carrying the target name (which rule: GetCellStyleFirstMatch) |
| Styles.GetCellStyleIgnoresColumnIndex | ExcelDataMerge/MultiSetExcelExport.cs:477 | rule lists differing only in column indices resolve identically |
| Styles.AddedKeepsLookup | ExcelDataMerge/ExtensionMethods/ICollectionExtension.cs:20-33 | registering a rule never changes the style of a name that already has one |
| Styles.AddedNewNameIsFound | ExcelDataMerge/ExtensionMethods/ICollectionExtension.cs:24-30 | a rule added for a new name becomes that name's header or row style |
| DataStore.FirstRepeatUnique | ExcelDataMerge/Data/MyDataStore.cs:182 | at most one table is the first to repeat an earlier table's name |
| DataStore.RepeatBreaksDistinct | ExcelDataMerge/Data/MyDataStore.cs:182 | a repeated name makes every longer prefix of the tables non-distinct |
| DataStore.DuplicateAt | ExcelDataMerge/Data/MyDataStore.cs:174-183 | the first table whose name repeats an earlier one, or the table count exactly when all names are distinct |
| DataStore.GetHeaderNameList | ExcelDataMerge/Data/MyDataStore.cs:166-186 | empty for a null data set or no tables; succeeds iff table names are distinct, with one entry per table in order (name, column names in order); otherwise throws the duplicate-key exception for the first repeated name |
| DataStore.ConvertToRowDataList | ExcelDataMerge/Data/MyDataStore.cs:195-215 | the same keys in the same order, each with its table's rows in order; the same failure condition |
| DataStore.GetHeaderNameListOfTable | ExcelDataMerge/Data/MyDataStore.cs:222-236 | empty for a null table; otherwise the column names in order, one per column |
| DataStore.ConvertToRowDataListOfTable | ExcelDataMerge/Data/MyDataStore.cs:243-257 | empty for a null table; otherwise the rows in order, one per row |
| ColumnAddress.TrimStart | ExcelDataMerge/MultiSetExcelExport.cs:379 | drops exactly the leading white space: a suffix of the input, all removed characters white space, the first kept one not |
| ColumnAddress.TrimEnd | ExcelDataMerge/MultiSetExcelExport.cs:379 | drops exactly the trailing white space |
| ColumnAddress.Trim | ExcelDataMerge/MultiSetExcelExport.cs:379 | the result neither starts nor ends with white space |
| ColumnAddress.Letter | ExcelDataMerge/MultiSetExcelExport.cs:375-376 | digit d in 1..26 is the capital letter with code 64 + d |
| ColumnAddress.ColumnLetter | ExcelDataMerge/MultiSetExcelExport.cs:369-380 | one to three characters, the last one always the letter of index % 26 |
| ColumnAddress.Spell | ExcelDataMerge/MultiSetExcelExport.cs:375-379 | joining the three digit characters and trimming keeps the low letter last |
| ColumnAddress.SpellLetters | ExcelDataMerge/MultiSetExcelExport.cs:371-379 | letter digits spell their letter form: leading zero digits dropped, an inner zero shown as a space |
| ColumnAddress.ColumnLetterIsLetterForm | ExcelDataMerge/MultiSetExcelExport.cs:371-379 | below 27 × 676 the address is the letter form of the digits (i / 676, i % 676 / 26, i % 26) |
| ColumnAddress.ColumnLetterBelow676 | ExcelDataMerge/MultiSetExcelExport.cs:369-380 | on 0..675: 'A' + i below 26, else 'A' + (i / 26 − 1) followed by 'A' + i % 26 |
| ColumnAddress.ColumnLetterFrom676 | ExcelDataMerge/MultiSetExcelExport.cs:369-380 | from 676 on: the top digit's letter, the middle letter or a space when the middle digit is zero, the low letter |
| ColumnAddress.LetterFormInjective | ExcelDataMerge/MultiSetExcelExport.cs:371-379 | different digit triples have different letter forms |
| ColumnAddress.ColumnLetterInjective | ExcelDataMerge/MultiSetExcelExport.cs:369-380 | the encoder is injective on indices whose top digit is a letter (below 27 × 676), in particular on 0..675 |
| ColumnAddress.SpellWhiteSpaceTop | ExcelDataMerge/MultiSetExcelExport.cs:375-379 | when the top digit's code is a .NET white-space character (U+0085 for index / 676 == 69), Trim drops it and only the middle and low letters remain, so index 46670 is "AA" like index 26 |
| ColumnAddress.ColumnName | ExcelDataMerge/DynamicDataIntoExcel.cs:438-449 | conventional bijective base-26 name of a column: non-empty capital letters |
| ColumnAddress.ColumnNumber | ExcelDataMerge/DynamicDataIntoExcel.cs:438-449 | the 1-based number a conventional name stands for, at least 1 for a non-empty name |
| ColumnAddress.ColumnNameRoundTrip | ExcelDataMerge/DynamicDataIntoExcel.cs:438-449 | decoding the conventional name of i gives i + 1 |
| ColumnAddress.ColumnNumberRoundTrip | ExcelDataMerge/DynamicDataIntoExcel.cs:438-449 | every non-empty capital-letter word is the conventional name of the column it decodes to |
| ColumnAddress.ColumnNameOfDigits | ExcelDataMerge/DynamicDataIntoExcel.cs:440-448 | the conventional name of the digits d1, d2, d3 is their letter form whenever no zero digit sits below a non-zero one |
| ColumnAddress.ColumnLetterMatchesConventional | ExcelDataMerge/MultiSetExcelExport.cs:369-380 | the encoder agrees with conventional naming on 0..675, and beyond wherever the middle digit is not zero |
| ColumnAddress.ColumnLetterInnerSpace | ExcelDataMerge/DynamicDataIntoExcel.cs:438-449 | from 676 on, a zero middle digit gives a three-character address with an inner space, which differs from the conventional name |
| Layout.TypeTag | ExcelDataMerge/MultiSetExcelExport.cs:430-449 | Number iff the value is one of the five numeric types, Boolean iff a bool, Date iff a DateTime, otherwise String |
| Layout.IndexOf | ExcelDataMerge/MultiSetExcelExport.cs:267 | the first position holding the name, or −1 when no position does |
| Layout.Span | ExcelDataMerge/MultiSetExcelExport.cs:251-271 | a label run takes at least one column |
| Layout.SpanOfDistinct | ExcelDataMerge/MultiSetExcelExport.cs:264-271 | a table with columns and distinct column names spans exactly its columns |
| Layout.LabelRun | ExcelDataMerge/MultiSetExcelExport.cs:251-271 | the run starts at the cursor, writes one label per column at consecutive columns, ends at start + Span − 1 and leaves the cursor one past it |
| Layout.PassCells | ExcelDataMerge/MultiSetExcelExport.cs:248-286 | a pass writes one label cell per column name |
| Layout.TableMerges | ExcelDataMerge/MultiSetExcelExport.cs:273-280 | one merge per table |
| Layout.RunBounds | ExcelDataMerge/MultiSetExcelExport.cs:282-285 | two indexer entries (first and last column) per table |
| Layout.NameRow | ExcelDataMerge/MultiSetExcelExport.cs:317-324 | one name cell per column name |
| Layout.NameRowCells | ExcelDataMerge/MultiSetExcelExport.cs:317-324 | the nested name loop writes exactly `NameRow` and leaves the cursor advanced by the column count |
| Layout.TableLabels | ExcelDataMerge/MultiSetExcelExport.cs:249-285 | one iteration of a pass extends the cells, the merges (when merging) and the indexer list by table k's run and advances the cursor by its span |
| Layout.PassCellsAt | ExcelDataMerge/MultiSetExcelExport.cs:251-271 | label j of table k is at column start + (spans of earlier tables) + j, with the caption or the table's name |
| Layout.NameRowAt | ExcelDataMerge/MultiSetExcelExport.cs:317-324 | name j of table k is at column start + (column counts of earlier tables) + j |
| Layout.PassCellsHas | ExcelDataMerge/MultiSetExcelExport.cs:264-271 | every (table, column) has its label cell in the pass |
| Layout.NameRowHas | ExcelDataMerge/MultiSetExcelExport.cs:317-324 | every (table, column) has its name cell in the column-name row |
| Layout.PassPosition | ExcelDataMerge/MultiSetExcelExport.cs:248-286 | every position of a pass belongs to some (table, column) |
| Layout.TableMergesAt | ExcelDataMerge/MultiSetExcelExport.cs:273-280 | merge k covers exactly table k's run on the pass's row; consecutive runs tile the pass |
| Layout.RunBoundsEnds | ExcelDataMerge/MultiSetExcelExport.cs:296 | the first indexer entry is the start column and the last is the last column of the last run |
| Layout.PassCellsShape | ExcelDataMerge/MultiSetExcelExport.cs:265 | every cell of a pass is text on the pass's row with the pass's style |
| Layout.NameRowShape | ExcelDataMerge/MultiSetExcelExport.cs:321 | every cell of the column-name row is text on that row with its style |
| Layout.SpanTotalWellFormed | ExcelDataMerge/MultiSetExcelExport.cs:251-267 | with at least one column and distinct names per table, the label runs take exactly the column count |
| Layout.LabelsAboveNames | ExcelDataMerge/MultiSetExcelExport.cs:264-324 | for a well-formed header every label stands in the same column as its column's name |
| Layout.RowOf | ExcelDataMerge/MultiSetExcelExport.cs:343-347 | one data cell per value |
| Layout.AppendRow | ExcelDataMerge/MultiSetExcelExport.cs:343-347 | the innermost loop appends value j at column start + j and leaves the cursor at start + width |
| Layout.AppendTable | ExcelDataMerge/MultiSetExcelExport.cs:339-348 | the middle loop puts row i on row rowIndex + 1 + i from the table's start column; the row cursor ends |rows| further down |
| Layout.AddRows | ExcelDataMerge/MultiSetExcelExport.cs:331-361 | the data-row loops produce exactly `DataPass`: cells, row and column cursors, and whether a table without rows threw |
| Layout.DataPassStops | ExcelDataMerge/MultiSetExcelExport.cs:353 | once a table throws, the later tables change nothing |
| Layout.DataPassOk | ExcelDataMerge/MultiSetExcelExport.cs:350-353 | the rows complete iff every table has a row; the next start column is the initial column plus the first-row widths |
| Layout.TableRowsHas | ExcelDataMerge/MultiSetExcelExport.cs:339-348 | value m of row i is written at (start + m, rowIndex + 1 + i) |
| Layout.TableRowsOnly | ExcelDataMerge/MultiSetExcelExport.cs:339-348 | every cell of a table's data block is such a value |
| Layout.DataPassHas | ExcelDataMerge/MultiSetExcelExport.cs:333-355 | every value of every table is written: table k at the initial column plus the earlier tables' first-row widths, on the rows directly below the header |
| Layout.DataPassOnly | ExcelDataMerge/MultiSetExcelExport.cs:333-355 | nothing else is written: every data cell is some value at its place, with the data style |
| Layout.DataUnderNames | ExcelDataMerge/MultiSetExcelExport.cs:353 | with rectangular tables, table k's data starts in the column of its first column name |
| Layout.DataPassEnd | ExcelDataMerge/MultiSetExcelExport.cs:335-353 | completed rectangular rows leave the column cursor at the initial column plus the column count and the row cursor on the last table's last row |
| DynamicExport.HeaderPass | ExcelDataMerge/DynamicDataIntoExcel.cs:168-194 | one pass writes `PassCells` in style 5, per-table merges exactly when the name is null or empty, the indexer bounds, and advances the cursor by the spans |
| DynamicExport.DynamicPassEnds | ExcelDataMerge/DynamicDataIntoExcel.cs:213-221 | a pass with a null or empty name followed by the column names gives the outcome `DynamicHeader` describes |
| DynamicExport.DynamicPassJumps | ExcelDataMerge/DynamicDataIntoExcel.cs:197-210 | a named pass with no tables has an empty indexer and the header fails; otherwise the merge from its first to last indexer entry spans the pass and the state is the second visit's |
| DynamicExport.NameRowAfterPasses | ExcelDataMerge/DynamicDataIntoExcel.cs:213-221 | the exit of the header loop returns `DynamicHeader` |
| DynamicExport.ApplyHeader | ExcelDataMerge/DynamicDataIntoExcel.cs:155-222 | the `goto` loop and name row compute exactly `DynamicHeader` |
| DynamicExport.CreateSheetData | ExcelDataMerge/DynamicDataIntoExcel.cs:134-144 | row cursor 1, the data set from the column cursor, projection, header and rows compute exactly `DynamicSheet`, with each throw as its failure |
| DynamicExport.DynamicWorkbookStops | ExcelDataMerge/DynamicDataIntoExcel.cs:57-60 | once a data set fails, the later ones change nothing |
| DynamicExport.CreateSpreadsheetWorkbook | ExcelDataMerge/DynamicDataIntoExcel.cs:23-71 | the data sets in order from column 0, each from the cursor the previous left, compute exactly `DynamicWorkbook` |
| DynamicExport.CreateSpreadsheetWorkbookOfDataSet | ExcelDataMerge/DynamicDataIntoExcel.cs:79-122 | the single data set overload equals the workbook of the one-element list |
| DynamicExport.DynamicHeaderFails | ExcelDataMerge/DynamicDataIntoExcel.cs:197-205 | the header fails exactly for a non-empty name with no tables |
| DynamicExport.DynamicNamedHeaderCells | ExcelDataMerge/DynamicDataIntoExcel.cs:168-221 | a named data set: every column labelled with the name on row r, with its table's name on row r+1, its column name on row r+2; all cells style 5 on rows r..r+2; cursors r+2 and initial + column count |
| DynamicExport.DynamicNamedHeaderMerges | ExcelDataMerge/DynamicDataIntoExcel.cs:184-205 | |h|+1 merges: one across all runs on row r, even for one table, then one per table on row r+1 |
| DynamicExport.DynamicUnnamedHeaderCells | ExcelDataMerge/DynamicDataIntoExcel.cs:176-221 | a null or empty name: the label row (table names for null, the empty name itself for empty) and the column names; all style 5 on rows r..r+1 |
| DynamicExport.DynamicUnnamedHeaderMerges | ExcelDataMerge/DynamicDataIntoExcel.cs:184-191 | one merge per table on the label row, covering its run |
| DynamicExport.DynamicSheetStyles | ExcelDataMerge/DynamicDataIntoExcel.cs:176-247 | in a completed data set every header cell has style 5 and lies on rows 1..3; every data cell (written at line 482) has style 0; no rule lookup |
| DynamicExport.DynamicSheetWidth | ExcelDataMerge/DynamicDataIntoExcel.cs:134-144 | a regular data set completes and moves the column cursor on by exactly its column count |
| DynamicExport.DynamicSideBySide | ExcelDataMerge/DynamicDataIntoExcel.cs:51-138 | regular data sets are placed side by side from column 0: the final column cursor is the sum of their widths |
| MultiSetExport.AtRow | ExcelDataMerge/MultiSetExcelExport.cs:284-285 | one full-indexer entry per indexer entry |
| MultiSetExport.AtRowAt | ExcelDataMerge/MultiSetExcelExport.cs:284-285 | entry i pairs column i with the pass's row |
| MultiSetExport.Retarget | ExcelDataMerge/MultiSetExcelExport.cs:253-256 | when the header name list has exactly one entry and the name is not null, the pass is relabelled with that entry's name; otherwise the name is kept; a null name stays null |
| MultiSetExport.HeaderPass | ExcelDataMerge/MultiSetExcelExport.cs:248-286 | one pass: the single-table relabelling, the style resolved at the first table unless already resolved, `PassCells` in that style, per-table merges only for a null or empty name with other than one table, both indexer lists, the cursor advanced by the spans |
| MultiSetExport.OnePass | ExcelDataMerge/MultiSetExcelExport.cs:241-286 | a null or empty (retargeted) name makes one pass, field by field |
| MultiSetExport.TwoPasses | ExcelDataMerge/MultiSetExcelExport.cs:241-304 | a non-empty name with tables makes two passes, the merge across the first (unless one table), row cursor +1, column cursor back at the initial column |
| MultiSetExport.PassEnds | ExcelDataMerge/MultiSetExcelExport.cs:287 | a pass with a null or empty name ends the loop with the state `PassesOf` describes |
| MultiSetExport.PassJumps | ExcelDataMerge/MultiSetExcelExport.cs:287-304 | a named first pass with no tables throws on `First()`; otherwise it reaches the second visit's state |
| MultiSetExport.NamesAfter | ExcelDataMerge/MultiSetExcelExport.cs:317-324 | the column-name row has one cell per column name when a style was resolved, none otherwise |
| MultiSetExport.SheetLaidOut | ExcelDataMerge/MultiSetExcelExport.cs:160-176 | a data set whose header and rows were computed gives the sheet run of header then rows |
| MultiSetExport.WorkbookStep | ExcelDataMerge/MultiSetExcelExport.cs:133-136 | one more data set after a run that has not failed is its sheet from the cursor the run left |
| MultiSetExport.MultiSetWorkbookStops | ExcelDataMerge/MultiSetExcelExport.cs:133-136 | once a data set fails, the later ones change nothing |
| MultiSetExport.HeaderOfOnePass | ExcelDataMerge/MultiSetExcelExport.cs:248-324 | with one pass and tables: the label row then the column names one row down, style of the retargeted name's Header rule |
| MultiSetExport.HeaderIsAfterPasses | ExcelDataMerge/MultiSetExcelExport.cs:305-324 | a header whose passes succeed is the passes followed by the single-table merge and the name row |
| MultiSetExport.AfterStyledPasses | ExcelDataMerge/MultiSetExcelExport.cs:315-324 | once a style was resolved, the names follow one row below the passes and the cursor ends past them |
| MultiSetExport.HeaderOfNoTables | ExcelDataMerge/MultiSetExcelExport.cs:248-324 | no tables and a null or empty name write nothing; the row cursor still moves down |
| MultiSetExport.MergesOfOnePass | ExcelDataMerge/MultiSetExcelExport.cs:273-280 | one pass with other than one table leaves one merge per table |
| MultiSetExport.HeaderOfTwoPasses | ExcelDataMerge/MultiSetExcelExport.cs:248-324 | two passes: name row, table-name row and column-name row; the merge across all runs then one per table for several tables |
| MultiSetExport.MultiSetHeaderFails | ExcelDataMerge/MultiSetExcelExport.cs:287-298 | the header fails exactly for a non-empty name with no tables |
| MultiSetExport.MultiSetNamedHeaderCells | ExcelDataMerge/MultiSetExcelExport.cs:263-322 | three header rows: the (retargeted) name over every column on row r, table names on r+1, column names on r+2; every cell in the name's Header style, rows r..r+2 |
| MultiSetExport.MultiSetNamedHeaderMerges | ExcelDataMerge/MultiSetExcelExport.cs:273-298 | a named data set with several tables: one merge across all runs on row r, then one per table on r+1 |
| MultiSetExport.MultiSetUnnamedHeaderCells | ExcelDataMerge/MultiSetExcelExport.cs:263-322 | a null or empty (retargeted) name: the label row and the column names, all in the name's Header style, rows r..r+1 |
| MultiSetExport.MultiSetUnnamedHeaderMerges | ExcelDataMerge/MultiSetExcelExport.cs:273-280 | one merge per table on the label row, for other than one table |
| MultiSetExport.MultiSetSingleTableHeader | ExcelDataMerge/MultiSetExcelExport.cs:253-312 | a single table gets exactly one merge: (first col, r) to (last col, r+1) when labelled with its name, a single-row merge on r otherwise |
| MultiSetExport.MultiSetSheetStyles | ExcelDataMerge/MultiSetExcelExport.cs:258-321 | header cells have the style of the retargeted name's Header rule and lie on rows 1..3; data cells (written at lines 346 and 417) have style 6, never looked up |
| MultiSetExport.MultiSetZeroRowsFails | ExcelDataMerge/MultiSetExcelExport.cs:353 | a table without rows makes the data set fail with the null-argument exception |
| MultiSetExport.MultiSetSheetWidth | ExcelDataMerge/MultiSetExcelExport.cs:160-176 | a regular data set completes and moves the column cursor on by its column count |
| MultiSetExport.MultiSetSideBySide | ExcelDataMerge/MultiSetExcelExport.cs:133-168 | regular data sets are placed side by side: the column cursor moves on by the sum of their widths |
| MultiSetExport.MultiSetExportsAccumulate | ExcelDataMerge/MultiSetExcelExport.cs:160-176 | the column cursor (the field at line 27) is never reset: a second export starts right of everything the first wrote |
| MultiSetExport.MultiSetExcelExport.constructor | ExcelDataMerge/MultiSetExcelExport.cs:22-42 | the static initial state: cursors 0 and an empty rule list |
| MultiSetExport.MultiSetExcelExport.HeaderPasses | ExcelDataMerge/MultiSetExcelExport.cs:238-304 | the `goto` loop computes exactly `PassesOf` and leaves the cursors it describes; unchanged cursors on a throw |
| MultiSetExport.MultiSetExcelExport.NewHeader | ExcelDataMerge/MultiSetExcelExport.cs:247-304 | one visit of the label: a pass that ends the passes with `PassesOf`, throws with the cursors unchanged, or jumps back in the state of the second visit, one row down at the initial column |
| MultiSetExport.MultiSetExcelExport.ApplyHeader | ExcelDataMerge/MultiSetExcelExport.cs:236-325 | computes exactly `MultiSetHeader` and moves the row and column cursors as it does |
| MultiSetExport.MultiSetExcelExport.HeaderTail | ExcelDataMerge/MultiSetExcelExport.cs:305-324 | the single-table merge, row cursor +1 and the column names from the initial column: exactly `AfterPasses` |
| MultiSetExport.MultiSetExcelExport.AddRows | ExcelDataMerge/MultiSetExcelExport.cs:331-361 | the data rows with style 6 from the cursor fields: exactly `DataPass`, cursor fields updated |
| MultiSetExport.MultiSetExcelExport.CreateSheetData | ExcelDataMerge/MultiSetExcelExport.cs:160-176 | exactly `MultiSetSheet`: result and the cursors left behind, also after a failure |
| MultiSetExport.MultiSetExcelExport.CreateNewSheet | ExcelDataMerge/MultiSetExcelExport.cs:120-152 | exactly `MultiSetWorkbook` from the current cursors |
| MultiSetExport.MultiSetExcelExport.CreateExcelDocument | ExcelDataMerge/MultiSetExcelExport.cs:70-85 | true with the sheet's cells and merges iff every data set was laid out, false when a step threw |
| MultiSetExport.MultiSetExcelExport.CreateExcelDocumentWithStyles | ExcelDataMerge/MultiSetExcelExport.cs:52-61 | installs the model's rule list, then exports as `CreateExcelDocument` |

## Left out

- OpenXML plumbing is not modelled: document, workbook and worksheet parts, sheet registration, `Save`/`Close`, `SetMergeCell` and where it inserts the merge element. The model keeps only cell and merge coordinates.
- Which `Row` element a cell is appended to is not modelled. Cells are identified by their (column, row) reference.
- Merge references are numeric (column, row) pairs, not the letter strings the source concatenates. `ColumnLetter` is modelled on its own.
- `StyleSheetSetting.cs`, both `GenerateStyleSheet` methods and `ApplyStyles` are not modelled: they are font, fill and border construction. Style ids are plain numbers.
- The text of a value (`Convert.ToString`) is not modelled; it is culture-dependent. Only the Number/Boolean/Date/String tag is modelled.
- `MyDataStore`'s random sample generator, `Program.cs` and `Model/ExcelExportModel.cs` are not part of this model.
- A file that cannot be created is not modelled. The model covers only the `false` that any exception inside the `try` yields.
- MultiSetExport.MultiSetExcelExport.CreateExcelDocumentWithStyles: does not model the `ArgumentNullException` for a null model, which is thrown outside the `try`.
- Null `Tables`, `Columns` and `Rows` collections are not modelled. A data set always has a (possibly empty) list of tables.
- A null `dataSets` list and a null rule inside the style list are not modelled: `seq<Option<DataSet>>` and `seq<SetStyle>` cannot hold them. In the source the first throws at the `foreach` of ExcelDataMerge/MultiSetExcelExport.cs:131, so `CreateExcelDocument` answers false (lines 80-85), while at ExcelDataMerge/DynamicDataIntoExcel.cs:57 the exception reaches the caller. The second throws at `ss.Name` (ExcelDataMerge/MultiSetExcelExport.cs:477), so the export answers false, and at `l.Name` in `Add` (ExcelDataMerge/ExtensionMethods/ICollectionExtension.cs:22) it reaches the caller.
- DataStore.DuplicateAt: table names are compared as exact strings, as the projection's `Dictionary<string, …>` does. The naming rules that `DataSet` itself enforces on its tables are not modelled.
- MultiSetExport.MultiSetExcelExport: the cursors are unbounded naturals. The 32-bit wrap-around of the `uint` fields is not modelled, because it needs more than four billion columns or rows.
- DynamicExport.CreateSpreadsheetWorkbook: the column cursor is an `int` in the source, a `nat` here. It only ever grows from 0, so it is never negative.
- ColumnAddress.ColumnLetter: requires the index to be below 676 × 0xD7C0. Beyond that, the `(char)` cast yields UTF-16 surrogates and later wraps at 16 bits; a Dafny string cannot hold these.
- The label, merge and data loops are proved for any header. The lemmas about alignment (`LabelsAboveNames`, `DataUnderNames`, `DynamicSheetWidth`, `MultiSetSheetWidth`) assume well-formed input. Well formed means:
  - every table has a column;
  - column names are distinct within a table;
  - each row has one value per column.

  The source relies on these silently. The behaviour without them is modelled: a zero-column table consumes a column, and a repeated last name moves the run one column further.
- The `default` branch of `GetCellStyle`'s role switch is not modelled. The role type has only `Header` and `Row`, so it is unreachable.
- The header and data cells are returned as sequences, not appended to a shared `row` and `mergeCellItem`. The exporters concatenate them in the source's order.

## Findings

| source | as written | input that shows it | evidently intended | confidence | as-written member | corrected member |
|---|---|---|---|---|---|---|
| ExcelDataMerge/MultiSetExcelExport.cs:369-380 (copied at ExcelDataMerge/DynamicDataIntoExcel.cs:438-449) | a zero middle digit becomes a space, and only the ends are trimmed, so an inner space remains | column 676 gives "A A" (701 gives "A Z"); the conventional names are "ZA" and "ZZ". The following column 702 gives "AAA", so "ZA".."ZZ" are never produced | conventional bijective base-26 column names, which decode back to the column | high (not executed) | ColumnAddress.ColumnLetterInnerSpace | ColumnAddress.ColumnName (ColumnAddress.ColumnNameRoundTrip, ColumnAddress.ColumnNumberRoundTrip) |
