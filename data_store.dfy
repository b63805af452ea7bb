/** The data the exporters read (data sets of named tables with named
    columns and rows of boxed values) and `MyDataStoreHelper`, which projects
    a data set into the ordered (table name, column names) and (table name,
    rows) lists that the layout engine walks. */
module DataStore {
  import opened Wrappers

  /** A boxed cell value, by its runtime type. `OtherValue` is any other
      type (DBNull among them); `NullValue` is a null reference. */
  datatype CellValue =
    | Int16Value(i: int) | Int32Value(i: int) | Int64Value(i: int)
    | DoubleValue(x: real) | DecimalValue(x: real)
    | BooleanValue(b: bool)
    | DateTimeValue(ticks: int)
    | StringValue(s: string)
    | OtherValue
    | NullValue

  /** A table: its name, its column names in column order and its rows (the
      value arrays of the rows, in row order). */
  datatype DataTable = DataTable(tableName: string, columns: seq<string>, rows: seq<seq<CellValue>>)

  /** A data set: a possibly null name and its tables in order. */
  datatype DataSet = DataSet(dataSetName: Option<string>, tables: seq<DataTable>)

  /** The exceptions the core can raise. */
  datatype Exception =
    | DuplicateKey(key: string)   // Dictionary.Add with a key already present
    | NullReference               // a member access on null
    | EmptySequence               // First() on an empty list
    | ArgumentNull                // a LINQ operator applied to null

  /** One entry of the header name list: a table name and its column names. */
  datatype HeaderEntry = HeaderEntry(name: string, columns: seq<string>)

  /** One entry of the row data list: a table name and its rows. */
  datatype RowEntry = RowEntry(name: string, rows: seq<seq<CellValue>>)

  /** The table names are pairwise different. */
  predicate NamesDistinct(tables: seq<DataTable>) {
    forall i, j :: 0 <= i < j < |tables| ==> tables[i].tableName != tables[j].tableName
  }

  /** Table k is the first whose name repeats an earlier table's name. */
  predicate FirstRepeat(tables: seq<DataTable>, k: int) {
    && 0 < k < |tables|
    && NamesDistinct(tables[..k])
    && exists j :: 0 <= j < k && tables[j].tableName == tables[k].tableName
  }

  /** At most one table is the first repeat. */
  lemma FirstRepeatUnique(tables: seq<DataTable>, k1: int, k2: int)
    requires FirstRepeat(tables, k1) && FirstRepeat(tables, k2)
    ensures k1 == k2
  {
    if k1 < k2 {
      RepeatBreaksDistinct(tables, k1, k2);
    } else if k2 < k1 {
      RepeatBreaksDistinct(tables, k2, k1);
    }
  }

  /** A repeat at k makes every longer prefix's names not distinct. */
  lemma RepeatBreaksDistinct(tables: seq<DataTable>, k: int, n: int)
    requires 0 < k < n <= |tables|
    requires exists j :: 0 <= j < k && tables[j].tableName == tables[k].tableName
    ensures !NamesDistinct(tables[..n])
  {
    var j :| 0 <= j < k && tables[j].tableName == tables[k].tableName;
    assert tables[..n][j] == tables[j] && tables[..n][k] == tables[k];
  }

  /** The position of the first table whose name repeats an earlier one, or
      the number of tables when the names are distinct. */
  function DuplicateAt(tables: seq<DataTable>): (k: nat)
    ensures k <= |tables|
    ensures k < |tables| ==> FirstRepeat(tables, k)
    ensures k == |tables| ==> NamesDistinct(tables)
  {
    if tables == [] then 0
    else
      var p := tables[..|tables| - 1];
      var k := DuplicateAt(p);
      if k < |p| then
        assert p[..k] == tables[..k];
        assert forall j :: 0 <= j <= k ==> p[j] == tables[j];
        k
      else if exists j :: 0 <= j < |p| && p[j].tableName == tables[|p|].tableName then
        assert tables[..|p|] == p;
        |p|
      else
        |tables|
  }

  /** Some earlier entry already has this key. */
  predicate HasKey(keys: seq<string>, key: string) {
    exists i :: 0 <= i < |keys| && keys[i] == key
  }

  /** The header name list of a data set whose table names are distinct. */
  function HeaderEntries(tables: seq<DataTable>): seq<HeaderEntry> {
    seq(|tables|, k requires 0 <= k < |tables| => HeaderEntry(tables[k].tableName, tables[k].columns))
  }

  /** The row data list of a data set whose table names are distinct. */
  function RowEntries(tables: seq<DataTable>): seq<RowEntry> {
    seq(|tables|, k requires 0 <= k < |tables| => RowEntry(tables[k].tableName, tables[k].rows))
  }

  function HeaderKeys(entries: seq<HeaderEntry>): seq<string> {
    seq(|entries|, i requires 0 <= i < |entries| => entries[i].name)
  }

  function RowKeys(entries: seq<RowEntry>): seq<string> {
    seq(|entries|, i requires 0 <= i < |entries| => entries[i].name)
  }

  /** `GetHeaderNameList(DataSet)`: nothing for a null data set or one without
      tables; otherwise the tables' names and column names in table order,
      failing on the first table whose name is already a key. */
  method GetHeaderNameList(dataSet: Option<DataSet>) returns (r: Result<seq<HeaderEntry>, Exception>)
    ensures dataSet.None? || dataSet.value.tables == [] ==> r == Success([])
    ensures dataSet.Some? ==> (r.Success? <==> NamesDistinct(dataSet.value.tables))
    ensures r.Success? && dataSet.Some? ==>
              && |r.value| == |dataSet.value.tables|
              && forall k :: 0 <= k < |r.value| ==>
                   r.value[k] == HeaderEntry(dataSet.value.tables[k].tableName, dataSet.value.tables[k].columns)
    ensures r.Success? ==> r.value == HeaderEntries(if dataSet.Some? then dataSet.value.tables else [])
    ensures r.Failure? ==>
              && dataSet.Some?
              && DuplicateAt(dataSet.value.tables) < |dataSet.value.tables|
              && r.error == DuplicateKey(dataSet.value.tables[DuplicateAt(dataSet.value.tables)].tableName)
  {
    if dataSet.None? || |dataSet.value.tables| == 0 {
      return Success([]);
    }
    var tables := dataSet.value.tables;
    var headerNameList: seq<HeaderEntry> := [];
    for index := 0 to |tables|
      invariant |headerNameList| == index
      invariant NamesDistinct(tables[..index])
      invariant forall k :: 0 <= k < index ==> headerNameList[k] == HeaderEntry(tables[k].tableName, tables[k].columns)
    {
      var columns := tables[index].columns;
      var columnNames: seq<string> := [];
      for c := 0 to |columns|
        invariant columnNames == columns[..c]
      {
        columnNames := columnNames + [columns[c]];
      }
      var key := tables[index].tableName;
      if HasKey(HeaderKeys(headerNameList), key) {
        assert FirstRepeat(tables, index) by {
          var i :| 0 <= i < index && HeaderKeys(headerNameList)[i] == key;
          assert tables[i].tableName == key;
        }
        FirstRepeatUnique(tables, index, DuplicateAt(tables));
        return Failure(DuplicateKey(key));
      }
      assert forall i :: 0 <= i < index ==> tables[i].tableName == HeaderKeys(headerNameList)[i];
      assert tables[..index + 1] == tables[..index] + [tables[index]];
      headerNameList := headerNameList + [HeaderEntry(key, columnNames)];
    }
    assert tables[..|tables|] == tables;
    return Success(headerNameList);
  }

  /** `ConvertToRowDataList(DataSet)`: the same keys in the same order as the
      header name list, each with the table's rows in row order. */
  method ConvertToRowDataList(dataSet: Option<DataSet>) returns (r: Result<seq<RowEntry>, Exception>)
    ensures dataSet.None? || dataSet.value.tables == [] ==> r == Success([])
    ensures dataSet.Some? ==> (r.Success? <==> NamesDistinct(dataSet.value.tables))
    ensures r.Success? && dataSet.Some? ==>
              && |r.value| == |dataSet.value.tables|
              && forall k :: 0 <= k < |r.value| ==>
                   r.value[k] == RowEntry(dataSet.value.tables[k].tableName, dataSet.value.tables[k].rows)
    ensures r.Success? ==> r.value == RowEntries(if dataSet.Some? then dataSet.value.tables else [])
    ensures r.Failure? ==>
              && dataSet.Some?
              && DuplicateAt(dataSet.value.tables) < |dataSet.value.tables|
              && r.error == DuplicateKey(dataSet.value.tables[DuplicateAt(dataSet.value.tables)].tableName)
  {
    if dataSet.None? || |dataSet.value.tables| == 0 {
      return Success([]);
    }
    var tables := dataSet.value.tables;
    var rowDataList: seq<RowEntry> := [];
    for index := 0 to |tables|
      invariant |rowDataList| == index
      invariant NamesDistinct(tables[..index])
      invariant forall k :: 0 <= k < index ==> rowDataList[k] == RowEntry(tables[k].tableName, tables[k].rows)
    {
      var rows := tables[index].rows;
      var rowItems: seq<seq<CellValue>> := [];
      for i := 0 to |rows|
        invariant rowItems == rows[..i]
      {
        rowItems := rowItems + [rows[i]];
      }
      var key := tables[index].tableName;
      if HasKey(RowKeys(rowDataList), key) {
        assert FirstRepeat(tables, index) by {
          var i :| 0 <= i < index && RowKeys(rowDataList)[i] == key;
          assert tables[i].tableName == key;
        }
        FirstRepeatUnique(tables, index, DuplicateAt(tables));
        return Failure(DuplicateKey(key));
      }
      assert forall i :: 0 <= i < index ==> tables[i].tableName == RowKeys(rowDataList)[i];
      assert tables[..index + 1] == tables[..index] + [tables[index]];
      rowDataList := rowDataList + [RowEntry(key, rowItems)];
    }
    assert tables[..|tables|] == tables;
    return Success(rowDataList);
  }

  /** `GetHeaderNameList(DataTable)`: the column names in column order, or
      nothing for a null table. */
  method GetHeaderNameListOfTable(dataTable: Option<DataTable>) returns (columnNameList: seq<string>)
    ensures dataTable.None? ==> columnNameList == []
    ensures dataTable.Some? ==>
              && |columnNameList| == |dataTable.value.columns|
              && forall j :: 0 <= j < |columnNameList| ==> columnNameList[j] == dataTable.value.columns[j]
  {
    columnNameList := [];
    if dataTable.None? || |dataTable.value.columns| == 0 {
      return;
    }
    var columns := dataTable.value.columns;
    for index := 0 to |columns|
      invariant columnNameList == columns[..index]
    {
      columnNameList := columnNameList + [columns[index]];
    }
  }

  /** `ConvertToRowDataList(DataTable)`: the rows in row order, or nothing
      for a null table. */
  method ConvertToRowDataListOfTable(dataTable: Option<DataTable>) returns (rowItemList: seq<seq<CellValue>>)
    ensures dataTable.None? ==> rowItemList == []
    ensures dataTable.Some? ==>
              && |rowItemList| == |dataTable.value.rows|
              && forall i :: 0 <= i < |rowItemList| ==> rowItemList[i] == dataTable.value.rows[i]
  {
    rowItemList := [];
    if dataTable.None? || |dataTable.value.rows| == 0 {
      return;
    }
    var rows := dataTable.value.rows;
    for index := 0 to |rows|
      invariant rowItemList == rows[..index]
    {
      rowItemList := rowItemList + [rows[index]];
    }
  }
}
