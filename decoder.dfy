/** `ProtoBufferDecoder`: turns a response body into the typed response of the
    operation the context names.  Each decoder parses the body as its
    operation's response message and converts it; the loops of the source are
    methods proved equal to the specification functions next to them. */
module ProtoBufferDecoder {
  import opened Common
  import opened Exceptions
  import opened PipelineContext
  import PB = Protocol
  import Model = DataModel
  import Ops = Operations
  import Schema

  type Decoded<T> = Result<T, Exception>

  // ---------------------------------------------------------------- values

  /** The five concrete column types map to their model types; the two
      sentinels and any tag this client does not know throw. */
  function ParseColumnValueType(t: PB.ColumnType): (r: Decoded<Model.ColumnValueType>)
    ensures r.Ok? <==> t.Integer? || t.String? || t.Boolean? || t.Double? || t.Binary?
    ensures r.Err? ==> r.error == OTSClientException(InvalidColumnType(t))
    ensures r.Ok? ==> !r.value.UndefinedValueType?
  {
    match t
    case Binary => Ok(Model.Binary)
    case Boolean => Ok(Model.Boolean)
    case Double => Ok(Model.Double)
    case Integer => Ok(Model.Integer)
    case String => Ok(Model.String)
    case _ => Err(OTSClientException(InvalidColumnType(t)))
  }

  /** A concrete tag yields a value of that type holding the matching payload
      field (its protobuf default when unset); every other tag throws. */
  function ParseColumnValue(v: PB.ColumnValue): (r: Decoded<Model.ColumnValue>)
    ensures r.Ok? <==> ParseColumnValueType(v.tag).Ok?
    ensures r.Ok? ==> !r.value.IsSentinel() && ParseColumnValueType(v.tag) == Ok(r.value.Type())
    ensures r.Err? ==> r.error == OTSClientException(InvalidColumnType(v.tag))
    ensures r.Ok? && v.tag.Integer? && v.vInt.Some? ==> r.value.integer == v.vInt.value
    ensures r.Ok? && v.tag.String? && v.vString.Some? ==> r.value.str == v.vString.value
    ensures r.Ok? && v.tag.Boolean? && v.vBool.Some? ==> r.value.boolean == v.vBool.value
    ensures r.Ok? && v.tag.Double? && v.vDouble.Some? ==> r.value.double == v.vDouble.value
    ensures r.Ok? && v.tag.Binary? && v.vBinary.Some? ==> r.value.binary == v.vBinary.value
    ensures r.Ok? && v.tag.Integer? && v.vInt.None? ==> r.value.integer == 0
    ensures r.Ok? && v.tag.String? && v.vString.None? ==> r.value.str == ""
    ensures r.Ok? && v.tag.Boolean? && v.vBool.None? ==> r.value.boolean == false
    ensures r.Ok? && v.tag.Double? && v.vDouble.None? ==> r.value.double == Float64(0)
    ensures r.Ok? && v.tag.Binary? && v.vBinary.None? ==> r.value.binary == []
  {
    match v.tag
    case Binary => Ok(Model.BinaryValue(v.vBinary.GetOr([])))
    case Boolean => Ok(Model.BooleanValue(v.vBool.GetOr(false)))
    case Double => Ok(Model.DoubleValue(v.vDouble.GetOr(Float64(0))))
    case Integer => Ok(Model.IntegerValue(v.vInt.GetOr(0)))
    case String => Ok(Model.StringValue(v.vString.GetOr("")))
    case _ => Err(OTSClientException(InvalidColumnType(v.tag)))
  }

  /** Both read and write are always set on a decoded capacity: an unset wire
      field reads as 0. */
  function ParseCapacityUnit(c: PB.CapacityUnit): (r: Model.CapacityUnit)
    ensures r.read.Some? && r.write.Some?
    ensures c.read.Some? ==> r.read == c.read
    ensures c.write.Some? ==> r.write == c.write
    ensures c.read.None? ==> r.read == Some(0)
    ensures c.write.None? ==> r.write == Some(0)
  {
    Model.CapacityUnit(Some(c.read.GetOr(0)), Some(c.write.GetOr(0)))
  }

  /** The capacity is converted by `ParseCapacityUnit`; the two timestamps
      and the count of decreases are copied. */
  function ParseReservedThroughputDetails(d: PB.ReservedThroughputDetails): (r: Model.ReservedThroughputDetails)
    ensures r.capacityUnit.read.Some? && r.capacityUnit.write.Some?
    ensures r.capacityUnit.read == Some(d.capacityUnit.read.GetOr(0))
    ensures r.capacityUnit.write == Some(d.capacityUnit.write.GetOr(0))
    ensures r.lastIncreaseTime == d.lastIncreaseTime && r.lastDecreaseTime == d.lastDecreaseTime
    ensures r.numberOfDecreasesToday == d.numberOfDecreasesToday
  {
    Model.ReservedThroughputDetails(
      ParseCapacityUnit(d.capacityUnit), d.lastIncreaseTime, d.lastDecreaseTime, d.numberOfDecreasesToday)
  }

  // ------------------------------------------------- primary keys, attributes

  function ColumnName(c: PB.Column): string { c.name }
  function ModelColumnName(c: Model.Column): string { c.name }
  function DuplicateKey(key: string): Exception { ArgumentException(key) }

  /** One wire column as a dictionary entry. */
  function DecodedColumn(c: PB.Column): (r: Decoded<Model.Column>)
    ensures r.Ok? <==> ParseColumnValue(c.value).Ok?
    ensures r.Ok? ==> r.value.name == c.name && Ok(r.value.value) == ParseColumnValue(c.value)
  {
    var v := ParseColumnValue(c.value);
    if v.Err? then Err(v.error) else Ok(Model.Column(c.name, v.value))
  }

  /** `ParsePrimaryKey` / `ParseAttribute`: each wire column's value is
      parsed, then added under its name to a fresh dictionary, in wire order. */
  function DecodedColumns(columns: seq<PB.Column>): (r: Decoded<seq<Model.Column>>)
    ensures r.Ok? <==>
      (forall i | 0 <= i < |columns| :: ParseColumnValue(columns[i].value).Ok?)
      && (forall i, j | 0 <= i < j < |columns| :: columns[i].name != columns[j].name)
    ensures r.Ok? ==> |r.value| == |columns|
    ensures r.Ok? ==> forall i | 0 <= i < |columns| :: Ok(r.value[i]) == DecodedColumn(columns[i])
    ensures r.Err? ==> exists k | 0 <= k < |columns| ::
      r.error == OTSClientException(InvalidColumnType(columns[k].value.tag)) || r.error == ArgumentException(columns[k].name)
  {
    InsertAll(ModelColumnName, ColumnName, DecodedColumn, DuplicateKey, columns)
  }

  /** The loop of `ParsePrimaryKey` and `ParseAttribute` (the two are the
      same code). */
  method ParseColumns(columns: seq<PB.Column>) returns (r: Decoded<seq<Model.Column>>)
    ensures r == DecodedColumns(columns)
  {
    var ret: seq<Model.Column> := [];
    var i := 0;
    while i < |columns|
      invariant 0 <= i <= |columns|
      invariant DecodedColumns(columns) ==
        InsertAllFrom(ModelColumnName, ColumnName, DecodedColumn, DuplicateKey, ret, columns[i..])
    {
      var column := columns[i];
      InsertAllStep(ModelColumnName, ColumnName, DecodedColumn, DuplicateKey, ret, columns, i);
      var value := ParseColumnValue(column.value);
      if value.Err? {
        return Err(value.error);
      }
      if column.name in KeysOf(ModelColumnName, ret) {
        return Err(ArgumentException(column.name));
      }
      ret := ret + [Model.Column(column.name, value.value)];
      i := i + 1;
    }
    return Ok(ret);
  }

  // ------------------------------------------------------------- table meta

  function DecodedSchemaEntry(c: PB.ColumnSchema): (r: Decoded<Model.SchemaEntry>)
    ensures r.Ok? <==> ParseColumnValueType(c.tag).Ok?
    ensures r.Ok? ==> r.value.0 == c.name && Ok(r.value.1) == ParseColumnValueType(c.tag)
  {
    var t := ParseColumnValueType(c.tag);
    if t.Err? then Err(t.error) else Ok((c.name, t.value))
  }

  /** The table name, and the schema in wire order with each type mapped by
      `ParseColumnValueType`; the first unknown type throws. */
  function DecodedTableMeta(tm: PB.TableMeta): (r: Decoded<Model.TableMeta>)
    ensures r.Ok? <==> forall i | 0 <= i < |tm.primaryKey| :: ParseColumnValueType(tm.primaryKey[i].tag).Ok?
    ensures r.Ok? ==> r.value.tableName == tm.tableName && |r.value.primaryKeySchema| == |tm.primaryKey|
    ensures r.Ok? ==> forall i | 0 <= i < |tm.primaryKey| ::
      r.value.primaryKeySchema[i].0 == tm.primaryKey[i].name
      && Ok(r.value.primaryKeySchema[i].1) == ParseColumnValueType(tm.primaryKey[i].tag)
    ensures r.Err? ==> exists k | 0 <= k < |tm.primaryKey| :: r.error == OTSClientException(InvalidColumnType(tm.primaryKey[k].tag))
  {
    var entries := MapResult(DecodedSchemaEntry, tm.primaryKey);
    if entries.Err? then Err(entries.error)
    else
      Ok(Model.TableMeta(tm.tableName, entries.value))
  }

  /** Builds a `PrimaryKeySchema` by `Add`ing each wire column in turn. */
  method ParseTableMeta(tm: PB.TableMeta) returns (r: Decoded<Model.TableMeta>)
    ensures r == DecodedTableMeta(tm)
  {
    var schema := new Schema.PrimaryKeySchema();
    var i := 0;
    while i < |tm.primaryKey|
      invariant 0 <= i <= |tm.primaryKey|
      invariant |schema.entries| == i
      invariant MapResult(DecodedSchemaEntry, tm.primaryKey) ==
        MapResultFrom(DecodedSchemaEntry, schema.entries, tm.primaryKey[i..])
    {
      var item := tm.primaryKey[i];
      MapResultStep(DecodedSchemaEntry, schema.entries, tm.primaryKey, i);
      var t := ParseColumnValueType(item.tag);
      if t.Err? {
        return Err(t.error);
      }
      schema.Add(item.name, t.value);
      i := i + 1;
    }
    return Ok(Model.TableMeta(tm.tableName, schema.entries));
  }

  // ------------------------------------------------------------ batch write

  /** One batch-write item: a success carries only the capacity, a failure
      only the error code and message; both carry the table name and the
      item's position. */
  function DecodedWriteItem(tableName: string, item: PB.RowInBatchWriteRowResponse, index: int)
    : (r: Model.BatchWriteRowResponseItem)
    ensures r.isOk == item.isOk && r.tableName == tableName && r.index == index
    ensures r.consumed.Some? <==> r.isOk
    ensures r.errorCode.Some? <==> !r.isOk
    ensures r.errorMessage.Some? <==> !r.isOk
    ensures r.isOk ==> r.consumed == Some(ParseCapacityUnit(item.consumed.capacityUnit))
    ensures !r.isOk ==> r.errorCode == Some(item.error.code) && r.errorMessage == Some(item.error.message)
  {
    if item.isOk then
      Model.BatchWriteRowResponseItem(true, Some(ParseCapacityUnit(item.consumed.capacityUnit)), None, None, tableName, index)
    else
      Model.BatchWriteRowResponseItem(false, None, Some(item.error.code), Some(item.error.message), tableName, index)
  }

  /** The items of one list, numbered from 0 in wire order. */
  function DecodedWriteItems(tableName: string, items: seq<PB.RowInBatchWriteRowResponse>)
    : (r: seq<Model.BatchWriteRowResponseItem>)
    ensures |r| == |items|
    ensures forall i | 0 <= i < |items| :: r[i] == DecodedWriteItem(tableName, items[i], i)
  {
    seq(|items|, i requires 0 <= i < |items| => DecodedWriteItem(tableName, items[i], i))
  }

  /** The loop with its `index++` counter. */
  method ParseBatchWriteRowResponseItems(tableName: string, responseItems: seq<PB.RowInBatchWriteRowResponse>)
    returns (ret: seq<Model.BatchWriteRowResponseItem>)
    ensures ret == DecodedWriteItems(tableName, responseItems)
  {
    ret := [];
    var index := 0;
    for k := 0 to |responseItems|
      invariant index == k == |ret|
      invariant forall j | 0 <= j < k :: ret[j] == DecodedWriteItem(tableName, responseItems[j], j)
    {
      var responseItem := responseItems[k];
      if responseItem.isOk {
        ret := ret + [Model.BatchWriteRowResponseItem(
          true, Some(ParseCapacityUnit(responseItem.consumed.capacityUnit)), None, None, tableName, index)];
      } else {
        ret := ret + [Model.BatchWriteRowResponseItem(
          false, None, Some(responseItem.error.code), Some(responseItem.error.message), tableName, index)];
      }
      index := index + 1;
    }
  }

  /** Put, delete and update lists, each numbered on its own. */
  function DecodedWriteTable(table: PB.TableInBatchWriteRowResponse): (r: Model.BatchWriteRowResponseForOneTable)
    ensures |r.putResponses| == |table.putRows| && |r.deleteResponses| == |table.deleteRows|
    ensures |r.updateResponses| == |table.updateRows|
    ensures forall i | 0 <= i < |table.putRows| ::
      r.putResponses[i].index == i && r.putResponses[i].tableName == table.tableName
      && r.putResponses[i].isOk == table.putRows[i].isOk
    ensures forall i | 0 <= i < |table.deleteRows| ::
      r.deleteResponses[i].index == i && r.deleteResponses[i].tableName == table.tableName
      && r.deleteResponses[i].isOk == table.deleteRows[i].isOk
    ensures forall i | 0 <= i < |table.updateRows| ::
      r.updateResponses[i].index == i && r.updateResponses[i].tableName == table.tableName
      && r.updateResponses[i].isOk == table.updateRows[i].isOk
    ensures forall i | 0 <= i < |table.putRows| ::
      r.putResponses[i] == DecodedWriteItem(table.tableName, table.putRows[i], i)
    ensures forall i | 0 <= i < |table.deleteRows| ::
      r.deleteResponses[i] == DecodedWriteItem(table.tableName, table.deleteRows[i], i)
    ensures forall i | 0 <= i < |table.updateRows| ::
      r.updateResponses[i] == DecodedWriteItem(table.tableName, table.updateRows[i], i)
  {
    Model.BatchWriteRowResponseForOneTable(
      DecodedWriteItems(table.tableName, table.putRows),
      DecodedWriteItems(table.tableName, table.deleteRows),
      DecodedWriteItems(table.tableName, table.updateRows))
  }

  method ParseTableInBatchWriteRowResponse(table: PB.TableInBatchWriteRowResponse)
    returns (ret: Model.BatchWriteRowResponseForOneTable)
    ensures ret == DecodedWriteTable(table)
  {
    var putResponses := ParseBatchWriteRowResponseItems(table.tableName, table.putRows);
    var deleteResponses := ParseBatchWriteRowResponseItems(table.tableName, table.deleteRows);
    var updateResponses := ParseBatchWriteRowResponseItems(table.tableName, table.updateRows);
    ret := Model.BatchWriteRowResponseForOneTable(putResponses, deleteResponses, updateResponses);
  }

  function EntryKey<V>(entry: (string, V)): string { entry.0 }
  function WriteTableName(t: PB.TableInBatchWriteRowResponse): string { t.tableName }
  function DecodedWriteTableEntry(t: PB.TableInBatchWriteRowResponse): Decoded<(string, Model.BatchWriteRowResponseForOneTable)> {
    Ok((t.tableName, DecodedWriteTable(t)))
  }

  /** The tables keyed by name in wire order; a repeated name throws. */
  function DecodedBatchWrite(m: PB.BatchWriteRowResponse): (r: Decoded<seq<(string, Model.BatchWriteRowResponseForOneTable)>>)
    ensures r.Ok? <==> forall i, j | 0 <= i < j < |m.tables| :: m.tables[i].tableName != m.tables[j].tableName
    ensures r.Ok? ==> |r.value| == |m.tables|
    ensures r.Ok? ==> forall i | 0 <= i < |m.tables| :: r.value[i] == (m.tables[i].tableName, DecodedWriteTable(m.tables[i]))
    ensures r.Err? ==> exists k | 0 <= k < |m.tables| :: r.error == ArgumentException(m.tables[k].tableName)
  {
    InsertAll(EntryKey, WriteTableName, DecodedWriteTableEntry, DuplicateKey, m.tables)
  }

  method DecodeBatchWriteRow(m: PB.BatchWriteRowResponse) returns (r: Decoded<Model.OTSResponse>)
    ensures r == (var t := DecodedBatchWrite(m); if t.Err? then Err(t.error) else Ok(Model.BatchWriteRowResponse(t.value)))
  {
    var tableRespones: seq<(string, Model.BatchWriteRowResponseForOneTable)> := [];
    var i := 0;
    while i < |m.tables|
      invariant 0 <= i <= |m.tables|
      invariant DecodedBatchWrite(m) ==
        InsertAllFrom(EntryKey, WriteTableName, DecodedWriteTableEntry, DuplicateKey, tableRespones, m.tables[i..])
    {
      var table := m.tables[i];
      InsertAllStep(EntryKey, WriteTableName, DecodedWriteTableEntry, DuplicateKey, tableRespones, m.tables, i);
      var item := ParseTableInBatchWriteRowResponse(table);
      if table.tableName in KeysOf(EntryKey, tableRespones) {
        return Err(ArgumentException(table.tableName));
      }
      tableRespones := tableRespones + [(table.tableName, item)];
      i := i + 1;
    }
    return Ok(Model.BatchWriteRowResponse(tableRespones));
  }

  // -------------------------------------------------------------- batch get

  /** One batch-read item: a success carries capacity, primary key and
      attributes, a failure only the error code and message. */
  function DecodedGetItem(row: PB.RowInBatchGetRowResponse): (r: Decoded<Model.BatchGetRowResponseItem>)
    ensures !row.isOk ==> r.Ok?
    ensures r.Ok? ==> r.value.isOk == row.isOk
    ensures r.Ok? && row.isOk ==>
      && r.value.consumed == Some(ParseCapacityUnit(row.consumed.capacityUnit))
      && r.value.primaryKey.Some? && Ok(r.value.primaryKey.value) == DecodedColumns(row.row.primaryKeyColumns)
      && r.value.attribute.Some? && Ok(r.value.attribute.value) == DecodedColumns(row.row.attributeColumns)
      && r.value.errorCode.None? && r.value.errorMessage.None?
    ensures r.Ok? && !row.isOk ==>
      && r.value.consumed.None? && r.value.primaryKey.None? && r.value.attribute.None?
      && r.value.errorCode == Some(row.error.code) && r.value.errorMessage == Some(row.error.message)
  {
    if row.isOk then
      var pk := DecodedColumns(row.row.primaryKeyColumns);
      if pk.Err? then Err(pk.error)
      else
        var attr := DecodedColumns(row.row.attributeColumns);
        if attr.Err? then Err(attr.error)
        else Ok(Model.BatchGetRowResponseItem(
          true, Some(ParseCapacityUnit(row.consumed.capacityUnit)), Some(pk.value), Some(attr.value), None, None))
    else
      Ok(Model.BatchGetRowResponseItem(false, None, None, None, Some(row.error.code), Some(row.error.message)))
  }

  /** The items of one table, in wire order. */
  function DecodedGetTable(table: PB.TableInBatchGetRowResponse): (r: Decoded<seq<Model.BatchGetRowResponseItem>>)
    ensures r.Ok? <==> forall i | 0 <= i < |table.rows| :: DecodedGetItem(table.rows[i]).Ok?
    ensures r.Ok? ==> |r.value| == |table.rows|
    ensures r.Ok? ==> forall i | 0 <= i < |table.rows| :: Ok(r.value[i]) == DecodedGetItem(table.rows[i])
  {
    var r := MapResult(DecodedGetItem, table.rows);
    r
  }

  method ParseTableInBatchGetRowResponse(table: PB.TableInBatchGetRowResponse)
    returns (r: Decoded<seq<Model.BatchGetRowResponseItem>>)
    ensures r == DecodedGetTable(table)
  {
    var ret: seq<Model.BatchGetRowResponseItem> := [];
    var i := 0;
    while i < |table.rows|
      invariant 0 <= i <= |table.rows|
      invariant MapResult(DecodedGetItem, table.rows) == MapResultFrom(DecodedGetItem, ret, table.rows[i..])
    {
      var row := table.rows[i];
      MapResultStep(DecodedGetItem, ret, table.rows, i);
      if row.isOk {
        var pk := ParseColumns(row.row.primaryKeyColumns);
        if pk.Err? {
          return Err(pk.error);
        }
        var attr := ParseColumns(row.row.attributeColumns);
        if attr.Err? {
          return Err(attr.error);
        }
        ret := ret + [Model.BatchGetRowResponseItem(
          true, Some(ParseCapacityUnit(row.consumed.capacityUnit)), Some(pk.value), Some(attr.value), None, None)];
      } else {
        ret := ret + [Model.BatchGetRowResponseItem(false, None, None, None, Some(row.error.code), Some(row.error.message))];
      }
      i := i + 1;
    }
    return Ok(ret);
  }

  function GetTableName(t: PB.TableInBatchGetRowResponse): string { t.tableName }
  function DecodedGetTableEntry(t: PB.TableInBatchGetRowResponse): Decoded<(string, seq<Model.BatchGetRowResponseItem>)> {
    var items := DecodedGetTable(t);
    if items.Err? then Err(items.error) else Ok((t.tableName, items.value))
  }

  /** The tables keyed by name in wire order; each table's rows are decoded
      before its name is added, and a repeated name throws. */
  function DecodedBatchGet(m: PB.BatchGetRowResponse): (r: Decoded<seq<(string, seq<Model.BatchGetRowResponseItem>)>>)
    ensures r.Ok? <==>
      (forall i | 0 <= i < |m.tables| :: DecodedGetTable(m.tables[i]).Ok?)
      && forall i, j | 0 <= i < j < |m.tables| :: m.tables[i].tableName != m.tables[j].tableName
    ensures r.Ok? ==> |r.value| == |m.tables|
    ensures r.Ok? ==> forall i | 0 <= i < |m.tables| ::
      r.value[i].0 == m.tables[i].tableName && Ok(r.value[i].1) == DecodedGetTable(m.tables[i])
  {
    InsertAll(EntryKey, GetTableName, DecodedGetTableEntry, DuplicateKey, m.tables)
  }

  method DecodeBatchGetRow(m: PB.BatchGetRowResponse) returns (r: Decoded<Model.OTSResponse>)
    ensures r == (var t := DecodedBatchGet(m); if t.Err? then Err(t.error) else Ok(Model.BatchGetRowResponse(t.value)))
  {
    var tables: seq<(string, seq<Model.BatchGetRowResponseItem>)> := [];
    var i := 0;
    while i < |m.tables|
      invariant 0 <= i <= |m.tables|
      invariant DecodedBatchGet(m) ==
        InsertAllFrom(EntryKey, GetTableName, DecodedGetTableEntry, DuplicateKey, tables, m.tables[i..])
    {
      var table := m.tables[i];
      InsertAllStep(EntryKey, GetTableName, DecodedGetTableEntry, DuplicateKey, tables, m.tables, i);
      var items := ParseTableInBatchGetRowResponse(table);
      if items.Err? {
        return Err(items.error);
      }
      if table.tableName in KeysOf(EntryKey, tables) {
        return Err(ArgumentException(table.tableName));
      }
      tables := tables + [(table.tableName, items.value)];
      i := i + 1;
    }
    return Ok(Model.BatchGetRowResponse(tables));
  }

  // -------------------------------------------------------------- get range

  function DecodedRangeRow(row: PB.Row): (r: Decoded<Model.RowDataFromGetRange>)
    ensures r.Ok? <==> DecodedColumns(row.primaryKeyColumns).Ok? && DecodedColumns(row.attributeColumns).Ok?
    ensures r.Ok? ==> Ok(r.value.primaryKey) == DecodedColumns(row.primaryKeyColumns)
    ensures r.Ok? ==> Ok(r.value.attribute) == DecodedColumns(row.attributeColumns)
  {
    var pk := DecodedColumns(row.primaryKeyColumns);
    if pk.Err? then Err(pk.error)
    else
      var attr := DecodedColumns(row.attributeColumns);
      if attr.Err? then Err(attr.error) else Ok(Model.RowDataFromGetRange(pk.value, attr.value))
  }

  /** The capacity, the continuation key (absent exactly when the wire key
      has no columns) and one row per wire row, in order. */
  function DecodedGetRange(m: PB.GetRangeResponse): (r: Decoded<Model.OTSResponse>)
    ensures r.Ok? <==>
      DecodedColumns(m.nextStartPrimaryKey).Ok? && forall i | 0 <= i < |m.rows| :: DecodedRangeRow(m.rows[i]).Ok?
    ensures r.Ok? ==> r.value.GetRangeResponse?
    ensures r.Ok? ==> r.value.consumedCapacityUnit == ParseCapacityUnit(m.consumed.capacityUnit)
    ensures r.Ok? ==> (r.value.nextPrimaryKey.None? <==> |m.nextStartPrimaryKey| == 0)
    ensures r.Ok? && r.value.nextPrimaryKey.Some? ==> Ok(r.value.nextPrimaryKey.value) == DecodedColumns(m.nextStartPrimaryKey)
    ensures r.Ok? ==> |r.value.rowDataList| == |m.rows|
    ensures r.Ok? ==> forall i | 0 <= i < |m.rows| :: Ok(r.value.rowDataList[i]) == DecodedRangeRow(m.rows[i])
  {
    var next := DecodedColumns(m.nextStartPrimaryKey);
    if next.Err? then Err(next.error)
    else
      var rows := MapResult(DecodedRangeRow, m.rows);
      if rows.Err? then Err(rows.error)
      else
        Ok(Model.GetRangeResponse(
          ParseCapacityUnit(m.consumed.capacityUnit),
          if |next.value| == 0 then None else Some(next.value),
          rows.value))
  }

  method DecodeGetRange(m: PB.GetRangeResponse) returns (r: Decoded<Model.OTSResponse>)
    ensures r == DecodedGetRange(m)
  {
    var consumedCapacityUnit := ParseCapacityUnit(m.consumed.capacityUnit);
    var next := ParseColumns(m.nextStartPrimaryKey);
    if next.Err? {
      return Err(next.error);
    }
    var nextPrimaryKey := Some(next.value);
    if |next.value| == 0 {
      nextPrimaryKey := None;
    }
    var rowDataList: seq<Model.RowDataFromGetRange> := [];
    var i := 0;
    while i < |m.rows|
      invariant 0 <= i <= |m.rows|
      invariant MapResult(DecodedRangeRow, m.rows) == MapResultFrom(DecodedRangeRow, rowDataList, m.rows[i..])
    {
      var row := m.rows[i];
      MapResultStep(DecodedRangeRow, rowDataList, m.rows, i);
      var pk := ParseColumns(row.primaryKeyColumns);
      if pk.Err? {
        return Err(pk.error);
      }
      var attr := ParseColumns(row.attributeColumns);
      if attr.Err? {
        return Err(attr.error);
      }
      rowDataList := rowDataList + [Model.RowDataFromGetRange(pk.value, attr.value)];
      i := i + 1;
    }
    return Ok(Model.GetRangeResponse(consumedCapacityUnit, nextPrimaryKey, rowDataList));
  }

  // ---------------------------------------------------------- single rows

  function DecodedGetRow(m: PB.GetRowResponse): (r: Decoded<Model.OTSResponse>)
    ensures r.Ok? <==> DecodedColumns(m.row.primaryKeyColumns).Ok? && DecodedColumns(m.row.attributeColumns).Ok?
    ensures r.Ok? ==> r.value.GetRowResponse? && r.value.consumed == ParseCapacityUnit(m.consumed.capacityUnit)
    ensures r.Ok? ==> Ok(r.value.primaryKey) == DecodedColumns(m.row.primaryKeyColumns)
    ensures r.Ok? ==> Ok(r.value.attribute) == DecodedColumns(m.row.attributeColumns)
  {
    var pk := DecodedColumns(m.row.primaryKeyColumns);
    if pk.Err? then Err(pk.error)
    else
      var attr := DecodedColumns(m.row.attributeColumns);
      if attr.Err? then Err(attr.error)
      else Ok(Model.GetRowResponse(ParseCapacityUnit(m.consumed.capacityUnit), pk.value, attr.value))
  }

  method DecodeGetRow(m: PB.GetRowResponse) returns (r: Decoded<Model.OTSResponse>)
    ensures r == DecodedGetRow(m)
  {
    var primaryKey := ParseColumns(m.row.primaryKeyColumns);
    if primaryKey.Err? {
      return Err(primaryKey.error);
    }
    var attribute := ParseColumns(m.row.attributeColumns);
    if attribute.Err? {
      return Err(attribute.error);
    }
    return Ok(Model.GetRowResponse(ParseCapacityUnit(m.consumed.capacityUnit), primaryKey.value, attribute.value));
  }

  function DecodedDescribeTable(m: PB.DescribeTableResponse): (r: Decoded<Model.OTSResponse>)
    ensures r.Ok? <==> DecodedTableMeta(m.tableMeta).Ok?
    ensures r.Ok? ==> r.value.DescribeTableResponse? && Ok(r.value.tableMeta) == DecodedTableMeta(m.tableMeta)
    ensures r.Ok? ==> r.value.reservedThroughputDetails == ParseReservedThroughputDetails(m.reservedThroughputDetails)
  {
    var tm := DecodedTableMeta(m.tableMeta);
    if tm.Err? then Err(tm.error)
    else Ok(Model.DescribeTableResponse(tm.value, ParseReservedThroughputDetails(m.reservedThroughputDetails)))
  }

  method DecodeDescribeTable(m: PB.DescribeTableResponse) returns (r: Decoded<Model.OTSResponse>)
    ensures r == DecodedDescribeTable(m)
  {
    var tableMeta := ParseTableMeta(m.tableMeta);
    if tableMeta.Err? {
      return Err(tableMeta.error);
    }
    return Ok(Model.DescribeTableResponse(tableMeta.value, ParseReservedThroughputDetails(m.reservedThroughputDetails)));
  }

  /** Copies the table names one by one, in order. */
  method DecodeListTable(m: PB.ListTableResponse) returns (r: Model.OTSResponse)
    ensures r == Model.ListTableResponse(m.tableNames)
  {
    var tableNames: seq<string> := [];
    for i := 0 to |m.tableNames|
      invariant tableNames == m.tableNames[..i]
    {
      tableNames := tableNames + [m.tableNames[i]];
    }
    assert m.tableNames[..|m.tableNames|] == m.tableNames;
    return Model.ListTableResponse(tableNames);
  }

  // ------------------------------------------------ table and row responses

  /** A create-table body carries nothing: it decodes exactly when it parses. */
  function DecodeCreateTable(body: Bytes, parsers: PB.Parsers): (r: Decoded<Model.OTSResponse>)
    ensures r.Ok? <==> parsers.createTable(body).Some?
    ensures r.Err? ==> r.error == InvalidProtocolBufferException
    ensures r.Ok? ==> r.value.CreateTableResponse?
  {
    if parsers.createTable(body).None? then Err(InvalidProtocolBufferException) else Ok(Model.CreateTableResponse)
  }

  /** A delete-table body carries nothing: it decodes exactly when it parses. */
  function DecodeDeleteTable(body: Bytes, parsers: PB.Parsers): (r: Decoded<Model.OTSResponse>)
    ensures r.Ok? <==> parsers.deleteTable(body).Some?
    ensures r.Err? ==> r.error == InvalidProtocolBufferException
    ensures r.Ok? ==> r.value.DeleteTableResponse?
  {
    if parsers.deleteTable(body).None? then Err(InvalidProtocolBufferException) else Ok(Model.DeleteTableResponse)
  }

  /** An update-table body decodes exactly when it parses, to its throughput
      details. */
  function DecodeUpdateTable(body: Bytes, parsers: PB.Parsers): (r: Decoded<Model.OTSResponse>)
    ensures r.Ok? <==> parsers.updateTable(body).Some?
    ensures r.Err? ==> r.error == InvalidProtocolBufferException
    ensures r.Ok? ==>
      && r.value.UpdateTableResponse?
      && r.value.reservedThroughputDetails
         == ParseReservedThroughputDetails(parsers.updateTable(body).value.reservedThroughputDetails)
  {
    var m := parsers.updateTable(body);
    if m.None? then Err(InvalidProtocolBufferException)
    else Ok(Model.UpdateTableResponse(ParseReservedThroughputDetails(m.value.reservedThroughputDetails)))
  }

  /** A put-row body decodes exactly when it parses, to its consumed capacity. */
  function DecodePutRow(body: Bytes, parsers: PB.Parsers): (r: Decoded<Model.OTSResponse>)
    ensures r.Ok? <==> parsers.putRow(body).Some?
    ensures r.Err? ==> r.error == InvalidProtocolBufferException
    ensures r.Ok? ==>
      && r.value.PutRowResponse?
      && r.value.consumed == ParseCapacityUnit(parsers.putRow(body).value.consumed.capacityUnit)
  {
    var m := parsers.putRow(body);
    if m.None? then Err(InvalidProtocolBufferException)
    else Ok(Model.PutRowResponse(ParseCapacityUnit(m.value.consumed.capacityUnit)))
  }

  /** An update-row body decodes exactly when it parses, to its consumed
      capacity. */
  function DecodeUpdateRow(body: Bytes, parsers: PB.Parsers): (r: Decoded<Model.OTSResponse>)
    ensures r.Ok? <==> parsers.updateRow(body).Some?
    ensures r.Err? ==> r.error == InvalidProtocolBufferException
    ensures r.Ok? ==>
      && r.value.UpdateRowResponse?
      && r.value.consumed == ParseCapacityUnit(parsers.updateRow(body).value.consumed.capacityUnit)
  {
    var m := parsers.updateRow(body);
    if m.None? then Err(InvalidProtocolBufferException)
    else Ok(Model.UpdateRowResponse(ParseCapacityUnit(m.value.consumed.capacityUnit)))
  }

  /** A delete-row body decodes exactly when it parses, to its consumed
      capacity. */
  function DecodeDeleteRow(body: Bytes, parsers: PB.Parsers): (r: Decoded<Model.OTSResponse>)
    ensures r.Ok? <==> parsers.deleteRow(body).Some?
    ensures r.Err? ==> r.error == InvalidProtocolBufferException
    ensures r.Ok? ==>
      && r.value.DeleteRowResponse?
      && r.value.consumed == ParseCapacityUnit(parsers.deleteRow(body).value.consumed.capacityUnit)
  {
    var m := parsers.deleteRow(body);
    if m.None? then Err(InvalidProtocolBufferException)
    else Ok(Model.DeleteRowResponse(ParseCapacityUnit(m.value.consumed.capacityUnit)))
  }

  // ---------------------------------------------------------------- dispatch

  /** `Parser.ParseFrom` of the operation's response type, then its decoder;
      a body that does not parse throws `InvalidProtocolBufferException`. */
  function DecodedFor(api: Ops.Api, body: Bytes, parsers: PB.Parsers): Decoded<Model.OTSResponse> {
    match api
    case CreateTable => DecodeCreateTable(body, parsers)
    case DeleteTable => DecodeDeleteTable(body, parsers)
    case UpdateTable => DecodeUpdateTable(body, parsers)
    case DescribeTable =>
      var m := parsers.describeTable(body);
      if m.None? then Err(InvalidProtocolBufferException) else DecodedDescribeTable(m.value)
    case ListTable =>
      var m := parsers.listTable(body);
      if m.None? then Err(InvalidProtocolBufferException) else Ok(Model.ListTableResponse(m.value.tableNames))
    case PutRow => DecodePutRow(body, parsers)
    case GetRow =>
      var m := parsers.getRow(body);
      if m.None? then Err(InvalidProtocolBufferException) else DecodedGetRow(m.value)
    case UpdateRow => DecodeUpdateRow(body, parsers)
    case DeleteRow => DecodeDeleteRow(body, parsers)
    case BatchWriteRow =>
      var m := parsers.batchWriteRow(body);
      if m.None? then Err(InvalidProtocolBufferException)
      else
        var t := DecodedBatchWrite(m.value);
        if t.Err? then Err(t.error) else Ok(Model.BatchWriteRowResponse(t.value))
    case BatchGetRow =>
      var m := parsers.batchGetRow(body);
      if m.None? then Err(InvalidProtocolBufferException)
      else
        var t := DecodedBatchGet(m.value);
        if t.Err? then Err(t.error) else Ok(Model.BatchGetRowResponse(t.value))
    case GetRange =>
      var m := parsers.getRange(body);
      if m.None? then Err(InvalidProtocolBufferException) else DecodedGetRange(m.value)
  }

  /** The typed response is of the operation's own kind. */
  predicate ResponseFor(api: Ops.Api, r: Model.OTSResponse) {
    match api
    case CreateTable => r.CreateTableResponse?
    case DeleteTable => r.DeleteTableResponse?
    case UpdateTable => r.UpdateTableResponse?
    case DescribeTable => r.DescribeTableResponse?
    case ListTable => r.ListTableResponse?
    case PutRow => r.PutRowResponse?
    case GetRow => r.GetRowResponse?
    case UpdateRow => r.UpdateRowResponse?
    case DeleteRow => r.DeleteRowResponse?
    case BatchWriteRow => r.BatchWriteRowResponse?
    case BatchGetRow => r.BatchGetRowResponse?
    case GetRange => r.GetRangeResponse?
  }

  /** Whether the operation's response parser accepts the body. */
  predicate BodyParses(api: Ops.Api, body: Bytes, parsers: PB.Parsers) {
    match api
    case CreateTable => parsers.createTable(body).Some?
    case DeleteTable => parsers.deleteTable(body).Some?
    case UpdateTable => parsers.updateTable(body).Some?
    case DescribeTable => parsers.describeTable(body).Some?
    case ListTable => parsers.listTable(body).Some?
    case PutRow => parsers.putRow(body).Some?
    case GetRow => parsers.getRow(body).Some?
    case UpdateRow => parsers.updateRow(body).Some?
    case DeleteRow => parsers.deleteRow(body).Some?
    case BatchWriteRow => parsers.batchWriteRow(body).Some?
    case BatchGetRow => parsers.batchGetRow(body).Some?
    case GetRange => parsers.getRange(body).Some?
  }

  /** `DecoderMap[apiName](body)`: an operation name outside the table throws
      `KeyNotFoundException`; otherwise the response is of that operation's
      kind and is what that operation's decoder makes of the body.  A body
      the parser rejects throws; a parsed body of an operation whose decoder
      only copies fields always decodes. */
  function DecodedResponse(apiName: string, body: Bytes, parsers: PB.Parsers): (r: Decoded<Model.OTSResponse>)
    ensures Ops.Lookup(apiName).None? ==> r == Err(KeyNotFoundException(apiName))
    ensures r.Ok? ==> Ops.Lookup(apiName).Some? && ResponseFor(Ops.Lookup(apiName).value, r.value)
    ensures Ops.Lookup(apiName).Some? && !BodyParses(Ops.Lookup(apiName).value, body, parsers) ==>
      r == Err(InvalidProtocolBufferException)
    ensures Ops.Lookup(apiName).Some? && BodyParses(Ops.Lookup(apiName).value, body, parsers)
      && !(Ops.Lookup(apiName).value in {Ops.DescribeTable, Ops.GetRow, Ops.BatchWriteRow, Ops.BatchGetRow, Ops.GetRange})
      ==> r.Ok?
    ensures Ops.Lookup(apiName) == Some(Ops.CreateTable) ==> r == DecodeCreateTable(body, parsers)
    ensures Ops.Lookup(apiName) == Some(Ops.DeleteTable) ==> r == DecodeDeleteTable(body, parsers)
    ensures Ops.Lookup(apiName) == Some(Ops.UpdateTable) ==> r == DecodeUpdateTable(body, parsers)
    ensures Ops.Lookup(apiName) == Some(Ops.PutRow) ==> r == DecodePutRow(body, parsers)
    ensures Ops.Lookup(apiName) == Some(Ops.UpdateRow) ==> r == DecodeUpdateRow(body, parsers)
    ensures Ops.Lookup(apiName) == Some(Ops.DeleteRow) ==> r == DecodeDeleteRow(body, parsers)
    ensures Ops.Lookup(apiName) == Some(Ops.ListTable) && parsers.listTable(body).Some? ==>
      r == Ok(Model.ListTableResponse(parsers.listTable(body).value.tableNames))
    ensures Ops.Lookup(apiName) == Some(Ops.DescribeTable) && parsers.describeTable(body).Some? ==>
      r == DecodedDescribeTable(parsers.describeTable(body).value)
    ensures Ops.Lookup(apiName) == Some(Ops.GetRow) && parsers.getRow(body).Some? ==>
      r == DecodedGetRow(parsers.getRow(body).value)
    ensures Ops.Lookup(apiName) == Some(Ops.GetRange) && parsers.getRange(body).Some? ==>
      r == DecodedGetRange(parsers.getRange(body).value)
    ensures Ops.Lookup(apiName) == Some(Ops.BatchWriteRow) && parsers.batchWriteRow(body).Some? ==>
      var t := DecodedBatchWrite(parsers.batchWriteRow(body).value);
      && (r.Ok? <==> t.Ok?)
      && (r.Ok? ==> r.value == Model.BatchWriteRowResponse(t.value))
      && (r.Err? ==> r.error == t.error)
    ensures Ops.Lookup(apiName) == Some(Ops.BatchGetRow) && parsers.batchGetRow(body).Some? ==>
      var t := DecodedBatchGet(parsers.batchGetRow(body).value);
      && (r.Ok? <==> t.Ok?)
      && (r.Ok? ==> r.value == Model.BatchGetRowResponse(t.value))
      && (r.Err? ==> r.error == t.error)
  {
    match Ops.Lookup(apiName)
    case None => Err(KeyNotFoundException(apiName))
    case Some(api) => DecodedFor(api, body, parsers)
  }

  method Decode(apiName: string, body: Bytes, parsers: PB.Parsers) returns (r: Decoded<Model.OTSResponse>)
    ensures r == DecodedResponse(apiName, body, parsers)
  {
    var api := Ops.Lookup(apiName);
    if api.None? {
      return Err(KeyNotFoundException(apiName));
    }
    match api.value
    case CreateTable => r := DecodeCreateTable(body, parsers);
    case DeleteTable => r := DecodeDeleteTable(body, parsers);
    case UpdateTable => r := DecodeUpdateTable(body, parsers);
    case DescribeTable =>
      var m := parsers.describeTable(body);
      if m.None? { return Err(InvalidProtocolBufferException); }
      r := DecodeDescribeTable(m.value);
    case ListTable =>
      var m := parsers.listTable(body);
      if m.None? { return Err(InvalidProtocolBufferException); }
      var response := DecodeListTable(m.value);
      r := Ok(response);
    case PutRow => r := DecodePutRow(body, parsers);
    case GetRow =>
      var m := parsers.getRow(body);
      if m.None? { return Err(InvalidProtocolBufferException); }
      r := DecodeGetRow(m.value);
    case UpdateRow => r := DecodeUpdateRow(body, parsers);
    case DeleteRow => r := DecodeDeleteRow(body, parsers);
    case BatchWriteRow =>
      var m := parsers.batchWriteRow(body);
      if m.None? { return Err(InvalidProtocolBufferException); }
      r := DecodeBatchWriteRow(m.value);
    case BatchGetRow =>
      var m := parsers.batchGetRow(body);
      if m.None? { return Err(InvalidProtocolBufferException); }
      r := DecodeBatchGetRow(m.value);
    case GetRange =>
      var m := parsers.getRange(body);
      if m.None? { return Err(InvalidProtocolBufferException); }
      r := DecodeGetRange(m.value);
  }

  // ---------------------------------------------------------------- handler

  /** The request phase: the decoder passes straight to its inner stage, the
      transport, which sends the request and fills in status, headers and
      body; a transport failure escapes and leaves the context as it was. */
  method HandleBefore(context: Context, transport: Transport) returns (outcome: Outcome)
    modifies context
    ensures transport(context.apiName, old(context.httpRequestBody)).Err? ==>
      outcome == Thrown(transport(context.apiName, old(context.httpRequestBody)).error)
      && unchanged(context)
    ensures transport(context.apiName, old(context.httpRequestBody)).Ok? ==>
      var reply := transport(context.apiName, old(context.httpRequestBody)).value;
      && outcome == Completed
      && context.httpResponseStatusCode == reply.statusCode
      && context.httpResponseHeaders == reply.headers
      && context.httpResponseBody == reply.body
      && context.httpRequestBody == old(context.httpRequestBody)
      && context.otsResponse == old(context.otsResponse)
      && context.errorLog == old(context.errorLog)
  {
    var reply := transport(context.apiName, context.httpRequestBody);
    if reply.Err? {
      return Thrown(reply.error);
    }
    context.httpResponseStatusCode := reply.value.statusCode;
    context.httpResponseHeaders := reply.value.headers;
    context.httpResponseBody := reply.value.body;
    return Completed;
  }

  /** The response phase: after the inner stage (the transport, which has
      nothing left to do), decodes the body by the operation name and stores
      the typed response.  Whatever the decoder throws escapes, and the
      context is then unchanged; no status code is looked at. */
  method HandleAfter(context: Context, parsers: PB.Parsers) returns (outcome: Outcome)
    modifies context
    ensures var d := DecodedResponse(context.apiName, old(context.httpResponseBody), parsers);
      && (d.Err? ==> outcome == Thrown(d.error) && unchanged(context))
      && (d.Ok? ==> outcome == Completed && context.otsResponse == Some(d.value))
    ensures context.httpRequestBody == old(context.httpRequestBody)
    ensures context.httpResponseStatusCode == old(context.httpResponseStatusCode)
    ensures context.httpResponseHeaders == old(context.httpResponseHeaders)
    ensures context.httpResponseBody == old(context.httpResponseBody)
    ensures context.errorLog == old(context.errorLog)
  {
    var response := Decode(context.apiName, context.httpResponseBody, parsers);
    if response.Err? {
      return Thrown(response.error);
    }
    context.otsResponse := Some(response.value);
    return Completed;
  }
}
