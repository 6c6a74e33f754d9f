/** The protocol-buffer messages of the table store's wire format, as values.
    Optional scalar fields are `Option`s (presence is observable on the wire);
    repeated fields are sequences; an embedded message serialised into a
    `bytes` field (the condition envelopes) holds the nested message itself. */
module Protocol {
  import opened Common

  /** The column type tag.  An enum value this client does not know arrives
      as `UnknownColumnType`. */
  datatype ColumnType =
    | Integer | String | Boolean | Double | Binary | InfMin | InfMax
    | UnknownColumnType(raw: int)

  datatype ComparatorType = CtEqual | CtNotEqual | CtGreaterThan | CtGreaterEqual | CtLessThan | CtLessEqual
  datatype LogicalOperator = LoNot | LoAnd | LoOr
  datatype ColumnConditionType = CctComposite | CctRelation
  datatype RowExistenceExpectation = Ignore | ExpectExist | ExpectNotExist
  datatype OperationType = Put | Delete
  datatype Direction = Forward | Backward

  /** A tagged column value: the tag and at most one payload field. */
  datatype ColumnValue = ColumnValue(
    tag: ColumnType,
    vInt: Option<int64>,
    vString: Option<string>,
    vBool: Option<bool>,
    vDouble: Option<Float64>,
    vBinary: Option<Bytes>)
  {
    /** How many payload fields are present. */
    function PayloadCount(): nat {
      (if vInt.Some? then 1 else 0) + (if vString.Some? then 1 else 0) + (if vBool.Some? then 1 else 0)
      + (if vDouble.Some? then 1 else 0) + (if vBinary.Some? then 1 else 0)
    }
  }

  datatype Column = Column(name: string, value: ColumnValue)
  datatype ColumnSchema = ColumnSchema(name: string, tag: ColumnType)
  datatype TableMeta = TableMeta(tableName: string, primaryKey: seq<ColumnSchema>)
  datatype CapacityUnit = CapacityUnit(read: Option<int32>, write: Option<int32>)
  datatype ReservedThroughput = ReservedThroughput(capacityUnit: CapacityUnit)

  /** The condition envelope: a discriminator and the serialised inner message. */
  datatype ColumnCondition = ColumnCondition(kind: ColumnConditionType, condition: ConditionBlob)
  /** The `bytes` payload of an envelope; serialisation is modelled as this
      injective embedding of the inner message. */
  datatype ConditionBlob =
    | CompositeBlob(composite: CompositeCondition)
    | RelationBlob(relation: RelationCondition)
  datatype CompositeCondition = CompositeCondition(combinator: LogicalOperator, subConditions: seq<ColumnCondition>)
  datatype RelationCondition = RelationCondition(
    columnName: string, comparator: ComparatorType, columnValue: ColumnValue, passIfMissing: bool)

  datatype Condition = Condition(rowExistence: RowExistenceExpectation, columnCondition: Option<ColumnCondition>)

  /** One entry of an update: `value` is present for a put and absent for a delete. */
  datatype ColumnUpdate = ColumnUpdate(kind: OperationType, name: string, value: Option<ColumnValue>)

  datatype PutRowInBatchWriteRowRequest =
    PutRowInBatchWriteRowRequest(condition: Condition, primaryKey: seq<Column>, attributeColumns: seq<Column>)
  datatype UpdateRowInBatchWriteRowRequest =
    UpdateRowInBatchWriteRowRequest(condition: Condition, primaryKey: seq<Column>, columnUpdates: seq<ColumnUpdate>)
  datatype DeleteRowInBatchWriteRowRequest =
    DeleteRowInBatchWriteRowRequest(condition: Condition, primaryKey: seq<Column>)
  datatype TableInBatchWriteRowRequest = TableInBatchWriteRowRequest(
    tableName: string,
    putRows: seq<PutRowInBatchWriteRowRequest>,
    updateRows: seq<UpdateRowInBatchWriteRowRequest>,
    deleteRows: seq<DeleteRowInBatchWriteRowRequest>)

  datatype RowInBatchGetRowRequest = RowInBatchGetRowRequest(primaryKey: seq<Column>)
  datatype TableInBatchGetRowRequest = TableInBatchGetRowRequest(
    tableName: string, rows: seq<RowInBatchGetRowRequest>, columnsToGet: seq<string>, filter: Option<ColumnCondition>)

  /** The request messages, one per operation. */
  datatype Request =
    | CreateTableRequest(tableMeta: TableMeta, reservedThroughput: ReservedThroughput)
    | DeleteTableRequest(tableName: string)
    | UpdateTableRequest(tableName: string, reservedThroughput: ReservedThroughput)
    | DescribeTableRequest(tableName: string)
    | ListTableRequest
    | PutRowRequest(tableName: string, condition: Condition, primaryKey: seq<Column>, attributeColumns: seq<Column>)
    | GetRowRequest(tableName: string, primaryKey: seq<Column>, columnsToGet: seq<string>, filter: Option<ColumnCondition>)
    | UpdateRowRequest(tableName: string, condition: Condition, primaryKey: seq<Column>, columnUpdates: seq<ColumnUpdate>)
    | DeleteRowRequest(tableName: string, condition: Condition, primaryKey: seq<Column>)
    | BatchWriteRowRequest(writeTables: seq<TableInBatchWriteRowRequest>)
    | BatchGetRowRequest(getTables: seq<TableInBatchGetRowRequest>)
    | GetRangeRequest(
        tableName: string, direction: Direction, columnsToGet: seq<string>, limit: Option<int32>,
        filter: Option<ColumnCondition>, inclusiveStartPrimaryKey: seq<Column>, exclusiveEndPrimaryKey: seq<Column>)

  /** An HTTP request body: `ToByteArray` of a request message, modelled as an
      injective embedding (`NoBody` before the encoder stage has run). */
  datatype RequestBody = NoBody | Serialized(message: Request)

  // Response messages.

  datatype ConsumedCapacity = ConsumedCapacity(capacityUnit: CapacityUnit)
  datatype ReservedThroughputDetails = ReservedThroughputDetails(
    capacityUnit: CapacityUnit, lastIncreaseTime: int64, lastDecreaseTime: int64, numberOfDecreasesToday: int32)
  datatype Row = Row(primaryKeyColumns: seq<Column>, attributeColumns: seq<Column>)
  /** The error envelope carried by a failed response or a failed batch item. */
  datatype Error = Error(code: string, message: string)

  datatype CreateTableResponse = CreateTableResponse
  datatype DeleteTableResponse = DeleteTableResponse
  datatype UpdateTableResponse = UpdateTableResponse(reservedThroughputDetails: ReservedThroughputDetails)
  datatype DescribeTableResponse =
    DescribeTableResponse(tableMeta: TableMeta, reservedThroughputDetails: ReservedThroughputDetails)
  datatype ListTableResponse = ListTableResponse(tableNames: seq<string>)
  datatype PutRowResponse = PutRowResponse(consumed: ConsumedCapacity)
  datatype GetRowResponse = GetRowResponse(consumed: ConsumedCapacity, row: Row)
  datatype UpdateRowResponse = UpdateRowResponse(consumed: ConsumedCapacity)
  datatype DeleteRowResponse = DeleteRowResponse(consumed: ConsumedCapacity)

  datatype RowInBatchWriteRowResponse = RowInBatchWriteRowResponse(isOk: bool, error: Error, consumed: ConsumedCapacity)
  datatype TableInBatchWriteRowResponse = TableInBatchWriteRowResponse(
    tableName: string,
    putRows: seq<RowInBatchWriteRowResponse>,
    updateRows: seq<RowInBatchWriteRowResponse>,
    deleteRows: seq<RowInBatchWriteRowResponse>)
  datatype BatchWriteRowResponse = BatchWriteRowResponse(tables: seq<TableInBatchWriteRowResponse>)

  datatype RowInBatchGetRowResponse =
    RowInBatchGetRowResponse(isOk: bool, error: Error, consumed: ConsumedCapacity, row: Row)
  datatype TableInBatchGetRowResponse = TableInBatchGetRowResponse(tableName: string, rows: seq<RowInBatchGetRowResponse>)
  datatype BatchGetRowResponse = BatchGetRowResponse(tables: seq<TableInBatchGetRowResponse>)

  datatype GetRangeResponse =
    GetRangeResponse(consumed: ConsumedCapacity, nextStartPrimaryKey: seq<Column>, rows: seq<Row>)

  /** `Parser.ParseFrom` of each message type, which lives in the protobuf
      library: each maps a body to the parsed message, or to `None` when the
      library would throw. */
  datatype Parsers = Parsers(
    error: Bytes -> Option<Error>,
    createTable: Bytes -> Option<CreateTableResponse>,
    deleteTable: Bytes -> Option<DeleteTableResponse>,
    updateTable: Bytes -> Option<UpdateTableResponse>,
    describeTable: Bytes -> Option<DescribeTableResponse>,
    listTable: Bytes -> Option<ListTableResponse>,
    putRow: Bytes -> Option<PutRowResponse>,
    getRow: Bytes -> Option<GetRowResponse>,
    updateRow: Bytes -> Option<UpdateRowResponse>,
    deleteRow: Bytes -> Option<DeleteRowResponse>,
    batchWriteRow: Bytes -> Option<BatchWriteRowResponse>,
    batchGetRow: Bytes -> Option<BatchGetRowResponse>,
    getRange: Bytes -> Option<GetRangeResponse>)
}
