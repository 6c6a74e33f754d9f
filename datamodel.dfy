/** The client's typed data model: column values, keys, conditions, the
    request objects the caller builds and the response objects the decoder
    builds.  C# enums, which can hold any integer, carry an extra
    `Undefined...(raw)` case for a value that names none of their members. */
module DataModel {
  import opened Common

  datatype ColumnValueType = Integer | String | Double | Boolean | Binary | UndefinedValueType(raw: int)

  /** A column value: one of the five concrete types, or one of the two
      boundless sentinels `INF_MAX` / `INF_MIN`. */
  datatype ColumnValue =
    | InfMax
    | InfMin
    | IntegerValue(integer: int64)
    | StringValue(str: string)
    | BooleanValue(boolean: bool)
    | DoubleValue(double: Float64)
    | BinaryValue(binary: Bytes)
  {
    predicate IsSentinel() { InfMax? || InfMin? }

    /** `ColumnValue.Type` of a concrete value. */
    function Type(): ColumnValueType
      requires !IsSentinel()
    {
      match this
      case IntegerValue(_) => Integer
      case StringValue(_) => String
      case BooleanValue(_) => Boolean
      case DoubleValue(_) => Double
      case BinaryValue(_) => Binary
    }
  }

  /** One entry of a `PrimaryKey` or `AttributeColumns` dictionary. */
  datatype Column = Column(name: string, value: ColumnValue)

  /** Dictionaries from column name to value, in enumeration order. */
  type PrimaryKey = seq<Column>
  type AttributeColumns = seq<Column>

  function Names(columns: seq<Column>): (names: seq<string>)
    ensures |names| == |columns|
    ensures forall i | 0 <= i < |columns| :: names[i] == columns[i].name
  {
    seq(|columns|, i requires 0 <= i < |columns| => columns[i].name)
  }

  /** What a dictionary guarantees: no name occurs twice. */
  predicate DistinctNames(columns: seq<Column>) {
    forall i, j | 0 <= i < j < |columns| :: columns[i].name != columns[j].name
  }

  predicate NoSentinels(columns: seq<Column>) {
    forall i | 0 <= i < |columns| :: !columns[i].value.IsSentinel()
  }

  /** One `(name, type)` tuple of a primary-key schema. */
  type SchemaEntry = (string, ColumnValueType)

  /** A table's name and its primary-key schema, in declaration order. */
  datatype TableMeta = TableMeta(tableName: string, primaryKeySchema: seq<SchemaEntry>)

  /** Read and write capacity, each of which may be unset. */
  datatype CapacityUnit = CapacityUnit(read: Option<int32>, write: Option<int32>)

  datatype ReservedThroughputDetails = ReservedThroughputDetails(
    capacityUnit: CapacityUnit, lastIncreaseTime: int64, lastDecreaseTime: int64, numberOfDecreasesToday: int32)

  datatype RowExistenceExpectation = Ignore | ExpectExist | ExpectNotExist | UndefinedExpectation(raw: int)

  datatype CompareOperator =
    | Equal | NotEqual | GreaterThan | GreaterEqual | LessThan | LessEqual
    | UndefinedOperator(raw: int)

  datatype LogicOperator = Not | And | Or | UndefinedLogicOperator(raw: int)

  datatype ColumnConditionType = CompositeCondition | RelationalCondition | UndefinedConditionType(raw: int)

  /** A condition tree: a comparison of one column against a value, or a
      logical combination of sub-conditions in order. */
  datatype ColumnCondition =
    | Relational(columnName: string, operator: CompareOperator, columnValue: ColumnValue, passIfMissing: bool)
    | Composite(logicOperator: LogicOperator, subConditions: seq<ColumnCondition>)
  {
    /** `ColumnCondition.GetType()`: the variant's discriminator. */
    function GetType(): ColumnConditionType {
      if Composite? then CompositeCondition else RelationalCondition
    }
  }

  /** A row-level write precondition. */
  datatype Condition = Condition(rowExistenceExpect: RowExistenceExpectation, columnCondition: Option<ColumnCondition>)

  datatype UpdateOfAttribute =
    UpdateOfAttribute(attributeColumnsToPut: seq<Column>, attributeColumnsToDelete: seq<string>)

  datatype PutOperation = PutOperation(condition: Condition, primaryKey: PrimaryKey, attribute: AttributeColumns)
  datatype UpdateOperation = UpdateOperation(condition: Condition, primaryKey: PrimaryKey, update: UpdateOfAttribute)
  datatype DeleteOperation = DeleteOperation(condition: Condition, primaryKey: PrimaryKey)

  /** One table's changes in a batch write, each list in caller order. */
  datatype RowChanges = RowChanges(
    putOperations: seq<PutOperation>,
    updateOperations: seq<UpdateOperation>,
    deleteOperations: seq<DeleteOperation>)

  /** A column selection is `None` where the criteria object returns null. */
  datatype SingleRowQueryCriteria = SingleRowQueryCriteria(
    tableName: string, rowPrimaryKey: PrimaryKey, columnsToGet: Option<seq<string>>, filter: Option<ColumnCondition>)

  datatype MultiRowQueryCriteria = MultiRowQueryCriteria(
    tableName: string, rowKeys: seq<PrimaryKey>, columnsToGet: Option<seq<string>>, filter: Option<ColumnCondition>)

  datatype GetRangeDirection = Forward | Backward | UndefinedDirection(raw: int)

  datatype RangeRowQueryCriteria = RangeRowQueryCriteria(
    tableName: string,
    direction: GetRangeDirection,
    inclusiveStartPrimaryKey: PrimaryKey,
    exclusiveEndPrimaryKey: PrimaryKey,
    limit: Option<int32>,
    columnsToGet: Option<seq<string>>,
    filter: Option<ColumnCondition>)

  /** The typed requests, one per operation. */
  datatype OTSRequest =
    | CreateTableRequest(tableMeta: TableMeta, reservedThroughput: CapacityUnit)
    | DeleteTableRequest(tableName: string)
    | UpdateTableRequest(tableName: string, reservedThroughput: CapacityUnit)
    | DescribeTableRequest(tableName: string)
    | ListTableRequest
    | PutRowRequest(tableName: string, condition: Condition, primaryKey: PrimaryKey, attribute: AttributeColumns)
    | GetRowRequest(queryCriteria: SingleRowQueryCriteria)
    | UpdateRowRequest(tableName: string, condition: Condition, primaryKey: PrimaryKey, updateOfAttribute: UpdateOfAttribute)
    | DeleteRowRequest(tableName: string, condition: Condition, primaryKey: PrimaryKey)
    | BatchWriteRowRequest(rowChangesGroupByTable: seq<(string, RowChanges)>)
    | BatchGetRowRequest(criterias: seq<MultiRowQueryCriteria>)
    | GetRangeRequest(rangeCriteria: RangeRowQueryCriteria)

  /** One item of a batch write: `consumed` on success, `errorCode` and
      `errorMessage` on failure; the position in its list is `index`. */
  datatype BatchWriteRowResponseItem = BatchWriteRowResponseItem(
    isOk: bool,
    consumed: Option<CapacityUnit>,
    errorCode: Option<string>,
    errorMessage: Option<string>,
    tableName: string,
    index: int)

  datatype BatchWriteRowResponseForOneTable = BatchWriteRowResponseForOneTable(
    putResponses: seq<BatchWriteRowResponseItem>,
    deleteResponses: seq<BatchWriteRowResponseItem>,
    updateResponses: seq<BatchWriteRowResponseItem>)

  /** One item of a batch read: capacity and row on success, error on failure. */
  datatype BatchGetRowResponseItem = BatchGetRowResponseItem(
    isOk: bool,
    consumed: Option<CapacityUnit>,
    primaryKey: Option<PrimaryKey>,
    attribute: Option<AttributeColumns>,
    errorCode: Option<string>,
    errorMessage: Option<string>)

  datatype RowDataFromGetRange = RowDataFromGetRange(primaryKey: PrimaryKey, attribute: AttributeColumns)

  /** The typed responses, one per operation.  Keyed results are sequences of
      (table name, value) in insertion order with distinct names. */
  datatype OTSResponse =
    | CreateTableResponse
    | DeleteTableResponse
    | UpdateTableResponse(reservedThroughputDetails: ReservedThroughputDetails)
    | DescribeTableResponse(tableMeta: TableMeta, reservedThroughputDetails: ReservedThroughputDetails)
    | ListTableResponse(tableNames: seq<string>)
    | PutRowResponse(consumed: CapacityUnit)
    | GetRowResponse(consumed: CapacityUnit, primaryKey: PrimaryKey, attribute: AttributeColumns)
    | UpdateRowResponse(consumed: CapacityUnit)
    | DeleteRowResponse(consumed: CapacityUnit)
    | BatchWriteRowResponse(tableRespones: seq<(string, BatchWriteRowResponseForOneTable)>)
    | BatchGetRowResponse(tables: seq<(string, seq<BatchGetRowResponseItem>)>)
    | GetRangeResponse(
        consumedCapacityUnit: CapacityUnit, nextPrimaryKey: Option<PrimaryKey>, rowDataList: seq<RowDataFromGetRange>)
}
