/** `ProtoBufferEncoder`: the outermost stage.  It picks the operation's
    encoder by name, turns the typed request into its request message and
    stores the serialised message as the request body.  Every mapping whose
    source throws returns a `Result`; the loops of the source are methods
    proved equal to the specification functions next to them. */
module ProtoBufferEncoder {
  import opened Common
  import opened Exceptions
  import opened PipelineContext
  import PB = Protocol
  import Model = DataModel
  import Ops = Operations
  import Decoder = ProtoBufferDecoder
  import WireReading
  import ErrorHandler

  type Encoded<T> = Result<T, Exception>

  // ------------------------------------------------------------ enum mappers

  /** The five value types map to their wire tags; any other value of the
      enum throws.  The decoder maps each tag back. */
  function MakeColumnType(t: Model.ColumnValueType): (r: Encoded<PB.ColumnType>)
    ensures r.Ok? <==> !t.UndefinedValueType?
    ensures r.Err? ==> t.UndefinedValueType? && r.error == OTSClientException(InvalidColumnValueType(t.raw))
    ensures r.Ok? ==> Decoder.ParseColumnValueType(r.value) == Ok(t)
  {
    match t
    case Integer => Ok(PB.Integer)
    case String => Ok(PB.String)
    case Double => Ok(PB.Double)
    case Boolean => Ok(PB.Boolean)
    case Binary => Ok(PB.Binary)
    case UndefinedValueType(raw) => Err(OTSClientException(InvalidColumnValueType(raw)))
  }

  function MakeComparatorType(oper: Model.CompareOperator): (r: Encoded<PB.ComparatorType>)
    ensures r.Ok? <==> !oper.UndefinedOperator?
    ensures r.Err? ==> oper.UndefinedOperator? && r.error == OTSClientException(InvalidComparatorType(oper.raw))
    ensures r.Ok? ==> WireReading.ComparatorOf(r.value) == oper
  {
    match oper
    case Equal => Ok(PB.CtEqual)
    case NotEqual => Ok(PB.CtNotEqual)
    case GreaterThan => Ok(PB.CtGreaterThan)
    case GreaterEqual => Ok(PB.CtGreaterEqual)
    case LessThan => Ok(PB.CtLessThan)
    case LessEqual => Ok(PB.CtLessEqual)
    case UndefinedOperator(raw) => Err(OTSClientException(InvalidComparatorType(raw)))
  }

  function MakeLogicOperator(t: Model.LogicOperator): (r: Encoded<PB.LogicalOperator>)
    ensures r.Ok? <==> !t.UndefinedLogicOperator?
    ensures r.Err? ==> t.UndefinedLogicOperator? && r.error == OTSClientException(InvalidLogicOperator(t.raw))
    ensures r.Ok? ==> WireReading.LogicOperatorOf(r.value) == t
  {
    match t
    case Not => Ok(PB.LoNot)
    case And => Ok(PB.LoAnd)
    case Or => Ok(PB.LoOr)
    case UndefinedLogicOperator(raw) => Err(OTSClientException(InvalidLogicOperator(raw)))
  }

  function MakeColumnConditionType(t: Model.ColumnConditionType): (r: Encoded<PB.ColumnConditionType>)
    ensures r.Ok? <==> !t.UndefinedConditionType?
    ensures r.Err? ==> t.UndefinedConditionType? && r.error == OTSClientException(InvalidColumnConditionType(t.raw))
    ensures r.Ok? ==> WireReading.ConditionTypeOf(r.value) == t
  {
    match t
    case CompositeCondition => Ok(PB.CctComposite)
    case RelationalCondition => Ok(PB.CctRelation)
    case UndefinedConditionType(raw) => Err(OTSClientException(InvalidColumnConditionType(raw)))
  }

  /** The row-existence part of `MakeCondition`. */
  function MakeRowExistence(e: Model.RowExistenceExpectation): (r: Encoded<PB.RowExistenceExpectation>)
    ensures r.Ok? <==> !e.UndefinedExpectation?
    ensures r.Err? ==> e.UndefinedExpectation? && r.error == OTSClientException(InvalidRowExistenceExpectation(e.raw))
    ensures r.Ok? ==> WireReading.RowExistenceOf(r.value) == e
  {
    if e == Model.ExpectExist then Ok(PB.ExpectExist)
    else if e == Model.ExpectNotExist then Ok(PB.ExpectNotExist)
    else if e == Model.Ignore then Ok(PB.Ignore)
    else Err(OTSClientException(InvalidRowExistenceExpectation(e.raw)))
  }

  function MakeDirection(d: Model.GetRangeDirection): (r: Encoded<PB.Direction>)
    ensures r.Ok? <==> !d.UndefinedDirection?
    ensures r.Err? ==> d.UndefinedDirection? && r.error == OTSClientException(InvalidDirection(d.raw))
    ensures r.Ok? ==> WireReading.DirectionOf(r.value) == d
  {
    match d
    case Forward => Ok(PB.Forward)
    case Backward => Ok(PB.Backward)
    case UndefinedDirection(raw) => Err(OTSClientException(InvalidDirection(raw)))
  }

  // ---------------------------------------------------------------- values

  /** A sentinel becomes a tag with no payload; a concrete value the tag of
      its type and exactly the one payload field of that type.  The decoder
      reads a concrete value back unchanged and rejects a sentinel. */
  function MakeColumnValue(value: Model.ColumnValue): (r: PB.ColumnValue)
    ensures value.InfMax? ==> r.tag == PB.InfMax && r.PayloadCount() == 0
    ensures value.InfMin? ==> r.tag == PB.InfMin && r.PayloadCount() == 0
    ensures !value.IsSentinel() ==> MakeColumnType(value.Type()) == Ok(r.tag) && r.PayloadCount() == 1
    ensures value.IntegerValue? ==> r.vInt == Some(value.integer)
    ensures value.StringValue? ==> r.vString == Some(value.str)
    ensures value.BooleanValue? ==> r.vBool == Some(value.boolean)
    ensures value.DoubleValue? ==> r.vDouble == Some(value.double)
    ensures value.BinaryValue? ==> r.vBinary == Some(value.binary)
    ensures !value.IsSentinel() ==> Decoder.ParseColumnValue(r) == Ok(value)
    ensures value.IsSentinel() ==> Decoder.ParseColumnValue(r) == Err(OTSClientException(InvalidColumnType(r.tag)))
    ensures WireReading.ColumnValueOf(r) == Some(value)
  {
    match value
    case InfMax => PB.ColumnValue(PB.InfMax, None, None, None, None, None)
    case InfMin => PB.ColumnValue(PB.InfMin, None, None, None, None, None)
    case BinaryValue(b) => PB.ColumnValue(PB.Binary, None, None, None, None, Some(b))
    case StringValue(s) => PB.ColumnValue(PB.String, None, Some(s), None, None, None)
    case BooleanValue(b) => PB.ColumnValue(PB.Boolean, None, None, Some(b), None, None)
    case DoubleValue(d) => PB.ColumnValue(PB.Double, None, None, None, Some(d), None)
    case IntegerValue(i) => PB.ColumnValue(PB.Integer, Some(i), None, None, None, None)
  }

  /** One dictionary entry as a wire column: the name is kept and the value
      reads back as the entry's value. */
  function MakeColumn(name: string, value: Model.ColumnValue): (r: PB.Column)
    ensures r.name == name && WireReading.ColumnValueOf(r.value) == Some(value)
  {
    PB.Column(name, MakeColumnValue(value))
  }

  /** One wire column per dictionary entry, in enumeration order.  Sentinel
      values are encoded like any other. */
  function MakeColumns(columns: seq<Model.Column>): (r: seq<PB.Column>)
    ensures |r| == |columns|
    ensures forall i | 0 <= i < |columns| ::
      r[i].name == columns[i].name && WireReading.ColumnValueOf(r[i].value) == Some(columns[i].value)
    ensures forall i | 0 <= i < |columns| :: r[i] == MakeColumn(columns[i].name, columns[i].value)
  {
    seq(|columns|, i requires 0 <= i < |columns| => MakeColumn(columns[i].name, columns[i].value))
  }

  /** A delete entry names the column and carries no value. */
  function MakeColumnUpdateForDelete(columnName: string): (r: PB.ColumnUpdate)
    ensures r.kind == PB.Delete && r.name == columnName && r.value.None?
  {
    PB.ColumnUpdate(PB.Delete, columnName, None)
  }

  /** A put entry names the column and carries a value that reads back as
      the one put. */
  function MakeColumnUpdateForPut(columnName: string, value: Model.ColumnValue): (r: PB.ColumnUpdate)
    ensures r.kind == PB.Put && r.name == columnName
    ensures r.value.Some? && WireReading.ColumnValueOf(r.value.value) == Some(value)
  {
    PB.ColumnUpdate(PB.Put, columnName, Some(MakeColumnValue(value)))
  }

  /** Every put, in order, as a `Put` entry with its value, then every delete
      name, in order, as a `Delete` entry without one. */
  function MakeUpdateOfAttribute(update: Model.UpdateOfAttribute): (r: seq<PB.ColumnUpdate>)
    ensures |r| == |update.attributeColumnsToPut| + |update.attributeColumnsToDelete|
    ensures forall i | 0 <= i < |r| :: (r[i].kind == PB.Put <==> i < |update.attributeColumnsToPut|)
    ensures forall i | 0 <= i < |r| :: (r[i].value.Some? <==> r[i].kind == PB.Put)
    ensures forall i | 0 <= i < |update.attributeColumnsToPut| ::
      r[i].name == update.attributeColumnsToPut[i].name
      && WireReading.ColumnValueOf(r[i].value.value) == Some(update.attributeColumnsToPut[i].value)
    ensures forall j | 0 <= j < |update.attributeColumnsToDelete| ::
      r[|update.attributeColumnsToPut| + j].name == update.attributeColumnsToDelete[j]
  {
    var puts := update.attributeColumnsToPut;
    var deletes := update.attributeColumnsToDelete;
    seq(|puts|, i requires 0 <= i < |puts| => MakeColumnUpdateForPut(puts[i].name, puts[i].value))
    + seq(|deletes|, j requires 0 <= j < |deletes| => MakeColumnUpdateForDelete(deletes[j]))
  }

  // ---------------------------------------------------- schema and capacity

  function MakeColumnSchema(schema: Model.SchemaEntry): (r: Encoded<PB.ColumnSchema>)
    ensures r.Ok? <==> !schema.1.UndefinedValueType?
    ensures r.Ok? ==> r.value.name == schema.0 && MakeColumnType(schema.1) == Ok(r.value.tag)
    ensures r.Err? ==> MakeColumnType(schema.1) == Err(r.error)
    ensures r.Ok? ==> Decoder.DecodedSchemaEntry(r.value) == Ok(schema)
  {
    var t := MakeColumnType(schema.1);
    if t.Err? then Err(t.error) else Ok(PB.ColumnSchema(schema.0, t.value))
  }

  /** The table name and one wire column schema per schema entry, in
      schema order; the first undefined type throws. */
  function TableMetaMessage(tableMeta: Model.TableMeta): (r: Encoded<PB.TableMeta>)
    ensures r.Ok? <==>
      forall i | 0 <= i < |tableMeta.primaryKeySchema| :: !tableMeta.primaryKeySchema[i].1.UndefinedValueType?
    ensures r.Ok? ==> r.value.tableName == tableMeta.tableName
    ensures r.Ok? ==> |r.value.primaryKey| == |tableMeta.primaryKeySchema|
    ensures r.Ok? ==> forall i | 0 <= i < |tableMeta.primaryKeySchema| ::
      Ok(r.value.primaryKey[i]) == MakeColumnSchema(tableMeta.primaryKeySchema[i])
    ensures r.Err? ==> exists k | 0 <= k < |tableMeta.primaryKeySchema| ::
      MakeColumnType(tableMeta.primaryKeySchema[k].1) == Err(r.error)
  {
    var schema := tableMeta.primaryKeySchema;
    var primaryKey := MapResult(MakeColumnSchema, schema);
    if primaryKey.Err? then Err(primaryKey.error)
    else
      Ok(PB.TableMeta(tableMeta.tableName, primaryKey.value))
  }

  /** The decoder reads an encoded table meta back unchanged. */
  lemma TableMetaRoundTrip(tableMeta: Model.TableMeta)
    requires TableMetaMessage(tableMeta).Ok?
    ensures Decoder.DecodedTableMeta(TableMetaMessage(tableMeta).value) == Ok(tableMeta)
  {
    var schema := tableMeta.primaryKeySchema;
    MapResultInverse(MakeColumnSchema, Decoder.DecodedSchemaEntry, schema);
  }

  method MakeTableMeta(tableMeta: Model.TableMeta) returns (r: Encoded<PB.TableMeta>)
    ensures r == TableMetaMessage(tableMeta)
  {
    var primaryKey: seq<PB.ColumnSchema> := [];
    var schema := tableMeta.primaryKeySchema;
    var i := 0;
    while i < |schema|
      invariant 0 <= i <= |schema|
      invariant MapResult(MakeColumnSchema, schema) == MapResultFrom(MakeColumnSchema, primaryKey, schema[i..])
    {
      MapResultStep(MakeColumnSchema, primaryKey, schema, i);
      var item := MakeColumnSchema(schema[i]);
      if item.Err? {
        return Err(item.error);
      }
      primaryKey := primaryKey + [item.value];
      i := i + 1;
    }
    return Ok(PB.TableMeta(tableMeta.tableName, primaryKey));
  }

  /** Each of read and write is set on the wire exactly when it is set in the
      model, with the same value: an unset field is never sent as 0.  (The
      decoder reads an unset field as 0.) */
  function MakeCapacityUnit(capacityUnit: Model.CapacityUnit): (r: PB.CapacityUnit)
    ensures r.read.Some? <==> capacityUnit.read.Some?
    ensures r.write.Some? <==> capacityUnit.write.Some?
    ensures r.read.Some? ==> r.read.value == capacityUnit.read.value
    ensures r.write.Some? ==> r.write.value == capacityUnit.write.value
    ensures capacityUnit.read.Some? && capacityUnit.write.Some? ==> Decoder.ParseCapacityUnit(r) == capacityUnit
    ensures Decoder.ParseCapacityUnit(r) ==
      Model.CapacityUnit(Some(capacityUnit.read.GetOr(0)), Some(capacityUnit.write.GetOr(0)))
  {
    var read := if capacityUnit.read.Some? then Some(capacityUnit.read.value) else None;
    var write := if capacityUnit.write.Some? then Some(capacityUnit.write.value) else None;
    PB.CapacityUnit(read, write)
  }

  /** The reserved throughput wraps the capacity: each of read and write is
      set exactly when it is set in the model, with the same value. */
  function MakeReservedThroughput(reservedThroughput: Model.CapacityUnit): (r: PB.ReservedThroughput)
    ensures r.capacityUnit.read == reservedThroughput.read
    ensures r.capacityUnit.write == reservedThroughput.write
  {
    PB.ReservedThroughput(MakeCapacityUnit(reservedThroughput))
  }

  // ------------------------------------------------------------- conditions

  /** Whether every operator of a condition tree is one the encoder knows. */
  predicate OperatorsDefined(cc: Model.ColumnCondition)
    decreases cc
  {
    match cc
    case Relational(_, operator, _, _) => !operator.UndefinedOperator?
    case Composite(logicOperator, subConditions) =>
      !logicOperator.UndefinedLogicOperator?
      && forall i | 0 <= i < |subConditions| :: OperatorsDefined(subConditions[i])
  }

  /** The envelope of a condition node: the node's discriminator, and the
      encoded composite or relation as the blob. */
  function ColumnConditionMessage(cc: Model.ColumnCondition): (r: Encoded<PB.ColumnCondition>)
    ensures r.Ok? <==> OperatorsDefined(cc)
    ensures r.Ok? ==> WireReading.ConditionTypeOf(r.value.kind) == cc.GetType()
    ensures r.Ok? ==> (r.value.condition.CompositeBlob? <==> cc.Composite?)
    ensures r.Ok? && cc.Composite? ==> Ok(r.value.condition) == CompositeConditionBlob(cc)
    ensures r.Ok? && cc.Relational? ==> Ok(r.value.condition) == BuildRelationalCondition(cc)
    decreases cc, 2, 0
  {
    // `GetType()` is never an undefined discriminator, so the mapping
    // cannot throw here.
    var kind := MakeColumnConditionType(cc.GetType()).value;
    if cc.Composite? then
      var blob := CompositeConditionBlob(cc);
      if blob.Err? then Err(blob.error) else Ok(PB.ColumnCondition(kind, blob.value))
    else
      var blob := BuildRelationalCondition(cc);
      if blob.Err? then Err(blob.error) else Ok(PB.ColumnCondition(kind, blob.value))
  }

  /** The combinator, then the children's envelopes in order, as many as
      there are children. */
  function CompositeConditionBlob(cc: Model.ColumnCondition): (r: Encoded<PB.ConditionBlob>)
    requires cc.Composite?
    ensures r.Ok? <==> OperatorsDefined(cc)
    ensures r.Ok? ==> r.value.CompositeBlob?
    ensures r.Ok? ==> WireReading.LogicOperatorOf(r.value.composite.combinator) == cc.logicOperator
    ensures r.Ok? ==> |r.value.composite.subConditions| == |cc.subConditions|
    ensures r.Ok? ==> forall i | 0 <= i < |cc.subConditions| ::
      Ok(r.value.composite.subConditions[i]) == ColumnConditionMessage(cc.subConditions[i])
    decreases cc, 1, 0
  {
    var combinator := MakeLogicOperator(cc.logicOperator);
    if combinator.Err? then Err(combinator.error)
    else
      var subConditions := SubConditionMessages(cc, 0);
      if subConditions.Err? then Err(subConditions.error)
      else
        assert forall i | 0 <= i < |cc.subConditions| ::
          Ok(subConditions.value[i - 0]) == ColumnConditionMessage(cc.subConditions[i]);
        Ok(PB.CompositeBlob(PB.CompositeCondition(combinator.value, subConditions.value)))
  }

  /** The envelopes of the children from the `i`th on; the first failing
      child's exception escapes. */
  function SubConditionMessages(cc: Model.ColumnCondition, i: nat): (r: Encoded<seq<PB.ColumnCondition>>)
    requires cc.Composite? && i <= |cc.subConditions|
    ensures r.Ok? <==> forall k | i <= k < |cc.subConditions| :: OperatorsDefined(cc.subConditions[k])
    ensures r.Ok? ==> |r.value| == |cc.subConditions| - i
    ensures r.Ok? ==> forall k | i <= k < |cc.subConditions| ::
      Ok(r.value[k - i]) == ColumnConditionMessage(cc.subConditions[k])
    decreases cc, 0, |cc.subConditions| - i
  {
    if i == |cc.subConditions| then Ok([])
    else
      var head := ColumnConditionMessage(cc.subConditions[i]);
      if head.Err? then Err(head.error)
      else
        var tail := SubConditionMessages(cc, i + 1);
        if tail.Err? then Err(tail.error) else Ok([head.value] + tail.value)
  }

  /** `rest` after the children already encoded; a failure of `rest` is the result. */
  function AfterPrefix(prefix: seq<PB.ColumnCondition>, rest: Encoded<seq<PB.ColumnCondition>>)
    : Encoded<seq<PB.ColumnCondition>>
  {
    if rest.Err? then Err(rest.error) else Ok(prefix + rest.value)
  }

  /** The column name, the mapped comparator, the encoded operand and
      `PassIfMissing`, all carried unchanged. */
  function BuildRelationalCondition(scc: Model.ColumnCondition): (r: Encoded<PB.ConditionBlob>)
    requires scc.Relational?
    ensures r.Ok? <==> !scc.operator.UndefinedOperator?
    ensures r.Err? ==> MakeComparatorType(scc.operator) == Err(r.error)
    ensures r.Ok? ==> r.value.RelationBlob?
    ensures r.Ok? ==>
      && r.value.relation.columnName == scc.columnName
      && WireReading.ComparatorOf(r.value.relation.comparator) == scc.operator
      && r.value.relation.columnValue == MakeColumnValue(scc.columnValue)
      && WireReading.ColumnValueOf(r.value.relation.columnValue) == Some(scc.columnValue)
      && r.value.relation.passIfMissing == scc.passIfMissing
  {
    var comparator := MakeComparatorType(scc.operator);
    if comparator.Err? then Err(comparator.error)
    else Ok(PB.RelationBlob(PB.RelationCondition(
      scc.columnName, comparator.value, MakeColumnValue(scc.columnValue), scc.passIfMissing)))
  }

  method MakeColumnCondition(cc: Model.ColumnCondition) returns (r: Encoded<PB.ColumnCondition>)
    ensures r == ColumnConditionMessage(cc)
    decreases cc, 2, 0
  {
    // `GetType()` is one of the two node kinds, so neither the mapping's
    // nor the dispatch's default branch can be taken.
    var kind := MakeColumnConditionType(cc.GetType()).value;
    if cc.GetType() == Model.CompositeCondition {
      var blob := BuildCompositeCondition(cc);
      if blob.Err? {
        return Err(blob.error);
      }
      r := Ok(PB.ColumnCondition(kind, blob.value));
    } else {
      var blob := BuildRelationalCondition(cc);
      if blob.Err? {
        return Err(blob.error);
      }
      r := Ok(PB.ColumnCondition(kind, blob.value));
    }
  }

  method BuildCompositeCondition(cc: Model.ColumnCondition) returns (r: Encoded<PB.ConditionBlob>)
    requires cc.Composite?
    ensures r == CompositeConditionBlob(cc)
    decreases cc, 1, 0
  {
    var combinator := MakeLogicOperator(cc.logicOperator);
    if combinator.Err? {
      return Err(combinator.error);
    }
    var subConditions: seq<PB.ColumnCondition> := [];
    var i := 0;
    assert AfterPrefix(subConditions, SubConditionMessages(cc, 0)) == SubConditionMessages(cc, 0) by {
      if SubConditionMessages(cc, 0).Ok? {
        assert [] + SubConditionMessages(cc, 0).value == SubConditionMessages(cc, 0).value;
      }
    }
    while i < |cc.subConditions|
      invariant 0 <= i <= |cc.subConditions|
      invariant SubConditionMessages(cc, 0) == AfterPrefix(subConditions, SubConditionMessages(cc, i))
    {
      var c := MakeColumnCondition(cc.subConditions[i]);
      if c.Err? {
        return Err(c.error);
      }
      var rest := SubConditionMessages(cc, i + 1);
      assert SubConditionMessages(cc, i) == AfterPrefix([c.value], rest);
      if rest.Ok? {
        assert subConditions + ([c.value] + rest.value) == (subConditions + [c.value]) + rest.value;
      }
      subConditions := subConditions + [c.value];
      i := i + 1;
    }
    assert SubConditionMessages(cc, i) == Ok([]);
    assert subConditions + [] == subConditions;
    return Ok(PB.CompositeBlob(PB.CompositeCondition(combinator.value, subConditions)));
  }

  /** The row-existence expectation, and the column condition exactly when
      there is one. */
  function ConditionMessage(condition: Model.Condition): (r: Encoded<PB.Condition>)
    ensures r.Ok? <==>
      !condition.rowExistenceExpect.UndefinedExpectation?
      && (condition.columnCondition.Some? ==> OperatorsDefined(condition.columnCondition.value))
    ensures r.Ok? ==> WireReading.RowExistenceOf(r.value.rowExistence) == condition.rowExistenceExpect
    ensures r.Ok? ==> (r.value.columnCondition.Some? <==> condition.columnCondition.Some?)
    ensures r.Ok? && condition.columnCondition.Some? ==>
      Ok(r.value.columnCondition.value) == ColumnConditionMessage(condition.columnCondition.value)
  {
    var rowExistence := MakeRowExistence(condition.rowExistenceExpect);
    if rowExistence.Err? then Err(rowExistence.error)
    else if condition.columnCondition.None? then Ok(PB.Condition(rowExistence.value, None))
    else
      var cc := ColumnConditionMessage(condition.columnCondition.value);
      if cc.Err? then Err(cc.error) else Ok(PB.Condition(rowExistence.value, Some(cc.value)))
  }

  method MakeCondition(condition: Model.Condition) returns (r: Encoded<PB.Condition>)
    ensures r == ConditionMessage(condition)
  {
    var rowExistence := MakeRowExistence(condition.rowExistenceExpect);
    if rowExistence.Err? {
      return Err(rowExistence.error);
    }
    var columnCondition: Option<PB.ColumnCondition> := None;
    if condition.columnCondition.Some? {
      var cc := MakeColumnCondition(condition.columnCondition.value);
      if cc.Err? {
        return Err(cc.error);
      }
      columnCondition := Some(cc.value);
    }
    return Ok(PB.Condition(rowExistence.value, columnCondition));
  }

  /** An optional filter: absent stays absent. */
  function FilterMessage(filter: Option<Model.ColumnCondition>): (r: Encoded<Option<PB.ColumnCondition>>)
    ensures r.Ok? <==> (filter.Some? ==> OperatorsDefined(filter.value))
    ensures r.Ok? ==> (r.value.Some? <==> filter.Some?)
    ensures r.Ok? && filter.Some? ==> Ok(r.value.value) == ColumnConditionMessage(filter.value)
  {
    if filter.None? then Ok(None)
    else
      var cc := ColumnConditionMessage(filter.value);
      if cc.Err? then Err(cc.error) else Ok(Some(cc.value))
  }

  method MakeFilter(filter: Option<Model.ColumnCondition>) returns (r: Encoded<Option<PB.ColumnCondition>>)
    ensures r == FilterMessage(filter)
  {
    if filter.None? {
      return Ok(None);
    }
    var cc := MakeColumnCondition(filter.value);
    if cc.Err? {
      return Err(cc.error);
    }
    return Ok(Some(cc.value));
  }

  /** Every operator of an optional filter or condition is known. */
  predicate FilterDefined(filter: Option<Model.ColumnCondition>) {
    filter.Some? ==> OperatorsDefined(filter.value)
  }

  predicate ConditionDefined(condition: Model.Condition) {
    !condition.rowExistenceExpect.UndefinedExpectation? && FilterDefined(condition.columnCondition)
  }

  // --------------------------------------------------- single-table requests

  /** A request of the wrong kind for the encoder fails the cast. */
  const CastFailure: Exception := InvalidCastException

  /** The table meta and the reserved throughput, both converted. */
  function CreateTableMessage(request: Model.OTSRequest): (r: Encoded<PB.Request>)
    ensures !request.CreateTableRequest? ==> r == Err(CastFailure)
    ensures request.CreateTableRequest? ==> (r.Ok? <==> TableMetaMessage(request.tableMeta).Ok?)
    ensures r.Ok? ==>
      && r.value.CreateTableRequest?
      && Ok(r.value.tableMeta) == TableMetaMessage(request.tableMeta)
      && r.value.reservedThroughput.capacityUnit == MakeCapacityUnit(request.reservedThroughput)
  {
    if !request.CreateTableRequest? then Err(CastFailure)
    else
      var tableMeta := TableMetaMessage(request.tableMeta);
      if tableMeta.Err? then Err(tableMeta.error)
      else Ok(PB.CreateTableRequest(tableMeta.value, MakeReservedThroughput(request.reservedThroughput)))
  }

  method EncodeCreateTable(request: Model.OTSRequest) returns (r: Encoded<PB.Request>)
    ensures r == CreateTableMessage(request)
  {
    if !request.CreateTableRequest? {
      return Err(CastFailure);
    }
    var tableMeta := MakeTableMeta(request.tableMeta);
    if tableMeta.Err? {
      return Err(tableMeta.error);
    }
    return Ok(PB.CreateTableRequest(tableMeta.value, MakeReservedThroughput(request.reservedThroughput)));
  }

  function EncodeDeleteTable(request: Model.OTSRequest): (r: Encoded<PB.Request>)
    ensures r.Ok? <==> request.DeleteTableRequest?
    ensures r.Err? ==> r.error == CastFailure
    ensures r.Ok? ==> r.value.DeleteTableRequest? && r.value.tableName == request.tableName
  {
    if !request.DeleteTableRequest? then Err(CastFailure)
    else Ok(PB.DeleteTableRequest(request.tableName))
  }

  /** The table name and the new reserved throughput: a capacity left unset
      stays unset on the wire. */
  function EncodeUpdateTable(request: Model.OTSRequest): (r: Encoded<PB.Request>)
    ensures r.Ok? <==> request.UpdateTableRequest?
    ensures r.Err? ==> r.error == CastFailure
    ensures r.Ok? ==>
      && r.value.UpdateTableRequest? && r.value.tableName == request.tableName
      && (r.value.reservedThroughput.capacityUnit.read.Some? <==> request.reservedThroughput.read.Some?)
      && (r.value.reservedThroughput.capacityUnit.write.Some? <==> request.reservedThroughput.write.Some?)
      && r.value.reservedThroughput.capacityUnit == MakeCapacityUnit(request.reservedThroughput)
  {
    if !request.UpdateTableRequest? then Err(CastFailure)
    else Ok(PB.UpdateTableRequest(request.tableName, MakeReservedThroughput(request.reservedThroughput)))
  }

  /** A describe request is cast as such but sent as a delete-table message
      carrying its table name. */
  function EncodeDescribeTable(request: Model.OTSRequest): (r: Encoded<PB.Request>)
    ensures r.Ok? <==> request.DescribeTableRequest?
    ensures r.Err? ==> r.error == CastFailure
    ensures r.Ok? ==> r.value.DeleteTableRequest? && r.value.tableName == request.tableName
  {
    if !request.DescribeTableRequest? then Err(CastFailure)
    else Ok(PB.DeleteTableRequest(request.tableName))
  }

  /** Listing needs nothing from the request, so no request can fail it. */
  function EncodeListTable(request: Model.OTSRequest): (r: Encoded<PB.Request>)
    ensures r == Ok(PB.ListTableRequest)
  {
    Ok(PB.ListTableRequest)
  }

  /** The table name, the condition, and the key and attribute columns in
      dictionary order. */
  function PutRowMessage(request: Model.OTSRequest): (r: Encoded<PB.Request>)
    ensures !request.PutRowRequest? ==> r == Err(CastFailure)
    ensures request.PutRowRequest? ==> (r.Ok? <==> ConditionDefined(request.condition))
    ensures request.PutRowRequest? && r.Err? ==> ConditionMessage(request.condition) == Err(r.error)
    ensures r.Ok? ==>
      && r.value.PutRowRequest? && r.value.tableName == request.tableName
      && Ok(r.value.condition) == ConditionMessage(request.condition)
      && r.value.primaryKey == MakeColumns(request.primaryKey)
      && r.value.attributeColumns == MakeColumns(request.attribute)
  {
    if !request.PutRowRequest? then Err(CastFailure)
    else
      var condition := ConditionMessage(request.condition);
      if condition.Err? then Err(condition.error)
      else Ok(PB.PutRowRequest(request.tableName, condition.value, MakeColumns(request.primaryKey), MakeColumns(request.attribute)))
  }

  method EncodePutRow(request: Model.OTSRequest) returns (r: Encoded<PB.Request>)
    ensures r == PutRowMessage(request)
  {
    if !request.PutRowRequest? {
      return Err(CastFailure);
    }
    var condition := MakeCondition(request.condition);
    if condition.Err? {
      return Err(condition.error);
    }
    return Ok(PB.PutRowRequest(request.tableName, condition.value, MakeColumns(request.primaryKey), MakeColumns(request.attribute)));
  }

  /** The table name, the key, the selected columns and the filter.  A null
      column selection is handed to `AddRange`, which throws before the filter
      is looked at. */
  function GetRowMessage(request: Model.OTSRequest): (r: Encoded<PB.Request>)
    ensures !request.GetRowRequest? ==> r == Err(CastFailure)
    ensures request.GetRowRequest? ==>
      (r.Ok? <==> request.queryCriteria.columnsToGet.Some? && FilterDefined(request.queryCriteria.filter))
    ensures request.GetRowRequest? && request.queryCriteria.columnsToGet.None? ==> r == Err(ArgumentNullException)
    ensures r.Ok? ==>
      var q := request.queryCriteria;
      && r.value.GetRowRequest? && r.value.tableName == q.tableName
      && r.value.primaryKey == MakeColumns(q.rowPrimaryKey)
      && r.value.columnsToGet == q.columnsToGet.value
      && Ok(r.value.filter) == FilterMessage(q.filter)
  {
    if !request.GetRowRequest? then Err(CastFailure)
    else
      var q := request.queryCriteria;
      if q.columnsToGet.None? then Err(ArgumentNullException)
      else
        var filter := FilterMessage(q.filter);
        if filter.Err? then Err(filter.error)
        else Ok(PB.GetRowRequest(q.tableName, MakeColumns(q.rowPrimaryKey), q.columnsToGet.value, filter.value))
  }

  method EncodeGetRow(request: Model.OTSRequest) returns (r: Encoded<PB.Request>)
    ensures r == GetRowMessage(request)
  {
    if !request.GetRowRequest? {
      return Err(CastFailure);
    }
    var q := request.queryCriteria;
    var primaryKey := MakeColumns(q.rowPrimaryKey);
    if q.columnsToGet.None? {
      return Err(ArgumentNullException);
    }
    var filter := MakeFilter(q.filter);
    if filter.Err? {
      return Err(filter.error);
    }
    return Ok(PB.GetRowRequest(q.tableName, primaryKey, q.columnsToGet.value, filter.value));
  }

  /** The table name, the condition, the key, and the column updates: the
      puts, then the deletes. */
  function UpdateRowMessage(request: Model.OTSRequest): (r: Encoded<PB.Request>)
    ensures !request.UpdateRowRequest? ==> r == Err(CastFailure)
    ensures request.UpdateRowRequest? ==> (r.Ok? <==> ConditionDefined(request.condition))
    ensures request.UpdateRowRequest? && r.Err? ==> ConditionMessage(request.condition) == Err(r.error)
    ensures r.Ok? ==>
      && r.value.UpdateRowRequest? && r.value.tableName == request.tableName
      && Ok(r.value.condition) == ConditionMessage(request.condition)
      && r.value.primaryKey == MakeColumns(request.primaryKey)
      && r.value.columnUpdates == MakeUpdateOfAttribute(request.updateOfAttribute)
  {
    if !request.UpdateRowRequest? then Err(CastFailure)
    else
      var condition := ConditionMessage(request.condition);
      if condition.Err? then Err(condition.error)
      else Ok(PB.UpdateRowRequest(
        request.tableName, condition.value, MakeColumns(request.primaryKey), MakeUpdateOfAttribute(request.updateOfAttribute)))
  }

  method EncodeUpdateRow(request: Model.OTSRequest) returns (r: Encoded<PB.Request>)
    ensures r == UpdateRowMessage(request)
  {
    if !request.UpdateRowRequest? {
      return Err(CastFailure);
    }
    var condition := MakeCondition(request.condition);
    if condition.Err? {
      return Err(condition.error);
    }
    return Ok(PB.UpdateRowRequest(
      request.tableName, condition.value, MakeColumns(request.primaryKey), MakeUpdateOfAttribute(request.updateOfAttribute)));
  }

  function DeleteRowMessage(request: Model.OTSRequest): (r: Encoded<PB.Request>)
    ensures !request.DeleteRowRequest? ==> r == Err(CastFailure)
    ensures request.DeleteRowRequest? ==> (r.Ok? <==> ConditionDefined(request.condition))
    ensures request.DeleteRowRequest? && r.Err? ==> ConditionMessage(request.condition) == Err(r.error)
    ensures r.Ok? ==>
      && r.value.DeleteRowRequest? && r.value.tableName == request.tableName
      && Ok(r.value.condition) == ConditionMessage(request.condition)
      && r.value.primaryKey == MakeColumns(request.primaryKey)
  {
    if !request.DeleteRowRequest? then Err(CastFailure)
    else
      var condition := ConditionMessage(request.condition);
      if condition.Err? then Err(condition.error)
      else Ok(PB.DeleteRowRequest(request.tableName, condition.value, MakeColumns(request.primaryKey)))
  }

  method EncodeDeleteRow(request: Model.OTSRequest) returns (r: Encoded<PB.Request>)
    ensures r == DeleteRowMessage(request)
  {
    if !request.DeleteRowRequest? {
      return Err(CastFailure);
    }
    var condition := MakeCondition(request.condition);
    if condition.Err? {
      return Err(condition.error);
    }
    return Ok(PB.DeleteRowRequest(request.tableName, condition.value, MakeColumns(request.primaryKey)));
  }

  // ------------------------------------------------------------ batch write

  function PutRowInBatch(op: Model.PutOperation): (r: Encoded<PB.PutRowInBatchWriteRowRequest>)
    ensures r.Ok? <==> ConditionDefined(op.condition)
    ensures r.Err? ==> ConditionMessage(op.condition) == Err(r.error)
    ensures r.Ok? ==>
      && Ok(r.value.condition) == ConditionMessage(op.condition)
      && r.value.primaryKey == MakeColumns(op.primaryKey)
      && r.value.attributeColumns == MakeColumns(op.attribute)
  {
    var condition := ConditionMessage(op.condition);
    if condition.Err? then Err(condition.error)
    else Ok(PB.PutRowInBatchWriteRowRequest(condition.value, MakeColumns(op.primaryKey), MakeColumns(op.attribute)))
  }

  function UpdateRowInBatch(op: Model.UpdateOperation): (r: Encoded<PB.UpdateRowInBatchWriteRowRequest>)
    ensures r.Ok? <==> ConditionDefined(op.condition)
    ensures r.Err? ==> ConditionMessage(op.condition) == Err(r.error)
    ensures r.Ok? ==>
      && Ok(r.value.condition) == ConditionMessage(op.condition)
      && r.value.primaryKey == MakeColumns(op.primaryKey)
      && r.value.columnUpdates == MakeUpdateOfAttribute(op.update)
  {
    var condition := ConditionMessage(op.condition);
    if condition.Err? then Err(condition.error)
    else Ok(PB.UpdateRowInBatchWriteRowRequest(condition.value, MakeColumns(op.primaryKey), MakeUpdateOfAttribute(op.update)))
  }

  function DeleteRowInBatch(op: Model.DeleteOperation): (r: Encoded<PB.DeleteRowInBatchWriteRowRequest>)
    ensures r.Ok? <==> ConditionDefined(op.condition)
    ensures r.Err? ==> ConditionMessage(op.condition) == Err(r.error)
    ensures r.Ok? ==>
      && Ok(r.value.condition) == ConditionMessage(op.condition)
      && r.value.primaryKey == MakeColumns(op.primaryKey)
  {
    var condition := ConditionMessage(op.condition);
    if condition.Err? then Err(condition.error)
    else Ok(PB.DeleteRowInBatchWriteRowRequest(condition.value, MakeColumns(op.primaryKey)))
  }

  /** One table's changes: the puts, the updates and the deletes, each list
      in caller order and each row with its own condition.  The lists are
      encoded in that order, so a bad put is reported before a bad update. */
  function BatchWriteTableMessage(tableName: string, rowChanges: Model.RowChanges)
    : (r: Encoded<PB.TableInBatchWriteRowRequest>)
    ensures r.Ok? <==>
      && (forall i | 0 <= i < |rowChanges.putOperations| :: ConditionDefined(rowChanges.putOperations[i].condition))
      && (forall i | 0 <= i < |rowChanges.updateOperations| :: ConditionDefined(rowChanges.updateOperations[i].condition))
      && (forall i | 0 <= i < |rowChanges.deleteOperations| :: ConditionDefined(rowChanges.deleteOperations[i].condition))
    ensures r.Ok? ==>
      && r.value.tableName == tableName
      && |r.value.putRows| == |rowChanges.putOperations|
      && |r.value.updateRows| == |rowChanges.updateOperations|
      && |r.value.deleteRows| == |rowChanges.deleteOperations|
    ensures r.Ok? ==> forall i | 0 <= i < |rowChanges.putOperations| ::
      Ok(r.value.putRows[i]) == PutRowInBatch(rowChanges.putOperations[i])
    ensures r.Ok? ==> forall i | 0 <= i < |rowChanges.updateOperations| ::
      Ok(r.value.updateRows[i]) == UpdateRowInBatch(rowChanges.updateOperations[i])
    ensures r.Ok? ==> forall i | 0 <= i < |rowChanges.deleteOperations| ::
      Ok(r.value.deleteRows[i]) == DeleteRowInBatch(rowChanges.deleteOperations[i])
    ensures r.Err? && MapResult(PutRowInBatch, rowChanges.putOperations).Err? ==>
      exists i | 0 <= i < |rowChanges.putOperations| :: PutRowInBatch(rowChanges.putOperations[i]) == Err(r.error)
  {
    var puts := MapResult(PutRowInBatch, rowChanges.putOperations);
    if puts.Err? then Err(puts.error)
    else
      var updates := MapResult(UpdateRowInBatch, rowChanges.updateOperations);
      if updates.Err? then Err(updates.error)
      else
        var deletes := MapResult(DeleteRowInBatch, rowChanges.deleteOperations);
        if deletes.Err? then Err(deletes.error)
        else
          Ok(PB.TableInBatchWriteRowRequest(tableName, puts.value, updates.value, deletes.value))
  }

  method MakeTableInBatchWriteRowRequest(tableName: string, rowChanges: Model.RowChanges)
    returns (r: Encoded<PB.TableInBatchWriteRowRequest>)
    ensures r == BatchWriteTableMessage(tableName, rowChanges)
  {
    var putOps := rowChanges.putOperations;
    var putRows: seq<PB.PutRowInBatchWriteRowRequest> := [];
    var i := 0;
    while i < |putOps|
      invariant 0 <= i <= |putOps|
      invariant MapResult(PutRowInBatch, putOps) == MapResultFrom(PutRowInBatch, putRows, putOps[i..])
    {
      MapResultStep(PutRowInBatch, putRows, putOps, i);
      var condition := MakeCondition(putOps[i].condition);
      if condition.Err? {
        return Err(condition.error);
      }
      putRows := putRows + [PB.PutRowInBatchWriteRowRequest(
        condition.value, MakeColumns(putOps[i].primaryKey), MakeColumns(putOps[i].attribute))];
      i := i + 1;
    }

    var updateOps := rowChanges.updateOperations;
    var updateRows: seq<PB.UpdateRowInBatchWriteRowRequest> := [];
    i := 0;
    while i < |updateOps|
      invariant 0 <= i <= |updateOps|
      invariant MapResult(UpdateRowInBatch, updateOps) == MapResultFrom(UpdateRowInBatch, updateRows, updateOps[i..])
    {
      MapResultStep(UpdateRowInBatch, updateRows, updateOps, i);
      var condition := MakeCondition(updateOps[i].condition);
      if condition.Err? {
        return Err(condition.error);
      }
      updateRows := updateRows + [PB.UpdateRowInBatchWriteRowRequest(
        condition.value, MakeColumns(updateOps[i].primaryKey), MakeUpdateOfAttribute(updateOps[i].update))];
      i := i + 1;
    }

    var deleteOps := rowChanges.deleteOperations;
    var deleteRows: seq<PB.DeleteRowInBatchWriteRowRequest> := [];
    i := 0;
    while i < |deleteOps|
      invariant 0 <= i <= |deleteOps|
      invariant MapResult(DeleteRowInBatch, deleteOps) == MapResultFrom(DeleteRowInBatch, deleteRows, deleteOps[i..])
    {
      MapResultStep(DeleteRowInBatch, deleteRows, deleteOps, i);
      var condition := MakeCondition(deleteOps[i].condition);
      if condition.Err? {
        return Err(condition.error);
      }
      deleteRows := deleteRows + [PB.DeleteRowInBatchWriteRowRequest(condition.value, MakeColumns(deleteOps[i].primaryKey))];
      i := i + 1;
    }
    return Ok(PB.TableInBatchWriteRowRequest(tableName, putRows, updateRows, deleteRows));
  }

  function BatchWriteTableEntry(entry: (string, Model.RowChanges)): Encoded<PB.TableInBatchWriteRowRequest> {
    BatchWriteTableMessage(entry.0, entry.1)
  }

  /** One table message per table of the request, in the dictionary's order. */
  function BatchWriteRowMessage(request: Model.OTSRequest): (r: Encoded<PB.Request>)
    ensures !request.BatchWriteRowRequest? ==> r == Err(CastFailure)
    ensures request.BatchWriteRowRequest? ==>
      (r.Ok? <==> forall i | 0 <= i < |request.rowChangesGroupByTable| ::
        BatchWriteTableEntry(request.rowChangesGroupByTable[i]).Ok?)
    ensures r.Ok? ==>
      && r.value.BatchWriteRowRequest?
      && |r.value.writeTables| == |request.rowChangesGroupByTable|
      && forall i | 0 <= i < |request.rowChangesGroupByTable| ::
        r.value.writeTables[i].tableName == request.rowChangesGroupByTable[i].0
        && Ok(r.value.writeTables[i]) == BatchWriteTableEntry(request.rowChangesGroupByTable[i])
  {
    if !request.BatchWriteRowRequest? then Err(CastFailure)
    else
      var tables := MapResult(BatchWriteTableEntry, request.rowChangesGroupByTable);
      if tables.Err? then Err(tables.error)
      else
        Ok(PB.BatchWriteRowRequest(tables.value))
  }

  method EncodeBatchWriteRow(request: Model.OTSRequest) returns (r: Encoded<PB.Request>)
    ensures r == BatchWriteRowMessage(request)
  {
    if !request.BatchWriteRowRequest? {
      return Err(CastFailure);
    }
    var entries := request.rowChangesGroupByTable;
    var tables: seq<PB.TableInBatchWriteRowRequest> := [];
    var i := 0;
    while i < |entries|
      invariant 0 <= i <= |entries|
      invariant MapResult(BatchWriteTableEntry, entries) == MapResultFrom(BatchWriteTableEntry, tables, entries[i..])
    {
      MapResultStep(BatchWriteTableEntry, tables, entries, i);
      var table := MakeTableInBatchWriteRowRequest(entries[i].0, entries[i].1);
      if table.Err? {
        return Err(table.error);
      }
      tables := tables + [table.value];
      i := i + 1;
    }
    return Ok(PB.BatchWriteRowRequest(tables));
  }

  // -------------------------------------------------------------- batch get

  /** One row request per primary key, in order. */
  function RowRequests(rowKeys: seq<Model.PrimaryKey>): (r: seq<PB.RowInBatchGetRowRequest>)
    ensures |r| == |rowKeys|
    ensures forall i | 0 <= i < |rowKeys| :: r[i].primaryKey == MakeColumns(rowKeys[i])
  {
    seq(|rowKeys|, i requires 0 <= i < |rowKeys| => PB.RowInBatchGetRowRequest(MakeColumns(rowKeys[i])))
  }

  /** One table's reads: the rows in order, the selected columns (none when
      the selection is null) and the filter. */
  function BatchGetTableMessage(criteria: Model.MultiRowQueryCriteria): (r: Encoded<PB.TableInBatchGetRowRequest>)
    ensures r.Ok? <==> FilterDefined(criteria.filter)
    ensures r.Err? ==> FilterMessage(criteria.filter) == Err(r.error)
    ensures r.Ok? ==>
      && r.value.tableName == criteria.tableName
      && r.value.rows == RowRequests(criteria.rowKeys)
      && (criteria.columnsToGet.None? ==> r.value.columnsToGet == [])
      && (criteria.columnsToGet.Some? ==> r.value.columnsToGet == criteria.columnsToGet.value)
      && Ok(r.value.filter) == FilterMessage(criteria.filter)
  {
    var filter := FilterMessage(criteria.filter);
    if filter.Err? then Err(filter.error)
    else Ok(PB.TableInBatchGetRowRequest(
      criteria.tableName, RowRequests(criteria.rowKeys), criteria.columnsToGet.GetOr([]), filter.value))
  }

  method MakeTableInBatchGetRowRequest(criteria: Model.MultiRowQueryCriteria)
    returns (r: Encoded<PB.TableInBatchGetRowRequest>)
    ensures r == BatchGetTableMessage(criteria)
  {
    var keys := criteria.rowKeys;
    var rows: seq<PB.RowInBatchGetRowRequest> := [];
    var i := 0;
    while i < |keys|
      invariant 0 <= i <= |keys|
      invariant rows == RowRequests(keys[..i])
    {
      rows := rows + [PB.RowInBatchGetRowRequest(MakeColumns(keys[i]))];
      i := i + 1;
      assert keys[..i] == keys[..i - 1] + [keys[i - 1]];
    }
    assert keys[..i] == keys;
    var columnsToGet: seq<string> := [];
    if criteria.columnsToGet.Some? {
      columnsToGet := columnsToGet + criteria.columnsToGet.value;
      assert columnsToGet == criteria.columnsToGet.value;
    }
    var filter := MakeFilter(criteria.filter);
    if filter.Err? {
      return Err(filter.error);
    }
    return Ok(PB.TableInBatchGetRowRequest(criteria.tableName, rows, columnsToGet, filter.value));
  }

  /** One table message per criteria, in order. */
  function BatchGetRowMessage(request: Model.OTSRequest): (r: Encoded<PB.Request>)
    ensures !request.BatchGetRowRequest? ==> r == Err(CastFailure)
    ensures request.BatchGetRowRequest? ==>
      (r.Ok? <==> forall i | 0 <= i < |request.criterias| :: FilterDefined(request.criterias[i].filter))
    ensures r.Ok? ==>
      && r.value.BatchGetRowRequest?
      && |r.value.getTables| == |request.criterias|
      && forall i | 0 <= i < |request.criterias| :: Ok(r.value.getTables[i]) == BatchGetTableMessage(request.criterias[i])
  {
    if !request.BatchGetRowRequest? then Err(CastFailure)
    else
      var tables := MapResult(BatchGetTableMessage, request.criterias);
      if tables.Err? then Err(tables.error)
      else
        Ok(PB.BatchGetRowRequest(tables.value))
  }

  method EncodeBatchGetRow(request: Model.OTSRequest) returns (r: Encoded<PB.Request>)
    ensures r == BatchGetRowMessage(request)
  {
    if !request.BatchGetRowRequest? {
      return Err(CastFailure);
    }
    var criterias := request.criterias;
    var tables: seq<PB.TableInBatchGetRowRequest> := [];
    var i := 0;
    while i < |criterias|
      invariant 0 <= i <= |criterias|
      invariant MapResult(BatchGetTableMessage, criterias) == MapResultFrom(BatchGetTableMessage, tables, criterias[i..])
    {
      MapResultStep(BatchGetTableMessage, tables, criterias, i);
      var table := MakeTableInBatchGetRowRequest(criterias[i]);
      if table.Err? {
        return Err(table.error);
      }
      tables := tables + [table.value];
      i := i + 1;
    }
    return Ok(PB.BatchGetRowRequest(tables));
  }

  // -------------------------------------------------------------- range scan

  /** The table name, the direction (checked first), the selected columns
      (none when null), the limit exactly when one is set, the filter, and
      both boundary keys, whose sentinel values are kept. */
  function GetRangeMessage(request: Model.OTSRequest): (r: Encoded<PB.Request>)
    ensures !request.GetRangeRequest? ==> r == Err(CastFailure)
    ensures request.GetRangeRequest? ==>
      (r.Ok? <==> !request.rangeCriteria.direction.UndefinedDirection? && FilterDefined(request.rangeCriteria.filter))
    ensures request.GetRangeRequest? && request.rangeCriteria.direction.UndefinedDirection? ==>
      r.Err? && MakeDirection(request.rangeCriteria.direction) == Err(r.error)
    ensures r.Ok? ==>
      var q := request.rangeCriteria;
      && r.value.GetRangeRequest? && r.value.tableName == q.tableName
      && WireReading.DirectionOf(r.value.direction) == q.direction
      && (q.columnsToGet.None? ==> r.value.columnsToGet == [])
      && (q.columnsToGet.Some? ==> r.value.columnsToGet == q.columnsToGet.value)
      && r.value.limit == q.limit
      && Ok(r.value.filter) == FilterMessage(q.filter)
      && r.value.inclusiveStartPrimaryKey == MakeColumns(q.inclusiveStartPrimaryKey)
      && r.value.exclusiveEndPrimaryKey == MakeColumns(q.exclusiveEndPrimaryKey)
  {
    if !request.GetRangeRequest? then Err(CastFailure)
    else
      var q := request.rangeCriteria;
      var direction := MakeDirection(q.direction);
      if direction.Err? then Err(direction.error)
      else
        var filter := FilterMessage(q.filter);
        if filter.Err? then Err(filter.error)
        else Ok(PB.GetRangeRequest(
          q.tableName, direction.value, q.columnsToGet.GetOr([]), q.limit, filter.value,
          MakeColumns(q.inclusiveStartPrimaryKey), MakeColumns(q.exclusiveEndPrimaryKey)))
  }

  method EncodeGetRange(request: Model.OTSRequest) returns (r: Encoded<PB.Request>)
    ensures r == GetRangeMessage(request)
  {
    if !request.GetRangeRequest? {
      return Err(CastFailure);
    }
    var q := request.rangeCriteria;
    var direction := MakeDirection(q.direction);
    if direction.Err? {
      return Err(direction.error);
    }
    var columnsToGet: seq<string> := [];
    if q.columnsToGet.Some? {
      columnsToGet := columnsToGet + q.columnsToGet.value;
      assert columnsToGet == q.columnsToGet.value;
    }
    var limit: Option<int32> := None;
    if q.limit.Some? {
      limit := Some(q.limit.value);
    }
    var filter := MakeFilter(q.filter);
    if filter.Err? {
      return Err(filter.error);
    }
    return Ok(PB.GetRangeRequest(
      q.tableName, direction.value, columnsToGet, limit, filter.value,
      MakeColumns(q.inclusiveStartPrimaryKey), MakeColumns(q.exclusiveEndPrimaryKey)));
  }

  // ---------------------------------------------------------------- dispatch

  /** The request kind each operation's encoder casts to; listing casts to
      nothing. */
  predicate Accepts(api: Ops.Api, request: Model.OTSRequest) {
    match api
    case CreateTable => request.CreateTableRequest?
    case DeleteTable => request.DeleteTableRequest?
    case UpdateTable => request.UpdateTableRequest?
    case DescribeTable => request.DescribeTableRequest?
    case ListTable => true
    case PutRow => request.PutRowRequest?
    case GetRow => request.GetRowRequest?
    case UpdateRow => request.UpdateRowRequest?
    case DeleteRow => request.DeleteRowRequest?
    case BatchWriteRow => request.BatchWriteRowRequest?
    case BatchGetRow => request.BatchGetRowRequest?
    case GetRange => request.GetRangeRequest?
  }

  /** The message kind each operation's encoder produces.  Describing a table
      produces a delete-table message. */
  predicate Produces(api: Ops.Api, message: PB.Request) {
    match api
    case CreateTable => message.CreateTableRequest?
    case DeleteTable => message.DeleteTableRequest?
    case UpdateTable => message.UpdateTableRequest?
    case DescribeTable => message.DeleteTableRequest?
    case ListTable => message.ListTableRequest?
    case PutRow => message.PutRowRequest?
    case GetRow => message.GetRowRequest?
    case UpdateRow => message.UpdateRowRequest?
    case DeleteRow => message.DeleteRowRequest?
    case BatchWriteRow => message.BatchWriteRowRequest?
    case BatchGetRow => message.BatchGetRowRequest?
    case GetRange => message.GetRangeRequest?
  }

  /** The encoder registered under each operation. */
  function MessageFor(api: Ops.Api, request: Model.OTSRequest): Encoded<PB.Request> {
    match api
    case CreateTable => CreateTableMessage(request)
    case DeleteTable => EncodeDeleteTable(request)
    case UpdateTable => EncodeUpdateTable(request)
    case DescribeTable => EncodeDescribeTable(request)
    case ListTable => EncodeListTable(request)
    case PutRow => PutRowMessage(request)
    case GetRow => GetRowMessage(request)
    case UpdateRow => UpdateRowMessage(request)
    case DeleteRow => DeleteRowMessage(request)
    case BatchWriteRow => BatchWriteRowMessage(request)
    case BatchGetRow => BatchGetRowMessage(request)
    case GetRange => GetRangeMessage(request)
  }

  /** The encoder is looked up by operation name (an unknown name throws
      `KeyNotFoundException`) and its result is the message: a request of
      the wrong kind fails the cast, and a message is always of the
      operation's own kind. */
  function RequestMessage(apiName: string, request: Model.OTSRequest): (r: Encoded<PB.Request>)
    ensures Ops.Lookup(apiName).None? ==> r == Err(KeyNotFoundException(apiName))
    ensures Ops.Lookup(apiName).Some? && !Accepts(Ops.Lookup(apiName).value, request) ==> r == Err(CastFailure)
    ensures r.Ok? ==> Ops.Lookup(apiName).Some? && Produces(Ops.Lookup(apiName).value, r.value)
    ensures Ops.Lookup(apiName).Some? ==> r == MessageFor(Ops.Lookup(apiName).value, request)
  {
    var api := Ops.Lookup(apiName);
    if api.None? then Err(KeyNotFoundException(apiName)) else MessageFor(api.value, request)
  }

  method Encode(apiName: string, request: Model.OTSRequest) returns (r: Encoded<PB.Request>)
    ensures r == RequestMessage(apiName, request)
  {
    var api := Ops.Lookup(apiName);
    if api.None? {
      return Err(KeyNotFoundException(apiName));
    }
    match api.value
    case CreateTable => r := EncodeCreateTable(request);
    case DeleteTable => r := EncodeDeleteTable(request);
    case UpdateTable => r := EncodeUpdateTable(request);
    case DescribeTable => r := EncodeDescribeTable(request);
    case ListTable => r := EncodeListTable(request);
    case PutRow => r := EncodePutRow(request);
    case GetRow => r := EncodeGetRow(request);
    case UpdateRow => r := EncodeUpdateRow(request);
    case DeleteRow => r := EncodeDeleteRow(request);
    case BatchWriteRow => r := EncodeBatchWriteRow(request);
    case BatchGetRow => r := EncodeBatchGetRow(request);
    case GetRange => r := EncodeGetRange(request);
  }

  // ----------------------------------------------------------------- handlers

  /** The request phase: encode the request (what the encoder throws
      escapes, and nothing is sent), store the serialised message as the
      request body, and hand over to the next stage, which sends it. */
  method HandleBefore(context: Context, transport: Transport) returns (outcome: Outcome)
    modifies context
    ensures var m := RequestMessage(context.apiName, context.otsRequest);
      m.Err? ==> outcome == Thrown(m.error) && unchanged(context)
    ensures var m := RequestMessage(context.apiName, context.otsRequest);
      m.Ok? ==>
        var reply := transport(context.apiName, PB.Serialized(m.value));
        && context.httpRequestBody == PB.Serialized(m.value)
        && context.otsResponse == old(context.otsResponse)
        && context.errorLog == old(context.errorLog)
        && (reply.Err? ==>
              outcome == Thrown(reply.error)
              && context.httpResponseStatusCode == old(context.httpResponseStatusCode)
              && context.httpResponseHeaders == old(context.httpResponseHeaders)
              && context.httpResponseBody == old(context.httpResponseBody))
        && (reply.Ok? ==>
              outcome == Completed
              && context.httpResponseStatusCode == reply.value.statusCode
              && context.httpResponseHeaders == reply.value.headers
              && context.httpResponseBody == reply.value.body)
  {
    var message := Encode(context.apiName, context.otsRequest);
    if message.Err? {
      return Thrown(message.error);
    }
    context.httpRequestBody := PB.Serialized(message.value);
    outcome := ErrorHandler.HandleBefore(context, transport);
  }

  /** The response phase is the next stage's alone. */
  method HandleAfter(context: Context, parsers: PB.Parsers) returns (outcome: Outcome)
    modifies context
    ensures var d := Decoder.DecodedResponse(context.apiName, old(context.httpResponseBody), parsers);
      d.Err? ==> outcome == Thrown(d.error) && unchanged(context)
    ensures var d := Decoder.DecodedResponse(context.apiName, old(context.httpResponseBody), parsers);
      d.Ok? ==>
        var v := ErrorHandler.Classify(context.apiName, old(context.httpResponseStatusCode),
                                       parsers.error(old(context.httpResponseBody)), old(context.httpResponseHeaders));
        && context.otsResponse == Some(d.value)
        && outcome == (if v.Return? then Completed else Thrown(v.exception))
        && context.errorLog == old(context.errorLog) + (if v.Throw? && context.errorLogEnabled then [v.exception] else [])
    ensures context.httpRequestBody == old(context.httpRequestBody)
    ensures context.httpResponseStatusCode == old(context.httpResponseStatusCode)
    ensures context.httpResponseHeaders == old(context.httpResponseHeaders)
    ensures context.httpResponseBody == old(context.httpResponseBody)
  {
    outcome := ErrorHandler.HandleAfter(context, parsers);
  }
}
