/** Reference readings of the wire values the encoder produces, back into the
    model: each enum is read case by case, a column value by the decoder
    except for the two sentinels, and a condition envelope by its blob.  The
    encoder's contracts and the round-trip lemmas are stated against these. */
module WireReading {
  import opened Common
  import PB = Protocol
  import Model = DataModel
  import Decoder = ProtoBufferDecoder

  function ComparatorOf(c: PB.ComparatorType): Model.CompareOperator {
    match c
    case CtEqual => Model.Equal
    case CtNotEqual => Model.NotEqual
    case CtGreaterThan => Model.GreaterThan
    case CtGreaterEqual => Model.GreaterEqual
    case CtLessThan => Model.LessThan
    case CtLessEqual => Model.LessEqual
  }

  function LogicOperatorOf(o: PB.LogicalOperator): Model.LogicOperator {
    match o
    case LoNot => Model.Not
    case LoAnd => Model.And
    case LoOr => Model.Or
  }

  function ConditionTypeOf(t: PB.ColumnConditionType): Model.ColumnConditionType {
    match t
    case CctComposite => Model.CompositeCondition
    case CctRelation => Model.RelationalCondition
  }

  function RowExistenceOf(e: PB.RowExistenceExpectation): Model.RowExistenceExpectation {
    match e
    case Ignore => Model.Ignore
    case ExpectExist => Model.ExpectExist
    case ExpectNotExist => Model.ExpectNotExist
  }

  function DirectionOf(d: PB.Direction): Model.GetRangeDirection {
    match d
    case Forward => Model.Forward
    case Backward => Model.Backward
  }

  /** A sentinel tag reads as its sentinel; any other value as the decoder
      reads it, and `None` where the decoder throws. */
  function ColumnValueOf(v: PB.ColumnValue): Option<Model.ColumnValue> {
    if v.tag.InfMax? then Some(Model.InfMax)
    else if v.tag.InfMin? then Some(Model.InfMin)
    else
      var d := Decoder.ParseColumnValue(v);
      if d.Err? then None else Some(d.value)
  }

  /** A condition envelope read through its blob. */
  function ConditionOf(c: PB.ColumnCondition): Option<Model.ColumnCondition>
    decreases c, 1
  {
    match c.condition
    case RelationBlob(rel) =>
      var v := ColumnValueOf(rel.columnValue);
      if v.None? then None
      else Some(Model.Relational(rel.columnName, ComparatorOf(rel.comparator), v.value, rel.passIfMissing))
    case CompositeBlob(comp) =>
      var subs := ConditionsOf(comp.subConditions);
      if subs.None? then None else Some(Model.Composite(LogicOperatorOf(comp.combinator), subs.value))
  }

  function ConditionsOf(cs: seq<PB.ColumnCondition>): Option<seq<Model.ColumnCondition>>
    decreases cs, 0
  {
    if cs == [] then Some([])
    else
      var h := ConditionOf(cs[0]);
      var t := ConditionsOf(cs[1..]);
      if h.None? || t.None? then None else Some([h.value] + t.value)
  }
}
