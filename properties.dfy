/** Properties that relate the encoder to the decoder and to the reference
    readings: what the client sends can be read back as what the caller
    built, and where it cannot, exactly why. */
module CodecProperties {
  import opened Common
  import PB = Protocol
  import Model = DataModel
  import Decoder = ProtoBufferDecoder
  import Encoder = ProtoBufferEncoder
  import WireReading

  /** Reading a list of envelopes succeeds with the element-wise readings. */
  lemma {:induction false} ConditionsOfPointwise(xs: seq<PB.ColumnCondition>, ys: seq<Model.ColumnCondition>)
    requires |xs| == |ys|
    requires forall i | 0 <= i < |xs| :: WireReading.ConditionOf(xs[i]) == Some(ys[i])
    ensures WireReading.ConditionsOf(xs) == Some(ys)
    decreases |xs|
  {
    if xs != [] {
      assert forall i | 0 <= i < |xs[1..]| :: xs[1..][i] == xs[i + 1] && ys[1..][i] == ys[i + 1];
      ConditionsOfPointwise(xs[1..], ys[1..]);
      assert [ys[0]] + ys[1..] == ys;
    }
  }

  /** An encoded condition tree reads back as the tree it came from: every
      node keeps its kind, operator, column name, operand, `PassIfMissing`
      flag and its children in order. */
  lemma {:induction false} ConditionRoundTrip(cc: Model.ColumnCondition)
    requires Encoder.ColumnConditionMessage(cc).Ok?
    ensures WireReading.ConditionOf(Encoder.ColumnConditionMessage(cc).value) == Some(cc)
    decreases cc
  {
    match cc
    case Relational(_, _, _, _) =>
    case Composite(_, subConditions) =>
      var messages := Encoder.CompositeConditionBlob(cc).value.composite.subConditions;
      forall i | 0 <= i < |subConditions|
        ensures WireReading.ConditionOf(messages[i]) == Some(subConditions[i])
      {
        ConditionRoundTrip(subConditions[i]);
      }
      ConditionsOfPointwise(messages, subConditions);
  }

  /** Two condition trees that encode to the same envelope are the same tree. */
  lemma ConditionEncodingInjective(a: Model.ColumnCondition, b: Model.ColumnCondition)
    requires Encoder.ColumnConditionMessage(a).Ok? && Encoder.ColumnConditionMessage(b).Ok?
    requires Encoder.ColumnConditionMessage(a) == Encoder.ColumnConditionMessage(b)
    ensures a == b
  {
    ConditionRoundTrip(a);
    ConditionRoundTrip(b);
  }

  /** A row condition reads back as the condition it came from. */
  lemma RowConditionRoundTrip(condition: Model.Condition)
    requires Encoder.ConditionMessage(condition).Ok?
    ensures var m := Encoder.ConditionMessage(condition).value;
      && WireReading.RowExistenceOf(m.rowExistence) == condition.rowExistenceExpect
      && (m.columnCondition.None? <==> condition.columnCondition.None?)
      && (m.columnCondition.Some? ==> WireReading.ConditionOf(m.columnCondition.value) == condition.columnCondition)
  {
    if condition.columnCondition.Some? {
      ConditionRoundTrip(condition.columnCondition.value);
    }
  }

  /** The decoder accepts the encoding of a column dictionary exactly when no
      value is a sentinel and no name repeats, and then returns the same
      columns in the same order.  A sentinel, which the encoder sends (range
      boundaries need them), is never read back. */
  lemma ColumnsRoundTrip(columns: seq<Model.Column>)
    ensures Decoder.DecodedColumns(Encoder.MakeColumns(columns)).Ok? <==>
      Model.NoSentinels(columns) && Model.DistinctNames(columns)
    ensures Model.NoSentinels(columns) && Model.DistinctNames(columns) ==>
      Decoder.DecodedColumns(Encoder.MakeColumns(columns)) == Ok(columns)
  {
    var wire := Encoder.MakeColumns(columns);
    assert forall i | 0 <= i < |columns| :: wire[i].name == columns[i].name;
    assert forall i | 0 <= i < |columns| ::
      Decoder.ParseColumnValue(wire[i].value).Ok? <==> !columns[i].value.IsSentinel();
    var r := Decoder.DecodedColumns(wire);
    if r.Ok? {
      forall i | 0 <= i < |columns| ensures r.value[i] == columns[i] {
        assert Ok(r.value[i]) == Decoder.DecodedColumn(wire[i]);
      }
      assert r.value == columns;
    }
  }

  /** The put half of an update reads back as the columns to put, in order,
      and the delete half as the names to delete, in order. */
  lemma UpdateOfAttributeRoundTrip(update: Model.UpdateOfAttribute)
    ensures var u := Encoder.MakeUpdateOfAttribute(update);
      var puts := update.attributeColumnsToPut;
      && (forall i | 0 <= i < |puts| ::
            Model.Column(u[i].name, WireReading.ColumnValueOf(u[i].value.value).value) == puts[i])
      && u[|puts|..] == seq(|update.attributeColumnsToDelete|,
                            j requires 0 <= j < |update.attributeColumnsToDelete| =>
                              PB.ColumnUpdate(PB.Delete, update.attributeColumnsToDelete[j], None))
  {
    var u := Encoder.MakeUpdateOfAttribute(update);
    var puts := update.attributeColumnsToPut;
    var deletes := update.attributeColumnsToDelete;
    forall j | 0 <= j < |deletes|
      ensures u[|puts|..][j] == PB.ColumnUpdate(PB.Delete, deletes[j], None)
    {
      assert u[|puts|..][j] == u[|puts| + j];
    }
  }

  /** A sentinel among a put's attribute columns is not rejected: the row is
      encoded, and the column goes on the wire as the sentinel's bare tag. */
  lemma SentinelAttributeIsSent(
    tableName: string, condition: Model.Condition, primaryKey: Model.PrimaryKey,
    attribute: Model.AttributeColumns, i: nat)
    requires Encoder.ConditionDefined(condition)
    requires i < |attribute| && attribute[i].value.IsSentinel()
    ensures var r := Encoder.PutRowMessage(Model.PutRowRequest(tableName, condition, primaryKey, attribute));
      && r.Ok?
      && r.value.attributeColumns[i].value.tag in {PB.InfMax, PB.InfMin}
      && r.value.attributeColumns[i].value.PayloadCount() == 0
  {
  }

  /** Describing a table and deleting it send the same message body. */
  lemma DescribeTableSendsDeleteMessage(tableName: string)
    ensures Encoder.RequestMessage("/DescribeTable", Model.DescribeTableRequest(tableName))
         == Encoder.RequestMessage("/DeleteTable", Model.DeleteTableRequest(tableName))
         == Ok(PB.DeleteTableRequest(tableName))
  {
  }
}
