/** The operation-name table that both the encoder's and the decoder's
    dispatch dictionaries are keyed by. */
module Operations {
  import opened Common

  datatype Api =
    | CreateTable | DeleteTable | UpdateTable | DescribeTable | ListTable
    | PutRow | GetRow | UpdateRow | DeleteRow
    | BatchWriteRow | BatchGetRow | GetRange
  {
    /** The path-like name the operation is dispatched (and routed) by. */
    function Name(): string {
      match this
      case CreateTable => "/CreateTable"
      case DeleteTable => "/DeleteTable"
      case UpdateTable => "/UpdateTable"
      case DescribeTable => "/DescribeTable"
      case ListTable => "/ListTable"
      case PutRow => "/PutRow"
      case GetRow => "/GetRow"
      case UpdateRow => "/UpdateRow"
      case DeleteRow => "/DeleteRow"
      case BatchWriteRow => "/BatchWriteRow"
      case BatchGetRow => "/BatchGetRow"
      case GetRange => "/GetRange"
    }
  }

  /** The keys of the dispatch dictionaries, as they are listed. */
  const DispatchTable: map<string, Api> := map[
    "/CreateTable" := CreateTable,
    "/DeleteTable" := DeleteTable,
    "/UpdateTable" := UpdateTable,
    "/DescribeTable" := DescribeTable,
    "/ListTable" := ListTable,
    "/PutRow" := PutRow,
    "/GetRow" := GetRow,
    "/UpdateRow" := UpdateRow,
    "/DeleteRow" := DeleteRow,
    "/BatchWriteRow" := BatchWriteRow,
    "/BatchGetRow" := BatchGetRow,
    "/GetRange" := GetRange
  ]

  /** The dictionary lookup: `None` where the C# indexer throws `KeyNotFoundException`. */
  function Lookup(apiName: string): (r: Option<Api>)
    ensures r.Some? <==> apiName in DispatchTable
    ensures r.Some? ==> r.value.Name() == apiName
  {
    if apiName in DispatchTable then Some(DispatchTable[apiName]) else None
  }

  /** Every operation is reachable under exactly its own name. */
  lemma DispatchTableIsBijective()
    ensures forall a: Api :: Lookup(a.Name()) == Some(a)
    ensures forall n :: n in DispatchTable <==> exists a: Api :: a.Name() == n
  {
    forall n | n in DispatchTable ensures exists a: Api :: a.Name() == n {
      assert DispatchTable[n].Name() == n;
    }
  }
}
