/** `PrimaryKeySchema`: the ordered list of a table's primary-key columns,
    each a (name, type) pair, that both the encoder and the decoder traverse
    in list order. */
module Schema {
  import opened DataModel

  class PrimaryKeySchema {
    /** The list's elements, in insertion order. */
    var entries: seq<SchemaEntry>

    /** A new schema is empty. */
    constructor ()
      ensures entries == []
    {
      entries := [];
    }

    /** Appends the pair (name, columnValueType) at the end.  No check is made
        that the name is new: a repeated name is kept as a second entry. */
    method Add(primaryKeyColumnName: string, columnValueType: ColumnValueType)
      modifies this
      ensures entries == old(entries) + [(primaryKeyColumnName, columnValueType)]
      ensures |entries| == |old(entries)| + 1
      ensures entries[..|old(entries)|] == old(entries)
      ensures entries[|entries| - 1] == (primaryKeyColumnName, columnValueType)
    {
      entries := entries + [(primaryKeyColumnName, columnValueType)];
    }
  }
}
