# Table store client codec, in Dafny

This project models the wire codec and the error classification of a .NET client for a table store. The store is a schema-light key-value service: tables have a declared primary-key schema plus free-form attribute columns.

A request goes through a pipeline of stages. Each stage has a request phase (`HandleBefore`) and a response phase (`HandleAfter`):

- **`ProtoBufferEncoder`** picks the operation's encoder by name. The encoder turns the typed request into its protocol-buffer request message, and the stage stores the serialised message as the HTTP request body.
- **`ErrorHandler`** checks the status code once the stage below it has run. A 2xx status completes the call. Any other status throws an `OTSServerException`, with or without the server's error envelope.
- **`ProtoBufferDecoder`** parses the response body as the operation's response message and converts it into the typed response.
- **The transport** sends the request. Its response phase does nothing.

`PrimaryKeySchema` is the ordered list of (name, type) pairs that both directions traverse.

The model has these modules:

- **`Common`**: `Option`/`Result`, and the integer widths of the protocol. It also has two specification functions for the loops of the source:
  - `MapResultFrom`: a `foreach` that appends and lets the first exception escape.
  - `InsertAllFrom`: `Dictionary.Add` in a loop, where a repeated key throws `ArgumentException`.
- **`Protocol`**: the protocol-buffer messages as datatypes.
  - Optional scalar fields are `Option`s, so presence is visible.
  - `ToByteArray` is the injective embedding `Serialized`.
  - Each `Parser.ParseFrom` is a field of `Parsers`: a body maps to the parsed message, or to `None` where the library throws.
- **`DataModel`**: the typed requests, responses, column values and conditions. A C# enum that can hold any integer gets one extra case, `Undefined…(raw)`.
- **`Exceptions`**: the exceptions that escape.
- **`Operations`**: the table of the twelve operation names.
- **`Schema`**: `PrimaryKeySchema` as a class whose `Add` appends to its list.
- **`PipelineContext`**: the request context as a class, whose fields the stages update in place.
- **`ProtoBufferEncoder`**, **`ProtoBufferDecoder`** and **`ErrorHandler`**: the three stages. Each loop of the source is a method. The method is proved equal to a specification function, and the properties are stated on that function.
- **`WireReading`**: reference readings of wire values back into the model.
- **`CodecProperties`**: round trips between encoder, decoder and those readings.

`MakeColumns` does not reject a sentinel (`INF_MAX`/`INF_MIN`) in row data. It sends the sentinel's bare tag, and the model does the same: see `CodecProperties.SentinelAttributeIsSent`.

The describe-table encoder builds a delete-table message. The model reproduces this: see `CodecProperties.DescribeTableSendsDeleteMessage`.

## Model

| member | source | states |
|---|---|---|
| ProtoBufferEncoder.MakeColumnType | Aliyun.TableStore/Handler/ProtoBufferEncoder.cs:47-66 | Succeeds exactly for the five listed value types. Any other value throws `OTSClientException` naming it. The decoder maps the resulting tag back to the same type. |
| ProtoBufferEncoder.MakeComparatorType | Aliyun.TableStore/Handler/ProtoBufferEncoder.cs:68-87 | Succeeds exactly for the six listed comparators, and any other value throws. The wire comparator reads back as the original. |
| ProtoBufferEncoder.MakeLogicOperator | Aliyun.TableStore/Handler/ProtoBufferEncoder.cs:89-102 | Succeeds exactly for NOT/AND/OR, and any other value throws. The wire combinator reads back as the original. |
| ProtoBufferEncoder.MakeColumnConditionType | Aliyun.TableStore/Handler/ProtoBufferEncoder.cs:104-115 | Succeeds exactly for the two node kinds, and any other value throws. The discriminator reads back as the original. |
| ProtoBufferEncoder.MakeRowExistence | Aliyun.TableStore/Handler/ProtoBufferEncoder.cs:242-250 | Succeeds exactly for EXPECT_EXIST/EXPECT_NOT_EXIST/IGNORE, and any other value throws. The wire expectation reads back as the original. |
| ProtoBufferEncoder.MakeDirection | Aliyun.TableStore/Handler/ProtoBufferEncoder.cs:483-495 | Succeeds exactly for Forward/Backward, and any other value throws. The wire direction reads back as the original. |
| ProtoBufferEncoder.MakeColumnValue | Aliyun.TableStore/Handler/ProtoBufferEncoder.cs:260-305 | A sentinel becomes its InfMax/InfMin tag with no payload. A concrete value gets the tag of its type and exactly one payload field, holding the value. The decoder reads a concrete value back unchanged and rejects a sentinel. The reference reading recovers every value. |
| ProtoBufferEncoder.MakeColumn | Aliyun.TableStore/Handler/ProtoBufferEncoder.cs:307-310 | Keeps the name. The value reads back as the entry's value. |
| ProtoBufferEncoder.MakeColumns | Aliyun.TableStore/Handler/ProtoBufferEncoder.cs:312-318 | One wire column per dictionary entry, in order, with the same name. Each value reads back as the entry's value, sentinels included. |
| ProtoBufferEncoder.MakeColumnUpdateForDelete | Aliyun.TableStore/Handler/ProtoBufferEncoder.cs:351-354 | A `Delete` entry with the column name and no value. |
| ProtoBufferEncoder.MakeColumnUpdateForPut | Aliyun.TableStore/Handler/ProtoBufferEncoder.cs:356-359 | A `Put` entry with the column name, carrying a value that reads back as the one put. |
| ProtoBufferEncoder.MakeUpdateOfAttribute | Aliyun.TableStore/Handler/ProtoBufferEncoder.cs:361-372 | The length is #puts + #deletes. Entry i is a `Put` exactly when i < #puts, and carries a value exactly when it is a `Put`. The puts come first, in order, with their names and values. Then come the delete names, in order. |
| ProtoBufferEncoder.MakeColumnSchema | Aliyun.TableStore/Handler/ProtoBufferEncoder.cs:117-120 | Keeps the name and maps the type. The decoder reads the entry back unchanged. |
| ProtoBufferEncoder.TableMetaMessage | Aliyun.TableStore/Handler/ProtoBufferEncoder.cs:130-140 | Succeeds exactly when every schema type is defined, and otherwise fails with one entry's type error. Keeps the table name, and has one wire column per schema entry, in schema order. |
| ProtoBufferEncoder.TableMetaRoundTrip | Aliyun.TableStore/Handler/ProtoBufferEncoder.cs:134-137 | The decoder reads an encoded table meta back as the same name and the same schema, in the same order. |
| ProtoBufferEncoder.MakeTableMeta | Aliyun.TableStore/Handler/ProtoBufferEncoder.cs:130-140 | The `foreach` loop computes `TableMetaMessage`. |
| ProtoBufferEncoder.MakeCapacityUnit | Aliyun.TableStore/Handler/ProtoBufferEncoder.cs:142-156 | Read is set on the wire iff it is set in the model, with the same value; the same holds for write. An unset field is never sent as 0. The decoder reads a fully set capacity back unchanged. |
| ProtoBufferEncoder.MakeReservedThroughput | Aliyun.TableStore/Handler/ProtoBufferEncoder.cs:196-199 | Read and write are each set iff they are set in the model, with the same value. |
| ProtoBufferEncoder.ColumnConditionMessage | Aliyun.TableStore/Handler/ProtoBufferEncoder.cs:158-171 | Succeeds exactly when every operator in the tree is defined. The discriminator reads back as the node's kind. The blob is a composite exactly for a composite node, and holds that node's composite or relation encoding. |
| ProtoBufferEncoder.CompositeConditionBlob | Aliyun.TableStore/Handler/ProtoBufferEncoder.cs:173-183 | Carries the mapped combinator. It has as many sub-envelopes as the node has children, child i's encoding at position i. |
| ProtoBufferEncoder.SubConditionMessages | Aliyun.TableStore/Handler/ProtoBufferEncoder.cs:177-180 | The children's envelopes from position i on, in order and in number. Succeeds exactly when each of those children encodes. |
| ProtoBufferEncoder.BuildRelationalCondition | Aliyun.TableStore/Handler/ProtoBufferEncoder.cs:185-194 | Succeeds exactly when the comparator is defined. Carries the column name, the comparator (read back as the original), the encoded operand (read back as the original) and `PassIfMissing`, all unchanged. |
| ProtoBufferEncoder.MakeColumnCondition | Aliyun.TableStore/Handler/ProtoBufferEncoder.cs:158-171 | The recursive encoder computes `ColumnConditionMessage`. |
| ProtoBufferEncoder.BuildCompositeCondition | Aliyun.TableStore/Handler/ProtoBufferEncoder.cs:173-183 | The loop over the children computes `CompositeConditionBlob`. |
| ProtoBufferEncoder.ConditionMessage | Aliyun.TableStore/Handler/ProtoBufferEncoder.cs:238-258 | Succeeds exactly when the expectation and every operator of the column condition are defined. The expectation reads back as the original. The column condition is set iff it is non-null, and is then its encoding. |
| ProtoBufferEncoder.MakeCondition | Aliyun.TableStore/Handler/ProtoBufferEncoder.cs:238-258 | Computes `ConditionMessage`. |
| ProtoBufferEncoder.FilterMessage | Aliyun.TableStore/Handler/ProtoBufferEncoder.cs:343-346 | A filter is set on the wire iff it is non-null, and is then its encoding. It fails exactly when one of its operators is undefined. |
| ProtoBufferEncoder.MakeFilter | Aliyun.TableStore/Handler/ProtoBufferEncoder.cs:343-346 | Computes `FilterMessage`. |
| ProtoBufferEncoder.CreateTableMessage | Aliyun.TableStore/Handler/ProtoBufferEncoder.cs:201-209 | A request of another kind fails the cast. Otherwise it succeeds iff the table meta encodes, and carries that meta and the converted reserved throughput. |
| ProtoBufferEncoder.EncodeCreateTable | Aliyun.TableStore/Handler/ProtoBufferEncoder.cs:201-209 | Computes `CreateTableMessage`. |
| ProtoBufferEncoder.EncodeDeleteTable | Aliyun.TableStore/Handler/ProtoBufferEncoder.cs:211-215 | Succeeds iff the request is a delete-table request, and carries its table name. Otherwise it fails the cast. |
| ProtoBufferEncoder.EncodeUpdateTable | Aliyun.TableStore/Handler/ProtoBufferEncoder.cs:217-225 | Succeeds iff the request is an update-table request. It carries the table name and the throughput, with each capacity field set iff it is set in the request. |
| ProtoBufferEncoder.EncodeDescribeTable | Aliyun.TableStore/Handler/ProtoBufferEncoder.cs:227-231 | Succeeds iff the request is a describe-table request. It produces a delete-table message with that table name. |
| ProtoBufferEncoder.EncodeListTable | Aliyun.TableStore/Handler/ProtoBufferEncoder.cs:233-236 | Never fails, whatever the request. |
| ProtoBufferEncoder.PutRowMessage | Aliyun.TableStore/Handler/ProtoBufferEncoder.cs:320-333 | A wrong kind fails the cast. Otherwise it succeeds iff the condition encodes, and then carries the table name, the condition, and the key and attribute columns in order. |
| ProtoBufferEncoder.EncodePutRow | Aliyun.TableStore/Handler/ProtoBufferEncoder.cs:320-333 | Computes `PutRowMessage`. |
| ProtoBufferEncoder.GetRowMessage | Aliyun.TableStore/Handler/ProtoBufferEncoder.cs:335-349 | A wrong kind fails the cast. A null column selection throws `ArgumentNullException`. Otherwise it succeeds iff the filter encodes, and carries the table name, the key, the selection and the filter. |
| ProtoBufferEncoder.EncodeGetRow | Aliyun.TableStore/Handler/ProtoBufferEncoder.cs:335-349 | Computes `GetRowMessage`. |
| ProtoBufferEncoder.UpdateRowMessage | Aliyun.TableStore/Handler/ProtoBufferEncoder.cs:374-387 | A wrong kind fails the cast. Otherwise it succeeds iff the condition encodes, and carries the table name, the condition, the key and the merged column updates. |
| ProtoBufferEncoder.EncodeUpdateRow | Aliyun.TableStore/Handler/ProtoBufferEncoder.cs:374-387 | Computes `UpdateRowMessage`. |
| ProtoBufferEncoder.DeleteRowMessage | Aliyun.TableStore/Handler/ProtoBufferEncoder.cs:389-402 | A wrong kind fails the cast. Otherwise it succeeds iff the condition encodes, and carries the table name, the condition and the key. |
| ProtoBufferEncoder.EncodeDeleteRow | Aliyun.TableStore/Handler/ProtoBufferEncoder.cs:389-402 | Computes `DeleteRowMessage`. |
| ProtoBufferEncoder.PutRowInBatch | Aliyun.TableStore/Handler/ProtoBufferEncoder.cs:409-415 | Succeeds iff the row's condition encodes. Carries the condition, the key and the attribute columns. |
| ProtoBufferEncoder.UpdateRowInBatch | Aliyun.TableStore/Handler/ProtoBufferEncoder.cs:417-423 | Succeeds iff the row's condition encodes. Carries the condition, the key and the merged column updates. |
| ProtoBufferEncoder.DeleteRowInBatch | Aliyun.TableStore/Handler/ProtoBufferEncoder.cs:425-430 | Succeeds iff the row's condition encodes. Carries the condition and the key. |
| ProtoBufferEncoder.BatchWriteTableMessage | Aliyun.TableStore/Handler/ProtoBufferEncoder.cs:404-433 | Succeeds iff every put, update and delete condition encodes. The put, update and delete counts equal the operation counts, and row i of each list encodes operation i. A failing put is reported before any update or delete. |
| ProtoBufferEncoder.MakeTableInBatchWriteRowRequest | Aliyun.TableStore/Handler/ProtoBufferEncoder.cs:404-433 | The three loops compute `BatchWriteTableMessage`. |
| ProtoBufferEncoder.BatchWriteRowMessage | Aliyun.TableStore/Handler/ProtoBufferEncoder.cs:435-445 | There is one table message per dictionary entry, in order, with entry i's name. It succeeds iff every table encodes. |
| ProtoBufferEncoder.EncodeBatchWriteRow | Aliyun.TableStore/Handler/ProtoBufferEncoder.cs:435-445 | The loop computes `BatchWriteRowMessage`. |
| ProtoBufferEncoder.RowRequests | Aliyun.TableStore/Handler/ProtoBufferEncoder.cs:452-457 | One row request per primary key, in order, each holding that key's columns. |
| ProtoBufferEncoder.BatchGetTableMessage | Aliyun.TableStore/Handler/ProtoBufferEncoder.cs:447-468 | Succeeds iff the filter encodes. Carries the table name and the rows in order. A null column selection becomes an empty selection. |
| ProtoBufferEncoder.MakeTableInBatchGetRowRequest | Aliyun.TableStore/Handler/ProtoBufferEncoder.cs:447-468 | The loop computes `BatchGetTableMessage`. |
| ProtoBufferEncoder.BatchGetRowMessage | Aliyun.TableStore/Handler/ProtoBufferEncoder.cs:470-481 | One table message per criteria, in order. Succeeds iff every filter encodes. |
| ProtoBufferEncoder.EncodeBatchGetRow | Aliyun.TableStore/Handler/ProtoBufferEncoder.cs:470-481 | The loop computes `BatchGetRowMessage`. |
| ProtoBufferEncoder.GetRangeMessage | Aliyun.TableStore/Handler/ProtoBufferEncoder.cs:497-524 | Succeeds iff the direction is defined and the filter encodes; an undefined direction is reported first. The direction reads back as the original. The limit is set iff it is set, with the same value. Both boundary keys are copied, sentinels included. |
| ProtoBufferEncoder.EncodeGetRange | Aliyun.TableStore/Handler/ProtoBufferEncoder.cs:497-524 | Computes `GetRangeMessage`. |
| ProtoBufferEncoder.RequestMessage | Aliyun.TableStore/Handler/ProtoBufferEncoder.cs:29-44 | An unknown operation name throws `KeyNotFoundException`. For a known name, the result is exactly that operation's encoder's result. So a request of the wrong kind fails the cast, and a message is always of the kind that operation's encoder produces. |
| ProtoBufferEncoder.Encode | Aliyun.TableStore/Handler/ProtoBufferEncoder.cs:536-537 | The dispatch computes `RequestMessage`. |
| ProtoBufferEncoder.HandleBefore | Aliyun.TableStore/Handler/ProtoBufferEncoder.cs:534-541 | An encoding failure escapes with the context unchanged. Otherwise the request body becomes the serialised message, and the message is what the transport is given. The reply, or the transport's exception, is what the next stages leave behind. |
| ProtoBufferEncoder.HandleAfter | Aliyun.TableStore/Handler/ProtoBufferEncoder.cs:543-546 | Gives exactly the outcome and context of the error handler's response phase. |
| ProtoBufferDecoder.ParseColumnValueType | Aliyun.TableStore/Handler/ProtoBufferDecoder.cs:87-105 | Succeeds exactly for the five concrete tags. Sentinel and unknown tags throw `OTSClientException` naming the tag. |
| ProtoBufferDecoder.ParseColumnValue | Aliyun.TableStore/Handler/ProtoBufferDecoder.cs:161-181 | Succeeds exactly for a concrete tag, giving a non-sentinel value of that tag's type. A present payload field is copied unchanged; an absent one takes the protobuf default. |
| ProtoBufferDecoder.ParseCapacityUnit | Aliyun.TableStore/Handler/ProtoBufferDecoder.cs:60-63 | Read and write are always set. A wire value is copied, and an unset field reads as 0. |
| ProtoBufferDecoder.ParseReservedThroughputDetails | Aliyun.TableStore/Handler/ProtoBufferDecoder.cs:65-75 | Read and write are always set, each equal to the wire value or 0 when unset. The two timestamps and the count of decreases are copied. |
| ProtoBufferDecoder.DecodedColumn | Aliyun.TableStore/Handler/ProtoBufferDecoder.cs:187-190 | Keeps the column name, and succeeds iff its value parses. |
| ProtoBufferDecoder.DecodedColumns | Aliyun.TableStore/Handler/ProtoBufferDecoder.cs:183-205 | Succeeds iff every value parses and no name repeats. Then there is one entry per wire column, in wire order. A failure is a bad tag or the `ArgumentException` of a repeated name. |
| ProtoBufferDecoder.ParseColumns | Aliyun.TableStore/Handler/ProtoBufferDecoder.cs:183-193 | The loop shared by `ParsePrimaryKey` and `ParseAttribute` computes `DecodedColumns`. |
| ProtoBufferDecoder.DecodedSchemaEntry | Aliyun.TableStore/Handler/ProtoBufferDecoder.cs:113-114 | Keeps the name, and maps the tag by `ParseColumnValueType`. |
| ProtoBufferDecoder.DecodedTableMeta | Aliyun.TableStore/Handler/ProtoBufferDecoder.cs:107-123 | Succeeds iff every wire type is concrete. Keeps the table name, and has one schema entry per wire column, in wire order. A failure names one of the wire tags. |
| ProtoBufferDecoder.ParseTableMeta | Aliyun.TableStore/Handler/ProtoBufferDecoder.cs:107-123 | The loop computes `DecodedTableMeta` by `Add`ing wire columns to a fresh `PrimaryKeySchema`. |
| ProtoBufferDecoder.DecodedWriteItem | Aliyun.TableStore/Handler/ProtoBufferDecoder.cs:251-261 | A success carries only the capacity; a failure carries only the error code and message. Both carry the table name and the given index. |
| ProtoBufferDecoder.DecodedWriteItems | Aliyun.TableStore/Handler/ProtoBufferDecoder.cs:244-265 | The length equals the input length, and item i is the i-th wire item decoded with index i. |
| ProtoBufferDecoder.ParseBatchWriteRowResponseItems | Aliyun.TableStore/Handler/ProtoBufferDecoder.cs:244-265 | The loop, with its `index++` counter, computes `DecodedWriteItems`. |
| ProtoBufferDecoder.DecodedWriteTable | Aliyun.TableStore/Handler/ProtoBufferDecoder.cs:267-275 | The put, delete and update lists keep their lengths. Entry i of each list is the wire row i decoded with index i under the table name. So each list is numbered from 0 on its own, a success carries only the capacity, and a failure carries only the code and message. |
| ProtoBufferDecoder.ParseTableInBatchWriteRowResponse | Aliyun.TableStore/Handler/ProtoBufferDecoder.cs:267-275 | Computes `DecodedWriteTable`. |
| ProtoBufferDecoder.DecodedBatchWrite | Aliyun.TableStore/Handler/ProtoBufferDecoder.cs:277-290 | Succeeds iff no table name repeats. Then it gives one entry per wire table, in order, under that table's name. A failure is the `ArgumentException` of a repeated name. |
| ProtoBufferDecoder.DecodeBatchWriteRow | Aliyun.TableStore/Handler/ProtoBufferDecoder.cs:277-290 | The loop computes `DecodedBatchWrite`. |
| ProtoBufferDecoder.DecodedGetItem | Aliyun.TableStore/Handler/ProtoBufferDecoder.cs:299-311 | A failed row always decodes, to its error code and message only. A successful row carries the capacity, the key and the attributes, and no error. |
| ProtoBufferDecoder.DecodedGetTable | Aliyun.TableStore/Handler/ProtoBufferDecoder.cs:292-315 | Keeps the row count and order. Succeeds iff every row decodes. |
| ProtoBufferDecoder.ParseTableInBatchGetRowResponse | Aliyun.TableStore/Handler/ProtoBufferDecoder.cs:292-315 | The loop computes `DecodedGetTable`. |
| ProtoBufferDecoder.DecodedBatchGet | Aliyun.TableStore/Handler/ProtoBufferDecoder.cs:317-328 | Succeeds iff every table decodes and no table name repeats. Then it gives one entry per wire table, in order, under its name. |
| ProtoBufferDecoder.DecodeBatchGetRow | Aliyun.TableStore/Handler/ProtoBufferDecoder.cs:317-328 | The loop computes `DecodedBatchGet`. |
| ProtoBufferDecoder.DecodedRangeRow | Aliyun.TableStore/Handler/ProtoBufferDecoder.cs:346-349 | Succeeds iff the key and the attributes both decode, and then holds them. |
| ProtoBufferDecoder.DecodedGetRange | Aliyun.TableStore/Handler/ProtoBufferDecoder.cs:330-353 | The continuation key is null iff the wire key has no columns. There is one row per wire row, in order, and the capacity is converted. |
| ProtoBufferDecoder.DecodeGetRange | Aliyun.TableStore/Handler/ProtoBufferDecoder.cs:330-353 | Computes `DecodedGetRange`, by reassigning the empty key to null and looping over the rows. |
| ProtoBufferDecoder.DecodedGetRow | Aliyun.TableStore/Handler/ProtoBufferDecoder.cs:207-220 | Succeeds iff the key and the attributes decode. Carries them and the converted capacity. |
| ProtoBufferDecoder.DecodeGetRow | Aliyun.TableStore/Handler/ProtoBufferDecoder.cs:207-220 | Computes `DecodedGetRow`. |
| ProtoBufferDecoder.DecodedDescribeTable | Aliyun.TableStore/Handler/ProtoBufferDecoder.cs:125-133 | Succeeds iff the table meta decodes. Carries it and the converted throughput details. |
| ProtoBufferDecoder.DecodeDescribeTable | Aliyun.TableStore/Handler/ProtoBufferDecoder.cs:125-133 | Computes `DecodedDescribeTable`. |
| ProtoBufferDecoder.DecodeListTable | Aliyun.TableStore/Handler/ProtoBufferDecoder.cs:135-148 | The response lists exactly the wire table names, in order. |
| ProtoBufferDecoder.DecodeCreateTable | Aliyun.TableStore/Handler/ProtoBufferDecoder.cs:44-50 | Succeeds iff the body parses, and otherwise throws `InvalidProtocolBufferException`. The response is a create-table response. |
| ProtoBufferDecoder.DecodeDeleteTable | Aliyun.TableStore/Handler/ProtoBufferDecoder.cs:52-58 | Succeeds iff the body parses, and otherwise throws `InvalidProtocolBufferException`. The response is a delete-table response. |
| ProtoBufferDecoder.DecodeUpdateTable | Aliyun.TableStore/Handler/ProtoBufferDecoder.cs:77-85 | Succeeds iff the body parses, and otherwise throws `InvalidProtocolBufferException`. The response carries the converted throughput details. |
| ProtoBufferDecoder.DecodePutRow | Aliyun.TableStore/Handler/ProtoBufferDecoder.cs:150-159 | Succeeds iff the body parses, and otherwise throws `InvalidProtocolBufferException`. The response carries the converted consumed capacity. |
| ProtoBufferDecoder.DecodeUpdateRow | Aliyun.TableStore/Handler/ProtoBufferDecoder.cs:222-231 | Succeeds iff the body parses, and otherwise throws `InvalidProtocolBufferException`. The response carries the converted consumed capacity. |
| ProtoBufferDecoder.DecodeDeleteRow | Aliyun.TableStore/Handler/ProtoBufferDecoder.cs:233-242 | Succeeds iff the body parses, and otherwise throws `InvalidProtocolBufferException`. The response carries the converted consumed capacity. |
| ProtoBufferDecoder.DecodedResponse | Aliyun.TableStore/Handler/ProtoBufferDecoder.cs:24-41 | An unknown operation name throws `KeyNotFoundException`. If the parser rejects the body, `InvalidProtocolBufferException` is thrown. For each known operation, the result is that operation's decoder applied to the parsed body. A parsed body always decodes for the operations whose decoders only copy fields. Any response is of the operation's kind. |
| ProtoBufferDecoder.Decode | Aliyun.TableStore/Handler/ProtoBufferDecoder.cs:378 | The dispatch computes `DecodedResponse`. |
| ProtoBufferDecoder.HandleBefore | Aliyun.TableStore/Handler/ProtoBufferDecoder.cs:355-358 | The transport gets the request body as it stands. Its reply is stored; its failure escapes with the context unchanged. |
| ProtoBufferDecoder.HandleAfter | Aliyun.TableStore/Handler/ProtoBufferDecoder.cs:374-380 | A decoding failure escapes with the context unchanged. Otherwise the decoded response is stored, and nothing else changes. |
| ErrorHandler.RequestIdOf | Aliyun.TableStore/Handler/ErrorHandler.cs:60-68 | Present iff the `x-ots-requestid` header is present, and then equal to its value. |
| ErrorHandler.Classify | Aliyun.TableStore/Handler/ErrorHandler.cs:40-76 | Returns iff the status is in [200, 300). Otherwise it throws an `OTSServerException` with the operation name and status. If the body is no error envelope, the exception has no code, message or request id. If it is one, the exception has its code and message and the header's request id. |
| ErrorHandler.HandleBefore | Aliyun.TableStore/Handler/ErrorHandler.cs:22-25 | Has exactly the effect of the inner stage's request phase. |
| ErrorHandler.ThrowOTSServerException | Aliyun.TableStore/Handler/ErrorHandler.cs:27-32 | Throws the exception with only the name and status. It is passed to the error log once, when one is configured, and nothing else changes. |
| ErrorHandler.HandleAfter | Aliyun.TableStore/Handler/ErrorHandler.cs:34-81 | The decoder runs first, and its exception escapes whatever the status. Otherwise the decoded response stays on the context and the outcome is `Classify`'s. The log gains the thrown exception exactly when one is thrown and logging is configured. |
| PipelineContext.Context.LogError | Aliyun.TableStore/Handler/ErrorHandler.cs:77-79 | Appends the exception to the log iff a log handler is configured. Nothing else changes. |
| Schema.PrimaryKeySchema.constructor | Aliyun.TableStore/DataModel/PrimaryKeySchema.cs:20 | A new schema is empty. |
| Schema.PrimaryKeySchema.Add | Aliyun.TableStore/DataModel/PrimaryKeySchema.cs:27-31 | Appends exactly (name, type) at the end. The length grows by one and earlier entries are unchanged. A repeated name is kept. |
| Operations.Lookup | Aliyun.TableStore/Handler/ProtoBufferEncoder.cs:536 | Finds an operation iff the name is in the table, and the operation found has that name. |
| Operations.DispatchTableIsBijective | Aliyun.TableStore/Handler/ProtoBufferEncoder.cs:29-44 | Every operation is found under its own name, and every name in the table belongs to an operation. |
| CodecProperties.ConditionRoundTrip | Aliyun.TableStore/Handler/ProtoBufferEncoder.cs:158-194 | An encoded condition tree reads back as the same tree. Every node keeps its kind, operator, column, operand and `PassIfMissing`, and its children in order. |
| CodecProperties.ConditionEncodingInjective | Aliyun.TableStore/Handler/ProtoBufferEncoder.cs:158-194 | Two trees with the same encoding are equal. |
| CodecProperties.RowConditionRoundTrip | Aliyun.TableStore/Handler/ProtoBufferEncoder.cs:238-258 | An encoded row condition reads back as its expectation and its column condition, present iff present. |
| CodecProperties.ColumnsRoundTrip | Aliyun.TableStore/Handler/ProtoBufferDecoder.cs:183-193 | The decoder accepts encoded columns iff there is no sentinel and no repeated name, and then returns the same columns in the same order. |
| CodecProperties.UpdateOfAttributeRoundTrip | Aliyun.TableStore/Handler/ProtoBufferEncoder.cs:351-372 | The put half reads back as the columns to put, in order. The rest is the delete names, in order, without values. |
| CodecProperties.SentinelAttributeIsSent | Aliyun.TableStore/Handler/ProtoBufferEncoder.cs:312-318 | A put row with a sentinel attribute is still encoded, and the column is sent as the bare sentinel tag. |
| CodecProperties.DescribeTableSendsDeleteMessage | Aliyun.TableStore/Handler/ProtoBufferEncoder.cs:227-231 | Describing a table and deleting it produce the same request message. |

## Left out

- Protobuf byte serialisation (`ToByteArray`, `ToByteString`, `Parser.ParseFrom`, `ByteString.CopyFrom`) lives in a library that is not part of this model.
  - Serialisation is an injective embedding.
  - A condition blob holds the nested message itself.
  - Parsing is the `Parsers` parameter.
- Double payloads are carried as an opaque 64-bit pattern and never interpreted.
- The debug log handlers (`LogEncodedMessage` in both codec stages) only format a string for an injected sink, so they are left out. So is the decoder's `out IMessage` result, which only feeds that log.
- The error log records the exceptions themselves, not their `ToString()` text. The text, including the trailing newline at line 30 of the error handler, is not modelled.
- Absent sub-messages are not modelled. A .NET protobuf getter returns null for an unset message field, so the C# dereference of, say, `message.Consumed.CapacityUnit` can throw a `NullReferenceException`. In the model every sub-message is present. Null request objects and null strings are left out too.
- The transport and the `PipelineHandler` base class are not part of this model.
  - The transport is a function parameter. The decoder stage's inner request phase calls it.
  - The transport's response phase does nothing.
- Header lookup is exact-key lookup in a map. Whether the real header dictionary ignores case is not modelled.
- The criteria and request classes are not part of this model.
  - `GetColumnsToGet()` is a possibly-null sequence. Its enumeration order, a hash set's, is taken as given.
  - `Dictionary` inputs are sequences of pairs in enumeration order.
- The constructors of the batch response items are not part of this model. The model takes the success flag to follow the constructor that the decoder chooses.
- `MakePrimaryKeySchema` (Aliyun.TableStore/Handler/ProtoBufferEncoder.cs:122-128) is never called, so it is not modelled. `MakeTableMeta` does the same work.
- Two default branches cannot be reached from model values, so they have no counterpart.
  - In `MakeColumnValue`, the `default: throw`: a model column value is always one of the five types or a sentinel.
  - In `MakeColumnCondition`, the third branch: `GetType()` is always one of the two node kinds.
- The exception messages are not modelled. Each exception carries the offending value instead of the message text.
- Operations.DispatchTableIsBijective: does not state that the table has exactly twelve entries, because counting the map literal's keys is beyond the solver's budget here.
- The search-index, global-index and stream shapes, the `IColumnCondition`/`IFilter`/`IRow` interfaces, the sample program, its configuration and `OtsUtils` carry no logic of the core and are not modelled.
