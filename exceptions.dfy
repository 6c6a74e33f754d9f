/** The exceptions that escape from the pipeline, as values. */
module Exceptions {
  import opened Common
  import PB = Protocol

  /** Why an `OTSClientException` was thrown; each case names the offending value. */
  datatype ClientReason =
    | InvalidColumnValueType(rawType: int)
    | InvalidComparatorType(rawOperator: int)
    | InvalidLogicOperator(rawLogicOperator: int)
    | InvalidColumnConditionType(rawConditionType: int)
    | InvalidRowExistenceExpectation(rawExpectation: int)
    | InvalidDirection(rawDirection: int)
    | InvalidColumnType(tag: PB.ColumnType)

  datatype Exception =
    | OTSClientException(reason: ClientReason)
      /** A non-2xx response.  `errorCode`, `errorMessage` and `requestId` are
          `None` where the C# exception holds null. */
    | OTSServerException(
        apiName: string, statusCode: int,
        errorCode: Option<string>, errorMessage: Option<string>, requestId: Option<string>)
      /** A dictionary lookup of a key that is absent. */
    | KeyNotFoundException(key: string)
      /** A dictionary `Add` of a key that is already present. */
    | ArgumentException(duplicateKey: string)
      /** `RepeatedField.AddRange` given null. */
    | ArgumentNullException
      /** A request object of another operation than the one named. */
    | InvalidCastException
      /** `Parser.ParseFrom` given bytes that are not a message of that type. */
    | InvalidProtocolBufferException
      /** Whatever the transport raises, propagated unchanged. */
    | TransportException(detail: string)
}
