/** `ErrorHandler`: the stage between the encoder and the decoder.  After the
    decoder has run it looks at the status code and either lets the request
    complete or throws an `OTSServerException` describing the failure. */
module ErrorHandler {
  import opened Common
  import opened Exceptions
  import opened PipelineContext
  import PB = Protocol
  import Decoder = ProtoBufferDecoder

  /** What the handler decides for one response. */
  datatype Verdict = Return | Throw(exception: Exception)

  /** The request id a response carries, `None` when the header is absent. */
  function RequestIdOf(headers: map<string, string>): (id: Option<string>)
    ensures id.Some? <==> RequestIdHeader in headers
    ensures id.Some? ==> id.value == headers[RequestIdHeader]
  {
    if RequestIdHeader in headers then Some(headers[RequestIdHeader]) else None
  }

  /** The decision of `HandleAfter`, given the parse of the body as an error
      envelope (`None` when it does not parse).  A 2xx status returns; any
      other status throws a server exception for the operation and status,
      which carries code, message and request id only when the body parsed. */
  function Classify(apiName: string, statusCode: int, parsedError: Option<PB.Error>, headers: map<string, string>)
    : (v: Verdict)
    ensures v.Return? <==> 200 <= statusCode < 300
    ensures v.Throw? ==>
      v.exception.OTSServerException? && v.exception.apiName == apiName && v.exception.statusCode == statusCode
    ensures v.Throw? && parsedError.None? ==>
      v.exception.errorCode.None? && v.exception.errorMessage.None? && v.exception.requestId.None?
    ensures v.Throw? && parsedError.Some? ==>
      && v.exception.errorCode == Some(parsedError.value.code)
      && v.exception.errorMessage == Some(parsedError.value.message)
      && v.exception.requestId == RequestIdOf(headers)
  {
    if 200 <= statusCode < 300 then Return
    else if parsedError.None? then Throw(OTSServerException(apiName, statusCode, None, None, None))
    else Throw(OTSServerException(
      apiName, statusCode, Some(parsedError.value.code), Some(parsedError.value.message), RequestIdOf(headers)))
  }

  /** The request phase passes straight through to the decoder. */
  method HandleBefore(context: Context, transport: Transport) returns (outcome: Outcome)
    modifies context
    ensures transport(context.apiName, old(context.httpRequestBody)).Err? ==>
      outcome == Thrown(transport(context.apiName, old(context.httpRequestBody)).error)
      && unchanged(context)
    ensures transport(context.apiName, old(context.httpRequestBody)).Ok? ==>
      var reply := transport(context.apiName, old(context.httpRequestBody)).value;
      && outcome == Completed
      && context.httpResponseStatusCode == reply.statusCode
      && context.httpResponseHeaders == reply.headers
      && context.httpResponseBody == reply.body
      && context.httpRequestBody == old(context.httpRequestBody)
      && context.otsResponse == old(context.otsResponse)
      && context.errorLog == old(context.errorLog)
  {
    outcome := Decoder.HandleBefore(context, transport);
  }

  /** The exception for a body that is not an error envelope: only the
      operation name and the status; it is logged once before it is thrown. */
  method ThrowOTSServerException(context: Context) returns (outcome: Outcome)
    modifies context
    ensures outcome == Thrown(OTSServerException(context.apiName, context.httpResponseStatusCode, None, None, None))
    ensures context.errorLog == old(context.errorLog) + (if context.errorLogEnabled then [outcome.exception] else [])
    ensures context.httpRequestBody == old(context.httpRequestBody)
    ensures context.httpResponseStatusCode == old(context.httpResponseStatusCode)
    ensures context.httpResponseHeaders == old(context.httpResponseHeaders)
    ensures context.httpResponseBody == old(context.httpResponseBody)
    ensures context.otsResponse == old(context.otsResponse)
  {
    var exception := OTSServerException(context.apiName, context.httpResponseStatusCode, None, None, None);
    context.LogError(exception);
    return Thrown(exception);
  }

  /** The response phase.  The decoder runs first, and what it throws escapes
      whatever the status.  Otherwise the decoded response stays on the
      context and the outcome is `Classify`'s: completion for 2xx, else the
      server exception, passed once to the error log first. */
  method HandleAfter(context: Context, parsers: PB.Parsers) returns (outcome: Outcome)
    modifies context
    ensures var d := Decoder.DecodedResponse(context.apiName, old(context.httpResponseBody), parsers);
      d.Err? ==> outcome == Thrown(d.error) && unchanged(context)
    ensures var d := Decoder.DecodedResponse(context.apiName, old(context.httpResponseBody), parsers);
      d.Ok? ==>
        var v := Classify(context.apiName, old(context.httpResponseStatusCode),
                          parsers.error(old(context.httpResponseBody)), old(context.httpResponseHeaders));
        && context.otsResponse == Some(d.value)
        && outcome == (if v.Return? then Completed else Thrown(v.exception))
        && context.errorLog == old(context.errorLog) + (if v.Throw? && context.errorLogEnabled then [v.exception] else [])
    ensures context.httpRequestBody == old(context.httpRequestBody)
    ensures context.httpResponseStatusCode == old(context.httpResponseStatusCode)
    ensures context.httpResponseHeaders == old(context.httpResponseHeaders)
    ensures context.httpResponseBody == old(context.httpResponseBody)
  {
    var inner := Decoder.HandleAfter(context, parsers);
    if inner.Thrown? {
      return inner;
    }
    var statusCode := context.httpResponseStatusCode;
    if 200 <= statusCode < 300 {
      return Completed;
    }
    var message := parsers.error(context.httpResponseBody);
    if message.None? {
      outcome := ThrowOTSServerException(context);
      return;
    }
    var requestID: Option<string>;
    if RequestIdHeader in context.httpResponseHeaders {
      requestID := Some(context.httpResponseHeaders[RequestIdHeader]);
    } else {
      requestID := None;
    }
    var exception := OTSServerException(
      context.apiName, statusCode, Some(message.value.code), Some(message.value.message), requestID);
    context.LogError(exception);
    return Thrown(exception);
  }
}
