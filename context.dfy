/** The request-scoped context that the pipeline stages share, and what the
    stages return: normal completion or the exception that escapes. */
module PipelineContext {
  import opened Common
  import opened Exceptions
  import PB = Protocol
  import Model = DataModel

  /** What a stage's `HandleBefore` / `HandleAfter` ends in. */
  datatype Outcome = Completed | Thrown(exception: Exception)

  /** What the transport hands back for one request. */
  datatype HttpReply = HttpReply(statusCode: int, headers: map<string, string>, body: Bytes)

  /** The transport (the innermost stage): given the operation name and the
      request body it sends the request and returns the reply, or fails with
      an exception that the pipeline lets escape. */
  type Transport = (string, PB.RequestBody) -> Result<HttpReply, Exception>

  /** The response header that carries the server's request id. */
  const RequestIdHeader: string := "x-ots-requestid"

  class Context {
    /** Which operation this request is, e.g. "/PutRow". */
    const apiName: string
    const otsRequest: Model.OTSRequest
    /** Whether the client configuration has an error log handler. */
    const errorLogEnabled: bool

    var httpRequestBody: PB.RequestBody
    var httpResponseStatusCode: int
    var httpResponseHeaders: map<string, string>
    var httpResponseBody: Bytes
    /** The decoded response; `None` until the decoder has stored one. */
    var otsResponse: Option<Model.OTSResponse>
    /** What the error log handler has received, one exception per call. */
    var errorLog: seq<Exception>

    constructor (apiName: string, otsRequest: Model.OTSRequest, errorLogEnabled: bool)
      ensures this.apiName == apiName && this.otsRequest == otsRequest && this.errorLogEnabled == errorLogEnabled
      ensures httpRequestBody == PB.NoBody && httpResponseStatusCode == 0
      ensures httpResponseHeaders == map[] && httpResponseBody == []
      ensures otsResponse == None && errorLog == []
    {
      this.apiName := apiName;
      this.otsRequest := otsRequest;
      this.errorLogEnabled := errorLogEnabled;
      httpRequestBody := PB.NoBody;
      httpResponseStatusCode := 0;
      httpResponseHeaders := map[];
      httpResponseBody := [];
      otsResponse := None;
      errorLog := [];
    }

    /** Passes an exception to the error log handler, if one is configured. */
    method LogError(e: Exception)
      modifies this
      ensures errorLog == if errorLogEnabled then old(errorLog) + [e] else old(errorLog)
      ensures httpRequestBody == old(httpRequestBody) && httpResponseStatusCode == old(httpResponseStatusCode)
      ensures httpResponseHeaders == old(httpResponseHeaders) && httpResponseBody == old(httpResponseBody)
      ensures otsResponse == old(otsResponse)
    {
      if errorLogEnabled {
        errorLog := errorLog + [e];
      }
    }
  }
}
