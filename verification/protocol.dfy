/** The JSON bodies exchanged with the correction service at `/correct`, the
    HTTP replies the service sends, and what the client's HTTP library makes
    of a reply. */
module Protocol {

  import opened Common

  /** `debug_info`: the empty object `{}`, or the filled-in record. */
  datatype DebugInfo =
    | EmptyInfo
    | Info(originalSentence: string, correctedSentence: string, modelName: string, inputText: string, modelReady: bool)

  /** A response body: `status` and the optional `corrected_sentence`,
      `message` and `debug_info` keys (`None` when the key is absent). */
  datatype Body = Body(status: string, correctedSentence: Option<string>, message: Option<string>, debugInfo: Option<DebugInfo>)

  /** `{"status": "loading"}`. */
  const LoadingBody := Body("loading", None, None, None)

  /** A status code and a JSON body; `None` stands for a non-JSON error page. */
  datatype HttpReply = HttpReply(code: int, body: Option<Body>)

  /** What one request yields on the client side: a resolved response with its
      data, a refused connection (`error.code === 'ECONNREFUSED'`), a rejected
      response carrying an HTTP status, or any other thrown error (timeouts
      and the like). */
  datatype Outcome = Responded(body: Body) | Refused | HttpFailure(code: int) | OtherFailure

  /** The client's HTTP library resolves 2xx replies and rejects every other
      status with `error.response.status` set. The service never sends a 2xx
      without a JSON body. */
  function Deliver(reply: HttpReply): (o: Outcome)
    ensures o.Responded? <==> 200 <= reply.code < 300 && reply.body.Some?
    ensures o.Responded? ==> o.body == reply.body.value
    ensures !o.Responded? ==> o == HttpFailure(reply.code)
  {
    if 200 <= reply.code < 300 && reply.body.Some? then Responded(reply.body.value)
    else HttpFailure(reply.code)
  }

  /** JavaScript truthiness of an optional string: present and non-empty. */
  predicate Truthy(s: Option<string>) {
    s.Some? && s.value != ""
  }
}
