/** A deterministic stand-in for the authenticated HTTP session: the server
    is a map from a request to its response, and every operation reports,
    besides its result, the requests it sent in order. */
module Http {
  import opened Outcomes
  import opened Json

  datatype Request =
    | HttpGet(url: string)
    | HttpPost(url: string, body: Json)
    | HttpDelete(url: string)

  /** A response: its status, its Content-Type header when one is present,
      and its body decoded as JSON (None when the body is not JSON). */
  datatype Response = Response(status: int, contentType: Option<string>, body: Option<Json>)

  /** A request missing from the map gets no response at all. */
  type Server = map<Request, Response>

  /** What an operation returns and the requests it sent, in order. */
  datatype Exchange<+T> = Exchange(result: Result<T>, sent: seq<Request>)

  const JsonContentType: string := "application/json"

  /** Sending one request through the session. */
  function Send(server: Server, req: Request): Result<Response> {
    if req in server then Ok(server[req]) else Err(TransportError)
  }

  /** `await resp.json()`. */
  function ReadJson(resp: Response): Result<Json> {
    match resp.body
    case Some(j) => Ok(j)
    case None => Err(JsonDecodeError)
  }

  /** The body the mutating operations read behind their Content-Type guard:
      `{}` when the header is missing, the decoded body when it is exactly
      `application/json`, and otherwise nothing at all — the local that
      should hold the body is never assigned, so reading it fails. */
  function GuardedBody(resp: Response): (r: Result<Json>)
    ensures resp.contentType.None? ==> r == Ok(JObject([]))
    ensures resp.contentType == Some(JsonContentType) && resp.body.Some? ==> r == Ok(resp.body.value)
    ensures resp.contentType == Some(JsonContentType) && resp.body.None? ==> r == Err(JsonDecodeError)
    ensures resp.contentType.Some? && resp.contentType != Some(JsonContentType) ==> r == Err(UnboundLocalError)
  {
    match resp.contentType
    case None => Ok(JObject([]))
    case Some(t) => if t == JsonContentType then ReadJson(resp) else Err(UnboundLocalError)
  }

  /** `resp.json()["value"]` for the response to `req`. */
  function Payload(server: Server, req: Request): Result<Json> {
    var resp :- Send(server, req);
    var j :- ReadJson(resp);
    Subscript(j, "value")
  }
}
