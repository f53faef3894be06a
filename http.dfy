/** The HTTP exchange as the scripts see it through the `requests` library.  The
    transport itself is an oracle: each request gets either a transport failure
    (a `RequestException` such as a refused connection or a timeout) or a response.
    JSON decoding is part of that oracle too: a response says what `response.json()`
    would return or raise. */
module Http {
  import opened PyValues

  /** The environment variables the scripts read, and the address they assume when
      `OPNSENSE_URL` is not set. */
  const UrlVariable: string := "OPNSENSE_URL"
  const KeyVariable: string := "OPNSENSE_API_KEY"
  const SecretVariable: string := "OPNSENSE_API_SECRET"
  const DefaultUrl: string := "https://192.168.1.1"

  newtype byte = x: int | 0 <= x < 256

  type Bytes = seq<byte>

  datatype Verb = GET | POST

  /** One part of a multipart upload: field name, file name, file bytes and media type. */
  datatype Upload = Upload(field: string, filename: string, content: Bytes, mediaType: string)

  datatype Body = NoBody | JsonBody(data: Value) | Multipart(upload: Upload)

  /** The basic-auth pair a session carries. */
  datatype Credentials = Credentials(key: string, secret: string)

  /** A request as issued: verb, full URL, the session's credentials, body and
      timeout in seconds (`None` where no timeout is passed). */
  datatype Request = Request(verb: Verb, url: string, auth: Credentials, body: Body, timeout: Option<nat>)

  /** What `response.json()` does with a body: return a value or raise a decode error. */
  datatype Decoded = Parsed(value: Value) | Undecodable(message: string)

  datatype Response = Response(status: int, reason: string, text: string, content: Bytes, json: Decoded)

  datatype Reply = TransportError(message: string) | Answered(response: Response)

  /** `json=data` in `requests`: no body for `None`, a JSON body otherwise. */
  function JsonPayload(data: Option<Value>): (b: Body)
    ensures b.NoBody? <==> data.None?
    ensures data.Some? ==> b == JsonBody(data.value)
  {
    match data
    case None => NoBody
    case Some(v) => JsonBody(v)
  }

  /** `raise_for_status()` raises exactly for the client and server error classes,
      4xx and 5xx (sections 15.5 and 15.6 of RFC 9110). */
  predicate IsErrorStatus(status: int) {
    400 <= status < 600
  }

  /** The text of the HTTPError that `raise_for_status()` raises. */
  function HttpErrorMessage(r: Response, url: string): string
    requires IsErrorStatus(r.status)
  {
    IntToString(r.status) + (if r.status < 500 then " Client Error: " else " Server Error: ")
    + r.reason + " for url: " + url
  }

  /** `f"{base}/api/{endpoint}"`. */
  function ApiUrl(base: string, endpoint: string): (u: string)
    ensures |u| == |base| + 5 + |endpoint|
    ensures u[..|base|] == base && u[|base|..|base| + 5] == "/api/" && u[|base| + 5..] == endpoint
  {
    base + "/api/" + endpoint
  }

  /** A response a well-behaved decoder could have produced: an empty body never decodes. */
  predicate Coherent(r: Response) {
    r.text == "" ==> r.json.Undecodable?
  }

  /** The five ways a reply can turn out, which every API wrapper of the scripts maps
      to its own result: the common reference the wrappers are compared against. */
  datatype Outcome =
    | Unreachable(message: string)
    | ErrorStatus(status: int)
    | EmptyBody
    | JsonValue(value: Value)
    | NotJson(text: string, message: string)

  function Classify(reply: Reply): (o: Outcome)
    ensures o.Unreachable? <==> reply.TransportError?
    ensures o.ErrorStatus? <==> reply.Answered? && IsErrorStatus(reply.response.status)
    ensures o.EmptyBody? <==> reply.Answered? && !IsErrorStatus(reply.response.status) && reply.response.text == ""
    ensures o.JsonValue? ==> reply.Answered? && reply.response.json == Parsed(o.value)
    ensures o.NotJson? ==> reply.Answered? && reply.response.text == o.text != ""
    // a non-empty success body that decodes gives its value, one that does not is NotJson
    ensures o.NotJson? ==> reply.response.json == Undecodable(o.message)
    ensures o.JsonValue? <==>
      reply.Answered? && !IsErrorStatus(reply.response.status) && reply.response.text != "" && reply.response.json.Parsed?
  {
    match reply
    case TransportError(m) => Unreachable(m)
    case Answered(r) =>
      if IsErrorStatus(r.status) then ErrorStatus(r.status)
      else if r.text == "" then EmptyBody
      else match r.json
        case Parsed(v) => JsonValue(v)
        case Undecodable(m) => NotJson(r.text, m)
  }
}
