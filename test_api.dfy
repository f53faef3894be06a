/** `test_api.py`: a module-level session built from the environment, its own
    `api_call` and the connection test.  The appliance is a function from request to
    reply, the one request the test makes being all there is to answer. */
module TestApi {
  import opened PyValues
  import opened Http

  /** Where the module-level session points and the credentials it carries. */
  datatype Settings = Settings(url: string, auth: Credentials)

  const PlaceholderKey: string := "your_api_key"
  const PlaceholderSecret: string := "your_api_secret"

  /** The module-level configuration: every variable has a default, so the test
      always runs, with placeholder credentials if need be, and an empty variable is
      sent as it is. */
  function Configure(env: Environ): (s: Settings)
    ensures KeyVariable !in env ==> s.auth.key == PlaceholderKey
    ensures SecretVariable !in env ==> s.auth.secret == PlaceholderSecret
    ensures KeyVariable in env ==> s.auth.key == env[KeyVariable]
    ensures SecretVariable in env ==> s.auth.secret == env[SecretVariable]
    ensures s.url == if UrlVariable in env then env[UrlVariable] else DefaultUrl
  {
    Settings(EnvGetOr(env, UrlVariable, DefaultUrl),
             Credentials(EnvGetOr(env, KeyVariable, PlaceholderKey), EnvGetOr(env, SecretVariable, PlaceholderSecret)))
  }

  /** The request this `api_call` issues: both verbs with a 10 s timeout; `None` for
      any other method, where `response` is never bound. */
  function ApiRequest(s: Settings, httpMethod: string, endpoint: string, data: Option<Value>): (r: Option<Request>)
    ensures r.Some? <==> httpMethod == "GET" || httpMethod == "POST"
    ensures r.Some? ==> r.value.url == ApiUrl(s.url, endpoint) && r.value.auth == s.auth && r.value.timeout == Some(10)
    ensures r.Some? && httpMethod == "GET" ==> r.value.verb == GET && r.value.body == NoBody
    ensures r.Some? && httpMethod == "POST" ==> r.value.verb == POST && r.value.body == JsonPayload(data)
  {
    var target := ApiUrl(s.url, endpoint);
    if httpMethod == "GET" then Some(Request(GET, target, s.auth, NoBody, Some(10)))
    else if httpMethod == "POST" then Some(Request(POST, target, s.auth, JsonPayload(data), Some(10)))
    else None
  }

  /** What this `api_call` returns for a reply: decoded JSON for a non-empty body, `{}`
      for an empty one, and `None` for everything else, including a body that is not
      JSON (there is no raw-text fallback here). */
  function ApiResult(reply: Reply): (v: Value)
    ensures Classify(reply).Unreachable? || Classify(reply).ErrorStatus? ==> v == Null
    ensures Classify(reply).EmptyBody? ==> v == EmptyDict
    ensures Classify(reply).JsonValue? ==> v == Classify(reply).value
    ensures Classify(reply).NotJson? ==> v == Null
  {
    match reply
    case TransportError(_) => Null
    case Answered(r) =>
      if IsErrorStatus(r.status) then Null
      else if r.text == "" then EmptyDict
      else match r.json
        case Parsed(x) => x
        case Undecodable(_) => Null
  }

  function ApiCall(s: Settings, httpMethod: string, endpoint: string, data: Option<Value>,
                   server: Request -> Reply): Value
  {
    match ApiRequest(s, httpMethod, endpoint, data)
    case None => Null
    case Some(req) => ApiResult(server(req))
  }

  /** The request the connection test makes. */
  function InfoRequest(s: Settings): Request {
    ApiRequest(s, "GET", "core/system/info", None).value
  }

  /** `test_api_connection`: it passes exactly when the system-information GET
      succeeds with a body that decodes to a truthy value, so an empty 2xx body
      (`{}`) fails it. */
  function TestApiConnection(s: Settings, server: Request -> Reply): (ok: bool)
    ensures ok <==>
      var reply := server(InfoRequest(s));
      && reply.Answered? && !IsErrorStatus(reply.response.status) && reply.response.text != ""
      && reply.response.json.Parsed? && Truthy(reply.response.json.value)
  {
    Truthy(ApiCall(s, "GET", "core/system/info", None, server))
  }

  /** The script's exit status: `__main__` discards what the test returns, so the
      process ends normally whatever the outcome. */
  function ScriptExitStatusAsWritten(s: Settings, server: Request -> Reply): (status: int) {
    0
  }

  /** The exit status the script would need for its caller to learn the outcome. */
  function ScriptExitStatus(s: Settings, server: Request -> Reply): (status: int)
    ensures status == 0 <==> TestApiConnection(s, server)
  {
    if TestApiConnection(s, server) then 0 else 1
  }
}
