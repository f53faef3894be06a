/** `opnsense_api.py`: the `OPNsenseAPI` wrapper class.  Its constructor settles the
    address and credentials from arguments and environment or refuses with
    `ValueError`; `get` and `post` turn every request failure into an error
    dictionary; the helpers each call one fixed endpoint. */
module OpnsenseApi {
  import opened PyValues
  import opened Http

  /** The address and credentials a client holds. */
  datatype Settings = Settings(url: string, key: string, secret: string)

  /** The constructor's outcome: the `ValueError` it raises, or the settings it stores. */
  datatype Configured = Refused(message: string) | Configured(settings: Settings)

  const MissingCredentials: string := "API key and secret must be provided or set as environment variables"

  /** The field assignments and the check of `__init__`: each argument wins over its
      environment variable unless it is `None` or empty, the address falls back to the
      default, and a missing or empty key or secret is refused. */
  function Configure(url: Option<string>, key: Option<string>, secret: Option<string>, env: Environ): (r: Configured)
    ensures r.Refused? <==> !Given(OrElse(key, EnvGet(env, KeyVariable))) || !Given(OrElse(secret, EnvGet(env, SecretVariable)))
    ensures r.Refused? ==> r.message == MissingCredentials
    ensures r.Configured? ==> r.settings.key != "" && r.settings.secret != ""
    ensures r.Configured? && Given(key) ==> r.settings.key == key.value
    ensures r.Configured? && Given(secret) ==> r.settings.secret == secret.value
    ensures r.Configured? && !Given(key) ==> r.settings.key == env[KeyVariable]
    ensures r.Configured? && !Given(secret) ==> r.settings.secret == env[SecretVariable]
    ensures r.Configured? ==> r.settings.url == if Given(url) then url.value else EnvGetOr(env, UrlVariable, DefaultUrl)
  {
    var u := if Given(url) then url.value else EnvGetOr(env, UrlVariable, DefaultUrl);
    var k := OrElse(key, EnvGet(env, KeyVariable));
    var s := OrElse(secret, EnvGet(env, SecretVariable));
    if !Given(k) || !Given(s) then Refused(MissingCredentials)
    else Configured(Settings(u, k.value, s.value))
  }

  /** With all three arguments given, the environment plays no part. */
  lemma ArgumentsOverrideEnvironment(url: string, key: string, secret: string, env: Environ)
    requires url != "" && key != "" && secret != ""
    ensures Configure(Some(url), Some(key), Some(secret), env) == Configured(Settings(url, key, secret))
  {
  }

  /** `{"status": "error", "message": str(e)}`. */
  function ErrorDict(message: string): (v: Value)
    ensures v.Dict? && Truthy(v)
  {
    var entries := map["status" := Str("error"), "message" := Str(message)];
    assert "status" in entries;
    Dict(entries)
  }

  /** What `get` and `post` return for a reply: the decoded body, or the error
      dictionary with the text of the exception.  A body that does not decode raises a
      `RequestException` too (`requests` 2.27 and later), and an empty body never
      decodes, so an empty 2xx body is an error here. */
  function ApiResult(reply: Reply, url: string): (v: Value)
    ensures Classify(reply).Unreachable? ==> v == ErrorDict(reply.message)
    ensures Classify(reply).ErrorStatus? ==> v == ErrorDict(HttpErrorMessage(reply.response, url))
    ensures Classify(reply).JsonValue? ==> v == Classify(reply).value
    ensures Classify(reply).NotJson? ==> v == ErrorDict(Classify(reply).message)
    ensures Classify(reply).EmptyBody? && Coherent(reply.response) ==> v == ErrorDict(reply.response.json.message)
  {
    match reply
    case TransportError(m) => ErrorDict(m)
    case Answered(r) =>
      if IsErrorStatus(r.status) then ErrorDict(HttpErrorMessage(r, url))
      else match r.json
        case Parsed(x) => x
        case Undecodable(m) => ErrorDict(m)
  }

  const FirmwareStatusEndpoint: string := "core/firmware/status"
  const SystemStatusEndpoint: string := "core/system/status"
  const InterfacesEndpoint: string := "interfaces/overview/interfacesInfo"
  const FirewallRulesEndpoint: string := "firewall/filter/searchRule"
  const FirewallAliasesEndpoint: string := "firewall/alias/searchItem"
  const BackupDownloadEndpoint: string := "core/backup/download"
  const GatewaysEndpoint: string := "routes/gateway/status"
  const DhcpLeasesEndpoint: string := "dhcp/leases/searchLease"
  const PingEndpoint: string := "diagnostics/interface/ping"

  /** The body `ping_host` posts. */
  function PingData(host: string, count: int): (v: Value)
    ensures v.Dict? && v.entries.Keys == {"host", "count"}
    ensures v.entries["host"] == Str(host) && v.entries["count"] == Int(count)
  {
    Dict(map["host" := Str(host), "count" := Int(count)])
  }

  /** The constructor's outcome: a client, or the `ValueError`. */
  datatype Opened = Failed(message: string) | Opened(client: Client)

  class Client {
    const url: string
    const key: string
    const secret: string
    /** Every request the session has sent, in order. */
    var trace: seq<Request>
    /** The appliance: its reply to a request, given the requests before it. */
    const server: (seq<Request>, Request) -> Reply

    /** The session `_create_session` sets up. */
    function Session(): Credentials {
      Credentials(key, secret)
    }

    constructor (s: Settings, server: (seq<Request>, Request) -> Reply)
      requires s.key != "" && s.secret != ""
      ensures url == s.url && key == s.key && secret == s.secret
      ensures trace == [] && this.server == server
    {
      url, key, secret := s.url, s.key, s.secret;
      trace := [];
      this.server := server;
    }

    /** `OPNsenseAPI(url, key, secret)`: no client, and no session, when the
        credentials are refused. */
    static method Open(url: Option<string>, key: Option<string>, secret: Option<string>, env: Environ,
                       server: (seq<Request>, Request) -> Reply) returns (r: Opened)
      ensures Configure(url, key, secret, env).Refused? ==> r == Failed(MissingCredentials)
      ensures Configure(url, key, secret, env).Configured? ==>
        var s := Configure(url, key, secret, env).settings;
        && r.Opened? && fresh(r.client) && r.client.trace == [] && r.client.server == server
        && r.client.url == s.url && r.client.key == s.key && r.client.secret == s.secret
    {
      match Configure(url, key, secret, env)
      case Refused(message) =>
        r := Failed(message);
      case Configured(s) =>
        var c := new Client(s, server);
        r := Opened(c);
    }

    /** The request `get` sends: no body and no timeout. */
    function GetRequest(endpoint: string): (req: Request)
      ensures req.verb == GET && req.body == NoBody && req.timeout == None
      ensures req.url == ApiUrl(url, endpoint) && req.auth == Session()
    {
      Request(GET, ApiUrl(url, endpoint), Session(), NoBody, None)
    }

    /** The request `post` sends: `json=data`, no timeout. */
    function PostRequest(endpoint: string, data: Option<Value>): (req: Request)
      ensures req.verb == POST && req.body == JsonPayload(data) && req.timeout == None
      ensures req.url == ApiUrl(url, endpoint) && req.auth == Session()
    {
      Request(POST, ApiUrl(url, endpoint), Session(), JsonPayload(data), None)
    }

    /** One exchange: `req` went out after `before`, and `v` is what came of its reply. */
    ghost predicate Exchanged(before: seq<Request>, after: seq<Request>, req: Request, v: Value)
    {
      after == before + [req] && v == ApiResult(server(before, req), req.url)
    }

    method Send(req: Request) returns (v: Value)
      modifies this`trace
      ensures Exchanged(old(trace), trace, req, v)
    {
      v := ApiResult(server(trace, req), req.url);
      trace := trace + [req];
    }

    /** `get`. */
    method Get(endpoint: string) returns (v: Value)
      modifies this`trace
      ensures Exchanged(old(trace), trace, GetRequest(endpoint), v)
    {
      v := Send(GetRequest(endpoint));
    }

    /** `post`. */
    method Post(endpoint: string, data: Option<Value>) returns (v: Value)
      modifies this`trace
      ensures Exchanged(old(trace), trace, PostRequest(endpoint, data), v)
    {
      v := Send(PostRequest(endpoint, data));
    }

    method GetFirmwareStatus() returns (v: Value)
      modifies this`trace
      ensures Exchanged(old(trace), trace, GetRequest(FirmwareStatusEndpoint), v)
    {
      v := Get(FirmwareStatusEndpoint);
    }

    method GetSystemStatus() returns (v: Value)
      modifies this`trace
      ensures Exchanged(old(trace), trace, GetRequest(SystemStatusEndpoint), v)
    {
      v := Get(SystemStatusEndpoint);
    }

    method GetInterfaces() returns (v: Value)
      modifies this`trace
      ensures Exchanged(old(trace), trace, GetRequest(InterfacesEndpoint), v)
    {
      v := Get(InterfacesEndpoint);
    }

    method GetFirewallRules() returns (v: Value)
      modifies this`trace
      ensures Exchanged(old(trace), trace, GetRequest(FirewallRulesEndpoint), v)
    {
      v := Get(FirewallRulesEndpoint);
    }

    method GetFirewallAliases() returns (v: Value)
      modifies this`trace
      ensures Exchanged(old(trace), trace, GetRequest(FirewallAliasesEndpoint), v)
    {
      v := Get(FirewallAliasesEndpoint);
    }

    /** `backup_config`: a plain GET of the download endpoint, decoded as JSON. */
    method BackupConfig() returns (v: Value)
      modifies this`trace
      ensures Exchanged(old(trace), trace, GetRequest(BackupDownloadEndpoint), v)
    {
      v := Get(BackupDownloadEndpoint);
    }

    method GetGateways() returns (v: Value)
      modifies this`trace
      ensures Exchanged(old(trace), trace, GetRequest(GatewaysEndpoint), v)
    {
      v := Get(GatewaysEndpoint);
    }

    method GetDhcpLeases() returns (v: Value)
      modifies this`trace
      ensures Exchanged(old(trace), trace, GetRequest(DhcpLeasesEndpoint), v)
    {
      v := Get(DhcpLeasesEndpoint);
    }

    /** `ping_host`, three pings unless told otherwise. */
    method PingHost(host: string, count: int := 3) returns (v: Value)
      modifies this`trace
      ensures Exchanged(old(trace), trace, PostRequest(PingEndpoint, Some(PingData(host, count))), v)
    {
      v := Post(PingEndpoint, Some(PingData(host, count)));
    }
  }
}
