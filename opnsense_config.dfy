/** `opnsense_config.py`: the API wrapper `api_call`, the session probe, backup,
    restore, the backup listing and the dispatch of `main`.  The machine the script
    runs on is a `Host`: its directories and files, the log of everything it asked
    of the network and the clock, and two oracles, the appliance's replies and the
    wall clock, each a function of everything that happened before. */
module OpnsenseConfig {
  import opened PyValues
  import opened Http
  import opened Order
  import opened Stamps
  import opened Catalog

  type Path = string

  /** What the script asked of the outside world, in order. */
  datatype Event = Sent(request: Request) | ClockRead(at: Reading)

  // ---------------------------------------------------------------- api_call

  /** The two methods `api_call` knows. */
  function VerbNamed(httpMethod: string): Option<Verb> {
    if httpMethod == "GET" then Some(GET)
    else if httpMethod == "POST" then Some(POST)
    else None
  }

  /** The request `api_call` issues, or `None` for a method other than GET and POST,
      where `response` is left unbound and no request goes out. */
  function ApiRequest(url: string, auth: Credentials, httpMethod: string, endpoint: string,
                      data: Option<Value>, files: Option<Upload>): (r: Option<Request>)
    ensures r.Some? <==> httpMethod == "GET" || httpMethod == "POST"
    ensures r.Some? ==> r.value.url == ApiUrl(url, endpoint) && r.value.auth == auth
    ensures r.Some? ==> r.value.verb == VerbNamed(httpMethod).value
    // a GET ignores both data and files
    ensures r.Some? && r.value.verb == GET ==> r.value.body == NoBody && r.value.timeout == Some(30)
    // a POST uploads the files when given, else sends `json=data`
    ensures r.Some? && r.value.verb == POST ==>
      && r.value.body == (if files.Some? then Multipart(files.value) else JsonPayload(data))
      && r.value.timeout == Some(if files.Some? then 120 else 30)
  {
    var target := ApiUrl(url, endpoint);
    if httpMethod == "GET" then Some(Request(GET, target, auth, NoBody, Some(30)))
    else if httpMethod == "POST" then
      match files
      case Some(upload) => Some(Request(POST, target, auth, Multipart(upload), Some(120)))
      case None => Some(Request(POST, target, auth, JsonPayload(data), Some(30)))
    else None
  }

  /** What `api_call` returns for a reply: the decoded JSON, the raw text when the body
      is not JSON, `{}` for an empty body and `None` for any failure. */
  function ApiResult(reply: Reply): (v: Value)
    ensures Classify(reply).Unreachable? || Classify(reply).ErrorStatus? ==> v == Null
    ensures Classify(reply).EmptyBody? ==> v == EmptyDict
    ensures Classify(reply).JsonValue? ==> v == Classify(reply).value
    ensures Classify(reply).NotJson? ==> v == Str(Classify(reply).text)
  {
    match reply
    case TransportError(_) => Null
    case Answered(r) =>
      if IsErrorStatus(r.status) then Null
      else if r.text != "" then
        match r.json
        case Parsed(x) => x
        case Undecodable(_) => Str(r.text)
      else EmptyDict
  }

  /** A truthy result comes only from a successful reply with a non-empty body; in
      particular an empty 2xx body, which yields `{}`, counts as failure. */
  lemma TruthyResultHasBody(reply: Reply)
    requires Truthy(ApiResult(reply))
    ensures reply.Answered? && !IsErrorStatus(reply.response.status) && reply.response.text != ""
  {
  }

  // ---------------------------------------------------------------- fixed requests

  const SystemInfoEndpoint: string := "core/system/info"
  const BackupEndpoint: string := "core/backup/backup"
  const DownloadEndpoint: string := "core/backup/download/"
  const RestoreEndpoint: string := "core/backup/restore"

  /** The probe `create_session` sends. */
  function ProbeRequest(url: string, auth: Credentials): Request {
    Request(GET, ApiUrl(url, SystemInfoEndpoint), auth, NoBody, Some(10))
  }

  /** The backup-creation POST of `backup_configuration`. */
  function CreateRequest(url: string, auth: Credentials): Request {
    ApiRequest(url, auth, "POST", BackupEndpoint, None, None).value
  }

  /** The download GET of `backup_configuration`, for the remote file name. */
  function DownloadRequest(url: string, auth: Credentials, remote: string): (r: Request)
    ensures r.verb == GET && r.auth == auth && r.body == NoBody && r.timeout == Some(30)
    ensures |r.url| == |url| + 5 + |DownloadEndpoint| + |remote|
    ensures r.url[..|url|] == url && r.url[|url|..|url| + 5] == "/api/"
    ensures r.url[|url| + 5..] == DownloadEndpoint + remote
  {
    Request(GET, ApiUrl(url, DownloadEndpoint + remote), auth, NoBody, Some(30))
  }

  /** `os.path.basename`: what follows the last `/`. */
  function Basename(p: Path): (b: string)
    ensures |b| <= |p| && b == p[|p| - |b|..]
    ensures forall i :: 0 <= i < |b| ==> b[i] != '/'
    // the character before the result, if any, is the last `/`
    ensures |b| == |p| || p[|p| - |b| - 1] == '/'
  {
    if p == [] then []
    else if p[|p| - 1] == '/' then []
    else Basename(p[..|p| - 1]) + [p[|p| - 1]]
  }

  /** The multipart upload `restore_configuration` sends for a file. */
  function RestoreRequest(url: string, auth: Credentials, path: Path, content: Bytes): Request {
    var upload := Upload("conffile", Basename(path), content, "application/xml");
    ApiRequest(url, auth, "POST", RestoreEndpoint, None, Some(upload)).value
  }

  /** The upload goes out as a multipart POST of the file's bytes under its base name,
      with the 120-second timeout. */
  lemma RestoreRequestIsUpload(url: string, auth: Credentials, path: Path, content: Bytes)
    ensures var upload := Upload("conffile", Basename(path), content, "application/xml");
      && RestoreRequest(url, auth, path, content) == ApiRequest(url, auth, "POST", RestoreEndpoint, None, Some(upload)).value
      && RestoreRequest(url, auth, path, content) == Request(POST, ApiUrl(url, RestoreEndpoint), auth, Multipart(upload), Some(120))
  {
  }

  /** A reply that `raise_for_status()` lets through. */
  predicate Succeeded(reply: Reply) {
    reply.Answered? && !IsErrorStatus(reply.response.status)
  }

  // ---------------------------------------------------------------- results

  datatype BackupResult = Saved(path: Path) | Failed | Crashed

  // ---------------------------------------------------------------- the backup step

  /** What a run can change on the host: each directory with the names `os.listdir`
      gives for it, each regular file with its bytes, and the log of requests and clock
      readings. */
  datatype HostState = HostState(dirs: map<Path, seq<string>>, files: map<Path, Bytes>, trace: seq<Event>)
  {
    /** No path is both a directory and a file. */
    predicate Valid() {
      dirs.Keys !! files.Keys
    }
  }

  /** A backup attempt's result and the host after it. */
  datatype Backed = Backed(result: BackupResult, after: HostState)

  /** `open(dir/name, 'wb').write(content)`: the bytes stored under the joined path, and
      the name added to the directory's listing unless it is there already. */
  function WriteFile(s: HostState, dir: Path, name: string, content: Bytes): (w: HostState)
    requires dir in s.dirs
    ensures w.files == s.files[dir + "/" + name := content] && w.trace == s.trace
    ensures w.dirs.Keys == s.dirs.Keys
    ensures forall d :: d in s.dirs && d != dir ==> w.dirs[d] == s.dirs[d]
    ensures name in w.dirs[dir] && multiset(s.dirs[dir]) <= multiset(w.dirs[dir])
    ensures name in s.dirs[dir] ==> w.dirs[dir] == s.dirs[dir]
  {
    var listing := s.dirs[dir];
    HostState(s.dirs[dir := if name in listing then listing else listing + [name]],
              s.files[dir + "/" + name := content], s.trace)
  }

  /** The download step of `backup_configuration` from host state `s`: read the clock,
      fetch the backup and write it to `output_dir/config-<stamp>.xml`; a failed
      download, or a target that `open` cannot write because it is a directory, writes
      nothing. */
  function SaveRun(s: HostState, server: (seq<Event>, Request) -> Reply, clock: seq<Event> -> Reading,
                   url: string, auth: Credentials, outputDir: Path, remote: Value): (o: Backed)
    requires outputDir in s.dirs
    ensures s.Valid() ==> o.after.Valid()
    ensures o.after.dirs.Keys == s.dirs.Keys
    ensures forall d :: d in s.dirs && d != outputDir ==> o.after.dirs[d] == s.dirs[d]
    ensures !o.result.Saved? ==> o.after.files == s.files
    ensures o.result.Saved? ==> o.result.path in o.after.files && o.after.files == s.files[o.result.path := o.after.files[o.result.path]]
    // one clock reading and one request
    ensures |o.after.trace| == |s.trace| + 2 && o.after.trace[..|s.trace|] == s.trace
    ensures o.after.trace == s.trace + [ClockRead(clock(s.trace)), Sent(DownloadRequest(url, auth, Render(remote)))]
    // saved exactly when the download succeeds and the target is not a directory,
    // and then the file holds the downloaded bytes unchanged
    ensures !o.result.Crashed?
    ensures o.result.Saved? <==>
      && Succeeded(server(s.trace + [ClockRead(clock(s.trace))], DownloadRequest(url, auth, Render(remote))))
      && outputDir + "/" + BackupName(Format14(clock(s.trace))) !in s.dirs
    ensures o.result.Saved? ==>
      o.after.files[o.result.path]
      == server(s.trace + [ClockRead(clock(s.trace))], DownloadRequest(url, auth, Render(remote))).response.content
    // the backup is saved under the stamp of the clock reading, and listed
    ensures o.result.Saved? ==>
      var name := BackupName(Format14(clock(s.trace)));
      && o.result.path == outputDir + "/" + name
      && name in o.after.dirs[outputDir] && multiset(s.dirs[outputDir]) <= multiset(o.after.dirs[outputDir])
  {
    var stamp := clock(s.trace);
    var t1 := s.trace + [ClockRead(stamp)];
    var download := DownloadRequest(url, auth, Render(remote));
    var reply := server(t1, download);
    var name := BackupName(Format14(stamp));
    var sent := s.(trace := t1 + [Sent(download)]);
    assert t1 + [Sent(download)] == s.trace + [ClockRead(stamp), Sent(download)];
    if Succeeded(reply) && outputDir + "/" + name !in s.dirs then
      Backed(Saved(outputDir + "/" + name), WriteFile(sent, outputDir, name, reply.response.content))
    else
      Backed(Failed, sent)
  }

  /** `backup_configuration(session, url, output_dir)` from host state `s`.  It keeps the
      host well formed and keeps every directory, and it writes no file unless it saves
      the backup, and then only that one. */
  function BackupRun(s: HostState, server: (seq<Event>, Request) -> Reply, clock: seq<Event> -> Reading,
                     url: string, auth: Credentials, outputDir: Path): (o: Backed)
    ensures s.Valid() ==> o.after.Valid()
    ensures s.dirs.Keys <= o.after.dirs.Keys
    ensures !o.result.Saved? ==> o.after.files == s.files
    ensures o.result.Saved? ==> o.result.path in o.after.files && o.after.files == s.files[o.result.path := o.after.files[o.result.path]]
  {
    // os.makedirs raises for "" and for an existing file, before any request
    if outputDir == "" || outputDir in s.files then Backed(Crashed, s)
    else
      var made := if outputDir in s.dirs then s.dirs else s.dirs[outputDir := []];
      var create := CreateRequest(url, auth);
      var created := ApiResult(server(s.trace, create));
      var s1 := HostState(made, s.files, s.trace + [Sent(create)]);
      if !Truthy(created) then Backed(Failed, s1)
      // result.get raises AttributeError outside the try block
      else if !created.Dict? then Backed(Crashed, s1)
      else if !Truthy(Get(created.entries, "filename")) then Backed(Failed, s1)
      else SaveRun(s1, server, clock, url, auth, outputDir, Get(created.entries, "filename"))
  }

  /** Before any download: `os.makedirs` raising (for `""` or an existing file) crashes
      with nothing sent; otherwise only the creation request goes out when its result is
      falsy, is not a dictionary, or has no truthy `filename`. A falsy result or a missing
      name fails without a download; a truthy non-dictionary crashes on `result.get`. */
  lemma BackupRunAborts(s: HostState, server: (seq<Event>, Request) -> Reply, clock: seq<Event> -> Reading,
                        url: string, auth: Credentials, outputDir: Path)
    ensures var o := BackupRun(s, server, clock, url, auth, outputDir);
      var created := ApiResult(server(s.trace, CreateRequest(url, auth)));
      var t1 := s.trace + [Sent(CreateRequest(url, auth))];
      && (outputDir == "" || outputDir in s.files ==> o == Backed(Crashed, s))
      && (outputDir != "" && outputDir !in s.files ==>
            && (!Truthy(created) || (created.Dict? && !Truthy(Get(created.entries, "filename"))) ==>
                  o.result == Failed && o.after.trace == t1 && o.after.files == s.files)
            && (Truthy(created) && !created.Dict? ==>
                  o.result == Crashed && o.after.trace == t1 && o.after.files == s.files))
  {
  }

  /** After a truthy `filename`: one clock reading, then the GET of
      `download/<filename>`; the backup is saved exactly when that succeeds and the
      target is not a directory, and the file then holds the downloaded bytes. */
  lemma BackupRunDownloads(s: HostState, server: (seq<Event>, Request) -> Reply, clock: seq<Event> -> Reading,
                           url: string, auth: Credentials, outputDir: Path)
    requires outputDir != "" && outputDir !in s.files
    requires var created := ApiResult(server(s.trace, CreateRequest(url, auth)));
      created.Dict? && Truthy(Get(created.entries, "filename"))
    ensures var o := BackupRun(s, server, clock, url, auth, outputDir);
      var created := ApiResult(server(s.trace, CreateRequest(url, auth)));
      var t1 := s.trace + [Sent(CreateRequest(url, auth))];
      var t2 := t1 + [ClockRead(clock(t1))];
      var download := DownloadRequest(url, auth, Render(Get(created.entries, "filename")));
      var reply := server(t2, download);
      && o.after.trace == t2 + [Sent(download)]
      && !o.result.Crashed?
      && (o.result.Saved? <==> Succeeded(reply) && outputDir + "/" + BackupName(Format14(clock(t1))) !in s.dirs)
      && (o.result.Saved? ==> o.after.files[o.result.path] == reply.response.content)
  {
    var created := ApiResult(server(s.trace, CreateRequest(url, auth)));
    var made := if outputDir in s.dirs then s.dirs else s.dirs[outputDir := []];
    var s1 := HostState(made, s.files, s.trace + [Sent(CreateRequest(url, auth))]);
    var target := outputDir + "/" + BackupName(Format14(clock(s1.trace)));
    assert |target| > |outputDir|;
    assert target in made <==> target in s.dirs;
    assert BackupRun(s, server, clock, url, auth, outputDir)
        == SaveRun(s1, server, clock, url, auth, outputDir, Get(created.entries, "filename"));
  }

  /** A backup run leaves every other directory's listing as it was and only appends
      to the log. */
  lemma BackupRunFrame(s: HostState, server: (seq<Event>, Request) -> Reply, clock: seq<Event> -> Reading,
                       url: string, auth: Credentials, outputDir: Path)
    ensures var o := BackupRun(s, server, clock, url, auth, outputDir);
      && (forall d :: d in s.dirs && d != outputDir ==> o.after.dirs[d] == s.dirs[d])
      && |s.trace| <= |o.after.trace| && o.after.trace[..|s.trace|] == s.trace
  {
    if outputDir != "" && outputDir !in s.files {
      var s1 := BackupRun(s, server, clock, url, auth, outputDir).after;
      var t1 := s.trace + [Sent(CreateRequest(url, auth))];
      assert |t1| <= |s1.trace| ==> s1.trace[..|s.trace|] == s1.trace[..|t1|][..|s.trace|];
    }
  }

  /** A saved backup lands in the output directory under the stamp of the clock
      reading taken after the creation request, and its name joins the directory's
      listing, which loses nothing. */
  lemma SavedBackupIsNamed(s: HostState, server: (seq<Event>, Request) -> Reply, clock: seq<Event> -> Reading,
                           url: string, auth: Credentials, outputDir: Path)
    requires BackupRun(s, server, clock, url, auth, outputDir).result.Saved?
    ensures var o := BackupRun(s, server, clock, url, auth, outputDir);
      var name := BackupName(Format14(clock(s.trace + [Sent(CreateRequest(url, auth))])));
      && o.result.path == outputDir + "/" + name
      && outputDir in o.after.dirs && name in o.after.dirs[outputDir]
      && (outputDir in s.dirs ==> multiset(s.dirs[outputDir]) <= multiset(o.after.dirs[outputDir]))
  {
    var t1 := s.trace + [Sent(CreateRequest(url, auth))];
    var created := ApiResult(server(s.trace, CreateRequest(url, auth)));
    var made := if outputDir in s.dirs then s.dirs else s.dirs[outputDir := []];
    var s1 := HostState(made, s.files, t1);
    assert BackupRun(s, server, clock, url, auth, outputDir)
        == SaveRun(s1, server, clock, url, auth, outputDir, Get(created.entries, "filename"));
  }

  /** A saved backup is then listed by `list_backups`, next to every backup listed
      before. */
  lemma SavedBackupIsListed(s: HostState, server: (seq<Event>, Request) -> Reply, clock: seq<Event> -> Reading,
                            url: string, auth: Credentials, outputDir: Path)
    requires BackupRun(s, server, clock, url, auth, outputDir).result.Saved?
    ensures var o := BackupRun(s, server, clock, url, auth, outputDir);
      var name := BackupName(Format14(clock(s.trace + [Sent(CreateRequest(url, auth))])));
      && outputDir in o.after.dirs && name in Catalog.Catalog(o.after.dirs[outputDir])
      && (outputDir in s.dirs ==> forall f :: f in Catalog.Catalog(s.dirs[outputDir]) ==> f in Catalog.Catalog(o.after.dirs[outputDir]))
  {
    SavedBackupIsNamed(s, server, clock, url, auth, outputDir);
    var o := BackupRun(s, server, clock, url, auth, outputDir);
    var name := BackupName(Format14(clock(s.trace + [Sent(CreateRequest(url, auth))])));
    var listing := o.after.dirs[outputDir];
    CatalogContents(listing);
    assert multiset(Catalog.Catalog(listing))[name] == multiset(listing)[name];
    if outputDir in s.dirs {
      var before := s.dirs[outputDir];
      CatalogContents(before);
      forall f | f in Catalog.Catalog(before)
        ensures f in Catalog.Catalog(listing)
      {
        assert multiset(Catalog.Catalog(before))[f] > 0;
        assert multiset(before)[f] <= multiset(listing)[f];
      }
    }
  }

  /** `list_backups`: `False` for a missing directory, the sorted names otherwise; a
      path that is a file makes `os.listdir` raise. */
  datatype ListResult = Missing | Listed(names: seq<string>) | NotADirectory

  // ---------------------------------------------------------------- command line

  datatype Action = BackupAction | RestoreAction | ListAction

  /** The parsed command line: action, `--file`, `--output-dir`. */
  datatype Args = Args(action: Action, file: Option<string>, outputDir: string)

  function ActionNamed(t: string): Option<Action> {
    if t == "backup" then Some(BackupAction)
    else if t == "restore" then Some(RestoreAction)
    else if t == "list" then Some(ListAction)
    else None
  }

  /** argparse's `-\d+|-\d*\.\d+`: such tokens count as values, not options. */
  predicate IsNegativeNumber(t: string) {
    && |t| > 1
    && t[0] == '-'
    && (AllDigits(t[1..])
        || exists k :: 1 <= k < |t| - 1 && t[k] == '.' && AllDigits(t[1..k]) && AllDigits(t[k + 1..]))
  }

  /** A token argparse reads as an option string. */
  predicate IsOptionLike(t: string) {
    |t| > 1 && t[0] == '-' && !IsNegativeNumber(t) && (forall i :: 0 <= i < |t| ==> t[i] != ' ')
  }

  /** argparse over the parser of `main`: `None` where it prints usage and exits 2.  A
      successful parse takes its action from one of the words, and the file and the
      output directory, when given, are words of the command line too. */
  function ParseArgs(tokens: seq<string>): (r: Option<Args>)
    ensures r.Some? ==> exists w :: w in tokens && ActionNamed(w) == Some(r.value.action)
    ensures r.Some? && r.value.file.Some? ==> r.value.file.value in tokens
    ensures r.Some? ==> r.value.outputDir == "backups" || r.value.outputDir in tokens
  {
    Scan(tokens, [], None, "backups")
  }

  /** argparse's left-to-right pass, with the positional words and option values seen
      so far. */
  function Scan(tokens: seq<string>, positionals: seq<string>, file: Option<string>, outputDir: string): (r: Option<Args>)
    ensures r.Some? ==> exists w :: (w in positionals || w in tokens) && ActionNamed(w) == Some(r.value.action)
    ensures r.Some? && r.value.file.Some? ==> r.value.file == file || r.value.file.value in tokens
    ensures r.Some? ==> r.value.outputDir == outputDir || r.value.outputDir in tokens
    decreases |tokens|
  {
    if tokens == [] then
      if |positionals| == 1 && ActionNamed(positionals[0]).Some? then
        Some(Args(ActionNamed(positionals[0]).value, file, outputDir))
      else None
    else
      var t := tokens[0];
      if t == "--file" || t == "--output-dir" then
        if |tokens| < 2 || IsOptionLike(tokens[1]) then None
        else if t == "--file" then Scan(tokens[2..], positionals, Some(tokens[1]), outputDir)
        else Scan(tokens[2..], positionals, file, tokens[1])
      else if IsOptionLike(t) then None
      else Scan(tokens[1..], positionals + [t], file, outputDir)
  }

  /** Exit status of an uncaught exception and of an argparse usage error. */
  const CrashStatus: int := 1
  const UsageStatus: int := 2

  // ---------------------------------------------------------------- the host

  class Host {
    /** Each directory with the names `os.listdir` gives for it, in that order. */
    var dirs: map<Path, seq<string>>
    /** Each regular file with its bytes. */
    var files: map<Path, Bytes>
    var trace: seq<Event>
    /** The appliance: its reply to a request, given everything that came before. */
    const server: (seq<Event>, Request) -> Reply
    /** `datetime.now()`, given everything that came before. */
    const clock: seq<Event> -> Reading

    /** No path is both a directory and a file. */
    ghost predicate Valid()
      reads this
    {
      dirs.Keys !! files.Keys
    }

    function State(): HostState
      reads this
    {
      HostState(dirs, files, trace)
    }

    predicate Exists(p: Path)
      reads this
    {
      p in dirs || p in files
    }

    constructor (dirs0: map<Path, seq<string>>, files0: map<Path, Bytes>,
                 server: (seq<Event>, Request) -> Reply, clock: seq<Event> -> Reading)
      requires dirs0.Keys !! files0.Keys
      ensures Valid()
      ensures dirs == dirs0 && files == files0 && trace == []
      ensures this.server == server && this.clock == clock
    {
      dirs, files, trace := dirs0, files0, [];
      this.server, this.clock := server, clock;
    }

    /** One HTTP request through the session. */
    method Send(req: Request) returns (reply: Reply)
      modifies this`trace
      ensures trace == old(trace) + [Sent(req)]
      ensures reply == server(old(trace), req)
    {
      reply := server(trace, req);
      trace := trace + [Sent(req)];
    }

    /** `datetime.now()`. */
    method Now() returns (t: Reading)
      modifies this`trace
      ensures t == clock(old(trace))
      ensures trace == old(trace) + [ClockRead(t)]
    {
      t := clock(trace);
      trace := trace + [ClockRead(t)];
    }

    /** `create_session`: one probe GET with a 10 s timeout; the credentials come back
        as the session when the probe succeeds, `None` otherwise. */
    method CreateSession(url: string, key: string, secret: string) returns (session: Option<Credentials>)
      modifies this`trace
      ensures trace == old(trace) + [Sent(ProbeRequest(url, Credentials(key, secret)))]
      ensures session.Some? <==> Succeeded(server(old(trace), ProbeRequest(url, Credentials(key, secret))))
      ensures session.Some? ==> session.value == Credentials(key, secret)
    {
      var auth := Credentials(key, secret);
      var reply := Send(ProbeRequest(url, auth));
      if Succeeded(reply) {
        session := Some(auth);
      } else {
        session := None;
      }
    }

    /** `api_call`: at most one request; its reply classified by ApiResult. */
    method ApiCall(url: string, auth: Credentials, httpMethod: string, endpoint: string,
                   data: Option<Value>, files: Option<Upload>) returns (v: Value)
      modifies this`trace
      ensures httpMethod != "GET" && httpMethod != "POST" ==> v == Null && trace == old(trace)
      ensures httpMethod == "GET" || httpMethod == "POST" ==>
        var req := ApiRequest(url, auth, httpMethod, endpoint, data, files).value;
        trace == old(trace) + [Sent(req)] && v == ApiResult(server(old(trace), req))
    {
      var req := ApiRequest(url, auth, httpMethod, endpoint, data, files);
      if req.None? {
        v := Null;
        return;
      }
      var reply := Send(req.value);
      v := ApiResult(reply);
    }

    /** `backup_configuration`: the state change of BackupRun. */
    method Backup(url: string, auth: Credentials, outputDir: Path) returns (r: BackupResult)
      requires Valid()
      modifies this`trace, this`dirs, this`files
      ensures Valid()
      ensures Backed(r, State()) == BackupRun(old(State()), server, clock, url, auth, outputDir)
    {
      if outputDir == "" || outputDir in files {
        return Crashed;
      }
      if outputDir !in dirs {
        dirs := dirs[outputDir := []];
      }
      var created := ApiCall(url, auth, "POST", BackupEndpoint, None, None);
      if !Truthy(created) {
        return Failed;
      }
      if !created.Dict? {
        // result.get raises AttributeError outside the try block
        return Crashed;
      }
      var remote := Get(created.entries, "filename");
      if !Truthy(remote) {
        return Failed;
      }
      r := SaveDownload(url, auth, outputDir, remote);
    }

    /** The download step of `backup_configuration`: the state change of SaveRun. */
    method SaveDownload(url: string, auth: Credentials, outputDir: Path, remote: Value) returns (r: BackupResult)
      requires Valid() && outputDir in dirs
      modifies this`trace, this`dirs, this`files
      ensures Valid()
      ensures Backed(r, State()) == SaveRun(old(State()), server, clock, url, auth, outputDir, remote)
    {
      var stamp := Now();
      var reply := Send(DownloadRequest(url, auth, Render(remote)));
      ghost var sent := State();
      var name := BackupName(Format14(stamp));
      var target := outputDir + "/" + name;
      if !Succeeded(reply) || target in dirs {
        return Failed;
      }
      files := files[target := reply.response.content];
      if name !in dirs[outputDir] {
        dirs := dirs[outputDir := dirs[outputDir] + [name]];
      }
      assert State() == WriteFile(sent, outputDir, name, reply.response.content);
      r := Saved(target);
    }

    /** `restore_configuration`. */
    method Restore(url: string, auth: Credentials, configFile: Path) returns (ok: bool)
      modifies this`trace
      // a missing path, or a directory that open() refuses: no request at all
      ensures configFile !in files ==> !ok && trace == old(trace)
      ensures configFile in files ==>
        var req := RestoreRequest(url, auth, configFile, files[configFile]);
        trace == old(trace) + [Sent(req)] && (ok <==> Truthy(ApiResult(server(old(trace), req))))
    {
      if configFile !in files {
        // a missing path, or a directory that open() refuses
        return false;
      }
      var upload := Upload("conffile", Basename(configFile), files[configFile], "application/xml");
      var result := ApiCall(url, auth, "POST", RestoreEndpoint, None, Some(upload));
      assert configFile in files;
      ok := Truthy(result);
    }

    /** `list_backups`, with the lines it logs. */
    method ListBackups(outputDir: Path) returns (r: ListResult, lines: seq<string>)
      ensures !Exists(outputDir) ==> r == Missing && lines == []
      ensures outputDir in files && outputDir !in dirs ==> r == NotADirectory && lines == []
      ensures outputDir in dirs ==> r == Listed(Catalog.Catalog(dirs[outputDir]))
      ensures r.Listed? ==> |lines| == |r.names| && forall i :: 0 <= i < |lines| ==> lines[i] == EntryLine(i, r.names[i])
    {
      if !Exists(outputDir) {
        return Missing, [];
      }
      if outputDir !in dirs {
        return NotADirectory, [];
      }
      var entries := dirs[outputDir];
      // the list comprehension over os.listdir
      var matched := Filter(entries);
      if matched == [] {
        return Listed([]), [];
      }
      var sorted := SortNewestFirst(matched);
      lines := LogEntries(sorted);
      r := Listed(sorted);
    }

    /** `main` after `parse_args`, for the credentials `get_api_config` produced and
        the operator's answer to the selection prompt; returns the exit status. */
    method RunScript(argv: seq<string>, url: string, key: string, secret: string, choice: string) returns (status: int)
      requires Valid()
      modifies this`trace, this`dirs, this`files
      ensures Valid()
      ensures status == 0 || status == CrashStatus || status == UsageStatus
      ensures ParseArgs(argv).None? ==> status == UsageStatus && State() == old(State())
      ensures status == UsageStatus ==> ParseArgs(argv).None?
      // only the backup action writes anything
      ensures ParseArgs(argv).Some? && ParseArgs(argv).value.action != BackupAction ==>
        dirs == old(dirs) && files == old(files)
      // list: no request, and status 1 exactly when the directory is a file
      ensures ParseArgs(argv).Some? && ParseArgs(argv).value.action == ListAction ==>
        trace == old(trace) && (status == CrashStatus <==> ParseArgs(argv).value.outputDir in old(files))
      // a failed connection ends the other actions with status 0 and nothing written
      ensures ParseArgs(argv).Some? && ParseArgs(argv).value.action != ListAction
              && !Succeeded(server(old(trace), ProbeRequest(url, Credentials(key, secret)))) ==>
        status == 0 && State() == old(State()).(trace := old(trace) + [Sent(ProbeRequest(url, Credentials(key, secret)))])
      // backup after a good probe: the backup step from the host as the probe left it,
      // with status 1 exactly when it crashes
      ensures ParseArgs(argv).Some? && ParseArgs(argv).value.action == BackupAction
              && Succeeded(server(old(trace), ProbeRequest(url, Credentials(key, secret)))) ==>
        var o := BackupRun(old(State()).(trace := old(trace) + [Sent(ProbeRequest(url, Credentials(key, secret)))]),
                           server, clock, url, Credentials(key, secret), ParseArgs(argv).value.outputDir);
        State() == o.after && status == (if o.result.Crashed? then CrashStatus else 0)
      // restore without --file: the listed entry the answer picks is uploaded when it is a
      // file; without a pick, only the probe goes out
      ensures ParseArgs(argv).Some? && ParseArgs(argv).value.action == RestoreAction && !Given(ParseArgs(argv).value.file) ==>
        var dir := ParseArgs(argv).value.outputDir;
        var auth := Credentials(key, secret);
        var t1 := old(trace) + [Sent(ProbeRequest(url, auth))];
        var up := Succeeded(server(old(trace), ProbeRequest(url, auth)));
        var picked := dir in old(dirs) && Catalog.Catalog(old(dirs)[dir]) != []
                      && SelectBackup(dir, Catalog.Catalog(old(dirs)[dir]), choice).Chosen?;
        && (!picked ==> trace == t1 && (status == CrashStatus <==> up && dir in old(files)))
        && (picked && up ==>
              var p := SelectBackup(dir, Catalog.Catalog(old(dirs)[dir]), choice).path;
              && status == 0
              && trace == t1 + if p in old(files) then [Sent(RestoreRequest(url, auth, p, old(files)[p]))] else [])
      // restore --file F: the probe, then the upload of F when the probe succeeded and F is a file
      ensures ParseArgs(argv).Some? && ParseArgs(argv).value.action == RestoreAction && Given(ParseArgs(argv).value.file) ==>
        var f := ParseArgs(argv).value.file.value;
        var auth := Credentials(key, secret);
        var t1 := old(trace) + [Sent(ProbeRequest(url, auth))];
        && status == 0
        && trace == if Succeeded(server(old(trace), ProbeRequest(url, auth))) && f in old(files)
                    then t1 + [Sent(RestoreRequest(url, auth, f, old(files)[f]))]
                    else t1
    {
      var parsed := ParseArgs(argv);
      if parsed.None? {
        return UsageStatus;
      }
      var args := parsed.value;
      if args.action == ListAction {
        var listed, _ := ListBackups(args.outputDir);
        return if listed.NotADirectory? then CrashStatus else 0;
      }
      var session := CreateSession(url, key, secret);
      if session.None? {
        return 0;
      }
      var auth := session.value;
      if args.action == BackupAction {
        var saved := Backup(url, auth, args.outputDir);
        return if saved.Crashed? then CrashStatus else 0;
      }
      var configFile: Path;
      if !Given(args.file) {
        var listed, _ := ListBackups(args.outputDir);
        if listed.NotADirectory? {
          return CrashStatus;
        }
        if !listed.Listed? || listed.names == [] {
          return 0;
        }
        var selection := SelectBackup(args.outputDir, listed.names, choice);
        if !selection.Chosen? {
          return 0;
        }
        configFile := selection.path;
      } else {
        configFile := args.file.value;
      }
      var _ := Restore(url, auth, configFile);
      status := 0;
    }
  }

  /** `restore --file F` selects the restore action with that file, for any `F` that
      argparse does not take for an option. */
  lemma ParseRestoreFile(f: string)
    requires !IsOptionLike(f)
    ensures ParseArgs(["restore", "--file", f]) == Some(Args(RestoreAction, Some(f), "backups"))
  {
    var tokens := ["restore", "--file", f];
    assert !IsOptionLike("restore") && "restore" != "--file" && "restore" != "--output-dir";
    assert tokens[1..] == ["--file", f] && ["--file", f][2..] == [];
    assert [] + ["restore"] == ["restore"];
    assert Scan(tokens, [], None, "backups") == Scan(["--file", f], ["restore"], None, "backups");
    assert Scan(["--file", f], ["restore"], None, "backups") == Scan([], ["restore"], Some(f), "backups");
  }

  /** The positional `action` is the only positional argument the parser accepts: a
      second word is a usage error, whatever the words are. */
  lemma ParseRejectsSecondPositional(action: string, extra: string)
    ensures ParseArgs([action, extra]) == None
  {
    var tokens := [action, extra];
    assert tokens[1..] == [extra] && tokens[2..] == [];
    if action == "--file" || action == "--output-dir" {
      if !IsOptionLike(extra) {
        assert Scan(tokens, [], None, "backups") == Scan([], [], if action == "--file" then Some(extra) else None,
                                                         if action == "--file" then "backups" else extra);
      }
    } else if !IsOptionLike(action) {
      assert [] + [action] == [action];
      assert Scan(tokens, [], None, "backups") == Scan([extra], [action], None, "backups");
      assert [extra][1..] == [];
      if extra == "--file" || extra == "--output-dir" {
      } else if !IsOptionLike(extra) {
        assert Scan([extra], [action], None, "backups") == Scan([], [action, extra], None, "backups");
      }
    }
  }
}
