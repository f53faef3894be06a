/** `opnsense-utm/manage.py`: the availability check of the UTM virtual machine and
    the wrappers that run the configuration script and the API test as child
    processes.  A child run with `check=True` is a success exactly when it exits
    with status 0; the configuration script's own run is `Host.RunScript`, on the host
    the child works on. */
module UtmManage {
  import opened PyValues
  import opened Http
  import opened Polling
  import opened OpnsenseConfig
  import TestApi

  /** The statuses that count as "the web UI is up": 200 and the 302 of the login
      redirect. */
  const ReadyStatuses: set<int> := {200, 302}

  /** `check_opnsense_availability`. */
  method CheckOpnsenseAvailability(m: Machine) returns (ok: bool)
    modifies m
    ensures Poll(ok, m.now, m.probes) == Run(m.respond, ReadyStatuses, old(m.now) + MaxWait, old(m.now), old(m.probes))
  {
    ok := m.WaitUntil(ReadyStatuses, MaxWait);
  }

  /** A first answer of 200 or 302 ends the check at once, with one probe. */
  lemma ReadyOnFirstProbe(respond: (int, nat) -> Probe, start: int)
    requires respond(start, 0).Status? && respond(start, 0).code in {200, 302}
    ensures var r := Run(respond, ReadyStatuses, start + MaxWait, start, []);
      r.ok && r.probes == [start]
  {
  }

  /** A check succeeds exactly when its last probe answered 200 or 302, and a failed
      check has used up the 180 seconds. */
  lemma AvailabilityOutcome(respond: (int, nat) -> Probe, start: int)
    ensures var r := Run(respond, ReadyStatuses, start + MaxWait, start, []);
      && (r.ok <==> |r.probes| > 0 && respond(r.probes[|r.probes| - 1], |r.probes| - 1).Status?
                    && respond(r.probes[|r.probes| - 1], |r.probes| - 1).code in {200, 302})
      && (!r.ok ==> r.now >= start + MaxWait)
      && (forall i :: 0 <= i < |r.probes| ==> start <= r.probes[i] < start + MaxWait)
  {
    RunSucceedsOnAccepted(respond, ReadyStatuses, start + MaxWait, start, []);
    RunShape(respond, ReadyStatuses, start + MaxWait, start, []);
  }

  // ---------------------------------------------------------------- child processes

  /** `subprocess.run(..., check=True)` returns normally exactly for status 0; any
      other status raises `CalledProcessError`, which the wrappers turn into `False`. */
  predicate ChildSucceeded(status: int) {
    status == 0
  }

  /** The arguments `backup_config` passes to the configuration script. */
  function BackupArgv(): seq<string> {
    ["backup"]
  }

  /** The arguments `restore_config` passes, as written: the file name positionally. */
  function RestoreArgvAsWritten(filename: Option<string>): seq<string> {
    if Given(filename) then ["restore", filename.value] else ["restore"]
  }

  /** The arguments `restore_config` evidently means: the file name behind `--file`,
      the only way the configuration script accepts one. */
  function RestoreArgv(filename: Option<string>): seq<string> {
    if Given(filename) then ["restore", "--file", filename.value] else ["restore"]
  }

  /** The backup child runs the backup action into the default directory. */
  lemma BackupArgvParses()
    ensures ParseArgs(BackupArgv()) == Some(Args(BackupAction, None, "backups"))
  {
    assert !IsOptionLike("backup") && "backup" != "--file" && "backup" != "--output-dir";
    assert [] + ["backup"] == ["backup"];
    assert Scan(["backup"], [], None, "backups") == Scan([], ["backup"], None, "backups");
  }

  /** As written, naming a file makes the child's command line invalid for every file
      name: the script exits with a usage error before doing anything. */
  lemma RestoreArgvAsWrittenRejected(filename: Option<string>)
    requires Given(filename)
    ensures ParseArgs(RestoreArgvAsWritten(filename)) == None
  {
    ParseRejectsSecondPositional("restore", filename.value);
  }

  /** With `--file`, the child restores the named file; without a name it runs the
      interactive selection. */
  lemma RestoreArgvParses(filename: Option<string>)
    requires Given(filename) ==> !IsOptionLike(filename.value)
    ensures ParseArgs(RestoreArgv(filename))
         == Some(Args(RestoreAction, if Given(filename) then filename else None, "backups"))
  {
    if Given(filename) {
      ParseRestoreFile(filename.value);
    } else {
      assert !IsOptionLike("restore") && "restore" != "--file" && "restore" != "--output-dir";
      assert [] + ["restore"] == ["restore"];
      assert Scan(["restore"], [], None, "backups") == Scan([], ["restore"], None, "backups");
    }
  }

  /** A name that argparse takes for an option is refused behind `--file` too. */
  lemma RestoreArgvOptionRejected(filename: Option<string>)
    requires Given(filename) && IsOptionLike(filename.value)
    ensures ParseArgs(RestoreArgv(filename)) == None
  {
    var f := filename.value;
    assert Scan(["restore", "--file", f], [], None, "backups")
        == Scan(["--file", f], ["restore"], None, "backups");
  }

  /** The child's interactive restore from `backups`, started from host state `s` and
      seen from the parent: a failed connection succeeds after the probe alone; without
      an entry the answer picks, only the probe goes out and the child fails exactly when
      `backups` is a file; a picked entry is uploaded when it is a file, and the child
      succeeds. */
  predicate InteractiveRestore(s: HostState, server: (seq<Event>, Request) -> Reply, url: string,
                               auth: Credentials, choice: string, ok: bool, trace: seq<Event>)
  {
    var dir := "backups";
    var t1 := s.trace + [Sent(ProbeRequest(url, auth))];
    var picked := dir in s.dirs && Catalog.Catalog(s.dirs[dir]) != []
                  && Catalog.SelectBackup(dir, Catalog.Catalog(s.dirs[dir]), choice).Chosen?;
    if !Succeeded(server(s.trace, ProbeRequest(url, auth))) then ok && trace == t1
    else if !picked then trace == t1 && (ok <==> dir !in s.files)
    else
      var p := Catalog.SelectBackup(dir, Catalog.Catalog(s.dirs[dir]), choice).path;
      ok && trace == t1 + if p in s.files then [Sent(RestoreRequest(url, auth, p, s.files[p]))] else []
  }

  /** `backup_config`: the configuration script reports success even when it could not
      reach the appliance, so a failed connection still counts as a successful backup.
      After a good probe the child runs the backup step into `backups`, and the call
      fails exactly when that step crashes. */
  method BackupConfig(h: Host, url: string, key: string, secret: string) returns (ok: bool)
    requires h.Valid()
    modifies h`trace, h`dirs, h`files
    ensures h.Valid()
    ensures !Succeeded(h.server(old(h.trace), ProbeRequest(url, Credentials(key, secret)))) ==>
      ok && h.State() == old(h.State()).(trace := old(h.trace) + [Sent(ProbeRequest(url, Credentials(key, secret)))])
    ensures Succeeded(h.server(old(h.trace), ProbeRequest(url, Credentials(key, secret)))) ==>
      var o := BackupRun(old(h.State()).(trace := old(h.trace) + [Sent(ProbeRequest(url, Credentials(key, secret)))]),
                         h.server, h.clock, url, Credentials(key, secret), "backups");
      h.State() == o.after && (ok <==> !o.result.Crashed?)
  {
    BackupArgvParses();
    var status := h.RunScript(BackupArgv(), url, key, secret, "");
    ok := ChildSucceeded(status);
  }

  /** `restore_config` as written: with a file name it never restores anything and
      always reports failure. */
  method RestoreConfigAsWritten(h: Host, filename: Option<string>, url: string, key: string, secret: string, choice: string)
    returns (ok: bool)
    requires h.Valid()
    modifies h`trace, h`dirs, h`files
    ensures h.Valid()
    ensures h.dirs == old(h.dirs) && h.files == old(h.files)
    ensures Given(filename) ==> !ok && h.State() == old(h.State())
    ensures !Given(filename) ==>
      InteractiveRestore(old(h.State()), h.server, url, Credentials(key, secret), choice, ok, h.trace)
  {
    if Given(filename) {
      RestoreArgvAsWrittenRejected(filename);
    } else {
      RestoreArgvParses(filename);
      assert RestoreArgvAsWritten(filename) == RestoreArgv(filename);
    }
    var status := h.RunScript(RestoreArgvAsWritten(filename), url, key, secret, choice);
    ok := ChildSucceeded(status);
  }

  /** `restore_config` with the file passed behind `--file`: the child connects and,
      when the connection works and the file exists, uploads exactly that file (a name
      that argparse takes for an option is still refused). */
  method RestoreConfig(h: Host, filename: Option<string>, url: string, key: string, secret: string, choice: string)
    returns (ok: bool)
    requires h.Valid()
    modifies h`trace, h`dirs, h`files
    ensures h.Valid()
    ensures Given(filename) && !IsOptionLike(filename.value) ==>
      var f := filename.value;
      var auth := Credentials(key, secret);
      var t1 := old(h.trace) + [Sent(ProbeRequest(url, auth))];
      && ok && h.files == old(h.files)
      && h.trace == if Succeeded(h.server(old(h.trace), ProbeRequest(url, auth))) && f in old(h.files)
                    then t1 + [Sent(RestoreRequest(url, auth, f, old(h.files)[f]))]
                    else t1
    ensures h.dirs == old(h.dirs) && h.files == old(h.files)
    ensures !Given(filename) ==>
      InteractiveRestore(old(h.State()), h.server, url, Credentials(key, secret), choice, ok, h.trace)
  {
    if !Given(filename) || !IsOptionLike(filename.value) {
      RestoreArgvParses(filename);
    } else {
      RestoreArgvOptionRejected(filename);
    }
    var status := h.RunScript(RestoreArgv(filename), url, key, secret, choice);
    ok := ChildSucceeded(status);
  }

  /** `verify_api_access` as written, running `test_api.py`: the child always exits
      normally, so the check passes even against an appliance that refuses every
      connection. */
  function VerifyApiAccessAsWritten(s: TestApi.Settings, server: Request -> Reply): bool {
    ChildSucceeded(TestApi.ScriptExitStatusAsWritten(s, server))
  }

  lemma VerifyApiAccessAsWrittenPassesUnreachable(s: TestApi.Settings)
    ensures var server := (req: Request) => TransportError("connection refused");
      !TestApi.TestApiConnection(s, server) && VerifyApiAccessAsWritten(s, server)
  {
  }

  /** `verify_api_access` with a test script that exits non-zero on failure: it passes
      exactly when the connection test does. */
  function VerifyApiAccess(s: TestApi.Settings, server: Request -> Reply): (ok: bool)
    ensures ok <==> TestApi.TestApiConnection(s, server)
  {
    ChildSucceeded(TestApi.ScriptExitStatus(s, server))
  }
}
