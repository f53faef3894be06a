/** `opnsense-dev/manage.py`: start, stop and status of the development container,
    and the exit status of the script.  A shell command is an oracle: the exit
    status and standard output it produced. */
module DevManage {
  import opened PyValues
  import opened Polling

  /** What a shell command produced. */
  datatype CommandResult = CommandResult(exitCode: int, stdout: string)

  /** `run_command`: the captured output, `True` when output is not captured, and
      `None` when the command exits with a non-zero status. */
  function RunCommand(result: CommandResult, capture: bool): (v: Value)
    ensures v == Null <==> result.exitCode != 0
    ensures result.exitCode == 0 && capture ==> v == Str(result.stdout)
    ensures result.exitCode == 0 && !capture ==> v == Bool(true)
  {
    if result.exitCode != 0 then Null
    else if capture then Str(result.stdout)
    else Bool(true)
  }

  /** Without capture the result is truthy exactly on success; with capture a command
      that succeeds silently still counts as false. */
  lemma RunCommandTruth(result: CommandResult)
    ensures Truthy(RunCommand(result, false)) <==> result.exitCode == 0
    ensures Truthy(RunCommand(result, true)) <==> result.exitCode == 0 && result.stdout != ""
  {
  }

  /** The web interface of the development container answers only 200 when ready. */
  const ReadyStatuses: set<int> := {200}

  /** `start_environment`: a failed `docker-compose up` ends it at once without a
      single probe; otherwise it is the 180-second poll for a 200. */
  method StartEnvironment(m: Machine, up: CommandResult) returns (ok: bool)
    modifies m
    ensures up.exitCode != 0 ==> !ok && m.now == old(m.now) && m.probes == old(m.probes)
    ensures up.exitCode == 0 ==>
      Poll(ok, m.now, m.probes) == Run(m.respond, ReadyStatuses, old(m.now) + MaxWait, old(m.now), old(m.probes))
  {
    var result := RunCommand(up, false);
    if Truthy(result) {
      ok := m.WaitUntil(ReadyStatuses, MaxWait);
    } else {
      ok := false;
    }
  }

  /** A redirect does not make the development container ready: a successful wait
      always ended on a probe that answered 200, so no probe answering 302 ends it
      with success. */
  lemma RedirectIsNotReady(respond: (int, nat) -> Probe, start: int)
    ensures var r := Run(respond, ReadyStatuses, start + MaxWait, start, []);
      r.ok ==> && |r.probes| > 0
               && respond(r.probes[|r.probes| - 1], |r.probes| - 1).Status?
               && respond(r.probes[|r.probes| - 1], |r.probes| - 1).code == 200
  {
    RunSucceedsOnAccepted(respond, ReadyStatuses, start + MaxWait, start, []);
  }

  /** `stop_environment`. */
  function StopEnvironment(down: CommandResult): (v: Value)
    ensures Truthy(v) <==> down.exitCode == 0
  {
    RunCommand(down, false)
  }

  /** The container test of `check_status` on the captured `docker ps` output. */
  predicate ContainerUp(status: Value) {
    Truthy(status) && status.Str? && Contains(status.s, "Up")
  }

  /** The container counts as running exactly when `docker ps` succeeds and its output
      mentions `Up`. */
  lemma ContainerUpMeans(result: CommandResult)
    ensures ContainerUp(RunCommand(result, true)) <==> result.exitCode == 0 && Contains(result.stdout, "Up")
  {
  }

  /** What `check_status` reports about the container and its web interface. */
  datatype Report = NotRunning | Accessible | RespondedWith(code: int) | Unreachable

  function ReportOf(p: Probe): (r: Report)
    ensures r == Accessible <==> p.Status? && p.code == 200
    ensures r.Unreachable? <==> p.RequestFailed?
  {
    match p
    case Status(code, _) => if code == 200 then Accessible else RespondedWith(code)
    case RequestFailed(_) => Unreachable
  }

  /** `check_status`: the web interface is probed once, and only when the container is up. */
  method CheckStatus(m: Machine, ps: CommandResult, filter: CommandResult) returns (report: Report)
    modifies m
    ensures !ContainerUp(RunCommand(filter, true)) ==>
      report == NotRunning && m.now == old(m.now) && m.probes == old(m.probes)
    ensures ContainerUp(RunCommand(filter, true)) ==>
      && m.probes == old(m.probes) + [old(m.now)]
      && report == ReportOf(m.respond(old(m.now), |old(m.probes)|))
  {
    // the `docker-compose ps` listing is only printed
    var listing := RunCommand(ps, true);
    var containerStatus := RunCommand(filter, true);
    if ContainerUp(containerStatus) {
      var p := m.Probe();
      report := ReportOf(p);
    } else {
      report := NotRunning;
    }
  }

  /** How the script ends: `sys.exit(code)`, or by running off the end (status 0). */
  datatype Exit = Explicit(code: int) | Implicit

  /** The script's command dispatch, with the outcomes of the shell commands each
      command runs. */
  method Dispatch(m: Machine, argv: seq<string>, up: CommandResult, down: CommandResult,
                  ps: CommandResult, filter: CommandResult) returns (exit: Exit)
    modifies m
    ensures exit.Explicit? ==> exit.code == 0 || exit.code == 1
    ensures |argv| < 2 ==> exit == Explicit(1)
    // exit 0 exactly when start or stop succeeds
    ensures exit == Explicit(0) <==>
      |argv| >= 2 &&
      ((Lower(argv[1]) == "start" && up.exitCode == 0
        && Run(m.respond, ReadyStatuses, old(m.now) + MaxWait, old(m.now), old(m.probes)).ok)
       || (Lower(argv[1]) == "stop" && down.exitCode == 0))
    // status and help fall off the end; anything else is an explicit failure
    ensures exit == Implicit <==> |argv| >= 2 && (Lower(argv[1]) == "status" || Lower(argv[1]) == "help")
    // only start and status touch the web interface
    ensures |argv| < 2 || (Lower(argv[1]) != "start" && Lower(argv[1]) != "status") ==>
      m.now == old(m.now) && m.probes == old(m.probes)
  {
    if |argv| < 2 {
      return Explicit(1);
    }
    var command := Lower(argv[1]);
    if command == "start" {
      var started := StartEnvironment(m, up);
      exit := if started then Explicit(0) else Explicit(1);
    } else if command == "stop" {
      exit := if Truthy(StopEnvironment(down)) then Explicit(0) else Explicit(1);
    } else if command == "status" {
      var _ := CheckStatus(m, ps, filter);
      exit := Implicit;
    } else if command == "help" {
      exit := Implicit;
    } else {
      exit := Explicit(1);
    }
  }

  /** Upper- and mixed-case commands are accepted: `START` starts the environment. */
  lemma CommandsIgnoreCase()
    ensures Lower("START") == "start" && Lower("Stop") == "stop"
  {
  }
}
