/** The Borg command line: the subcommand names, the `--rsh` option, and
    the two command classes that assemble an argv and hand it to the
    process runner. The runner itself is foreign code; it is a parameter
    here (`Runner`), together with `json.loads` (`JsonLoads`). */
module BorgCli {
  import opened Wrappers

  /** `os.path.join(CyberfusionCommand.PATH_USR_BIN, "borg")`. */
  const BORG_BIN: string := "/usr/bin/borg"

  const SUBCOMMAND_DELETE: string := "delete"
  const SUBCOMMAND_PRUNE: string := "prune"
  const SUBCOMMAND_LIST: string := "list"
  const SUBCOMMAND_CHECK: string := "check"
  const SUBCOMMAND_EXTRACT: string := "extract"
  const SUBCOMMAND_INIT: string := "init"
  const SUBCOMMAND_CREATE: string := "create"

  /** The ssh command line Borg is told to use, up to the identity file. */
  const RSH_PREFIX: string := "ssh -oBatchMode=yes -oStrictHostKeyChecking=no -i "

  /** A decoded JSON document, as far as this library reads one. */
  datatype Json =
    | JNull
    | JBool(b: bool)
    | JNumber(n: int)
    | JString(s: string)
    | JArray(items: seq<Json>)
    | JObject(members: map<string, Json>)

  /** What is handed to the process runner: argv, environment, working
      directory, and whether stderr goes to a log file (logged mode). */
  datatype Spawn = Spawn(
    argv: seq<string>,
    environment: Option<map<string, string>>,
    workingDirectory: Option<string>,
    logged: bool)

  /** What the runner reports once the process has exited. */
  datatype ProcessResult = ProcessResult(rc: int, stdout: string, stderr: string, stderrFile: string)

  type Runner = Spawn -> ProcessResult
  type JsonLoads = string -> Option<Json>

  /** The exceptions that reach callers of this library. */
  datatype Error =
    | CommandNonZero(command: seq<string>, rc: int, stdout: string, stderr: string)
    | JsonDecode(document: string)
    | KeyError(key: string)
    | TypeError

  /** `self.stdout` is the captured text, replaced by its decoding for `--json` commands. */
  datatype Stdout = Text(text: string) | Decoded(json: Json)

  /** The runner raises `CommandNonZeroError` exactly when the exit code is not zero. */
  function Invoke(runner: Runner, spawn: Spawn): (r: Result<ProcessResult, Error>)
    ensures r.Success? <==> runner(spawn).rc == 0
    ensures r.Success? ==> r.value == runner(spawn)
    ensures r.Failure? ==> r.error.CommandNonZero? && r.error.command == spawn.argv
                           && r.error.rc == runner(spawn).rc
  {
    var p := runner(spawn);
    if p.rc != 0 then Failure(CommandNonZero(spawn.argv, p.rc, p.stdout, p.stderr)) else Success(p)
  }

  /** A regular `--json` command as seen by its caller: the process must
      succeed and its stdout must decode. */
  function InvokeJson(runner: Runner, loads: JsonLoads, spawn: Spawn): (r: Result<Json, Error>)
    ensures runner(spawn).rc != 0 ==> r.Failure? && r.error.CommandNonZero?
    ensures runner(spawn).rc == 0 ==>
      r == (match loads(runner(spawn).stdout)
            case Some(j) => Success(j)
            case None => Failure(JsonDecode(runner(spawn).stdout)))
  {
    match Invoke(runner, spawn)
    case Failure(e) => Failure(e)
    case Success(p) =>
      match loads(p.stdout)
      case Some(j) => Success(j)
      case None => Failure(JsonDecode(p.stdout))
  }

  /** Python truthiness of an optional string: `None` and `""` are both false. */
  predicate Truthy(s: Option<string>) { s.Some? && s.value != "" }

  /** `_get_rsh_argument`: the option name, then the ssh command ending in the identity file. */
  function RshArgument(identityFilePath: string): (r: seq<string>)
    ensures |r| == 2 && r[0] == "--rsh"
    ensures |r[1]| == |RSH_PREFIX| + |identityFilePath|
    ensures r[1][..|RSH_PREFIX|] == RSH_PREFIX && r[1][|RSH_PREFIX|..] == identityFilePath
  {
    ["--rsh", RSH_PREFIX + identityFilePath]
  }

  /** The rsh pair when the identity file path is truthy, nothing otherwise. */
  function RshPart(identityFilePath: Option<string>): seq<string>
  {
    if Truthy(identityFilePath) then RshArgument(identityFilePath.value) else []
  }

  /** The argv `BorgRegularCommand.execute` assembles, in Borg's preferred order. */
  function RegularArgv(command: Option<string>, arguments: Option<seq<string>>, jsonFormat: bool,
                       identityFilePath: Option<string>): seq<string>
  {
    [BORG_BIN]
    + (if command.Some? then [command.value] else [])
    + (if jsonFormat then ["--json"] else [])
    + RshPart(identityFilePath)
    + (if arguments.Some? then arguments.value else [])
  }

  /** The argv `BorgLoggedCommand.execute` assembles. */
  function LoggedArgv(command: string, arguments: seq<string>, identityFilePath: Option<string>): seq<string>
  {
    [BORG_BIN, "--progress", "--log-json", command] + RshPart(identityFilePath) + arguments
  }

  /** Position of each part of a regular argv: the binary first, the
      subcommand second exactly when there is one (an empty string included),
      then `--json`, then the rsh pair, then the caller's arguments unchanged
      as the suffix; the length counts each part. */
  lemma RegularArgvLayout(command: Option<string>, arguments: Option<seq<string>>, jsonFormat: bool,
                          identityFilePath: Option<string>)
    ensures var argv := RegularArgv(command, arguments, jsonFormat, identityFilePath);
      var c := if command.Some? then 1 else 0;
      var j := if jsonFormat then 1 else 0;
      var h := if Truthy(identityFilePath) then 2 else 0;
      var args := if arguments.Some? then arguments.value else [];
      && |argv| == 1 + c + j + h + |args|
      && argv[0] == BORG_BIN
      && (command.Some? ==> argv[1] == command.value)
      && (jsonFormat ==> argv[1 + c] == "--json")
      && (Truthy(identityFilePath) ==> argv[1 + c + j..1 + c + j + 2] == RshArgument(identityFilePath.value))
      && argv[1 + c + j + h..] == args
  {
    var argv := RegularArgv(command, arguments, jsonFormat, identityFilePath);
    var c := if command.Some? then 1 else 0;
    var j := if jsonFormat then 1 else 0;
    var h := if Truthy(identityFilePath) then 2 else 0;
    var pre := [BORG_BIN] + (if command.Some? then [command.value] else [])
               + (if jsonFormat then ["--json"] else []);
    assert |pre| == 1 + c + j;
    assert argv == pre + RshPart(identityFilePath) + (if arguments.Some? then arguments.value else []);
  }

  /** `--json` is in a regular argv exactly when it was asked for, passed as
      the subcommand, or passed among the arguments: nothing else inserts it. */
  lemma RegularArgvJsonFlag(command: Option<string>, arguments: Option<seq<string>>, jsonFormat: bool,
                            identityFilePath: Option<string>)
    ensures "--json" in RegularArgv(command, arguments, jsonFormat, identityFilePath) <==>
      jsonFormat || command == Some("--json") || (arguments.Some? && "--json" in arguments.value)
  {
    var argv := RegularArgv(command, arguments, jsonFormat, identityFilePath);
    if Truthy(identityFilePath) {
      var rsh := RshArgument(identityFilePath.value);
      assert |rsh[1]| >= |RSH_PREFIX| > |"--json"|;
      assert "--json" !in rsh;
    }
    assert BORG_BIN != "--json";
  }

  /** A logged argv: the fixed four-element prefix, the optional rsh pair,
      then every argument in order. */
  lemma LoggedArgvLayout(command: string, arguments: seq<string>, identityFilePath: Option<string>)
    ensures var argv := LoggedArgv(command, arguments, identityFilePath);
      var h := if Truthy(identityFilePath) then 2 else 0;
      && |argv| == 4 + h + |arguments|
      && argv[..4] == [BORG_BIN, "--progress", "--log-json", command]
      && (Truthy(identityFilePath) ==> argv[4..6] == RshArgument(identityFilePath.value))
      && argv[4 + h..] == arguments
  {
    var argv := LoggedArgv(command, arguments, identityFilePath);
    assert argv == [BORG_BIN, "--progress", "--log-json", command] + RshPart(identityFilePath) + arguments;
  }

  /** `BorgRegularCommand`: `command`, `rc` and `stdout` are the attributes
      its `execute` assigns; `None` stands for an attribute not yet set. */
  class BorgRegularCommand {
    var command: seq<string>
    var rc: Option<int>
    var stdout: Option<Stdout>

    constructor ()
      ensures command == [] && rc == None && stdout == None
    {
      command, rc, stdout := [], None, None;
    }

    /** Builds `command` step by step; with `run` false it stops there. When
        run, a failing process raises before `rc` and `stdout` are assigned,
        and a `--json` stdout that does not decode raises after both are. */
    method Execute(cmd: Option<string>, arguments: Option<seq<string>>, jsonFormat: bool,
                   identityFilePath: Option<string>, environment: Option<map<string, string>>,
                   run: bool, runner: Runner, loads: JsonLoads)
      returns (outcome: Outcome<Error>)
      modifies this
      ensures command == RegularArgv(cmd, arguments, jsonFormat, identityFilePath)
      ensures !run ==> outcome == Pass && rc == old(rc) && stdout == old(stdout)
      ensures run ==>
        var spawn := Spawn(command, environment, None, false);
        match Invoke(runner, spawn)
        case Failure(e) => outcome == Fail(e) && rc == old(rc) && stdout == old(stdout)
        case Success(p) =>
          && rc == Some(p.rc)
          && (if !jsonFormat then outcome == Pass && stdout == Some(Text(p.stdout))
              else match loads(p.stdout)
                   case Some(j) => outcome == Pass && stdout == Some(Decoded(j))
                   case None => outcome == Fail(JsonDecode(p.stdout)) && stdout == Some(Text(p.stdout)))
    {
      var argv := [BORG_BIN];
      if cmd.Some? {
        argv := argv + [cmd.value];
      }
      if jsonFormat {
        argv := argv + ["--json"];
      }
      if Truthy(identityFilePath) {
        argv := argv + RshArgument(identityFilePath.value);
      }
      if arguments.Some? {
        argv := argv + arguments.value;
      }
      assert argv == RegularArgv(cmd, arguments, jsonFormat, identityFilePath);
      command := argv;
      if !run {
        return Pass;
      }
      var output := Invoke(runner, Spawn(command, environment, None, false));
      if output.Failure? {
        return Fail(output.error);
      }
      rc := Some(output.value.rc);
      stdout := Some(Text(output.value.stdout));
      outcome := Pass;
      if jsonFormat {
        var decoded := loads(output.value.stdout);
        if decoded.None? {
          return Fail(JsonDecode(output.value.stdout));
        }
        stdout := Some(Decoded(decoded.value));
      }
    }
  }

  /** `BorgLoggedCommand`: stderr goes to a file (`file`), stdout is not captured. */
  class BorgLoggedCommand {
    var command: seq<string>
    var rc: Option<int>
    var file: Option<string>

    constructor ()
      ensures command == [] && rc == None && file == None
    {
      command, rc, file := [], None, None;
    }

    /** Builds `command`; with `run` false it stops there. When run in
        `workingDirectory`, a failing process raises before `file` and `rc`
        are assigned. */
    method Execute(cmd: string, arguments: seq<string>, identityFilePath: Option<string>,
                   workingDirectory: Option<string>, environment: Option<map<string, string>>,
                   run: bool, runner: Runner)
      returns (outcome: Outcome<Error>)
      modifies this
      ensures command == LoggedArgv(cmd, arguments, identityFilePath)
      ensures !run ==> outcome == Pass && rc == old(rc) && file == old(file)
      ensures run ==>
        match Invoke(runner, Spawn(command, environment, workingDirectory, true))
        case Failure(e) => outcome == Fail(e) && rc == old(rc) && file == old(file)
        case Success(p) => outcome == Pass && rc == Some(p.rc) && file == Some(p.stderrFile)
    {
      command := [BORG_BIN, "--progress", "--log-json", cmd];
      if Truthy(identityFilePath) {
        command := command + RshArgument(identityFilePath.value);
      }
      command := command + arguments;
      if !run {
        return Pass;
      }
      var output := Invoke(runner, Spawn(command, environment, workingDirectory, true));
      if output.Failure? {
        return Fail(output.error);
      }
      file := Some(output.value.stderrFile);
      rc := Some(output.value.rc);
      outcome := Pass;
    }
  }
}
