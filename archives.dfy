/** `Archive`: one archive of a repository, named to Borg as
    "<repository path>::<archive name>", and the two logged commands
    that write and read it. */
module Archives {
  import opened Wrappers
  import opened BorgCli
  import opened Repositories

  /** Handle on the progress log of a logged command; reading and
      classifying its lines is not part of this model. */
  datatype Operation = Operation(progressFile: string)

  /** Whether `s` has "::" starting at `i`. */
  predicate SeparatorAt(s: string, i: int)
  {
    0 <= i && i + 1 < |s| && s[i] == ':' && s[i + 1] == ':'
  }

  /** A repository path Borg can tell apart from the archive name: it holds
      no "::" and does not end with ':'. */
  predicate PlainRepositoryPath(path: string)
  {
    (forall i :: 0 <= i < |path| ==> !SeparatorAt(path, i)) && (|path| == 0 || path[|path| - 1] != ':')
  }

  /** The first "::" at or after `from`. */
  function FindSeparator(s: string, from: nat): (r: Option<nat>)
    decreases |s| - from
    ensures r.Some? ==> from <= r.value && SeparatorAt(s, r.value)
    ensures r.Some? ==> forall i :: from <= i < r.value ==> !SeparatorAt(s, i)
  {
    if from + 1 >= |s| then None
    else if SeparatorAt(s, from) then Some(from)
    else FindSeparator(s, from + 1)
  }

  /** How "repo::archive" is read back: split at the first "::". */
  function SplitArchiveName(s: string): Option<(string, string)>
  {
    match FindSeparator(s, 0)
    case Some(i) => Some((s[..i], s[i + 2..]))
    case None => None
  }

  lemma {:induction false} FindFirstSeparator(s: string, from: nat, k: nat)
    requires from <= k && SeparatorAt(s, k)
    requires forall i :: from <= i < k ==> !SeparatorAt(s, i)
    ensures FindSeparator(s, from) == Some(k)
    decreases k - from
  {
    if from < k {
      FindFirstSeparator(s, from + 1, k);
    }
  }

  /** `localName` is whatever the caller passed as `name`: the listing passes
      the decoded JSON value of an entry's `name` unchanged. */
  datatype Archive = Archive(repository: Repository, localName: Json)
  {
    /** `name`: the form Borg needs to find both the repository and the
        archive. Concatenating anything but a string raises `TypeError`. */
    function Name(): (r: Result<string, Error>)
      ensures r.Success? <==> localName.JString?
      ensures r.Failure? ==> r.error == TypeError
    {
      match localName
      case JString(s) => Success(repository.path + "::" + s)
      case _ => Failure(TypeError)
    }

    /** `borg create --one-file-system <name> <paths...>`: the paths follow the name unchanged. */
    function CreateArguments(paths: seq<string>): seq<string>
      requires Name().Success?
    {
      ["--one-file-system", Name().value] + paths
    }

    /** `borg extract <name> <restore paths...>`. */
    function ExtractArguments(restorePaths: seq<string>): seq<string>
      requires Name().Success?
    {
      [Name().value] + restorePaths
    }

    /** What `create` hands to the runner: the logged create command with the
        repository's safe options and no working directory. */
    function CreateSpawn(paths: seq<string>): Spawn
      requires Name().Success?
    {
      var options := repository.SafeCliOptions();
      Spawn(LoggedArgv(SUBCOMMAND_CREATE, CreateArguments(paths), options.identityFilePath),
            Some(options.environment), None, true)
    }

    /** What `extract` hands to the runner: the logged extract command with the
        repository's safe options, run in the destination, where Borg extracts. */
    function ExtractSpawn(destinationPath: string, restorePaths: seq<string>): Spawn
      requires Name().Success?
    {
      var options := repository.SafeCliOptions();
      Spawn(LoggedArgv(SUBCOMMAND_EXTRACT, ExtractArguments(restorePaths), options.identityFilePath),
            Some(options.environment), Some(destinationPath), true)
    }

    /** `create`: a name that is not a string raises before anything runs; on
        success the operation is bound to the command's stderr log file. */
    method Create(paths: seq<string>, runner: Runner) returns (res: Result<Operation, Error>)
      ensures Name().Failure? ==> res == Failure(Name().error)
      ensures Name().Success? ==>
        match Invoke(runner, CreateSpawn(paths))
        case Failure(e) => res == Failure(e)
        case Success(p) => res == Success(Operation(p.stderrFile))
    {
      var name := Name();
      if name.Failure? {
        return Failure(name.error);
      }
      var command := new BorgLoggedCommand();
      var options := repository.SafeCliOptions();
      var outcome := command.Execute(SUBCOMMAND_CREATE, CreateArguments(paths),
                                     options.identityFilePath, None, Some(options.environment), true, runner);
      if outcome.Fail? {
        return Failure(outcome.error);
      }
      res := Success(Operation(command.file.value));
    }

    /** `extract`: as `create`, but run in `destinationPath`. */
    method Extract(destinationPath: string, restorePaths: seq<string>, runner: Runner)
      returns (res: Result<Operation, Error>)
      ensures Name().Failure? ==> res == Failure(Name().error)
      ensures Name().Success? ==>
        match Invoke(runner, ExtractSpawn(destinationPath, restorePaths))
        case Failure(e) => res == Failure(e)
        case Success(p) => res == Success(Operation(p.stderrFile))
    {
      var name := Name();
      if name.Failure? {
        return Failure(name.error);
      }
      var command := new BorgLoggedCommand();
      var options := repository.SafeCliOptions();
      var outcome := command.Execute(SUBCOMMAND_EXTRACT, ExtractArguments(restorePaths),
                                     options.identityFilePath, Some(destinationPath),
                                     Some(options.environment), true, runner);
      if outcome.Fail? {
        return Failure(outcome.error);
      }
      res := Success(Operation(command.file.value));
    }
  }

  /** Round trip: a repository path without "::" and not ending in ':' and
      any archive name are recovered from the combined name. */
  lemma ArchiveNameRoundTrip(a: Archive)
    requires PlainRepositoryPath(a.repository.path)
    ensures a.localName.JString? ==>
      a.Name().Success? && SplitArchiveName(a.Name().value) == Some((a.repository.path, a.localName.s))
  {
    if !a.localName.JString? {
      return;
    }
    var s, p := a.Name().value, a.repository.path;
    assert SeparatorAt(s, |p|);
    forall i | 0 <= i < |p| ensures !SeparatorAt(s, i) {
      if i + 1 < |p| {
        assert s[i] == p[i] && s[i + 1] == p[i + 1];
        assert !SeparatorAt(p, i);
      } else {
        assert s[i] == p[i];
      }
    }
    FindFirstSeparator(s, 0, |p|);
    assert s[..|p|] == p;
    assert s[|p| + 2..] == a.localName.s;
  }

  /** Both archive commands: the paths are passed through unchanged and in
      order after the fixed arguments, `extract` alone has a working
      directory, and both run with the safe options, so without the automatic
      delete confirmation. */
  lemma ArchiveCommands(a: Archive, paths: seq<string>, destinationPath: string, restorePaths: seq<string>)
    requires a.Name().Success?
    ensures var c := a.CreateArguments(paths);
      |c| == 2 + |paths| && c[0] == "--one-file-system" && c[1] == a.Name().value && c[2..] == paths
    ensures var x := a.ExtractArguments(restorePaths);
      |x| == 1 + |restorePaths| && x[0] == a.Name().value && x[1..] == restorePaths
    ensures a.CreateSpawn(paths).workingDirectory == None
    ensures a.ExtractSpawn(destinationPath, restorePaths).workingDirectory == Some(destinationPath)
    ensures a.CreateSpawn(paths).environment == Some(a.repository.SafeCliOptions().environment)
    ensures a.ExtractSpawn(destinationPath, restorePaths).environment == Some(a.repository.SafeCliOptions().environment)
    ensures DELETE_CONFIRMATION_VARIABLE !in a.repository.SafeCliOptions().environment
  {
  }
}
