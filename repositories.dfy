/** `Repository`: a Borg repository reached by path, with the passphrase
    and optional ssh identity file every command needs; the argument lists
    and environments of its commands, and `create`, `delete`, `check` and
    `prune`. (`archives` and `exists` are in module RepositoryListing.) */
module Repositories {
  import opened Wrappers
  import opened Text
  import opened BorgCli

  const PASSPHRASE_VARIABLE: string := "BORG_PASSPHRASE"
  const DELETE_CONFIRMATION_VARIABLE: string := "BORG_DELETE_I_KNOW_WHAT_I_AM_DOING"

  /** The keyword arguments a repository splats into `execute`. */
  datatype CliOptions = CliOptions(environment: map<string, string>, identityFilePath: Option<string>)

  /** The `keep_*` arguments of `prune`, in the order they are examined. */
  datatype KeepPolicy = KeepPolicy(
    hourly: Option<int>, daily: Option<int>, weekly: Option<int>, monthly: Option<int>, yearly: Option<int>)

  /** Python truthiness of an optional integer: `None` and `0` are both false. */
  predicate IntTruthy(v: Option<int>) { v.Some? && v.value != 0 }

  /** `f"--keep-{unit}={n}"`. */
  function KeepFlag(unit: string, n: int): string
  {
    "--keep-" + unit + "=" + IntToString(n)
  }

  /** The five retention units with their values, hourly first and yearly last. */
  function KeepOptions(keep: KeepPolicy): seq<(string, Option<int>)>
  {
    [("hourly", keep.hourly), ("daily", keep.daily), ("weekly", keep.weekly),
     ("monthly", keep.monthly), ("yearly", keep.yearly)]
  }

  /** Reference definition of the retention flags: keep the truthy options
      in their order and render each as a flag. */
  function KeepFlags(options: seq<(string, Option<int>)>): seq<string>
  {
    if |options| == 0 then []
    else
      (if IntTruthy(options[0].1) then [KeepFlag(options[0].0, options[0].1.value)] else [])
      + KeepFlags(options[1..])
  }

  /** A spawn of a regular command with a repository's options splatted in. */
  function RegularSpawn(subcommand: string, arguments: seq<string>, jsonFormat: bool, options: CliOptions): Spawn
  {
    Spawn(RegularArgv(Some(subcommand), Some(arguments), jsonFormat, options.identityFilePath),
          Some(options.environment), None, false)
  }

  /** A failing command raises; otherwise the statement completes. */
  function Completion(r: Result<ProcessResult, Error>): Outcome<Error>
  {
    if r.Success? then Pass else Fail(r.error)
  }

  /** Used where `execute` is not asked for `--json`; it is never called then. */
  function NoJson(text: string): Option<Json> { None }

  datatype Repository = Repository(path: string, passphrase: string, identityFilePath: Option<string>)
  {
    /** `_safe_cli_options`: the passphrase, in the environment only, and the identity file. */
    function SafeCliOptions(): (o: CliOptions)
      ensures o.environment.Keys == {PASSPHRASE_VARIABLE}
      ensures o.environment[PASSPHRASE_VARIABLE] == passphrase
      ensures o.identityFilePath == identityFilePath
    {
      CliOptions(map[PASSPHRASE_VARIABLE := passphrase], identityFilePath)
    }

    /** `_dangerous_cli_options`: the safe options plus the automatic "YES"
        to Borg's delete confirmation, which the safe options lack. */
    function DangerousCliOptions(): (o: CliOptions)
      ensures DELETE_CONFIRMATION_VARIABLE !in SafeCliOptions().environment
      ensures o.environment == SafeCliOptions().environment[DELETE_CONFIRMATION_VARIABLE := "YES"]
      ensures o.identityFilePath == SafeCliOptions().identityFilePath
    {
      CliOptions(map[PASSPHRASE_VARIABLE := passphrase, DELETE_CONFIRMATION_VARIABLE := "YES"],
                 identityFilePath)
    }

    function CreateArguments(encryption: string): seq<string>
    {
      ["--encryption=" + encryption, path]
    }

    /** The arguments of `delete`, `check` and the archive listing: the path alone. */
    function PathArguments(): seq<string>
    {
      [path]
    }

    /** The arguments of `prune`: the retention flags, then the path. */
    function PruneArguments(keep: KeepPolicy): seq<string>
    {
      KeepFlags(KeepOptions(keep)) + [path]
    }

    /** `create`: `borg init --encryption=<encryption> <path>` with the safe options. */
    method Create(encryption: string, runner: Runner) returns (outcome: Outcome<Error>)
      ensures outcome == Completion(Invoke(runner,
        RegularSpawn(SUBCOMMAND_INIT, CreateArguments(encryption), false, SafeCliOptions())))
    {
      var command := new BorgRegularCommand();
      var options := SafeCliOptions();
      outcome := command.Execute(Some(SUBCOMMAND_INIT), Some(CreateArguments(encryption)), false,
                                 options.identityFilePath, Some(options.environment), true, runner, NoJson);
    }

    /** `delete`: `borg delete <path>`, the only command run with the dangerous options. */
    method Delete(runner: Runner) returns (outcome: Outcome<Error>)
      ensures outcome == Completion(Invoke(runner,
        RegularSpawn(SUBCOMMAND_DELETE, PathArguments(), false, DangerousCliOptions())))
    {
      var command := new BorgRegularCommand();
      var options := DangerousCliOptions();
      outcome := command.Execute(Some(SUBCOMMAND_DELETE), Some(PathArguments()), false,
                                 options.identityFilePath, Some(options.environment), true, runner, NoJson);
    }

    /** `check`: false exactly when `borg check <path>` raises `CommandNonZeroError`. */
    method Check(runner: Runner) returns (ok: bool)
      ensures ok <==> runner(RegularSpawn(SUBCOMMAND_CHECK, PathArguments(), false, SafeCliOptions())).rc == 0
    {
      var command := new BorgRegularCommand();
      var options := SafeCliOptions();
      var outcome := command.Execute(Some(SUBCOMMAND_CHECK), Some(PathArguments()), false,
                                     options.identityFilePath, Some(options.environment), true, runner, NoJson);
      ok := outcome.Pass?;
    }

    /** `prune`: the flags are appended one `if` at a time, then the path. */
    method Prune(keep: KeepPolicy, runner: Runner) returns (outcome: Outcome<Error>)
      ensures outcome == Completion(Invoke(runner,
        RegularSpawn(SUBCOMMAND_PRUNE, PruneArguments(keep), false, SafeCliOptions())))
    {
      ghost var options := KeepOptions(keep);
      var arguments: seq<string> := [];
      if IntTruthy(keep.hourly) {
        arguments := arguments + [KeepFlag("hourly", keep.hourly.value)];
      }
      KeepFlagsStep(options, 0);
      assert arguments == KeepFlags(options[..1]);
      if IntTruthy(keep.daily) {
        arguments := arguments + [KeepFlag("daily", keep.daily.value)];
      }
      KeepFlagsStep(options, 1);
      assert arguments == KeepFlags(options[..2]);
      if IntTruthy(keep.weekly) {
        arguments := arguments + [KeepFlag("weekly", keep.weekly.value)];
      }
      KeepFlagsStep(options, 2);
      assert arguments == KeepFlags(options[..3]);
      if IntTruthy(keep.monthly) {
        arguments := arguments + [KeepFlag("monthly", keep.monthly.value)];
      }
      KeepFlagsStep(options, 3);
      assert arguments == KeepFlags(options[..4]);
      if IntTruthy(keep.yearly) {
        arguments := arguments + [KeepFlag("yearly", keep.yearly.value)];
      }
      KeepFlagsStep(options, 4);
      assert options[..5] == options;
      arguments := arguments + [path];
      assert arguments == PruneArguments(keep);
      var command := new BorgRegularCommand();
      var cli := SafeCliOptions();
      outcome := command.Execute(Some(SUBCOMMAND_PRUNE), Some(arguments), false,
                                 cli.identityFilePath, Some(cli.environment), true, runner, NoJson);
    }
  }

  /** The flags of a concatenation are the concatenation of the flags:
      filtering never reorders. */
  lemma {:induction false} KeepFlagsAppend(a: seq<(string, Option<int>)>, b: seq<(string, Option<int>)>)
    ensures KeepFlags(a + b) == KeepFlags(a) + KeepFlags(b)
  {
    if |a| == 0 {
      assert a + b == b;
    } else {
      assert (a + b)[0] == a[0];
      assert (a + b)[1..] == a[1..] + b;
      KeepFlagsAppend(a[1..], b);
    }
  }

  /** Examining one more option appends its flag, if it is truthy. */
  lemma KeepFlagsStep(options: seq<(string, Option<int>)>, k: nat)
    requires k < |options|
    ensures KeepFlags(options[..k + 1]) == KeepFlags(options[..k])
      + (if IntTruthy(options[k].1) then [KeepFlag(options[k].0, options[k].1.value)] else [])
  {
    assert options[..k + 1] == options[..k] + [options[k]];
    KeepFlagsAppend(options[..k], [options[k]]);
    assert [options[k]][1..] == [];
  }

  /** Where a flag names its unit: the first letter of the unit follows "--keep-". */
  lemma KeepFlagLetter(unit: string, n: int)
    requires |unit| > 0
    ensures var f := KeepFlag(unit, n); |f| > 7 && f[..7] == "--keep-" && f[7] == unit[0]
  {
  }

  /** The rendered number holds no '=', so the last '=' of a flag ends its unit. */
  lemma KeepFlagInjective(u: string, n: int, v: string, m: int)
    ensures KeepFlag(u, n) == KeepFlag(v, m) ==> u == v && n == m
  {
    if KeepFlag(u, n) == KeepFlag(v, m) {
      NatToStringHasNo(if n < 0 then -n else n, '=');
      NatToStringHasNo(if m < 0 then -m else m, '=');
      assert "--keep-" + u + "=" + IntToString(n) == ("--keep-" + u) + ['='] + IntToString(n);
      assert "--keep-" + v + "=" + IntToString(m) == ("--keep-" + v) + ['='] + IntToString(m);
      LastSeparator("--keep-" + u, IntToString(n), "--keep-" + v, IntToString(m), '=');
      assert u == ("--keep-" + u)[7..] && v == ("--keep-" + v)[7..];
      ParseIntToString(n);
      ParseIntToString(m);
    }
  }

  /** Two strings, each a head, a separator and a tail free of separators,
      are equal only with equal heads and equal tails. */
  lemma LastSeparator(x: string, s: string, y: string, t: string, sep: char)
    requires sep !in s && sep !in t
    requires x + [sep] + s == y + [sep] + t
    ensures x == y && s == t
  {
    SeparatorInLongerTail(x, s, y, t, sep);
    SeparatorInLongerTail(y, t, x, s, sep);
    var f := x + [sep] + s;
    assert x == f[..|x|] && y == f[..|y|];
    assert s == f[|x| + 1..] && t == f[|y| + 1..];
  }

  /** A longer first head puts its separator inside the second tail. */
  lemma SeparatorInLongerTail(x: string, s: string, y: string, t: string, sep: char)
    requires x + [sep] + s == y + [sep] + t
    ensures |x| > |y| ==> sep in t
  {
    var f := x + [sep] + s;
    var g := y + [sep] + t;
    if |x| > |y| {
      assert f[|x|] == sep;
      assert g[|x|] == t[|x| - |y| - 1];
    }
  }

  /** Units that are all non-empty and start with pairwise distinct letters. */
  predicate DistinctUnits(options: seq<(string, Option<int>)>)
  {
    && (forall j :: 0 <= j < |options| ==> |options[j].0| > 0)
    && (forall j, k :: 0 <= j < k < |options| ==> options[j].0[0] != options[k].0[0])
  }

  /** Every flag starts with "--keep-" and carries the first letter of one of the units. */
  lemma {:induction false} KeepFlagsLetters(options: seq<(string, Option<int>)>, c: char)
    requires forall j :: 0 <= j < |options| ==> |options[j].0| > 0
    ensures forall f :: f in KeepFlags(options) ==> |f| > 7 && f[..7] == "--keep-"
    ensures (forall j :: 0 <= j < |options| ==> options[j].0[0] != c) ==>
              forall f :: f in KeepFlags(options) ==> f[7] != c
  {
    if |options| > 0 {
      KeepFlagsLetters(options[1..], c);
      KeepFlagLetter(options[0].0, if options[0].1.Some? then options[0].1.value else 0);
      if forall j :: 0 <= j < |options| ==> options[j].0[0] != c {
        assert forall j :: 0 <= j < |options[1..]| ==> options[1..][j].0[0] != c by {
          forall j | 0 <= j < |options[1..]| ensures options[1..][j].0[0] != c {
            assert options[1..][j] == options[j + 1];
          }
        }
      }
    }
  }

  /** The flag for a unit with value `n` is present exactly when that unit's
      value is `n` and `n` is truthy. */
  lemma {:induction false} KeepFlagPresent(options: seq<(string, Option<int>)>, i: nat, n: int)
    requires DistinctUnits(options) && i < |options|
    ensures KeepFlag(options[i].0, n) in KeepFlags(options) <==> options[i].1 == Some(n) && n != 0
  {
    var rest := options[1..];
    assert DistinctUnits(rest) by {
      forall j | 0 <= j < |rest| ensures rest[j] == options[j + 1] { }
    }
    var f := KeepFlag(options[i].0, n);
    KeepFlagLetter(options[i].0, n);
    var head := if IntTruthy(options[0].1) then [KeepFlag(options[0].0, options[0].1.value)] else [];
    assert KeepFlags(options) == head + KeepFlags(rest);
    if i == 0 {
      assert forall j :: 0 <= j < |rest| ==> rest[j].0[0] != options[0].0[0] by {
        forall j | 0 <= j < |rest| ensures rest[j].0[0] != options[0].0[0] {
          assert rest[j] == options[j + 1];
        }
      }
      KeepFlagsLetters(rest, options[0].0[0]);
      assert f !in KeepFlags(rest);
      if IntTruthy(options[0].1) {
        KeepFlagInjective(options[0].0, n, options[0].0, options[0].1.value);
      }
    } else {
      assert rest[i - 1] == options[i];
      KeepFlagPresent(rest, i - 1, n);
      if IntTruthy(options[0].1) {
        KeepFlagInjective(options[i].0, n, options[0].0, options[0].1.value);
      }
    }
  }

  /** Rank of a retention unit by its first letter: hourly, daily, weekly, monthly, yearly. */
  function UnitRank(c: char): nat
  {
    if c == 'h' then 0 else if c == 'd' then 1 else if c == 'w' then 2
    else if c == 'm' then 3 else if c == 'y' then 4 else 5
  }

  /** Rank of the unit a flag names. */
  function FlagRank(f: string): nat
  {
    if |f| > 7 then UnitRank(f[7]) else 5
  }

  /** Options listed in increasing unit rank give flags in increasing unit rank. */
  lemma {:induction false} KeepFlagsOrdered(options: seq<(string, Option<int>)>)
    requires forall j :: 0 <= j < |options| ==> |options[j].0| > 0
    requires forall j, k :: 0 <= j < k < |options| ==> UnitRank(options[j].0[0]) < UnitRank(options[k].0[0])
    ensures forall p, q :: 0 <= p < q < |KeepFlags(options)| ==>
      FlagRank(KeepFlags(options)[p]) < FlagRank(KeepFlags(options)[q])
    ensures |options| > 0 ==>
      forall p :: 0 <= p < |KeepFlags(options)| ==> FlagRank(KeepFlags(options)[p]) >= UnitRank(options[0].0[0])
  {
    if |options| > 0 {
      var rest := options[1..];
      forall j | 0 <= j < |rest| ensures rest[j] == options[j + 1] { }
      KeepFlagsOrdered(rest);
      KeepFlagLetter(options[0].0, if options[0].1.Some? then options[0].1.value else 0);
      var head := if IntTruthy(options[0].1) then [KeepFlag(options[0].0, options[0].1.value)] else [];
      var tail := KeepFlags(rest);
      var flags := KeepFlags(options);
      assert flags == head + tail;
      var r0 := UnitRank(options[0].0[0]);
      assert forall p :: 0 <= p < |head| ==> FlagRank(head[p]) == r0;
      assert forall p :: 0 <= p < |tail| ==> FlagRank(tail[p]) > r0 by {
        if |rest| > 0 {
          assert UnitRank(rest[0].0[0]) > r0;
        }
      }
      forall p, q | 0 <= p < q < |flags| ensures FlagRank(flags[p]) < FlagRank(flags[q]) {
        if q < |head| {
          assert false;
        } else if p < |head| {
          assert flags[p] == head[p];
          assert flags[q] == tail[q - |head|];
        } else {
          assert flags[p] == tail[p - |head|] && flags[q] == tail[q - |head|];
          assert 0 <= p - |head| < q - |head| < |tail|;
          assert FlagRank(tail[p - |head|]) < FlagRank(tail[q - |head|]);
        }
      }
      forall p | 0 <= p < |flags| ensures FlagRank(flags[p]) >= r0 {
        if p >= |head| {
          assert flags[p] == tail[p - |head|];
        }
      }
    }
  }

  /** `prune`: a `--keep-<unit>=<n>` flag for one of the five units is among
      the flags exactly when that unit was given the truthy value `n`. */
  lemma PruneFlagPresent(keep: KeepPolicy, i: nat, n: int)
    requires i < 5
    ensures var unit := KeepOptions(keep)[i];
      KeepFlag(unit.0, n) in KeepFlags(KeepOptions(keep)) <==> unit.1 == Some(n) && n != 0
  {
    KeepFlagPresent(KeepOptions(keep), i, n);
  }

  /** The five units are listed in increasing rank. */
  lemma KeepOptionsRanked(keep: KeepPolicy)
    ensures var o := KeepOptions(keep);
      && (forall j :: 0 <= j < |o| ==> |o[j].0| > 0)
      && (forall j, k :: 0 <= j < k < |o| ==> UnitRank(o[j].0[0]) < UnitRank(o[k].0[0]))
  {
    var o := KeepOptions(keep);
    assert o[0].0[0] == 'h' && o[1].0[0] == 'd' && o[2].0[0] == 'w' && o[3].0[0] == 'm' && o[4].0[0] == 'y';
  }

  /** `prune`: the flags come hourly, daily, weekly, monthly, yearly, and the
      path closes the list; the path occurs nowhere else unless it itself
      looks like a retention flag. */
  lemma PruneArgumentsOrder(r: Repository, keep: KeepPolicy)
    ensures var args := r.PruneArguments(keep);
      && |args| >= 1 && args[|args| - 1] == r.path
      && (forall p :: 0 <= p < |args| - 1 ==> |args[p]| > 7 && args[p][..7] == "--keep-")
      && (forall p, q :: 0 <= p < q < |args| - 1 ==> FlagRank(args[p]) < FlagRank(args[q]))
      && (!(|r.path| > 7 && r.path[..7] == "--keep-") ==> r.path !in args[..|args| - 1])
  {
    var options := KeepOptions(keep);
    var flags := KeepFlags(options);
    KeepOptionsRanked(keep);
    KeepFlagsLetters(options, 'h');
    KeepFlagsOrdered(options);
    var args := r.PruneArguments(keep);
    assert args == flags + [r.path];
    assert args[..|args| - 1] == flags;
    forall p, q | 0 <= p < q < |args| - 1 ensures FlagRank(args[p]) < FlagRank(args[q]) {
      assert args[p] == flags[p] && args[q] == flags[q];
    }
  }

  /** `prune` with no truthy retention value: the path is the only argument. */
  lemma PruneWithoutRetention(r: Repository, keep: KeepPolicy)
    requires forall i :: 0 <= i < 5 ==> !IntTruthy(KeepOptions(keep)[i].1)
    ensures r.PruneArguments(keep) == [r.path]
  {
    KeepFlagsNoneTruthy(KeepOptions(keep));
  }

  lemma {:induction false} KeepFlagsNoneTruthy(options: seq<(string, Option<int>)>)
    requires forall i :: 0 <= i < |options| ==> !IntTruthy(options[i].1)
    ensures KeepFlags(options) == []
  {
    if |options| > 0 {
      var rest := options[1..];
      forall j | 0 <= j < |rest| ensures rest[j] == options[j + 1] { }
      KeepFlagsNoneTruthy(rest);
    }
  }

  /** The passphrase is never in an argument list: the argv of every
      repository command is the same whatever the passphrase, and the
      passphrase reaches Borg through the environment. */
  lemma PassphraseOnlyInEnvironment(r: Repository, other: string, encryption: string, keep: KeepPolicy)
    ensures var r' := r.(passphrase := other);
      && r'.CreateArguments(encryption) == r.CreateArguments(encryption)
      && r'.PathArguments() == r.PathArguments()
      && r'.PruneArguments(keep) == r.PruneArguments(keep)
      && r'.SafeCliOptions().identityFilePath == r.SafeCliOptions().identityFilePath
      && r'.SafeCliOptions().environment[PASSPHRASE_VARIABLE] == other
      && r'.DangerousCliOptions().environment[PASSPHRASE_VARIABLE] == other
  {
  }
}
