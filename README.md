# Borg support library: a Dafny model of its command construction

This project models the deterministic core of the `cyberfusion.BorgSupport`
Python library, which drives the Borg backup tool through its command line:

- **Borg CLI** (`borg_cli.dfy`, module `BorgCli`): the subcommand constants,
  the two-element `--rsh` option, and the classes `BorgRegularCommand` and
  `BorgLoggedCommand`. Their `execute` methods build `self.command` step by
  step, stop there when `run` is false, and otherwise hand the argv,
  environment and working directory to the process runner and assign `rc`,
  `stdout` (regular) or `file` (logged).
- **Repositories** (`repositories.dfy`, module `Repositories`): a
  `Repository` value (path, passphrase, optional identity file); its safe and
  dangerous environments; the argument lists of `create`, `delete`, `check`
  and `prune`, with `prune`'s retention flags built one `if` at a time.
- **Repository listing** (`repository_listing.dfy`, module
  `RepositoryListing`): `Repository.archives`, which reads
  `stdout["archives"][i]["name"]` out of `borg list --json` and makes one
  `Archive` per entry in a loop, and `Repository.exists`, which turns
  `CommandNonZeroError` into `False`. These sit in their own module because an
  `Archive` holds its `Repository` and Dafny modules cannot import each other
  in a cycle.
- **Archives** (`archives.dfy`, module `Archives`): `Archive.name`
  ("repo::archive") and the argument lists, working directory and options of
  `create` and `extract`, each returning an `Operation` bound to the stderr
  log file.
- **Version** (`borg_version.dfy`, module `BorgVersion`): the parse in
  `Borg.version` of `borg --version` output into `(major, minor, point)`.
- `text.dfy` (module `Text`) defines the Python string operations used:
  `str.split` on one character, `str.rstrip()`, `str(int)`, and `int()` on
  digit strings. `wrappers.dfy` defines `Option`, `Result` and `Outcome`.

The process runner (`CyberfusionCommand`) is foreign code. It is a parameter
`runner: Spawn -> ProcessResult`: the caller supplies the exit code, stdout,
stderr and stderr log file that a given argv, environment and working
directory produce. `json.loads` is a parameter `loads: string -> Option<Json>`,
where `None` means the text does not decode. The model assumes the runner
raises `CommandNonZeroError` exactly when the exit code is not zero, before
`rc`, `stdout` or `file` are assigned. The runner's source is not part of
this model, so this rule is an assumption. The library relies on it in two
places: `exists` and `check` catch `CommandNonZeroError`
(repositories.py:85 and :136). Its tests also expect that error when `init`
meets an existing repository (tests/feature_tests/test_repositories.py:239)
and when `Archive.create` meets an existing archive
(tests/unit_tests/test_archives.py:72).

Where the library's tests disagree with the source, the model follows the
source. `_get_rsh_argument` returns two list elements. A test expects a
single `--rsh='…'` element. `Repository` takes `passphrase`, not
`passphrase_file`. `prune` never calls `compact`.

## Model

| member | source | states |
|---|---|---|
| `BorgCli.RshArgument` | src/cyberfusion/BorgSupport/borg_cli.py:27-39 | exactly two elements: `--rsh`, then the fixed ssh command (batch mode, no strict host key checking, `-i`) whose remainder after that prefix is the identity file path |
| `BorgCli.RegularArgvLayout` | src/cyberfusion/BorgSupport/borg_cli.py:60-78 | a regular argv starts with the Borg binary; the subcommand is second exactly when given, even if empty; `--json` comes next when asked; then the rsh pair when the identity file path is truthy (None and "" omit it); the caller's arguments are the unchanged suffix; the length is 1 + [command] + [json] + 2·[identity] + number of arguments |
| `BorgCli.RegularArgvJsonFlag` | src/cyberfusion/BorgSupport/borg_cli.py:69-70 | `--json` is in the argv exactly when json output was asked for or the caller passed it as subcommand or argument; the rsh pair never adds it |
| `BorgCli.LoggedArgvLayout` | src/cyberfusion/BorgSupport/borg_cli.py:125-137 | a logged argv is `[borg, --progress, --log-json, command]`, then the rsh pair when the identity file path is truthy, then every argument in order |
| `BorgCli.Invoke` | src/cyberfusion/BorgSupport/borg_cli.py:85-93 | the runner's result is returned exactly when the exit code is zero; otherwise `CommandNonZeroError` carrying the argv and exit code |
| `BorgCli.InvokeJson` | src/cyberfusion/BorgSupport/borg_cli.py:85-98 | a failing `--json` command raises `CommandNonZeroError`; a succeeding one yields the decoded stdout, or a decode error when stdout is not JSON |
| `BorgCli.BorgRegularCommand.constructor` | src/cyberfusion/BorgSupport/borg_cli.py:45-47 | no attribute is set yet |
| `BorgCli.BorgRegularCommand.Execute` | src/cyberfusion/BorgSupport/borg_cli.py:49-98 | `command` becomes the regular argv; with `run` false nothing else changes; when run, a nonzero exit raises before `rc`/`stdout` change, otherwise `rc` is the exit code and `stdout` the text, replaced by its decoding for `--json` (a failed decode raises after `stdout` holds the text) |
| `BorgCli.BorgLoggedCommand.constructor` | src/cyberfusion/BorgSupport/borg_cli.py:110-112 | no attribute is set yet |
| `BorgCli.BorgLoggedCommand.Execute` | src/cyberfusion/BorgSupport/borg_cli.py:114-159 | `command` becomes the logged argv; with `run` false nothing else changes; when run in the given working directory, a nonzero exit raises before `file`/`rc` change, otherwise `file` is the stderr log file and `rc` the exit code |
| `Repositories.Repository.SafeCliOptions` | src/cyberfusion/BorgSupport/repositories.py:32-40 | the environment is exactly `{BORG_PASSPHRASE: passphrase}`; the identity file path is the repository's |
| `Repositories.Repository.DangerousCliOptions` | src/cyberfusion/BorgSupport/repositories.py:42-57 | the safe environment plus `BORG_DELETE_I_KNOW_WHAT_I_AM_DOING = "YES"`, a key the safe environment lacks; the same identity file path |
| `Repositories.Repository.Create` | src/cyberfusion/BorgSupport/repositories.py:59-65 | runs `init` with arguments `--encryption=<encryption>` and the path, with the safe options, and raises exactly when that command fails |
| `Repositories.Repository.Delete` | src/cyberfusion/BorgSupport/repositories.py:67-73 | runs `delete` with the path alone, with the dangerous options, and raises exactly when that command fails |
| `Repositories.Repository.Check` | src/cyberfusion/BorgSupport/repositories.py:125-139 | true exactly when `check <path>` with the safe options exits zero; `CommandNonZeroError` becomes false |
| `Repositories.Repository.Prune` | src/cyberfusion/BorgSupport/repositories.py:141-179 | the flags appended one `if` at a time, then the path, are the reference list (truthy retention values in unit order, then the path); runs `prune` with them and the safe options and raises exactly when it fails |
| `Repositories.KeepFlagsAppend` | src/cyberfusion/BorgSupport/repositories.py:154-169 | the retention flags of a concatenation are the concatenation of the flags: selecting never reorders |
| `Repositories.KeepFlagInjective` | src/cyberfusion/BorgSupport/repositories.py:156-169 | two `--keep-<unit>=<n>` flags are equal only for the same unit and value, for any units: the rendered number holds no `=`, so the last `=` ends the unit, and the number reads back to itself |
| `Repositories.KeepFlagPresent` | src/cyberfusion/BorgSupport/repositories.py:156-169 | for units with distinct initials, the flag for a unit and value is present exactly when that unit has that value and it is truthy |
| `Repositories.PruneFlagPresent` | src/cyberfusion/BorgSupport/repositories.py:156-169 | `--keep-<unit>=<n>` is among `prune`'s flags exactly when the `keep_<unit>` argument is `n` and `n` is neither None nor 0 |
| `Repositories.KeepFlagsOrdered` | src/cyberfusion/BorgSupport/repositories.py:156-169 | options listed in increasing unit order give flags in strictly increasing unit order |
| `Repositories.PruneArgumentsOrder` | src/cyberfusion/BorgSupport/repositories.py:154-171 | `prune`'s list ends with the path; every earlier element is a `--keep-` flag, in the order hourly, daily, weekly, monthly, yearly; a path not shaped like a flag occurs only last |
| `Repositories.PruneWithoutRetention` | src/cyberfusion/BorgSupport/repositories.py:154-171 | with every `keep_*` None or 0 the arguments are exactly `[path]` |
| `Repositories.PassphraseOnlyInEnvironment` | src/cyberfusion/BorgSupport/repositories.py:37-73 | no argument list depends on the passphrase, which reaches Borg only through `BORG_PASSPHRASE` in the safe and dangerous environments |
| `RepositoryListing.Lookup` | src/cyberfusion/BorgSupport/repositories.py:120-121 | `value[key]` succeeds exactly on an object holding the key, with that member; a missing key is `KeyError` |
| `RepositoryListing.Entries` | src/cyberfusion/BorgSupport/repositories.py:120 | iterating a JSON list gives its items; any failure is `TypeError` |
| `RepositoryListing.EntryName` | src/cyberfusion/BorgSupport/repositories.py:121 | an entry's name is found exactly when the entry is an object with a `name` member, and it is that member unchanged, whatever its JSON kind; a missing member is `KeyError`, a non-object entry `TypeError` |
| `RepositoryListing.ArchivesOfEntries` | src/cyberfusion/BorgSupport/repositories.py:120-123 | one archive per entry, in order, each with the listed name and the listing repository as its repository; otherwise the error of the first entry without a name |
| `RepositoryListing.CollectArchives` | src/cyberfusion/BorgSupport/repositories.py:120-123 | the loop's result is the reference list of archives |
| `RepositoryListing.ListArchives` | src/cyberfusion/BorgSupport/repositories.py:107-123 | `archives` runs `list --json <path>` with the safe options and its result is the archives of the decoded listing, or the first error raised |
| `RepositoryListing.ListingErrors` | src/cyberfusion/BorgSupport/repositories.py:83-88 | the listing raises `CommandNonZeroError` exactly when the list command exits nonzero |
| `RepositoryListing.NonStringNameListed` | src/cyberfusion/BorgSupport/repositories.py:107-123 | a listing `{"archives": [{"name": 5}]}` gives one archive holding the number 5, so the repository exists; that archive's name then raises `TypeError` |
| `RepositoryListing.Exists` | src/cyberfusion/BorgSupport/repositories.py:75-88 | false exactly when the list command exits nonzero; true exactly when the listing succeeds; any other error propagates unchanged |
| `Archives.Archive.Name` | src/cyberfusion/BorgSupport/archives.py:20-26 | the name is available exactly when the archive's own name is a string; concatenating anything else raises `TypeError` |
| `Archives.ArchiveNameRoundTrip` | src/cyberfusion/BorgSupport/archives.py:20-26 | the name is `<repository path>::<archive name>`; splitting it at the first `::` gives back both parts when the archive's name is a string and the path holds no `::` and does not end with `:` |
| `Archives.ArchiveCommands` | src/cyberfusion/BorgSupport/archives.py:28-51 | for an archive whose name is a string, `create` arguments are `--one-file-system`, the name, then the paths in order; `extract` arguments are the name, then the restore paths in order; only `extract` has a working directory, the destination; both use the safe environment, without the delete confirmation |
| `Archives.Archive.Create` | src/cyberfusion/BorgSupport/archives.py:28-37 | a name that is not a string raises `TypeError` before anything runs; otherwise runs the logged `create` command, and on success returns an operation bound to the stderr log file, otherwise raises the command's error |
| `Archives.Archive.Extract` | src/cyberfusion/BorgSupport/archives.py:39-51 | a name that is not a string raises `TypeError` before anything runs; otherwise runs the logged `extract` command in the destination, and on success returns an operation bound to the stderr log file, otherwise raises the command's error |
| `BorgVersion.ParseVersion` | src/cyberfusion/BorgSupport/__init__.py:27-39 | stdout without exactly one space fails with its field count; success implies exactly one space |
| `BorgVersion.FromComponents` | src/cyberfusion/BorgSupport/__init__.py:39 | succeeds exactly when all three parts are decimal numbers, with those values in order; otherwise names the first part that is not |
| `BorgVersion.ParseVersionShape` | src/cyberfusion/BorgSupport/__init__.py:27-39 | for a space-free word, three dot-free parts and trailing whitespace without spaces, the outcome is that of converting the three parts |
| `BorgVersion.VersionRoundTrip` | src/cyberfusion/BorgSupport/__init__.py:27-39 | `w + " " + a + "." + b + "." + c + "\n"` parses to `(a, b, c)` for every space-free word and naturals a, b, c |
| `BorgVersion.FirstFieldIgnored` | src/cyberfusion/BorgSupport/__init__.py:27 | the first field is never examined: any two space-free words give the same outcome |
| `BorgVersion.TrailingWhitespaceIgnored` | src/cyberfusion/BorgSupport/__init__.py:31 | trailing whitespace, including the newline, does not change the outcome as long as it adds no space |
| `BorgVersion.WrongComponentCount` | src/cyberfusion/BorgSupport/__init__.py:35 | a version field with other than two dots fails with its number of parts |
| `Text.Split` | src/cyberfusion/BorgSupport/__init__.py:27 | one more field than separators, no field contains the separator, and joining the fields gives the string back |
| `Text.SplitJoin` | src/cyberfusion/BorgSupport/__init__.py:35 | splitting undoes joining when no part contains the separator |
| `Text.RStrip` | src/cyberfusion/BorgSupport/__init__.py:31 | the result is a prefix, only whitespace was removed, and it does not end in whitespace |
| `Text.ParseNatToString` | src/cyberfusion/BorgSupport/__init__.py:39 | reading back the decimal rendering of a natural gives the natural |
| `Text.ParseIntToString` | src/cyberfusion/BorgSupport/repositories.py:157 | reading back the rendering `f"{n}"` of an integer gives the integer |

## Left out

- Process execution, process output capture and the stderr log file belong to the foreign `CyberfusionCommand`. They are the `runner` parameter, and its raising rule is an assumption stated above.
- `json.loads` is the `loads` parameter. JSON numbers are integers only; floating point is not modelled.
- `Repository.size` (repositories.py:90-105) reads foreign JSON output and uses `BorgCommand.SUBCOMMAND_INFO`, which `borg_cli.py` does not define.
- `Borg.version` running the command (`__init__.py:21-23`) is not modelled: it uses `BorgCommand.SUBCOMMAND_VERSION`, which `borg_cli.py` does not define. Only the parse of a given stdout is modelled.
- `BORG_BIN` is the constant `/usr/bin/borg`. It comes from the foreign `CyberfusionCommand.PATH_USR_BIN`.
- `Operation`, its progress-line classes, `ArchiveRestoration`, lock detection, `PassphraseFile` and the `utilities` module: their source is not part of this model. `Operation` is a handle holding the progress file path and nothing more.
- BorgVersion.FromComponents: accepts only non-empty ASCII digit strings, weaker than Python's `int()`, which also accepts a sign, surrounding whitespace, underscores and non-ASCII digits.
- Repositories.Repository.Create: `encryption` is a plain string; rendering an `Enum` member by its qualified name in the f-string is not modelled.
- RepositoryListing.Entries: iterating a non-empty JSON object or string fails at once with `TypeError`; Python first yields a key or character and the `["name"]` lookup on it raises that same `TypeError`.
- Exception messages and the `stdout`/`stderr` fields of `CommandNonZeroError` for logged commands are whatever the runner reports. The exception classes in `exceptions/__init__.py` are not raised by the modelled code.
- Keyword-argument defaults are not modelled: every call passes all its arguments.
