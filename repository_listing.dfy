/** `Repository.archives` and `Repository.exists`: list the repository with
    `borg list --json <path>` and turn every entry of the listing into an
    `Archive`. They live apart from module Repositories because an `Archive`
    holds its `Repository`. */
module RepositoryListing {
  import opened Wrappers
  import opened BorgCli
  import opened Repositories
  import opened Archives

  /** `value[key]` on decoded JSON: a missing key raises `KeyError`, indexing
      anything but an object by a string raises `TypeError`. */
  function Lookup(value: Json, key: string): (r: Result<Json, Error>)
    ensures r.Success? <==> value.JObject? && key in value.members
    ensures r.Success? ==> r.value == value.members[key]
    ensures value.JObject? && key !in value.members ==> r == Failure(KeyError(key))
  {
    match value
    case JObject(m) => if key in m then Success(m[key]) else Failure(KeyError(key))
    case _ => Failure(TypeError)
  }

  /** `for archive in value`: a list gives its items. An empty object or an
      empty string gives nothing; a non-empty one gives strings, and the first
      of them fails the `["name"]` lookup with `TypeError`. Numbers, booleans
      and null are not iterable. */
  function Entries(value: Json): (r: Result<seq<Json>, Error>)
    ensures value.JArray? ==> r == Success(value.items)
    ensures r.Failure? ==> r.error == TypeError
  {
    match value
    case JArray(items) => Success(items)
    case JObject(m) => if |m| == 0 then Success([]) else Failure(TypeError)
    case JString(s) => if |s| == 0 then Success([]) else Failure(TypeError)
    case _ => Failure(TypeError)
  }

  /** `archive["name"]` for one listed entry: the value is kept as it is,
      whatever kind of JSON it is. */
  function EntryName(entry: Json): (r: Result<Json, Error>)
    ensures r.Success? <==> entry.JObject? && "name" in entry.members
    ensures r.Success? ==> r.value == entry.members["name"]
    ensures r.Failure? ==> r.error == (if entry.JObject? then KeyError("name") else TypeError)
  {
    Lookup(entry, "name")
  }

  /** Reference definition of the loop: one `Archive` per entry, in order,
      stopping at the first entry without a name. */
  function ArchivesOf(repository: Repository, entries: seq<Json>): Result<seq<Archive>, Error>
  {
    if |entries| == 0 then Success([])
    else
      match ArchivesOf(repository, entries[..|entries| - 1])
      case Failure(e) => Failure(e)
      case Success(archives) =>
        match EntryName(entries[|entries| - 1])
        case Failure(e) => Failure(e)
        case Success(name) => Success(archives + [Archive(repository, name)])
  }

  /** From the decoded stdout of `borg list --json` to the archives. */
  function ArchivesOfListing(repository: Repository, listing: Json): Result<seq<Archive>, Error>
  {
    match Lookup(listing, "archives")
    case Failure(e) => Failure(e)
    case Success(value) =>
      match Entries(value)
      case Failure(e) => Failure(e)
      case Success(entries) => ArchivesOf(repository, entries)
  }

  /** What `archives` hands to the runner. */
  function ListSpawn(repository: Repository): Spawn
  {
    RegularSpawn(SUBCOMMAND_LIST, repository.PathArguments(), true, repository.SafeCliOptions())
  }

  /** The outcome of `archives`: the command must succeed, its stdout decode,
      and the decoded listing give the archives. */
  function ListedArchives(repository: Repository, runner: Runner, loads: JsonLoads): Result<seq<Archive>, Error>
  {
    match InvokeJson(runner, loads, ListSpawn(repository))
    case Failure(e) => Failure(e)
    case Success(listing) => ArchivesOfListing(repository, listing)
  }

  /** The archives follow the entries one for one and in order, each with the
      listed name and the listing repository; otherwise the error is that of
      the first entry without a name. */
  lemma {:induction false} ArchivesOfEntries(repository: Repository, entries: seq<Json>)
    ensures match ArchivesOf(repository, entries)
      case Success(archives) =>
        && |archives| == |entries|
        && forall k :: 0 <= k < |entries| ==>
             EntryName(entries[k]).Success? && archives[k] == Archive(repository, EntryName(entries[k]).value)
      case Failure(e) =>
        exists k :: 0 <= k < |entries| && EntryName(entries[k]) == Failure(e)
                    && forall j :: 0 <= j < k ==> EntryName(entries[j]).Success?
  {
    if |entries| > 0 {
      var n := |entries| - 1;
      var init := entries[..n];
      ArchivesOfEntries(repository, init);
      assert forall j :: 0 <= j < n ==> init[j] == entries[j];
      match ArchivesOf(repository, init)
      case Failure(e) => {
        var k :| 0 <= k < |init| && EntryName(init[k]) == Failure(e)
                 && forall j :: 0 <= j < k ==> EntryName(init[j]).Success?;
        assert EntryName(entries[k]) == Failure(e);
      }
      case Success(archives) => {
        if EntryName(entries[n]).Failure? {
          assert forall j :: 0 <= j < n ==> EntryName(entries[j]).Success?;
        }
      }
    }
  }

  /** `archives`: run the listing, then append an `Archive` for each entry. */
  method ListArchives(repository: Repository, runner: Runner, loads: JsonLoads)
    returns (res: Result<seq<Archive>, Error>)
    ensures res == ListedArchives(repository, runner, loads)
  {
    var command := new BorgRegularCommand();
    var options := repository.SafeCliOptions();
    var outcome := command.Execute(Some(SUBCOMMAND_LIST), Some(repository.PathArguments()), true,
                                   options.identityFilePath, Some(options.environment), true, runner, loads);
    assert command.command == ListSpawn(repository).argv;
    if outcome.Fail? {
      return Failure(outcome.error);
    }
    var listing := command.stdout.value.json;
    assert InvokeJson(runner, loads, ListSpawn(repository)) == Success(listing);
    var value := Lookup(listing, "archives");
    if value.Failure? {
      return Failure(value.error);
    }
    var entries := Entries(value.value);
    if entries.Failure? {
      return Failure(entries.error);
    }
    res := CollectArchives(repository, entries.value);
  }

  /** The `for` loop of `archives`: one `Archive` appended per entry. */
  method CollectArchives(repository: Repository, items: seq<Json>) returns (res: Result<seq<Archive>, Error>)
    ensures res == ArchivesOf(repository, items)
  {
    var results: seq<Archive> := [];
    var i := 0;
    while i < |items|
      invariant 0 <= i <= |items|
      invariant ArchivesOf(repository, items[..i]) == Success(results)
    {
      assert items[..i + 1][..i] == items[..i];
      var name := EntryName(items[i]);
      if name.Failure? {
        assert ArchivesOf(repository, items[..i + 1]) == Failure(name.error);
        ArchivesOfFailureSticks(repository, items, i + 1);
        return Failure(name.error);
      }
      results := results + [Archive(repository, name.value)];
      i := i + 1;
    }
    assert items[..i] == items;
    res := Success(results);
  }

  /** Once a prefix fails, the whole listing fails the same way. */
  lemma {:induction false} ArchivesOfFailureSticks(repository: Repository, entries: seq<Json>, n: nat)
    requires n <= |entries| && ArchivesOf(repository, entries[..n]).Failure?
    ensures ArchivesOf(repository, entries) == ArchivesOf(repository, entries[..n])
    decreases |entries| - n
  {
    if n < |entries| {
      assert entries[..n + 1][..n] == entries[..n];
      ArchivesOfFailureSticks(repository, entries, n + 1);
    } else {
      assert entries[..n] == entries;
    }
  }

  /** `exists`: true when the listing succeeds, false exactly when the
      listing command itself fails (`CommandNonZeroError`); any other error
      of the listing is raised unchanged. */
  method Exists(repository: Repository, runner: Runner, loads: JsonLoads) returns (res: Result<bool, Error>)
    ensures res == Success(false) <==> runner(ListSpawn(repository)).rc != 0
    ensures res == Success(true) <==> ListedArchives(repository, runner, loads).Success?
    ensures res.Failure? ==> res == Failure(ListedArchives(repository, runner, loads).error)
                             && !res.error.CommandNonZero?
  {
    var listed := ListArchives(repository, runner, loads);
    ListingErrors(repository, runner, loads);
    match listed
    case Success(_) => res := Success(true);
    case Failure(CommandNonZero(_, _, _, _)) => res := Success(false);
    case Failure(e) => res := Failure(e);
  }

  /** An entry whose name is not a string still gives an archive, so the
      repository exists; the name fails only once `Archive.Name` concatenates it. */
  lemma NonStringNameListed(repository: Repository, runner: Runner, loads: JsonLoads)
    requires runner(ListSpawn(repository)).rc == 0
    requires loads(runner(ListSpawn(repository)).stdout)
             == Some(JObject(map["archives" := JArray([JObject(map["name" := JNumber(5)])])]))
    ensures ListedArchives(repository, runner, loads) == Success([Archive(repository, JNumber(5))])
    ensures Archive(repository, JNumber(5)).Name() == Failure(TypeError)
  {
    var entries := [JObject(map["name" := JNumber(5)])];
    var listing := JObject(map["archives" := JArray(entries)]);
    assert InvokeJson(runner, loads, ListSpawn(repository)) == Success(listing);
    assert Lookup(listing, "archives") == Success(JArray(entries));
    assert EntryName(entries[0]) == Success(JNumber(5));
    ArchivesOfEntries(repository, entries);
    var archives := ArchivesOf(repository, entries).value;
    assert archives == [Archive(repository, JNumber(5))];
  }

  /** Only the command itself raises `CommandNonZeroError`; reading its output cannot. */
  lemma ListingErrors(repository: Repository, runner: Runner, loads: JsonLoads)
    ensures var r := ListedArchives(repository, runner, loads);
      r.Failure? && r.error.CommandNonZero? <==> runner(ListSpawn(repository)).rc != 0
  {
    match InvokeJson(runner, loads, ListSpawn(repository))
    case Failure(e) => {}
    case Success(listing) => {
      match Lookup(listing, "archives")
      case Failure(e) => {}
      case Success(value) => {
        match Entries(value)
        case Failure(e) => {}
        case Success(entries) => {
          ArchivesOfEntries(repository, entries);
        }
      }
    }
  }
}
