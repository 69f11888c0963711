/**
 * Which package manager runs the project's dev script (`getPackageManager`)
 * and the command line that runs it (`getDevCommand`).
 *
 * The working directory is modelled as the set of file names present in it.
 */
module PackageManager {
  import opened Wrappers

  /** The lock files looked for, in priority order, each with the manager it identifies. */
  const LockFiles: seq<(string, string)> := [
    ("pnpm-lock.yaml", "pnpm"),
    ("yarn.lock", "yarn"),
    ("package-lock.json", "npm")
  ]

  /** The manager used when no lock file is present. */
  const DefaultManager: string := "npm"

  /** The manager of the first entry whose lock file is present, if any. */
  function FirstPresent(entries: seq<(string, string)>, files: set<string>): (r: Option<string>)
    ensures r.None? ==> forall k :: 0 <= k < |entries| ==> entries[k].0 !in files
    ensures r.Some? ==>
      exists k :: 0 <= k < |entries| && entries[k].0 in files && entries[k].1 == r.value
        && forall j :: 0 <= j < k ==> entries[j].0 !in files
  {
    if entries == [] then None
    else if entries[0].0 in files then Some(entries[0].1)
    else
      var r := FirstPresent(entries[1..], files);
      if r.Some? then
        var k :| 0 <= k < |entries[1..]| && entries[1..][k].0 in files && entries[1..][k].1 == r.value
          && forall j :: 0 <= j < k ==> entries[1..][j].0 !in files;
        assert entries[k + 1] == entries[1..][k];
        assert forall j :: 0 <= j < k + 1 ==> entries[j].0 !in files by {
          forall j | 0 <= j < k + 1 ensures entries[j].0 !in files {
            if j > 0 { assert entries[j] == entries[1..][j - 1]; }
          }
        }
        r
      else
        assert forall k :: 1 <= k < |entries| ==> entries[k] == entries[1..][k - 1];
        r
  }

  /** The manager `getPackageManager` settles on for the files present. */
  function PackageManagerOf(files: set<string>): (pm: string)
    ensures pm in {"pnpm", "yarn", "npm"}
    ensures pm == DefaultManager || exists e :: e in LockFiles && e.0 in files && e.1 == pm
  {
    FirstPresent(LockFiles, files).GetOr(DefaultManager)
  }

  /**
   * `getPackageManager`: walks the lock-file entries in order and returns the
   * manager of the first one present, or the default when none is.
   */
  method GetPackageManager(files: set<string>) returns (pm: string)
    ensures pm == PackageManagerOf(files)
  {
    var i := 0;
    while i < |LockFiles|
      invariant 0 <= i <= |LockFiles|
      invariant FirstPresent(LockFiles, files) == FirstPresent(LockFiles[i..], files)
    {
      var (file, manager) := LockFiles[i];
      if file in files {
        return manager;
      }
      assert LockFiles[i..][1..] == LockFiles[i + 1..];
      i := i + 1;
    }
    return DefaultManager;
  }

  /** Lock-file priority: pnpm beats yarn and npm, yarn beats npm, and npm is also the default. */
  lemma {:induction false} ManagerPriority(files: set<string>)
    ensures PackageManagerOf(files) == "pnpm" <==> "pnpm-lock.yaml" in files
    ensures PackageManagerOf(files) == "yarn" <==> "pnpm-lock.yaml" !in files && "yarn.lock" in files
    ensures PackageManagerOf(files) == "npm" <==> "pnpm-lock.yaml" !in files && "yarn.lock" !in files
  {
    var e := LockFiles;
    assert e[1..] == [("yarn.lock", "yarn"), ("package-lock.json", "npm")];
    assert e[1..][1..] == [("package-lock.json", "npm")];
    assert e[1..][1..][1..] == [];
    if "pnpm-lock.yaml" in files {
      assert FirstPresent(e, files) == Some("pnpm");
    } else if "yarn.lock" in files {
      assert FirstPresent(e, files) == FirstPresent(e[1..], files) == Some("yarn");
    } else if "package-lock.json" in files {
      assert FirstPresent(e[1..], files) == FirstPresent(e[1..][1..], files) == Some("npm");
    } else {
      assert FirstPresent(e[1..][1..], files) == FirstPresent(e[1..][1..][1..], files) == None;
    }
  }

  /** The command line for each manager name; any other name has none (`undefined`). */
  const DevCommands: map<string, string> := map[
    "pnpm" := "pnpm dev",
    "yarn" := "yarn dev",
    "npm" := "npm run dev"
  ]

  /**
   * `getDevCommand`: the command line that runs the dev script with the named
   * manager. It is defined on exactly the three managers, and each command
   * starts with the manager's own name and ends by naming the `dev` script.
   */
  function DevCommand(pm: string): (cmd: Option<string>)
    ensures cmd.Some? <==> pm in {"pnpm", "yarn", "npm"}
    ensures cmd.Some? ==>
      |pm| + 1 <= |cmd.value| - 3 && cmd.value[..|pm| + 1] == pm + " "
      && cmd.value[|cmd.value| - 3..] == "dev"
  {
    if pm in DevCommands then Some(DevCommands[pm]) else None
  }

  /**
   * Resolving the manager and then its command always yields a command, and
   * which of the three it is follows the lock-file priority.
   */
  lemma ResolvedDevCommand(files: set<string>)
    ensures DevCommand(PackageManagerOf(files)).Some?
    ensures DevCommand(PackageManagerOf(files)) == Some("pnpm dev") <==> "pnpm-lock.yaml" in files
    ensures DevCommand(PackageManagerOf(files)) == Some("yarn dev")
      <==> "pnpm-lock.yaml" !in files && "yarn.lock" in files
    ensures DevCommand(PackageManagerOf(files)) == Some("npm run dev")
      <==> "pnpm-lock.yaml" !in files && "yarn.lock" !in files
  {
    ManagerPriority(files);
  }
}
